/** The background fuzz queue (internal/service/background_fuzz.go): many producers, one worker, one mutex and one
    bounded channel. Every critical section and every channel operation is one step; any interleaving may happen. */
module FuzzQueue {
  import opened Prelude

  /** The zero time in the dedup map marks a live job. Clock readings are positive. */
  const LIVE: int := 0

  datatype Job = Job(id: string, key: string, trigger: string, certainty: real, events: nat, perturbations: nat)

  /** How an audit ended: with its trials and, per property, whether it is a conditional invariant, or with an error. */
  datatype Outcome = Ran(trials: nat, invariants: seq<bool>) | SnapshotChanged | TimedOut | Canceled | Broken

  datatype Verdict = Completed | Stale | Failed

  function VerdictOf(o: Outcome): Verdict {
    match o
    case Ran(_, _) => Completed
    case SnapshotChanged => Stale
    case _ => Failed
  }

  /** What the status reports of the last job. */
  datatype Summary = Summary(
    jobId: string, trigger: string, certainty: real, events: nat, perturbations: nat, completedAt: int,
    status: Verdict, error: string, trials: nat, properties: nat, invariants: nat)

  function ErrorText(o: Outcome): string {
    match o
    case Ran(_, _) => ""
    case SnapshotChanged => "snapshot changed before audit"
    case TimedOut => "background fuzz audit timed out"
    case Canceled => "background fuzz audit canceled"
    case Broken => "background fuzz audit failed"
  }

  function Summarised(job: Job, at: int, o: Outcome): Summary {
    Summary(job.id, job.trigger, job.certainty, job.events, job.perturbations, at, VerdictOf(o), ErrorText(o),
            if o.Ran? then o.trials else 0, if o.Ran? then |o.invariants| else 0,
            if o.Ran? then |set i | 0 <= i < |o.invariants| && o.invariants[i]| else 0)
  }

  /** The queue's mutable fields, as a value. */
  datatype Fields = Fields(dedup: map<string, int>, jobs: seq<Job>, running: nat,
                           enqueued: nat, completed: nat, failed: nat, stale: nat, dropped: nat, deduplicated: nat,
                           last: Option<Summary>)

  // ---- the critical sections and channel operations as functions ----

  predicate Expired(until: int, now: int) { until != LIVE && now >= until }

  function Purged(dedup: map<string, int>, now: int): map<string, int>
  {
    map k | k in dedup && !Expired(dedup[k], now) :: dedup[k]
  }

  /** First critical section of a call: purge, then reserve the key or count a duplicate. */
  function Reserve(q: Fields, now: int, job: Job): Fields
  {
    var kept := Purged(q.dedup, now);
    if job.key in kept then q.(dedup := kept, deduplicated := q.deduplicated + 1)
    else q.(dedup := kept[job.key := LIVE])
  }

  predicate Admits(q: Fields, now: int, job: Job) { job.key !in Purged(q.dedup, now) }

  /** Non-blocking send. */
  function TrySend(q: Fields, capacity: nat, job: Job): Fields
  {
    if |q.jobs| < capacity then q.(jobs := q.jobs + [job]) else q
  }

  function CountEnqueued(q: Fields): Fields { q.(enqueued := q.enqueued + 1) }

  function RollBack(q: Fields, job: Job): Fields
  {
    q.(dedup := q.dedup - {job.key}, dropped := q.dropped + 1)
  }

  function Finish(q: Fields, job: Job, at: int, cooldown: int, o: Outcome): Fields
  {
    var r := q.(running := 0, last := Some(Summarised(job, at, o)), dedup := q.dedup[job.key := at + cooldown]);
    match VerdictOf(o)
    case Completed => r.(completed := r.completed + 1)
    case Stale => r.(stale := r.stale + 1)
    case Failed => r.(failed := r.failed + 1)
  }

  // ---- the queue object ----

  class BackgroundFuzzQueue {
    const capacity: nat
    const cooldown: int
    var dedup: map<string, int>
    var jobs: seq<Job>
    var running: nat
    var enqueuedTotal: nat
    var completedTotal: nat
    var failedTotal: nat
    var staleTotal: nat
    var droppedTotal: nat
    var deduplicatedTotal: nat
    var lastResult: Option<Summary>

    ghost function Value(): Fields
      reads this
    {
      Fields(dedup, jobs, running, enqueuedTotal, completedTotal, failedTotal, staleTotal, droppedTotal, deduplicatedTotal,
             lastResult)
    }

    constructor (capacity: nat, cooldown: int)
      ensures this.capacity == capacity && this.cooldown == cooldown
      ensures Value() == Fields(map[], [], 0, 0, 0, 0, 0, 0, 0, None)
    {
      this.capacity, this.cooldown := capacity, cooldown;
      dedup, jobs, running := map[], [], 0;
      enqueuedTotal, completedTotal, failedTotal := 0, 0, 0;
      staleTotal, droppedTotal, deduplicatedTotal := 0, 0, 0;
      lastResult := None;
    }

    /** Under the lock: drop expired entries, then admit or deduplicate. */
    method ReserveKey(now: int, job: Job) returns (admitted: bool)
      modifies this
      ensures Value() == Reserve(old(Value()), now, job)
      ensures admitted <==> Admits(old(Value()), now, job)
    {
      ghost var before := dedup;
      var keys := dedup.Keys;
      while keys != {}
        invariant keys <= before.Keys
        invariant dedup == map k | k in before && (k in keys || !Expired(before[k], now)) :: before[k]
        invariant Value() == old(Value()).(dedup := dedup)
        decreases keys
      {
        var key :| key in keys;
        if Expired(dedup[key], now) { dedup := dedup - {key}; }
        keys := keys - {key};
      }
      assert dedup == Purged(before, now);
      if job.key in dedup {
        deduplicatedTotal := deduplicatedTotal + 1;
        return false;
      }
      dedup := dedup[job.key := LIVE];
      admitted := true;
    }

    method Send(job: Job) returns (sent: bool)
      modifies this
      ensures Value() == TrySend(old(Value()), capacity, job)
      ensures sent <==> |old(jobs)| < capacity
    {
      sent := |jobs| < capacity;
      if sent { jobs := jobs + [job]; }
    }

    /** A call that nobody interleaves with: it is accepted exactly when the key is neither live nor cooling down
        and the channel has room, and it leaves no trace of a dropped job but the counter. */
    method Enqueue(now: int, job: Job) returns (accepted: bool)
      modifies this
      ensures accepted <==> Admits(old(Value()), now, job) && |old(jobs)| < capacity
      ensures var kept := Purged(old(dedup), now);
        Value() == if accepted then
                     old(Value()).(dedup := kept[job.key := LIVE], jobs := old(jobs) + [job], enqueued := old(enqueuedTotal) + 1)
                   else if job.key in kept then
                     old(Value()).(dedup := kept, deduplicated := old(deduplicatedTotal) + 1)
                   else old(Value()).(dedup := kept, dropped := old(droppedTotal) + 1)
    {
      var admitted := ReserveKey(now, job);
      if !admitted { return false; }
      var sent := Send(job);
      if sent { CountSent(); } else { ReleaseKey(job); }
      accepted := sent;
    }

    method CountSent()
      modifies this
      ensures Value() == CountEnqueued(old(Value()))
    {
      enqueuedTotal := enqueuedTotal + 1;
    }

    method ReleaseKey(job: Job)
      modifies this
      ensures Value() == RollBack(old(Value()), job)
    {
      dedup := dedup - {job.key};
      droppedTotal := droppedTotal + 1;
    }

    /** The worker's non-blocking receive. */
    method Receive() returns (job: Option<Job>)
      modifies this
      ensures old(jobs) == [] ==> job.None? && Value() == old(Value())
      ensures old(jobs) != [] ==> job == Some(old(jobs)[0]) && Value() == old(Value()).(jobs := old(jobs)[1..])
    {
      if jobs == [] { return None; }
      job := Some(jobs[0]);
      jobs := jobs[1..];
    }

    method MarkRunning()
      modifies this
      ensures Value() == old(Value()).(running := 1)
    {
      running := 1;
    }

    method Complete(job: Job, at: int, o: Outcome)
      modifies this
      ensures Value() == Finish(old(Value()), job, at, cooldown, o)
    {
      var result := Summary(job.id, job.trigger, job.certainty, job.events, job.perturbations, at,
                            VerdictOf(o), ErrorText(o), 0, 0, 0);
      if o.Ran? {
        var invariants := CountInvariants(o.invariants);
        result := result.(trials := o.trials, properties := |o.invariants|, invariants := invariants);
      }
      running := 0;
      lastResult := Some(result);
      dedup := dedup[job.key := at + cooldown];
      match VerdictOf(o)
      case Completed => completedTotal := completedTotal + 1;
      case Stale => staleTotal := staleTotal + 1;
      case Failed => failedTotal := failedTotal + 1;
    }
  }

  method CountInvariants(properties: seq<bool>) returns (count: nat)
    ensures count == |set i | 0 <= i < |properties| && properties[i]|
  {
    count := 0;
    ghost var counted: set<int> := {};
    for i := 0 to |properties|
      invariant counted == (set k | 0 <= k < i && properties[k]) && count == |counted|
    {
      if properties[i] {
        count := count + 1;
        counted := counted + {i};
      }
    }
    assert counted == set i | 0 <= i < |properties| && properties[i];
  }

  // ---- the concurrent system ----

  /** Where one `Enqueue` call stands. */
  datatype Call =
    | Reserved(job: Job)      // holds the key, has not tried to send
    | Refused(job: Job)       // the channel was full, the key is still held
    | Sent(job: Job)          // delivered, not yet counted
    | CountedEnqueued
    | CountedDropped
    | CountedDuplicate

  datatype Worker = Idle | Holding(job: Job) | Running(job: Job) | Stopped

  datatype System = System(q: Fields, calls: seq<Call>, worker: Worker, capacity: nat, cooldown: int)

  datatype Step =
    | StartCall(now: int, job: Job)
    | SendStep(i: nat)
    | CountStep(i: nat)
    | RollBackStep(i: nat)
    | ReceiveStep
    | BeginStep
    | FinishStep(at: int, o: Outcome)
    | StopStep

  predicate Enabled(s: System, e: Step)
  {
    match e
    case StartCall(now, job) => now > 0
    case SendStep(i) => i < |s.calls| && s.calls[i].Reserved?
    case CountStep(i) => i < |s.calls| && s.calls[i].Sent?
    case RollBackStep(i) => i < |s.calls| && s.calls[i].Refused?
    case ReceiveStep => s.worker.Idle? && s.q.jobs != []
    case BeginStep => s.worker.Holding?
    case FinishStep(at, o) => s.worker.Running? && at > 0
    case StopStep => s.worker.Idle?
  }

  function Next(s: System, e: Step): System
    requires Enabled(s, e)
  {
    match e
    case StartCall(now, job) =>
      s.(q := Reserve(s.q, now, job), calls := s.calls + [if Admits(s.q, now, job) then Reserved(job) else CountedDuplicate])
    case SendStep(i) =>
      var job := s.calls[i].job;
      s.(q := TrySend(s.q, s.capacity, job), calls := s.calls[i := if |s.q.jobs| < s.capacity then Sent(job) else Refused(job)])
    case CountStep(i) => s.(q := CountEnqueued(s.q), calls := s.calls[i := CountedEnqueued])
    case RollBackStep(i) => s.(q := RollBack(s.q, s.calls[i].job), calls := s.calls[i := CountedDropped])
    case ReceiveStep => s.(q := s.q.(jobs := s.q.jobs[1..]), worker := Holding(s.q.jobs[0]))
    case BeginStep => s.(q := s.q.(running := 1), worker := Running(s.worker.job))
    case FinishStep(at, o) => s.(q := Finish(s.q, s.worker.job, at, s.cooldown, o), worker := Idle)
    case StopStep => s.(worker := Stopped)
  }

  ghost predicate Initial(s: System)
  {
    s.q == Fields(map[], [], 0, 0, 0, 0, 0, 0, 0, None) && s.calls == [] && s.worker == Idle && s.cooldown >= 0
  }

  ghost predicate Legal(s: System, es: seq<Step>)
    decreases |es|
  {
    es == [] || (Enabled(s, es[0]) && Legal(Next(s, es[0]), es[1..]))
  }

  ghost function After(s: System, es: seq<Step>): System
    requires Legal(s, es)
    decreases |es|
  {
    if es == [] then s else After(Next(s, es[0]), es[1..])
  }

  // ---- counting ----

  ghost function Tally<T(!new)>(xs: seq<T>, p: T -> bool): nat
  {
    if xs == [] then 0 else (if p(xs[0]) then 1 else 0) + Tally(xs[1..], p)
  }

  function Bit(b: bool): nat { if b then 1 else 0 }

  lemma {:induction false} TallyAppend<T(!new)>(xs: seq<T>, x: T, p: T -> bool)
    ensures Tally(xs + [x], p) == Tally(xs, p) + Bit(p(x))
  {
    if xs == [] {
      assert [x][1..] == [];
    } else {
      TallyAppend(xs[1..], x, p);
      assert (xs + [x])[1..] == xs[1..] + [x];
    }
  }

  lemma {:induction false} TallyUpdate<T(!new)>(xs: seq<T>, i: nat, x: T, p: T -> bool)
    requires i < |xs|
    ensures Tally(xs[i := x], p) + Bit(p(xs[i])) == Tally(xs, p) + Bit(p(x))
  {
    if i > 0 {
      TallyUpdate(xs[1..], i - 1, x, p);
      assert xs[i := x][1..] == xs[1..][i - 1 := x];
    } else {
      assert xs[i := x][1..] == xs[1..];
    }
  }

  // ---- the invariant ----

  ghost predicate Reserves(c: Call, key: string) { (c.Reserved? || c.Refused?) && c.job.key == key }

  ghost predicate Holds(w: Worker, key: string) { (w.Holding? || w.Running?) && w.job.key == key }

  /** Live jobs of a key: reserved by a producer, waiting in the channel, or with the worker. */
  ghost function LiveJobs(s: System, key: string): nat
  {
    Tally(s.calls, (c: Call) => Reserves(c, key)) + Tally(s.q.jobs, (j: Job) => j.key == key) + Bit(Holds(s.worker, key))
  }

  /** A key has exactly one live job when its dedup entry is the zero time, and none otherwise. */
  ghost predicate KeysOwned(s: System) { forall key: string :: Owned(s, key) }

  ghost predicate Owned(s: System, key: string) { LiveJobs(s, key) == Bit(key in s.q.dedup && s.q.dedup[key] == LIVE) }

  /** The counters account for every call and every job. */
  ghost predicate Accounted(s: System)
  {
    && s.q.enqueued == Tally(s.calls, (c: Call) => c.CountedEnqueued?)
    && s.q.dropped == Tally(s.calls, (c: Call) => c.CountedDropped?)
    && s.q.deduplicated == Tally(s.calls, (c: Call) => c.CountedDuplicate?)
    && s.q.enqueued + Tally(s.calls, (c: Call) => c.Sent?)
       == s.q.completed + s.q.failed + s.q.stale + |s.q.jobs| + Bit(s.worker.Holding? || s.worker.Running?)
    && |s.q.jobs| <= s.capacity
    && s.q.running == Bit(s.worker.Running?)
  }

  /** There is a last result once a job is done. */
  predicate Reported(s: System) { s.q.last.Some? <==> s.q.completed + s.q.failed + s.q.stale > 0 }

  ghost predicate Invariant(s: System) { KeysOwned(s) && Accounted(s) && Reported(s) && s.cooldown >= 0 }

  lemma OwnedStep(s: System, e: Step, key: string)
    requires Invariant(s) && Enabled(s, e)
    ensures Owned(Next(s, e), key)
  {
    hide Next, Enabled, Accounted, Owned, LiveJobs;
    KeyOwned(s, key);
    match e
    case StartCall(_, _) => StartOwned(s, e, key);
    case SendStep(_) => SendOwned(s, e, key);
    case CountStep(_) => CountOwned(s, e, key);
    case RollBackStep(_) => RollBackOwned(s, e, key);
    case ReceiveStep => WorkerOwned(s, e, key);
    case BeginStep => WorkerOwned(s, e, key);
    case FinishStep(_, _) => WorkerOwned(s, e, key);
    case StopStep => WorkerOwned(s, e, key);
  }

  lemma KeyOwned(s: System, key: string)
    requires Invariant(s)
    ensures Owned(s, key) && s.cooldown >= 0
  {
    assert Owned(s, key);
  }

  lemma StartOwned(s: System, e: Step, key: string)
    requires Enabled(s, e) && e.StartCall? && Owned(s, key)
    ensures Owned(Next(s, e), key)
  {
    TallyAppend(s.calls, if Admits(s.q, e.now, e.job) then Reserved(e.job) else CountedDuplicate, (c: Call) => Reserves(c, key));
  }

  lemma CountOwned(s: System, e: Step, key: string)
    requires Enabled(s, e) && e.CountStep? && Owned(s, key)
    ensures Owned(Next(s, e), key)
  {
    TallyUpdate(s.calls, e.i, CountedEnqueued, (c: Call) => Reserves(c, key));
  }

  lemma RollBackOwned(s: System, e: Step, key: string)
    requires Enabled(s, e) && e.RollBackStep? && Owned(s, key)
    ensures Owned(Next(s, e), key)
  {
    TallyUpdate(s.calls, e.i, CountedDropped, (c: Call) => Reserves(c, key));
    assert Reserves(s.calls[e.i], s.calls[e.i].job.key);
  }

  lemma WorkerOwned(s: System, e: Step, key: string)
    requires Enabled(s, e) && Owned(s, key) && s.cooldown >= 0 && (e.ReceiveStep? || e.BeginStep? || e.FinishStep? || e.StopStep?)
    ensures Owned(Next(s, e), key)
  {
  }

  lemma SendOwned(s: System, e: Step, key: string)
    requires Enabled(s, e) && e.SendStep? && Owned(s, key)
    ensures Owned(Next(s, e), key)
  {
    SendMoves(s, e.i, key);
    hide LiveJobs;
  }

  /** A send moves the live job from the producer into the channel, or leaves it with the producer. */
  lemma SendMoves(s: System, i: nat, key: string)
    requires Enabled(s, SendStep(i))
    ensures LiveJobs(Next(s, SendStep(i)), key) == LiveJobs(s, key)
  {
    TallyUpdate(s.calls, i, if |s.q.jobs| < s.capacity then Sent(s.calls[i].job) else Refused(s.calls[i].job),
                (c: Call) => Reserves(c, key));
    TallyAppend(s.q.jobs, s.calls[i].job, (j: Job) => j.key == key);
  }

  lemma AccountedStep(s: System, e: Step)
    requires Invariant(s) && Enabled(s, e)
    ensures Accounted(Next(s, e))
  {
    hide Reported, KeysOwned, Summarised, VerdictOf, Purged;
    var enqueued, dropped := (c: Call) => c.CountedEnqueued?, (c: Call) => c.CountedDropped?;
    var duplicate, sent := (c: Call) => c.CountedDuplicate?, (c: Call) => c.Sent?;
    match e
    case StartCall(now, job) =>
      var c := if Admits(s.q, now, job) then Reserved(job) else CountedDuplicate;
      TallyAppend(s.calls, c, enqueued); TallyAppend(s.calls, c, dropped);
      TallyAppend(s.calls, c, duplicate); TallyAppend(s.calls, c, sent);
    case SendStep(i) =>
      UpdateAll(s.calls, i, if |s.q.jobs| < s.capacity then Sent(s.calls[i].job) else Refused(s.calls[i].job));
    case CountStep(i) => UpdateAll(s.calls, i, CountedEnqueued);
    case RollBackStep(i) => UpdateAll(s.calls, i, CountedDropped);
    case ReceiveStep =>
    case BeginStep =>
    case FinishStep(at, o) =>
    case StopStep =>
  }

  lemma ReportedStep(s: System, e: Step)
    requires Reported(s) && Enabled(s, e)
    ensures Reported(Next(s, e))
  {
  }

  lemma UpdateAll(calls: seq<Call>, i: nat, c: Call)
    requires i < |calls|
    ensures Tally(calls[i := c], (c: Call) => c.CountedEnqueued?) + Bit(calls[i].CountedEnqueued?)
         == Tally(calls, (c: Call) => c.CountedEnqueued?) + Bit(c.CountedEnqueued?)
    ensures Tally(calls[i := c], (c: Call) => c.CountedDropped?) + Bit(calls[i].CountedDropped?)
         == Tally(calls, (c: Call) => c.CountedDropped?) + Bit(c.CountedDropped?)
    ensures Tally(calls[i := c], (c: Call) => c.CountedDuplicate?) + Bit(calls[i].CountedDuplicate?)
         == Tally(calls, (c: Call) => c.CountedDuplicate?) + Bit(c.CountedDuplicate?)
    ensures Tally(calls[i := c], (c: Call) => c.Sent?) + Bit(calls[i].Sent?)
         == Tally(calls, (c: Call) => c.Sent?) + Bit(c.Sent?)
  {
    TallyUpdate(calls, i, c, (c: Call) => c.CountedEnqueued?);
    TallyUpdate(calls, i, c, (c: Call) => c.CountedDropped?);
    TallyUpdate(calls, i, c, (c: Call) => c.CountedDuplicate?);
    TallyUpdate(calls, i, c, (c: Call) => c.Sent?);
  }

  lemma InvariantStep(s: System, e: Step)
    requires Invariant(s) && Enabled(s, e)
    ensures Invariant(Next(s, e))
  {
    forall key: string ensures Owned(Next(s, e), key) { OwnedStep(s, e, key); }
    AccountedStep(s, e);
    ReportedStep(s, e);
  }

  /** MAIN RESULT. The invariant holds after every finite interleaving. */
  lemma {:induction false} InvariantAlways(s: System, es: seq<Step>)
    requires Invariant(s) && Legal(s, es)
    ensures Invariant(After(s, es))
    decreases |es|
  {
    if es != [] {
      InvariantStep(s, es[0]);
      InvariantAlways(Next(s, es[0]), es[1..]);
    }
  }

  lemma InitialInvariant(s: System)
    requires Initial(s)
    ensures Invariant(s)
  {
  }

  /** What the invariant says to an observer of `Status`, in every reachable state. */
  lemma ReachableStatus(s: System, es: seq<Step>, key: string)
    requires Initial(s) && Legal(s, es)
    ensures var t := After(s, es);
      && LiveJobs(t, key) <= 1
      && (LiveJobs(t, key) == 1 <==> key in t.q.dedup && t.q.dedup[key] == LIVE)
      && |t.q.jobs| <= t.capacity && (t.q.last.Some? <==> t.q.completed + t.q.failed + t.q.stale > 0)
      && t.q.enqueued + Tally(t.calls, (c: Call) => c.Sent?)
         == t.q.completed + t.q.failed + t.q.stale + |t.q.jobs| + Bit(t.worker.Holding? || t.worker.Running?)
  {
    InitialInvariant(s);
    InvariantAlways(s, es);
    var t := After(s, es);
    assert Owned(t, key);
  }

  ghost predicate InFlight(c: Call) { c.Reserved? || c.Refused? || c.Sent? }

  lemma {:induction false} CallsPartition(calls: seq<Call>)
    ensures |calls| == Tally(calls, (c: Call) => c.CountedEnqueued?) + Tally(calls, (c: Call) => c.CountedDropped?)
                     + Tally(calls, (c: Call) => c.CountedDuplicate?) + Tally(calls, (c: Call) => InFlight(c))
  {
    if calls != [] { CallsPartition(calls[1..]); }
  }

  /** Every call is counted exactly once: at all times the three counters and the calls in flight add up to the
      calls made. */
  lemma EveryCallCountedOnce(s: System, es: seq<Step>)
    requires Initial(s) && Legal(s, es)
    ensures var t := After(s, es);
      |t.calls| == t.q.enqueued + t.q.dropped + t.q.deduplicated + Tally(t.calls, (c: Call) => InFlight(c))
  {
    InitialInvariant(s);
    InvariantAlways(s, es);
    CallsPartition(After(s, es).calls);
  }

  // ---- cooldown ----

  /** No call read a clock at or after `until`. */
  ghost predicate NoClockReaches(es: seq<Step>, until: int)
  {
    forall i :: 0 <= i < |es| ==> es[i].StartCall? ==> es[i].now < until
  }

  ghost predicate CoolingDown(s: System, key: string, until: int)
  {
    key in s.q.dedup && s.q.dedup[key] == until && until != LIVE
  }

  /** One step cannot end a cooldown unless its clock reading reaches it: not a purge, not a rollback and not the
      completion of another job. */
  lemma CooldownStep(s: System, e: Step, key: string, until: int)
    requires Invariant(s) && Enabled(s, e) && CoolingDown(s, key, until)
    requires e.StartCall? ==> e.now < until
    ensures CoolingDown(Next(s, e), key, until)
    ensures e.StartCall? && e.job.key == key ==> !Admits(s.q, e.now, e.job)
  {
    assert Owned(s, key) && LiveJobs(s, key) == 0;
    var mine := (c: Call) => Reserves(c, key);
    match e
    case RollBackStep(i) => TallyUpdate(s.calls, i, CountedDropped, mine);
    case FinishStep(at, o) =>
    case StartCall(now, job) =>
    case SendStep(i) =>
    case CountStep(i) =>
    case ReceiveStep =>
    case BeginStep =>
    case StopStep =>
  }

  lemma {:induction false} CooldownPersists(s: System, es: seq<Step>, key: string, until: int)
    requires Invariant(s) && Legal(s, es) && CoolingDown(s, key, until) && NoClockReaches(es, until)
    ensures Invariant(After(s, es)) && CoolingDown(After(s, es), key, until)
    decreases |es|
  {
    if es != [] {
      CooldownStep(s, es[0], key, until);
      InvariantStep(s, es[0]);
      assert forall i :: 0 <= i < |es[1..]| ==> es[1..][i] == es[i + 1];
      CooldownPersists(Next(s, es[0]), es[1..], key, until);
    }
  }

  /** RE-ADMISSION. After a job of a key finishes at `at`, however the producers and the worker interleave, the key is
      admitted again only if some call - that one or an earlier one - read a clock of at least `at + cooldown`. */
  lemma ReadmissionNeedsCooldown(s: System, at: int, o: Outcome, es: seq<Step>, now: int, job: Job)
    requires Invariant(s) && Enabled(s, FinishStep(at, o)) && job.key == s.worker.job.key
    requires Legal(Next(s, FinishStep(at, o)), es) && now > 0
    requires Admits(After(Next(s, FinishStep(at, o)), es).q, now, job)
    ensures now >= at + s.cooldown || !NoClockReaches(es, at + s.cooldown)
  {
    InvariantStep(s, FinishStep(at, o));
    if NoClockReaches(es, at + s.cooldown) {
      CooldownPersists(Next(s, FinishStep(at, o)), es, job.key, at + s.cooldown);
    }
  }

  // ---- and when it ends ----

  /** The entries a call keeps are those of live jobs and those whose time has not come. */
  lemma PurgedIs(dedup: map<string, int>, now: int, key: string)
    ensures key in Purged(dedup, now) <==> key in dedup && (dedup[key] == 0 || now < dedup[key])
    ensures key in Purged(dedup, now) ==> Purged(dedup, now)[key] == dedup[key]
  {
  }

  /** A call is admitted if and only if its key has no entry, or that of a finished job whose time has come. */
  lemma AdmittedIff(q: Fields, now: int, job: Job)
    ensures Admits(q, now, job) <==> job.key !in q.dedup || (q.dedup[job.key] != 0 && q.dedup[job.key] <= now)
  {
    PurgedIs(q.dedup, now, job.key);
  }

  ghost predicate Finishes(s: System, e: Step, key: string) {
    e.FinishStep? && s.worker.Running? && s.worker.job.key == key
  }

  /** The `i`-th step completes a job of the key. */
  ghost predicate FinishedAt(s: System, es: seq<Step>, i: nat, key: string)
    requires Legal(s, es) && i < |es|
    decreases |es|
  {
    if i == 0 then Finishes(s, es[0], key) else FinishedAt(Next(s, es[0]), es[1..], i - 1, key)
  }

  /** The key has been cooling down ever since the `i`-th step: no later completion of it, and no call that read the end
      of its cooldown. */
  ghost predicate CoolsSince(s: System, es: seq<Step>, i: nat, key: string)
    requires Legal(s, es)
  {
    && i < |es| && FinishedAt(s, es, i, key) && es[i].FinishStep?
    && UndisturbedFrom(s, es, i + 1, key, es[i].at + s.cooldown)
  }

  ghost predicate UndisturbedFrom(s: System, es: seq<Step>, n: nat, key: string, until: int)
    requires Legal(s, es)
  {
    forall k :: n <= k < |es| ==> Undisturbed(s, es, k, key, until)
  }

  ghost predicate Undisturbed(s: System, es: seq<Step>, k: nat, key: string, until: int)
    requires Legal(s, es) && k < |es|
  {
    !FinishedAt(s, es, k, key) && (es[k].StartCall? ==> es[k].now < until)
  }

  ghost predicate Lasts(s: System, es: seq<Step>, key: string, until: int)
    requires Legal(s, es)
  {
    CoolingDown(s, key, until) && UndisturbedFrom(s, es, 0, key, until)
  }

  lemma EntryStep(s: System, e: Step, key: string, until: int)
    requires Invariant(s) && Enabled(s, e)
    ensures CoolingDown(Next(s, e), key, until)
       <==> || (Finishes(s, e, key) && until == e.at + s.cooldown)
            || (CoolingDown(s, key, until) && !Finishes(s, e, key) && (e.StartCall? ==> e.now < until))
  {
    assert Owned(s, key);
    if CoolingDown(s, key, until) && (e.StartCall? ==> e.now < until) { CooldownStep(s, e, key, until); }
    if e.StartCall? { PurgedIs(s.q.dedup, e.now, key); }
    hide Purged, Accounted, Reported;
  }

  /** An entry of the dedup map is that of the last completion, since which nobody read the end of its cooldown, or the
      one there was at the start. */
  lemma {:induction false} EntryIs(s: System, es: seq<Step>, key: string, until: int)
    requires Invariant(s) && Legal(s, es)
    ensures CoolingDown(After(s, es), key, until)
       <==> Lasts(s, es, key, until) || exists i: nat :: CoolsSince(s, es, i, key) && until == es[i].at + s.cooldown
    decreases |es|
  {
    hide Invariant, CoolingDown, Next, Enabled, Finishes;
    if es != [] {
      var t, rest := Next(s, es[0]), es[1..];
      StepFacts(s, es[0]);
      EntryIs(t, rest, key, until);
      EntryStep(s, es[0], key, until);
      ShiftedLasts(s, es, key, until);
      forall i: nat ensures CoolsSince(t, rest, i, key) <==> CoolsSince(s, es, i + 1, key) { ShiftedCools(s, es, i, key); }
      if exists i: nat :: CoolsSince(t, rest, i, key) && until == rest[i].at + t.cooldown {
        var i: nat :| CoolsSince(t, rest, i, key) && until == rest[i].at + t.cooldown;
        assert CoolsSince(s, es, i + 1, key) && es[i + 1] == rest[i];
      }
      if exists i: nat :: CoolsSince(s, es, i, key) && until == es[i].at + s.cooldown {
        var i: nat :| CoolsSince(s, es, i, key) && until == es[i].at + s.cooldown;
        if i > 0 { assert CoolsSince(t, rest, i - 1, key) && es[i] == rest[i - 1]; }
      }
    }
  }

  lemma StepFacts(s: System, e: Step)
    requires Invariant(s) && Enabled(s, e)
    ensures Invariant(Next(s, e)) && Next(s, e).cooldown == s.cooldown
  {
    InvariantStep(s, e);
  }

  /** What lasts through a run, in terms of its first step and the rest; and when the first step starts a cooldown. */
  lemma ShiftedLasts(s: System, es: seq<Step>, key: string, until: int)
    requires Legal(s, es) && es != [] && Next(s, es[0]).cooldown == s.cooldown
    ensures Legal(Next(s, es[0]), es[1..])
    ensures Lasts(s, es, key, until)
       <==> CoolingDown(s, key, until) && Undisturbed(s, es, 0, key, until)
            && UndisturbedFrom(Next(s, es[0]), es[1..], 0, key, until)
    ensures CoolsSince(s, es, 0, key)
       <==> Finishes(s, es[0], key) && UndisturbedFrom(Next(s, es[0]), es[1..], 0, key, es[0].at + s.cooldown)
  {
    hide Next, Enabled, Finishes, CoolingDown;
    var t, rest := Next(s, es[0]), es[1..];
    forall k, u | 0 <= k < |rest| ensures Undisturbed(t, rest, k, key, u) <==> Undisturbed(s, es, k + 1, key, u) {
      assert es[k + 1] == rest[k];
    }
    if forall k :: 0 <= k < |rest| ==> Undisturbed(t, rest, k, key, until) {
      forall k | 0 < k < |es| ensures Undisturbed(s, es, k, key, until) { assert Undisturbed(t, rest, k - 1, key, until); }
    }
    if Finishes(s, es[0], key) {
      FinishIs(s, es[0], key);
      var u := es[0].at + s.cooldown;
      if forall k :: 0 <= k < |rest| ==> Undisturbed(t, rest, k, key, u) {
        forall k | 0 < k < |es| ensures Undisturbed(s, es, k, key, u) { assert Undisturbed(t, rest, k - 1, key, u); }
      }
    }
  }

  lemma FinishIs(s: System, e: Step, key: string)
    requires Finishes(s, e, key)
    ensures e.FinishStep?
  {
  }

  lemma ShiftedCools(s: System, es: seq<Step>, i: nat, key: string)
    requires Legal(s, es) && es != [] && Next(s, es[0]).cooldown == s.cooldown
    ensures Legal(Next(s, es[0]), es[1..])
    ensures CoolsSince(Next(s, es[0]), es[1..], i, key) <==> CoolsSince(s, es, i + 1, key)
  {
    hide Next, Enabled, Finishes;
    var t, rest := Next(s, es[0]), es[1..];
    if i < |rest| && es[i + 1].FinishStep? {
      assert es[i + 1] == rest[i];
      var u := es[i + 1].at + s.cooldown;
      forall k | i < k < |rest| ensures Undisturbed(t, rest, k, key, u) <==> Undisturbed(s, es, k + 1, key, u) {
        assert es[k + 1] == rest[k];
      }
      if forall k :: i < k < |rest| ==> Undisturbed(t, rest, k, key, u) {
        forall k | i + 1 < k < |es| ensures Undisturbed(s, es, k, key, u) { assert Undisturbed(t, rest, k - 1, key, u); }
      }
    }
  }

  /** THE COOLDOWN ENDS. In every reachable state a call is admitted if and only if its key has no live job and the reading
      has reached the end of the cooldown of the key's last completion, where no call since has. */
  lemma AdmissionIff(s: System, es: seq<Step>, now: int, job: Job)
    requires Initial(s) && Legal(s, es)
    ensures Admits(After(s, es).q, now, job)
       <==> LiveJobs(After(s, es), job.key) == 0
            && forall i: nat :: CoolsSince(s, es, i, job.key) ==> es[i].at + s.cooldown <= now
  {
    hide LiveJobs, Accounted, Lasts, Purged, UndisturbedFrom, FinishedAt;
    var t := After(s, es);
    InitialInvariant(s);
    InvariantAlways(s, es);
    assert Owned(t, job.key);
    AdmittedIff(t.q, now, job);
    forall u ensures CoolingDown(t, job.key, u) <==> exists i: nat :: CoolsSince(s, es, i, job.key) && u == es[i].at + s.cooldown {
      EntryIs(s, es, job.key, u);
      NothingLasts(s, es, job.key, u);
    }
    if forall i: nat :: CoolsSince(s, es, i, job.key) ==> es[i].at + s.cooldown <= now {
      if job.key in t.q.dedup && t.q.dedup[job.key] != LIVE { assert CoolingDown(t, job.key, t.q.dedup[job.key]); }
    }
    if i: nat :| CoolsSince(s, es, i, job.key) && es[i].at + s.cooldown > now {
      assert CoolingDown(t, job.key, es[i].at + s.cooldown);
    }
  }

  lemma NothingLasts(s: System, es: seq<Step>, key: string, until: int)
    requires Initial(s) && Legal(s, es)
    ensures !Lasts(s, es, key, until)
  {
  }
}

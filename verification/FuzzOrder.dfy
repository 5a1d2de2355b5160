/** What becomes of the jobs of the background fuzz queue (internal/service/background_fuzz.go), over every interleaving:
    none is lost, doubled or overtaken, and each is counted and reported for how it ended. */
module FuzzOrder {
  import opened Prelude
  import opened FuzzQueue

  // ---- first in, first out ----

  /** The jobs that found room in the channel, in that order. */
  ghost function SentJobs(s: System, es: seq<Step>): seq<Job>
    requires Legal(s, es)
    decreases |es|
  {
    if es == [] then [] else Sends(s, es[0]) + SentJobs(Next(s, es[0]), es[1..])
  }

  /** The job that this step puts into the channel. */
  function Sends(s: System, e: Step): seq<Job>
    requires Enabled(s, e)
  {
    if e.SendStep? && |s.q.jobs| < s.capacity then [s.calls[e.i].job] else []
  }

  /** The audit that ends with this step. */
  function Ends(s: System, e: Step): seq<(Job, int, Outcome)>
    requires Enabled(s, e)
  {
    if e.FinishStep? then [(s.worker.job, e.at, e.o)] else []
  }

  /** The audits that ended, in that order: the worker's job, when, and how. */
  ghost function Endings(s: System, es: seq<Step>): seq<(Job, int, Outcome)>
    requires Legal(s, es)
    decreases |es|
  {
    if es == [] then [] else Ends(s, es[0]) + Endings(Next(s, es[0]), es[1..])
  }

  ghost function EndedJobs(endings: seq<(Job, int, Outcome)>): (jobs: seq<Job>)
    ensures |jobs| == |endings| && forall i :: 0 <= i < |jobs| ==> jobs[i] == endings[i].0
  {
    seq(|endings|, i requires 0 <= i < |endings| => endings[i].0)
  }

  /** The job the worker has, if any. */
  function InHand(w: Worker): seq<Job> { if w.Holding? || w.Running? then [w.job] else [] }

  /** What the worker has and what waits for it. */
  function Queued(s: System): seq<Job> { InHand(s.worker) + s.q.jobs }

  /** NONE LOST, NONE DOUBLED, NONE OVERTAKEN. Over every interleaving, the jobs there were and those that found room since
      are, in that order, those whose audit ended, the one the worker has, and those that still wait. */
  lemma {:induction false} FirstInFirstOut(s: System, es: seq<Step>)
    requires Legal(s, es)
    ensures Queued(s) + SentJobs(s, es) == EndedJobs(Endings(s, es)) + Queued(After(s, es))
    decreases |es|
  {
    hide Next, Enabled, Queued, Sends, Ends, EndedJobs;
    if es == [] {
      NoneEnded();
    } else {
      var t := Next(s, es[0]);
      FirstInFirstOut(t, es[1..]);
      QueuedStep(s, es[0]);
      EndedJoin(Ends(s, es[0]), Endings(t, es[1..]));
      JoinQueues(Queued(s), Sends(s, es[0]), SentJobs(t, es[1..]), EndedJobs(Ends(s, es[0])), Queued(t),
                 EndedJobs(Endings(t, es[1..])), Queued(After(t, es[1..])));
    }
  }

  lemma JoinQueues(q: seq<Job>, sent: seq<Job>, later: seq<Job>, ended: seq<Job>, r: seq<Job>, more: seq<Job>, last: seq<Job>)
    requires q + sent == ended + r && r + later == more + last
    ensures q + (sent + later) == (ended + more) + last
  {
    assert q + (sent + later) == (q + sent) + later;
    assert (ended + r) + later == ended + (r + later);
  }

  lemma NoneEnded()
    ensures EndedJobs([]) == []
  {
  }

  lemma EndedJoin(a: seq<(Job, int, Outcome)>, b: seq<(Job, int, Outcome)>)
    ensures EndedJobs(a + b) == EndedJobs(a) + EndedJobs(b)
  {
  }

  lemma QueuedStep(s: System, e: Step)
    requires Enabled(s, e)
    ensures Queued(s) + Sends(s, e) == EndedJobs(Ends(s, e)) + Queued(Next(s, e))
  {
    hide Purged, Summarised, VerdictOf, EndedJobs, CountEnqueued, RollBack, Reserve;
    NoneEnded();
    match e
    case ReceiveStep => assert s.q.jobs == [s.q.jobs[0]] + s.q.jobs[1..];
    case FinishStep(at, o) => OneEnded(s.worker.job, at, o);
    case SendStep(_) =>
    case StartCall(now, job) => ReserveKeepsJobs(s.q, now, job);
    case RollBackStep(i) => RollBackKeepsJobs(s.q, s.calls[i].job);
    case CountStep(_) => CountKeepsJobs(s.q);
    case _ =>
  }

  lemma OneEnded(job: Job, at: int, o: Outcome)
    ensures EndedJobs([(job, at, o)]) == [job]
  {
  }

  lemma ReserveKeepsJobs(q: Fields, now: int, job: Job)
    ensures Reserve(q, now, job).jobs == q.jobs
  {
    hide Purged;
  }

  lemma RollBackKeepsJobs(q: Fields, job: Job)
    ensures RollBack(q, job).jobs == q.jobs
  {
  }

  lemma CountKeepsJobs(q: Fields)
    ensures CountEnqueued(q).jobs == q.jobs
  {
  }

  // ---- how they ended ----

  predicate RanToEnd(e: (Job, int, Outcome)) { e.2.Ran? }

  predicate Overtaken(e: (Job, int, Outcome)) { e.2.SnapshotChanged? }

  predicate WentWrong(e: (Job, int, Outcome)) { e.2.TimedOut? || e.2.Canceled? || e.2.Broken? }

  /** COUNTED FOR HOW THEY ENDED: completed if the audit ran, stale if the snapshot had changed, failed if it timed out, was
      canceled or broke; over every interleaving, none more and none less. */
  lemma {:induction false} CountersAreEndings(s: System, es: seq<Step>)
    requires Legal(s, es)
    ensures var t, endings := After(s, es), Endings(s, es);
      && t.q.completed == s.q.completed + Tally(endings, RanToEnd)
      && t.q.stale == s.q.stale + Tally(endings, Overtaken)
      && t.q.failed == s.q.failed + Tally(endings, WentWrong)
    decreases |es|
  {
    hide Next, Enabled, RanToEnd, Overtaken, WentWrong;
    if es != [] {
      CountersAreEndings(Next(s, es[0]), es[1..]);
      CountersStep(s, es[0]);
      var rest := Endings(Next(s, es[0]), es[1..]);
      if es[0].FinishStep? {
        assert (Ends(s, es[0]) + rest)[1..] == rest;
      } else {
        assert Ends(s, es[0]) + rest == rest;
      }
    }
  }

  lemma CountersStep(s: System, e: Step)
    requires Enabled(s, e)
    ensures var q, r := s.q, Next(s, e).q;
      if e.FinishStep? then
        var ending := Ends(s, e)[0];
        && r.completed == q.completed + Bit(RanToEnd(ending))
        && r.stale == q.stale + Bit(Overtaken(ending))
        && r.failed == q.failed + Bit(WentWrong(ending))
      else r.completed == q.completed && r.stale == q.stale && r.failed == q.failed
  {
    hide Purged, Summarised;
  }

  // ---- what is reported ----

  /** The report of an audit: its job, when it ended, and either what it tried and found or why it found nothing. */
  ghost predicate Reports(r: Summary, job: Job, at: int, o: Outcome) {
    && r.jobId == job.id && r.trigger == job.trigger && r.certainty == job.certainty && r.events == job.events
    && r.perturbations == job.perturbations && r.completedAt == at
    && match o
       case Ran(trials, invariants) =>
         && r.status == Completed && r.error == "" && r.trials == trials && r.properties == |invariants|
         && r.invariants == multiset(invariants)[true]
       case SnapshotChanged => r.status == Stale && r.error == "snapshot changed before audit" && NothingFound(r)
       case TimedOut => r.status == Failed && r.error == "background fuzz audit timed out" && NothingFound(r)
       case Canceled => r.status == Failed && r.error == "background fuzz audit canceled" && NothingFound(r)
       case Broken => r.status == Failed && r.error == "background fuzz audit failed" && NothingFound(r)
  }

  predicate NothingFound(r: Summary) { r.trials == 0 && r.properties == 0 && r.invariants == 0 }

  /** THE LAST REPORT is of the last audit that ended, if any has, over every interleaving. */
  lemma {:induction false} LastReport(s: System, es: seq<Step>)
    requires Legal(s, es)
    ensures var last, endings := After(s, es).q.last, Endings(s, es);
      if endings == [] then last == s.q.last
      else
        var (job, at, o) := endings[|endings| - 1];
        last.Some? && Reports(last.value, job, at, o)
    decreases |es|
  {
    hide Next, Enabled, Reports;
    if es != [] {
      LastReport(Next(s, es[0]), es[1..]);
      ReportStep(s, es[0]);
    }
  }

  lemma ReportStep(s: System, e: Step)
    requires Enabled(s, e)
    ensures var last := Next(s, e).q.last;
      if e.FinishStep? then last.Some? && Reports(last.value, s.worker.job, e.at, e.o) else last == s.q.last
  {
    hide Purged;
    if e.FinishStep? && e.o.Ran? { TrueCount(e.o.invariants); }
  }

  lemma {:induction false} TrueCount(xs: seq<bool>)
    ensures |set i | 0 <= i < |xs| && xs[i]| == multiset(xs)[true]
    decreases |xs|
  {
    if xs != [] {
      var n := |xs| - 1;
      TrueCount(xs[..n]);
      assert xs == xs[..n] + [xs[n]];
      assert (set i | 0 <= i < |xs| && xs[i]) == (set i | 0 <= i < n && xs[..n][i]) + if xs[n] then {n} else {};
    }
  }
}

/** What each call on the opportunity store does, field by field, and what that makes of a record over whole runs
    (internal/store/memorystore/store.go, internal/store/tau.go). */
module AgencyRules {
  import opened Prelude
  import Snapshots
  import TauHandles
  import opened Opportunities

  /** Rest on one session and target. */
  predicate Rivals(a: Proposal, b: Proposal) {
    a.tau.Some? && b.tau.Some? && a.session == b.session && a.tau.value.target == b.tau.value.target
  }

  /** The forecast a proposal rests on, if any, still stands. */
  predicate Stands(p: Proposal, current: Snapshot) {
    p.tau.None? || Snapshots.TauSnapshotCompatible(Some(p.tau.value.base), current)
  }

  lemma StandsIs(p: Proposal, current: Snapshot)
    ensures Stands(p, current) <==> Compatible(p.tau, current)
  {
  }

  predicate Waits(r: Record) { r.state.status in {TauHandles.Pending, TauHandles.Claimed} }

  // ---- queueing ----

  /** An existing record leaves room for a rival: not uncertain, not waiting unless expired or overtaken, and the longer
      of the two cooldowns past if it was approved. */
  predicate LeavesRoom(existing: Record, p: Proposal, current: Snapshot, now: int) {
    Rivals(p, existing.proposal) ==>
      match existing.state.status
      case Pending => existing.proposal.expiresAt <= now || !Stands(existing.proposal, current)
      case Claimed => existing.proposal.expiresAt <= now || !Stands(existing.proposal, current)
      case Uncertain => false
      case Rejected => true
      case Expired => true
      case Approved =>
        var asked, held := p.tau.value.cooldownMS, existing.proposal.tau.value.cooldownMS;
        existing.state.resolvedAt + (if asked < held then held else asked) * 1_000_000 <= now
  }

  lemma RoomIsUnblocked(existing: Record, p: Proposal, current: Snapshot, now: int)
    ensures LeavesRoom(existing, p, current, now) <==> !TauOpportunityBlocked(p, existing, current, now)
  {
    hide Snapshots.TauSnapshotCompatible;
  }

  /** One forecast, two digests. */
  predicate Disagree(a: Proposal, b: Proposal) {
    && a.tau.Some? && b.tau.Some? && a.tau.value.forecast == b.tau.value.forecast
    && a.tau.value.forecastDigest != b.tau.value.forecastDigest
  }

  /** A first link has no parent; any other is one deeper than a stored record of its chain. */
  ghost predicate Linked(records: Records, p: Proposal) {
    && (p.depth == 0 ==> p.parent == "")
    && (p.depth != 0 ==>
          exists id :: id in records && id == p.parent && records[id].proposal.chain == p.chain
            && records[id].proposal.depth == p.depth - 1)
  }

  ghost function Chain(records: Records, chain: string): set<string> {
    set id | id in records && records[id].proposal.chain == chain
  }

  ghost function Occupied(records: Records, now: int): set<string> {
    set id | id in records
      && (records[id].state.status.Uncertain? || (Waits(records[id]) && records[id].proposal.expiresAt > now))
  }

  /** EXACTLY WHEN a proposal is queued. */
  lemma QueuedIff(s: State, p: Proposal, digest: string, now: int, limits: Limits)
    ensures AfterPut(s, p, digest, now, limits) != s
       <==> && p.id !in s.records && Stands(p, s.snapshot)
            && (forall id :: id in s.records ==> !Disagree(p, s.records[id].proposal))
            && (forall id :: id in s.records ==> LeavesRoom(s.records[id], p, s.snapshot, now))
            && (forall e :: e in p.evidence ==> e in limits.available)
            && Linked(s.records, p)
            && |Chain(s.records, p.chain)| < limits.perChain && |Occupied(s.records, now)| < limits.pending
  {
    hide Snapshots.TauSnapshotCompatible, TauOpportunityBlocked, LeavesRoom, Moved;
    forall id | id in s.records
      ensures LeavesRoom(s.records[id], p, s.snapshot, now) <==> !TauOpportunityBlocked(p, s.records[id], s.snapshot, now)
    {
      RoomIsUnblocked(s.records[id], p, s.snapshot, now);
    }
    assert InChain(s.records, p.chain) == Chain(s.records, p.chain);
    assert Waiting(s.records, now) == Occupied(s.records, now);
    assert ValidParent(s.records, p) <==> Linked(s.records, p);
    StandsIs(p, s.snapshot);
    if Admissible(s, p, now, limits) { assert p.id in AfterPut(s, p, digest, now, limits).records; }
  }

  /** What queueing leaves: the proposal as it came, pending, and both counters one further. */
  lemma QueuedIs(s: State, p: Proposal, digest: string, now: int, limits: Limits)
    requires AfterPut(s, p, digest, now, limits) != s
    ensures var t := AfterPut(s, p, digest, now, limits);
      && t.records == s.records[p.id := Record(p, digest, TauHandles.Record(TauHandles.Pending, "", "", 0, "", 0, []))]
      && t.snapshot == s.snapshot.(runtime := s.snapshot.runtime + 1, agency := s.snapshot.agency + 1)
  {
    hide Admissible;
  }

  // ---- resolving ----

  /** Waiting in the hands of this consumer, whatever the lease. */
  predicate HeldBy(r: Record, consumer: string) { r.state.status.Claimed? && r.state.claimedBy == consumer }

  /** The same verdict, reason and reference as before. */
  predicate SameAgain(r: Record, q: Request) {
    q.decision == r.state.status && q.reason == r.state.reason && q.executionRef == r.state.executionRef
  }

  /** Some rival of the proposal may still be executing. */
  ghost predicate Doubtful(records: Records, p: Proposal) {
    exists id :: id in records && records[id].state.status.Uncertain? && Rivals(records[id].proposal, p)
  }

  /** The handles a record would hold after a report. */
  ghost function Handles(r: Record, q: Request): set<string> {
    (set h | h in r.state.handles) + ({r.state.executionRef, q.executionRef} - {""})
  }

  /** EXACTLY WHICH ANSWER. The same verdict again is a repetition. A report of uncertainty is otherwise taken from anyone
      at any time, unless it would leave more than 32 handles. An uncertain record is rejected by an acknowledgment of all
      its handles and of nothing else. Any other verdict on a record that no longer waits conflicts with it. Of a waiting
      one it is its holder's alone, before the proposal expires and the lease runs out; and an approval needs a scope
      without doubt and a forecast that stands. */
  lemma AnswerIs(s: State, id: string, q: Request, now: int)
    requires Decides(Resolve(id, q)) && (id in s.records ==> TauHandles.Sound(s.records[id].state.handles))
    ensures var o := AfterResolve(s, id, q, now).1;
      if id !in s.records then o == NotFound
      else
        var r := s.records[id];
        && (o.Repeated? <==> SameAgain(r, q))
        && (o.TooManyHandles? <==> q.decision.Uncertain? && !SameAgain(r, q) && |Handles(r, q)| > 32)
        && (o.Lapsed? <==> !q.decision.Uncertain? && HeldBy(r, q.consumer) && r.proposal.expiresAt <= now)
        && (o.LeaseLost? <==>
              && !q.decision.Uncertain? && Waits(r)
              && (HeldBy(r, q.consumer) ==> r.state.leaseUntil <= now < r.proposal.expiresAt))
        && (o.Overtaken? <==>
              && q.decision.Approved? && HeldBy(r, q.consumer) && now < r.proposal.expiresAt && now < r.state.leaseUntil
              && !Doubtful(s.records, r.proposal) && !Stands(r.proposal, s.snapshot))
        && !o.NotFound?
  {
    hide Snapshots.TauSnapshotCompatible, TauHandles.Covers, TauHandles.Reported, TauHandles.Sound;
    hide Moved, Doubtful, Unresolved, Handles;
    if id in s.records {
      var r := s.records[id];
      DoubtIs(s.records, r.proposal);
      StandsIs(r.proposal, s.snapshot);
      HandlesAre(r, q, now);
    }
  }

  lemma DoubtIs(records: Records, p: Proposal)
    ensures Doubtful(records, p) <==> Unresolved(records, p)
  {
    if Doubtful(records, p) {
      var id :| id in records && records[id].state.status.Uncertain? && Rivals(records[id].proposal, p);
      assert Uncertain(records[id]) && SameScope(records[id].proposal, p);
    }
    if Unresolved(records, p) {
      var id :| id in records && Uncertain(records[id]) && SameScope(records[id].proposal, p);
      assert Rivals(records[id].proposal, p);
    }
  }

  lemma HandlesAre(r: Record, q: Request, now: int)
    requires TauHandles.Sound(r.state.handles)
    ensures var o := TauHandles.Reported(r.state, TauHandles.Report(q.reason, q.executionRef, now));
      && (o.BoundReached? <==> |Handles(r, q)| > 32)
      && (o.Accepted? ==> TauHandles.SetOf(o.record.handles) == Handles(r, q))
  {
    hide TauHandles.Sound;
    var report := TauHandles.Report(q.reason, q.executionRef, now);
    TauHandles.ReportFacts(r.state, report);
    assert TauHandles.SetOf(r.state.handles) + TauHandles.Named(r.state, report) == Handles(r, q);
  }

  /** A conflict: doubt in the scope of an approval, or a closed record that is neither told the same again nor, being
      uncertain, acknowledged in full. */
  ghost predicate Conflicts(s: State, r: Record, q: Request, now: int) {
    && !q.decision.Uncertain? && !SameAgain(r, q)
    && if Waits(r) then
         && q.decision.Approved? && HeldBy(r, q.consumer) && now < r.proposal.expiresAt && now < r.state.leaseUntil
         && Doubtful(s.records, r.proposal)
       else
         !(r.state.status.Uncertain? && q.decision.Rejected? && r.state.handles != []
           && multiset(q.cancelled) == multiset(r.state.handles))
  }

  lemma ConflictIs(s: State, id: string, q: Request, now: int)
    requires Decides(Resolve(id, q)) && id in s.records && TauHandles.Sound(s.records[id].state.handles)
    ensures AfterResolve(s, id, q, now).1.Conflict? <==> Conflicts(s, s.records[id], q, now)
  {
    hide Snapshots.TauSnapshotCompatible, TauHandles.Covers, TauHandles.Reported, TauHandles.Sound;
    hide Moved, Doubtful, Unresolved;
    var r := s.records[id];
    DoubtIs(s.records, r.proposal);
    TauHandles.CoversIffPermutation(r.state.handles, q.cancelled);
  }

  /** WHAT AN ANSWER LEAVES. Only a resolution and a lapse write, and only their own record. A verdict stands with its
      reason, its reference and its time, and frees the lease; a report adds its handles; a lapse is an expiry. */
  lemma AnswerLeaves(s: State, id: string, q: Request, now: int)
    requires Decides(Resolve(id, q)) && (id in s.records ==> TauHandles.Sound(s.records[id].state.handles))
    ensures var (t, o) := AfterResolve(s, id, q, now);
      if !o.Resolved? && !o.Lapsed? then t == s
      else
        && id in s.records && id in t.records && t.records == s.records[id := t.records[id]]
        && t.snapshot == s.snapshot.(runtime := s.snapshot.runtime + 1, agency := s.snapshot.agency + 1)
        && AnswerWrites(s.records[id], t.records[id], q, o.Lapsed?, now)
  {
    hide Snapshots.TauSnapshotCompatible, TauHandles.Covers, TauHandles.Reported, Unresolved, Handles, TauHandles.Sound;
    if id in s.records {
      HandlesAre(s.records[id], q, now);
      ReportWrites(s.records[id], q, now);
    }
  }

  ghost predicate AnswerWrites(r: Record, next: Record, q: Request, lapsed: bool, now: int) {
    && next.proposal == r.proposal && next.digest == r.digest && next.state.resolvedAt == now
    && (!r.state.status.Uncertain? || q.decision.Uncertain? ==> next.state.claimedBy == "" && next.state.leaseUntil == 0)
    && if lapsed then
         && next.state.status.Expired? && next.state.reason == "proposal expired before authorization completed"
         && next.state.executionRef == "" && next.state.handles == r.state.handles
       else
         && next.state.status == q.decision && next.state.reason == q.reason && next.state.executionRef == q.executionRef
         && if q.decision.Uncertain? then TauHandles.SetOf(next.state.handles) == Handles(r, q)
            else next.state.handles == r.state.handles
  }

  lemma ReportWrites(r: Record, q: Request, now: int)
    ensures var o := TauHandles.Reported(r.state, TauHandles.Report(q.reason, q.executionRef, now));
      o.Accepted? ==>
        && o.record.status.Uncertain? && o.record.reason == q.reason && o.record.executionRef == q.executionRef
        && o.record.resolvedAt == now && o.record.claimedBy == "" && o.record.leaseUntil == 0
  {
  }

  // ---- handing out ----

  /** Handing out leaves the record as it is, or closes it: for doubt in its scope, for a forecast overtaken, for age, the
      first of these that holds. */
  ghost function Closing(s: State, r: Record, now: int): Option<(TauHandles.Status, string)> {
    if !Waits(r) then None
    else if Doubtful(s.records, r.proposal) then
      Some((TauHandles.Rejected, "another execution for this tau target is unresolved"))
    else if !Stands(r.proposal, s.snapshot) then Some((TauHandles.Rejected, "tau forecast invalidated by state change"))
    else if r.proposal.expiresAt <= now then Some((TauHandles.Expired, "proposal expired before authorization"))
    else None
  }

  /** Fit to be handed out: waiting, not to be closed, due, and in nobody's hands or only in those of a lease run out. */
  ghost predicate Fit(s: State, r: Record, now: int) {
    && Waits(r) && Closing(s, r, now).None? && r.proposal.notBefore <= now
    && (r.state.status.Claimed? ==> r.state.leaseUntil <= now)
  }

  lemma FitIsEligible(s: State, id: string, now: int)
    ensures id in Eligible(s, now) <==> id in s.records && Fit(s, s.records[id], now)
  {
    hide Stands, Doubtful, UnresolvedScopes, Swept;
    if id in s.records { SweptIs(s, id, now); }
  }

  lemma SweptIs(s: State, id: string, now: int)
    requires id in s.records
    ensures var r, swept := s.records[id], Swept(s.records[id], UnresolvedScopes(s.records), s.snapshot, now);
      match Closing(s, r, now)
      case None => swept == r
      case Some(close) => swept == Closed(r, close.0, close.1, now)
  {
    hide Stands, Compatible, Doubtful, UnresolvedScopes;
    StandsIs(s.records[id].proposal, s.snapshot);
    ScopeIsDoubtful(s.records, s.records[id].proposal);
  }

  function Closed(r: Record, status: TauHandles.Status, reason: string, now: int): Record {
    Record(r.proposal, r.digest, TauHandles.Record(status, reason, r.state.executionRef, now, "", 0, r.state.handles))
  }

  lemma ScopeIsDoubtful(records: Records, p: Proposal)
    ensures Doubtful(records, p) <==> p.tau.Some? && ScopeOf(p) in UnresolvedScopes(records)
  {
    if Doubtful(records, p) {
      var id :| id in records && records[id].state.status.Uncertain? && Rivals(records[id].proposal, p);
      assert Uncertain(records[id]) && ScopeOf(records[id].proposal) == ScopeOf(p);
    }
    if p.tau.Some? && ScopeOf(p) in UnresolvedScopes(records) {
      var id :| id in records && Uncertain(records[id]) && records[id].proposal.tau.Some?
        && ScopeOf(records[id].proposal) == ScopeOf(p);
      assert Rivals(records[id].proposal, p);
    }
  }

  /** WHAT A CLAIM LEAVES. Every record is closed as above or left alone; those handed out are the consumer's until the
      lease ends; and who is handed out is fit, while anyone fit who is not comes after all who are. */
  lemma ClaimLeaves(s: State, consumer: string, now: int, limit: nat, lease: int, id: string)
    requires id in s.records
    ensures var t := AfterClaim(s, consumer, now, limit, lease);
      && t.records.Keys == s.records.Keys
      && (id in Winners(s, now, limit) ==> Fit(s, s.records[id], now))
      && t.records[id]
        == if id in Winners(s, now, limit) then InHand(s.records[id], consumer, now + lease)
           else
             match Closing(s, s.records[id], now)
             case None => s.records[id]
             case Some(close) => Closed(s.records[id], close.0, close.1, now)
  {
    hide Snapshots.TauSnapshotCompatible, Closing, UnresolvedScopes, Swept, Moved, Ahead, AfterClaim;
    SameKeys(s, consumer, now, limit, lease);
    ClaimedIs(s, consumer, now, limit, lease, id);
    SweptIs(s, id, now);
    FitIsEligible(s, id, now);
  }

  function InHand(r: Record, consumer: string, until: int): Record {
    r.(state := r.state.(status := TauHandles.Claimed, claimedBy := consumer, leaseUntil := until))
  }

  // ---- deleting evidence ----

  /** A waiting proposal is rejected with any of its evidence; nothing else changes, and nothing without a deletion. */
  lemma DeletionLeaves(s: State, deleted: set<string>, now: int, id: string)
    requires id in s.records
    ensures var t := AfterDelete(s, deleted, now);
      && t.records.Keys == s.records.Keys && (deleted == {} ==> t == s)
      && t.records[id]
        == if Waits(s.records[id]) && (exists e :: e in s.records[id].proposal.evidence && e in deleted) then
             Closed(s.records[id], TauHandles.Rejected, "supporting evidence was deleted", now)
           else s.records[id]
  {
    hide Moved;
  }

  // ---- whole runs ----

  /** Every record's handles are distinct and at most 32. */
  ghost predicate HandlesSound(s: State) { forall id :: id in s.records ==> TauHandles.Sound(s.records[id].state.handles) }

  lemma {:induction false} RunHandlesSound(start: Snapshot, calls: seq<Call>)
    requires AllDecide(calls)
    ensures HandlesSound(Run(start, calls))
    decreases |calls|
  {
    hide After, TauHandles.Sound;
    if calls != [] {
      var n := |calls| - 1;
      RunHandlesSound(start, calls[..n]);
      forall id | id in Run(start, calls).records ensures TauHandles.Sound(Run(start, calls).records[id].state.handles) {
        HandlesStep(Run(start, calls[..n]), calls[n], id);
      }
    }
  }

  /** No call but one on the record itself touches its handles, and none drops a handle. */
  lemma HandlesStep(s: State, c: Call, id: string)
    requires HandlesSound(s) && Decides(c.step) && id in After(s, c).records
    ensures var after := After(s, c).records[id].state.handles;
      && TauHandles.Sound(after)
      && (id in s.records ==> s.records[id].state.handles <= after)
      && (id !in s.records ==> after == [])
  {
    hide AfterClaim, AfterDelete, AfterResolve, AfterPut, Moved, TauHandles.Sound, Closing;
    match c.step
    case Put(p, digest, limits) => PutHandles(s, p, digest, c.now, limits, id);
    case Claim(consumer, limit, lease) =>
      SameKeys(s, consumer, c.now, limit, lease);
      ClaimLeaves(s, consumer, c.now, limit, lease, id);
    case Resolve(other, q) => ResolveHandles(s, other, q, c.now, id);
    case Delete(deleted) => DeletionKeeps(s, deleted, c.now, id);
    case Elsewhere(_) =>
  }

  lemma DeletionKeeps(s: State, deleted: set<string>, now: int, id: string)
    requires id in AfterDelete(s, deleted, now).records
    ensures id in s.records && AfterDelete(s, deleted, now).records[id].state.handles == s.records[id].state.handles
  {
    hide Moved;
  }

  lemma PutHandles(s: State, p: Proposal, digest: string, now: int, limits: Limits, id: string)
    requires HandlesSound(s) && id in AfterPut(s, p, digest, now, limits).records
    ensures var after := AfterPut(s, p, digest, now, limits).records[id].state.handles;
      && TauHandles.Sound(after)
      && (id in s.records ==> s.records[id].state.handles == after)
      && (id !in s.records ==> after == [])
  {
    PutShape(s, p, digest, now, limits);
    hide Compatible, ForecastClash, TauOpportunityBlocked, ValidParent, InChain, Waiting, Moved;
  }

  lemma ResolveHandles(s: State, other: string, q: Request, now: int, id: string)
    requires HandlesSound(s) && Decides(Resolve(other, q)) && id in AfterResolve(s, other, q, now).0.records
    ensures var after := AfterResolve(s, other, q, now).0.records[id].state.handles;
      TauHandles.Sound(after) && id in s.records && s.records[id].state.handles <= after
  {
    hide Answered, Moved, TauHandles.Sound;
    if other in s.records { AnswerHandles(s, other, q, now); }
  }

  lemma AnswerHandles(s: State, id: string, q: Request, now: int)
    requires HandlesSound(s) && id in s.records
    ensures var a, handles := AnswerIn(s, id, q, now).0, s.records[id].state.handles;
      a.Some? ==> TauHandles.Sound(a.value.state.handles) && handles <= a.value.state.handles
  {
    hide Compatible, TauHandles.Covers, TauHandles.Reported, Unresolved, TauHandles.Sound, HandlesSound;
    assert TauHandles.Sound(s.records[id].state.handles) by { SoundOf(s, id); }
    ReportKeeps(s.records[id].state, TauHandles.Report(q.reason, q.executionRef, now));
  }

  lemma SoundOf(s: State, id: string)
    requires HandlesSound(s) && id in s.records
    ensures TauHandles.Sound(s.records[id].state.handles)
  {
  }

  lemma ReportKeeps(r: TauHandles.Record, report: TauHandles.Report)
    requires TauHandles.Sound(r.handles)
    ensures var next := TauHandles.Reported(r, report).record; TauHandles.Sound(next.handles) && r.handles <= next.handles
  {
    TauHandles.ReportFacts(r, report);
  }

  /** DOUBT ENDS BY A FULL ACCOUNT ALONE. In every run an uncertain execution stops being one only when somebody rejects
      it with a list of exactly the handles reported for it, each once, in any order. */
  lemma DoubtEnds(start: Snapshot, calls: seq<Call>, i: nat, id: string)
    requires AllDecide(calls) && i < |calls|
    requires var s := Run(start, calls[..i]);
      id in s.records && s.records[id].state.status.Uncertain?
    ensures var s, c, t := Run(start, calls[..i]), calls[i], After(Run(start, calls[..i]), calls[i]);
      && id in t.records
      && (t.records[id].state.status.Uncertain?
          || (&& t.records[id].state.status.Rejected? && c.step.Resolve? && c.step.id == id
              && c.step.request.decision.Rejected? && s.records[id].state.handles != []
              && multiset(c.step.request.cancelled) == multiset(s.records[id].state.handles)))
  {
    hide After, TauHandles.Sound;
    assert AllDecide(calls[..i]);
    RunHandlesSound(start, calls[..i]);
    ClosedStep(Run(start, calls[..i]), calls[i], id);
  }

  /** A record that no longer waits changes by an answer to it alone: a report puts it in doubt, and a full account of its
      handles rejects one in doubt. */
  lemma ClosedStep(s: State, c: Call, id: string)
    requires HandlesSound(s) && Decides(c.step) && id in s.records && !Waits(s.records[id])
    ensures var r, t := s.records[id], After(s, c);
      && id in t.records
      && (t.records[id] != r ==>
            && c.step.Resolve? && c.step.id == id
            && var q := c.step.request;
               if q.decision.Uncertain? then t.records[id].state.status.Uncertain?
               else
                 && r.state.status.Uncertain? && q.decision.Rejected? && t.records[id].state.status.Rejected?
                 && r.state.handles != [] && multiset(q.cancelled) == multiset(r.state.handles))
  {
    hide AfterClaim, AfterDelete, AfterResolve, AfterPut, Moved, TauHandles.Sound, Closing, Fit;
    match c.step
    case Put(p, digest, limits) => PutShape(s, p, digest, c.now, limits);
    case Claim(consumer, limit, lease) => ClosedStays(s, consumer, c.now, limit, lease, id);
    case Resolve(other, q) => ClosedAnswer(s, other, q, c.now, id);
    case Delete(deleted) => DeletionLeaves(s, deleted, c.now, id);
    case Elsewhere(_) =>
  }

  lemma ClosedAnswer(s: State, other: string, q: Request, now: int, id: string)
    requires HandlesSound(s) && Decides(Resolve(other, q)) && id in s.records && !Waits(s.records[id])
    ensures var r, t := s.records[id], AfterResolve(s, other, q, now).0;
      && id in t.records
      && (t.records[id] != r ==>
            && other == id
            && if q.decision.Uncertain? then t.records[id].state.status.Uncertain?
               else
                 && r.state.status.Uncertain? && q.decision.Rejected? && t.records[id].state.status.Rejected?
                 && r.state.handles != [] && multiset(q.cancelled) == multiset(r.state.handles))
  {
    hide Snapshots.TauSnapshotCompatible, TauHandles.Covers, TauHandles.Reported, TauHandles.Sound;
    hide Moved, Doubtful, Unresolved;
    TauHandles.CoversIffPermutation(s.records[id].state.handles, q.cancelled);
    ReportWrites(s.records[id], q, now);
  }

  /** A VERDICT STANDS. In every run a record once approved, rejected or expired stays so, field for field, until somebody
      reports its execution uncertain. */
  lemma {:induction false} VerdictStands(start: Snapshot, calls: seq<Call>, i: nat, id: string)
    requires AllDecide(calls) && i <= |calls| && id in Run(start, calls[..i]).records
    requires var r := Run(start, calls[..i]).records[id]; !Waits(r) && !r.state.status.Uncertain?
    requires forall k :: i <= k < |calls| ==> !Reports(calls[k], id)
    ensures id in Run(start, calls).records && Run(start, calls).records[id] == Run(start, calls[..i]).records[id]
    decreases |calls|
  {
    hide After, TauHandles.Sound, Waits;
    if i == |calls| {
      assert calls[..i] == calls;
    } else {
      var n := |calls| - 1;
      assert calls[..n][..i] == calls[..i];
      VerdictStands(start, calls[..n], i, id);
      RunHandlesSound(start, calls[..n]);
      ClosedStep(Run(start, calls[..n]), calls[n], id);
    }
  }

  predicate Reports(c: Call, id: string) { c.step.Resolve? && c.step.id == id && c.step.request.decision.Uncertain? }

  /** NO HANDLE IS LOST IN THE STORE. In every run, the handle of a report that was taken is among its record's handles
      ever after, whatever else is called. */
  lemma {:induction false} HandleStays(start: Snapshot, calls: seq<Call>, i: nat, id: string)
    requires AllDecide(calls) && i < |calls| && Reports(calls[i], id)
    requires AfterResolve(Run(start, calls[..i]), id, calls[i].step.request, calls[i].now).1.Resolved?
    requires calls[i].step.request.executionRef != ""
    ensures id in Run(start, calls).records
    ensures calls[i].step.request.executionRef in Run(start, calls).records[id].state.handles
    decreases |calls|
  {
    hide After, TauHandles.Sound, AfterResolve;
    var n := |calls| - 1;
    assert calls[..n][..i] == calls[..i];
    RunHandlesSound(start, calls[..n]);
    if i == n {
      HandleTaken(Run(start, calls[..n]), calls[n], id);
    } else {
      HandleStays(start, calls[..n], i, id);
      RecordStays(Run(start, calls[..n]), calls[n], id);
      HandlesStep(Run(start, calls[..n]), calls[n], id);
    }
  }

  lemma HandleTaken(s: State, c: Call, id: string)
    requires HandlesSound(s) && Reports(c, id) && AfterResolve(s, id, c.step.request, c.now).1.Resolved?
    requires c.step.request.executionRef != ""
    ensures id in After(s, c).records && c.step.request.executionRef in After(s, c).records[id].state.handles
  {
    hide TauHandles.Sound, TauHandles.Reported, Moved, Unresolved, Compatible;
    HandlesAre(s.records[id], c.step.request, c.now);
    var a := AnswerIn(s, id, c.step.request, c.now).0;
    assert c.step.request.executionRef in TauHandles.SetOf(a.value.state.handles);
  }

  lemma RecordStays(s: State, c: Call, id: string)
    requires id in s.records
    ensures id in After(s, c).records
  {
    hide Answered, Moved, Swept, UnresolvedScopes, Winners, Compatible, Unresolved, Admissible;
  }
}

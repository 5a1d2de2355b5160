/** Scheduled-turn opportunities of one tenant (internal/store/memorystore/store.go, internal/store/tau.go): when a
    proposal may be queued, handed out and approved, and what that guarantees over whole runs of the store. */
module Opportunities {
  import opened Prelude
  import Snapshots
  import TauHandles

  type Snapshot = Snapshots.Snapshot

  /** What binds a proposal to a forecast. */
  datatype Tau = Tau(target: string, forecast: string, forecastDigest: string, base: Snapshot, cooldownMS: int)

  datatype Proposal = Proposal(
    id: string, session: string, evidence: seq<string>, chain: string, parent: string, depth: int, priority: real,
    notBefore: int, expiresAt: int, tau: Option<Tau>)

  datatype Record = Record(proposal: Proposal, digest: string, state: TauHandles.Record)

  type Records = map<string, Record>

  datatype State = State(records: Records, snapshot: Snapshot)

  const PENDING := TauHandles.Record(TauHandles.Pending, "", "", 0, "", 0, [])

  // ---- one record ----

  predicate Compatible(tau: Option<Tau>, current: Snapshot) {
    Snapshots.TauSnapshotCompatible(if tau.None? then None else Some(tau.value.base), current)
  }

  predicate Open(r: Record) { r.state.status.Pending? || r.state.status.Claimed? }

  predicate Uncertain(r: Record) { r.state.status.Uncertain? }

  predicate Approved(r: Record) { r.state.status.Approved? }

  predicate SameScope(a: Proposal, b: Proposal) {
    a.tau.Some? && b.tau.Some? && a.session == b.session && a.tau.value.target == b.tau.value.target
  }

  /** The nanoseconds between approvals that both proposals ask for. */
  function Cooldown(a: Proposal, b: Proposal): int
    requires SameScope(a, b)
  {
    MaxInt(a.tau.value.cooldownMS, b.tau.value.cooldownMS) * MS
  }

  /** Still able to be approved: open, unexpired, and its forecast not overtaken. */
  predicate Live(r: Record, current: Snapshot, now: int) {
    r.proposal.tau.Some? && Open(r) && now < r.proposal.expiresAt && Compatible(r.proposal.tau, current)
  }

  predicate TauOpportunityBlocked(incoming: Proposal, existing: Record, current: Snapshot, now: int) {
    && SameScope(incoming, existing.proposal)
    && (|| (Open(existing) && now < existing.proposal.expiresAt && Compatible(existing.proposal.tau, current))
        || Uncertain(existing)
        || (Approved(existing) && now < existing.state.resolvedAt + Cooldown(incoming, existing.proposal)))
  }

  function Moved(s: Snapshot, step: Snapshots.Step): Snapshot { Snapshots.After(Snapshots.State(s, map[]), step).snapshot }

  /** Agency bookkeeping advances both counters. */
  function Kept(s: Snapshot): Snapshot { Moved(s, Snapshots.Agency) }

  // ---- queueing a proposal ----

  predicate ForecastClash(p: Proposal, existing: Record) {
    && p.tau.Some? && existing.proposal.tau.Some? && p.tau.value.forecast == existing.proposal.tau.value.forecast
    && p.tau.value.forecastDigest != existing.proposal.tau.value.forecastDigest
  }

  predicate ValidParent(records: Records, p: Proposal) {
    if p.depth == 0 then p.parent == ""
    else
      && p.parent in records && records[p.parent].proposal.chain == p.chain
      && records[p.parent].proposal.depth + 1 == p.depth
  }

  predicate Counts(r: Record, now: int) { Uncertain(r) || (Open(r) && now < r.proposal.expiresAt) }

  function InChain(records: Records, chain: string): set<string> {
    set id | id in records && records[id].proposal.chain == chain
  }

  function Waiting(records: Records, now: int): set<string> { set id | id in records && Counts(records[id], now) }

  /** The bounds of one tenant, and the events a proposal may rest on. */
  datatype Limits = Limits(perChain: int, pending: int, available: set<string>)

  ghost predicate Admissible(s: State, p: Proposal, now: int, limits: Limits) {
    && p.id !in s.records && Compatible(p.tau, s.snapshot)
    && (forall id :: id in s.records ==> !ForecastClash(p, s.records[id]))
    && (forall id :: id in s.records ==> !TauOpportunityBlocked(p, s.records[id], s.snapshot, now))
    && (forall e :: e in p.evidence ==> e in limits.available)
    && ValidParent(s.records, p)
    && |InChain(s.records, p.chain)| < limits.perChain && |Waiting(s.records, now)| < limits.pending
  }

  ghost function AfterPut(s: State, p: Proposal, digest: string, now: int, limits: Limits): State {
    if Admissible(s, p, now, limits) then State(s.records[p.id := Record(p, digest, PENDING)], Kept(s.snapshot)) else s
  }

  datatype PutOutcome = Added | AlreadyThere | Clash | Stale | NoEvidence | NoBudget

  /** Which answer a refused proposal gets; where a clash and a block both stand, either. */
  ghost predicate PutAnswers(s: State, p: Proposal, digest: string, now: int, limits: Limits, o: PutOutcome) {
    if p.id in s.records then o == if s.records[p.id].digest == digest then AlreadyThere else Clash
    else if !Compatible(p.tau, s.snapshot) then o == Stale
    else if exists id ::
         id in s.records && (ForecastClash(p, s.records[id]) || TauOpportunityBlocked(p, s.records[id], s.snapshot, now)) then
      || (o == Clash && exists id :: id in s.records && ForecastClash(p, s.records[id]))
      || (o == NoBudget && exists id :: id in s.records && TauOpportunityBlocked(p, s.records[id], s.snapshot, now))
    else if exists e :: e in p.evidence && e !in limits.available then o == NoEvidence
    else o == if Admissible(s, p, now, limits) then Added else NoBudget
  }

  // ---- handing proposals out ----

  /** Sessions and targets with an execution nobody has accounted for. */
  function UnresolvedScopes(records: Records): set<(string, string)> {
    set id | id in records && Uncertain(records[id]) && records[id].proposal.tau.Some? :: ScopeOf(records[id].proposal)
  }

  function ScopeOf(p: Proposal): (string, string)
    requires p.tau.Some?
  {
    (p.session, p.tau.value.target)
  }

  function Ended(r: Record, status: TauHandles.Status, reason: string, now: int): Record {
    r.(state := r.state.(status := status, claimedBy := "", leaseUntil := 0, reason := reason, resolvedAt := now))
  }

  /** What handing out does to a record first: it closes the ones that can no longer be approved. */
  function Swept(r: Record, unresolved: set<(string, string)>, current: Snapshot, now: int): Record {
    if !Open(r) then r
    else if r.proposal.tau.Some? && ScopeOf(r.proposal) in unresolved then
      Ended(r, TauHandles.Rejected, "another execution for this tau target is unresolved", now)
    else if !Compatible(r.proposal.tau, current) then
      Ended(r, TauHandles.Rejected, "tau forecast invalidated by state change", now)
    else if r.proposal.expiresAt <= now then Ended(r, TauHandles.Expired, "proposal expired before authorization", now)
    else r
  }

  /** Due, and either never handed out or its lease is over. */
  predicate Due(r: Record, now: int) {
    r.proposal.notBefore <= now && (r.state.status.Pending? || (r.state.status.Claimed? && r.state.leaseUntil <= now))
  }

  function Eligible(s: State, now: int): set<string> {
    set id | id in s.records && Due(Swept(s.records[id], UnresolvedScopes(s.records), s.snapshot, now), now)
  }

  /** Higher priority first, then earlier, then by identity. */
  predicate Precedes(a: Proposal, b: Proposal) {
    || a.priority > b.priority
    || (a.priority == b.priority && (a.notBefore < b.notBefore || (a.notBefore == b.notBefore && Less(a.id, b.id))))
  }

  function Ahead(records: Records, ids: set<string>, id: string): set<string>
    requires ids <= records.Keys && id in records
  {
    set k | k in ids && Precedes(records[k].proposal, records[id].proposal)
  }

  /** The eligible proposals that fewer than `limit` eligible ones precede. */
  function Winners(s: State, now: int, limit: nat): (w: set<string>)
    ensures w <= s.records.Keys
  {
    set id | id in Eligible(s, now) && |Ahead(s.records, Eligible(s, now), id)| < limit
  }

  function Handed(r: Record, consumer: string, until: int): Record {
    r.(state := r.state.(status := TauHandles.Claimed, claimedBy := consumer, leaseUntil := until))
  }

  function AfterClaim(s: State, consumer: string, now: int, limit: nat, lease: int): State {
    var swept := map id | id in s.records :: Swept(s.records[id], UnresolvedScopes(s.records), s.snapshot, now);
    var w := Winners(s, now, limit);
    var after := map id | id in s.records :: if id in w then Handed(swept[id], consumer, now + lease) else swept[id];
    State(after, if swept != s.records || w != {} then Kept(s.snapshot) else s.snapshot)
  }

  // ---- resolving a proposal ----

  /** What a consumer reports. */
  datatype Request = Request(
    consumer: string, decision: TauHandles.Status, reason: string, executionRef: string, cancelled: seq<string>)

  datatype ResolveOutcome = Resolved | Repeated | NotFound | Conflict | LeaseLost | Lapsed | Overtaken | TooManyHandles

  function Decided(r: Record, request: Request, now: int): Record {
    r.(state := r.state.(status := request.decision, reason := request.reason, executionRef := request.executionRef,
                         resolvedAt := now))
  }

  function Released(r: Record): Record { r.(state := r.state.(claimedBy := "", leaseUntil := 0)) }

  function Stored(s: State, id: string, r: Record): State { State(s.records[id := r], Kept(s.snapshot)) }

  predicate Repeats(r: Record, request: Request) {
    r.state.status == request.decision && r.state.reason == request.reason && r.state.executionRef == request.executionRef
  }

  /** Some record of the proposal's scope is uncertain. */
  predicate Unresolved(records: Records, p: Proposal) {
    exists id :: id in records && Uncertain(records[id]) && SameScope(records[id].proposal, p)
  }

  /** The answer for a record, and what it becomes, given whether its scope is unresolved and its forecast compatible. */
  ghost function Answered(r: Record, unresolved: bool, compatible: bool, request: Request, now: int)
    : (Option<Record>, ResolveOutcome)
  {
    if request.decision.Uncertain? then
      if Repeats(r, request) then (None, Repeated)
      else
        match TauHandles.Reported(r.state, TauHandles.Report(request.reason, request.executionRef, now))
        case Accepted(state) => (Some(r.(state := state)), Resolved)
        case BoundReached(_) => (None, TooManyHandles)
    else if Uncertain(r) && request.decision.Rejected? then
      if TauHandles.Covers(r.state.handles, request.cancelled) then (Some(Decided(r, request, now)), Resolved)
      else (None, Conflict)
    else if !Open(r) then (None, if Repeats(r, request) then Repeated else Conflict)
    else if !r.state.status.Claimed? || r.state.claimedBy != request.consumer then (None, LeaseLost)
    else if r.proposal.expiresAt <= now then
      var ended := Ended(r, TauHandles.Expired, "proposal expired before authorization completed", now);
      (Some(ended.(state := ended.state.(executionRef := ""))), Lapsed)
    else if r.state.leaseUntil <= now then (None, LeaseLost)
    else if request.decision.Approved? && unresolved then (None, Conflict)
    else if request.decision.Approved? && !compatible then (None, Overtaken)
    else (Some(Released(Decided(r, request, now))), Resolved)
  }

  ghost function AnswerIn(s: State, id: string, request: Request, now: int): (Option<Record>, ResolveOutcome)
    requires id in s.records
  {
    var r := s.records[id];
    Answered(r, Unresolved(s.records, r.proposal), Compatible(r.proposal.tau, s.snapshot), request, now)
  }

  ghost function AfterResolve(s: State, id: string, request: Request, now: int): (State, ResolveOutcome) {
    if id !in s.records then (s, NotFound)
    else
      var a := AnswerIn(s, id, request, now);
      (if a.0.None? then s else Stored(s, id, a.0.value), a.1)
  }

  /** The consumer holds the record's lease, and it has not run out. */
  predicate Leased(r: Record, consumer: string, now: int) {
    r.state.status.Claimed? && r.state.claimedBy == consumer && now < r.state.leaseUntil
  }

  /** What any answer can do to a record. */
  lemma AnswerFacts(r: Record, unresolved: bool, compatible: bool, request: Request, now: int)
    requires Decides(Resolve(r.proposal.id, request))
    ensures var a := Answered(r, unresolved, compatible, request, now).0;
      a.Some? ==>
        && a.value.proposal == r.proposal && !Open(a.value) && (Uncertain(a.value) <==> request.decision.Uncertain?)
        && (Approved(a.value) ==>
              && request.decision.Approved? && a.value.state.resolvedAt == now && Leased(r, request.consumer, now)
              && Open(r) && now < r.proposal.expiresAt && compatible && !unresolved)
        && (!Open(r) ==> Uncertain(a.value) || a.value.state.status.Rejected?)
    ensures var a := Answered(r, unresolved, compatible, request, now);
      request.decision.Uncertain? ==> (a.1.Resolved? <==> a.0.Some?)
  {
    hide TauHandles.Covers, TauHandles.BothKept;
  }

  // ---- deleting evidence ----

  predicate Rests(p: Proposal, deleted: set<string>) { exists e :: e in p.evidence && e in deleted }

  /** An open proposal loses its support with its evidence. */
  function Undone(r: Record, deleted: set<string>, now: int): Record {
    if Open(r) && Rests(r.proposal, deleted) then Ended(r, TauHandles.Rejected, "supporting evidence was deleted", now) else r
  }

  function AfterDelete(s: State, deleted: set<string>, now: int): State {
    if deleted == {} then s
    else
      var after := map id | id in s.records :: Undone(s.records[id], deleted, now);
      State(after, Moved(s.snapshot, Snapshots.Delete(after != s.records)))
  }

  // ---- runs ----

  /** One call on the store: on this tenant's proposals, or any other mutation, another tenant's included. */
  datatype Step =
    | Put(p: Proposal, digest: string, limits: Limits)
    | Claim(consumer: string, limit: nat, lease: int)
    | Resolve(id: string, request: Request)
    | Delete(deleted: set<string>)
    | Elsewhere(step: Snapshots.Step)

  datatype Call = Call(now: int, step: Step)

  ghost function After(s: State, c: Call): State {
    match c.step
    case Put(p, digest, limits) => AfterPut(s, p, digest, c.now, limits)
    case Claim(consumer, limit, lease) => AfterClaim(s, consumer, c.now, limit, lease)
    case Resolve(id, request) => AfterResolve(s, id, request, c.now).0
    case Delete(deleted) => AfterDelete(s, deleted, c.now)
    case Elsewhere(step) => s.(snapshot := Moved(s.snapshot, step))
  }

  ghost function Run(start: Snapshot, calls: seq<Call>): State {
    if calls == [] then State(map[], start) else After(Run(start, calls[..|calls| - 1]), calls[|calls| - 1])
  }

  /** Consumers report one of the three decisions there are. */
  predicate AllDecide(calls: seq<Call>) { forall i :: 0 <= i < |calls| ==> Decides(calls[i].step) }

  predicate Decides(step: Step) {
    step.Resolve? ==>
      step.request.decision.Approved? || step.request.decision.Rejected? || step.request.decision.Uncertain?
  }

  // ---- what holds of any two opportunities of one scope ----

  predicate Apart(a: Record, b: Record)
    requires SameScope(a.proposal, b.proposal)
  {
    || a.state.resolvedAt + Cooldown(a.proposal, b.proposal) <= b.state.resolvedAt
    || b.state.resolvedAt + Cooldown(a.proposal, b.proposal) <= a.state.resolvedAt
  }

  /** Not both can be approved any more, and what is approved is a cooldown away from the other's approval, past or to
      come. */
  predicate PairOk(a: Record, b: Record, current: Snapshot, now: int) {
    SameScope(a.proposal, b.proposal) ==>
      && !(Live(a, current, now) && Live(b, current, now))
      && (Approved(a) && Live(b, current, now) ==> a.state.resolvedAt + Cooldown(a.proposal, b.proposal) <= now)
      && (Approved(b) && Live(a, current, now) ==> b.state.resolvedAt + Cooldown(a.proposal, b.proposal) <= now)
      && (Approved(a) && Approved(b) ==> Apart(a, b))
  }

  /** The forecast's snapshot is one the store has passed through. */
  predicate Descends(base: Snapshot, current: Snapshot) {
    && Snapshots.Behind(base, current) && base.runtime <= current.runtime
    && current.agency - base.agency <= current.runtime - base.runtime
  }

  predicate RecordOk(id: string, r: Record, current: Snapshot) {
    r.proposal.id == id && (r.proposal.tau.Some? ==> Descends(r.proposal.tau.value.base, current))
  }

  ghost predicate Exclusive(s: State, now: int) {
    && (forall id :: id in s.records ==> RecordOk(id, s.records[id], s.snapshot))
    && (forall a, b :: a in s.records && b in s.records && a != b ==> PairOk(s.records[a], s.records[b], s.snapshot, now))
  }

  lemma Descending(base: Snapshot, current: Snapshot, step: Snapshots.Step)
    requires Descends(base, current)
    ensures Descends(base, Moved(current, step))
    ensures Snapshots.TauSnapshotCompatible(Some(base), Moved(current, step))
       <==> Snapshots.TauSnapshotCompatible(Some(base), current) && step.Agency?
  {
    Snapshots.TauStep(base, Snapshots.State(current, map[]), current.runtime - base.runtime, step);
  }

  /** What can happen to a record without an approval: it may stop being live or approved, never start. */
  predicate Fades(before: Record, after: Record) {
    && after.proposal == before.proposal
    && (Open(after) ==> Open(before))
    && (Approved(after) ==> Approved(before) && after.state.resolvedAt == before.state.resolvedAt)
  }

  /** Nothing becomes compatible with the later snapshot that was not with the earlier. */
  predicate Ages(before: State, after: State) {
    forall id :: id in before.records && before.records[id].proposal.tau.Some? ==>
      var base := before.records[id].proposal.tau.value.base;
      && Descends(base, after.snapshot)
      && (Snapshots.TauSnapshotCompatible(Some(base), after.snapshot) ==>
            Snapshots.TauSnapshotCompatible(Some(base), before.snapshot))
  }

  lemma PairFades(a: Record, b: Record, a': Record, b': Record, before: Snapshot, after: Snapshot, now: int, later: int)
    requires PairOk(a, b, before, now) && now <= later && Fades(a, a') && Fades(b, b')
    requires Live(a', after, later) ==> Live(a, before, now)
    requires Live(b', after, later) ==> Live(b, before, now)
    ensures PairOk(a', b', after, later)
  {
    hide Live, Open;
  }

  lemma StillLive(r: Record, r': Record, before: Snapshot, after: Snapshot, now: int, later: int)
    requires Fades(r, r') && now <= later
    requires r.proposal.tau.Some? && Compatible(r.proposal.tau, after) ==> Compatible(r.proposal.tau, before)
    ensures Live(r', after, later) ==> Live(r, before, now)
  {
  }

  /** Every step but an approval and a new proposal. */
  lemma FadingKeepsExclusive(s: State, t: State, now: int, later: int)
    requires Exclusive(s, now) && now <= later && t.records.Keys == s.records.Keys && Ages(s, t)
    requires forall id :: id in s.records ==> Fades(s.records[id], t.records[id])
    ensures Exclusive(t, later)
  {
    hide Fades, PairOk, Live, Snapshots.TauSnapshotCompatible, Descends;
    forall id | id in s.records ensures RecordOk(id, t.records[id], t.snapshot) { FadedOk(s, t, id); }
    forall a, b | a in s.records && b in s.records && a != b
      ensures PairOk(t.records[a], t.records[b], t.snapshot, later)
    {
      StillLive(s.records[a], t.records[a], s.snapshot, t.snapshot, now, later);
      StillLive(s.records[b], t.records[b], s.snapshot, t.snapshot, now, later);
      PairFades(s.records[a], s.records[b], t.records[a], t.records[b], s.snapshot, t.snapshot, now, later);
    }
  }

  lemma FadedOk(s: State, t: State, id: string)
    requires id in s.records && id in t.records && Ages(s, t) && Fades(s.records[id], t.records[id])
    requires RecordOk(id, s.records[id], s.snapshot)
    ensures RecordOk(id, t.records[id], t.snapshot)
  {
  }

  lemma MovedAges(s: State, t: State, now: int, step: Snapshots.Step)
    requires Exclusive(s, now) && t.snapshot == Moved(s.snapshot, step)
    ensures Ages(s, t)
  {
    hide PairOk, Descends, Snapshots.TauSnapshotCompatible, Moved;
    forall id | id in s.records && s.records[id].proposal.tau.Some?
      ensures var base := s.records[id].proposal.tau.value.base;
        && Descends(base, t.snapshot)
        && (Snapshots.TauSnapshotCompatible(Some(base), t.snapshot) ==>
              Snapshots.TauSnapshotCompatible(Some(base), s.snapshot))
    {
      assert RecordOk(id, s.records[id], s.snapshot);
      Descending(s.records[id].proposal.tau.value.base, s.snapshot, step);
    }
  }

  lemma SameAges(s: State, t: State, now: int)
    requires Exclusive(s, now) && t.snapshot == s.snapshot
    ensures Ages(s, t)
  {
    hide PairOk, Descends, Snapshots.TauSnapshotCompatible;
    forall id | id in s.records && s.records[id].proposal.tau.Some?
      ensures Descends(s.records[id].proposal.tau.value.base, t.snapshot)
    {
      assert RecordOk(id, s.records[id], s.snapshot);
    }
  }

  // ---- every step keeps it ----

  /** Queueing looks at the clock; `now` is any instant from that reading on. */
  lemma PutKeepsExclusive(s: State, now: int, p: Proposal, digest: string, reading: int, limits: Limits)
    requires Exclusive(s, now) && reading <= now
    ensures Exclusive(AfterPut(s, p, digest, reading, limits), now)
  {
    var t := AfterPut(s, p, digest, reading, limits);
    var stored := s.(snapshot := t.snapshot);
    if Admissible(s, p, reading, limits) { MovedAges(s, stored, now, Snapshots.Agency); } else { SameAges(s, stored, now); }
    FadingKeepsExclusive(s, stored, now, now);
    if Admissible(s, p, reading, limits) {
      forall id | id in s.records ensures PairOk(s.records[id], Record(p, digest, PENDING), t.snapshot, now) {
        MovedBack(s, now, id, Snapshots.Agency);
        NewIsAlone(s.records[id], p, digest, s.snapshot, t.snapshot, reading, now);
      }
      CompatibleDescends(p, s.snapshot);
      hide PairOk, Descends, Admissible, Snapshots.TauSnapshotCompatible, Moved;
      forall a, b | a in t.records && b in t.records && a != b
        ensures PairOk(t.records[a], t.records[b], t.snapshot, now)
      {
        if b == p.id { assert a in s.records; }
        else if a == p.id { PairSymmetric(t.records[b], t.records[a], t.snapshot, now); }
      }
    }
  }

  lemma PairSymmetric(a: Record, b: Record, current: Snapshot, now: int)
    requires PairOk(a, b, current, now)
    ensures PairOk(b, a, current, now)
  {
    hide Live;
  }

  lemma CompatibleDescends(p: Proposal, current: Snapshot)
    requires Compatible(p.tau, current)
    ensures p.tau.Some? ==> Descends(p.tau.value.base, Kept(current))
  {
  }

  lemma MovedBack(s: State, now: int, id: string, step: Snapshots.Step)
    requires Exclusive(s, now) && id in s.records
    ensures Compatible(s.records[id].proposal.tau, Moved(s.snapshot, step)) && s.records[id].proposal.tau.Some? ==>
      Compatible(s.records[id].proposal.tau, s.snapshot)
  {
    hide PairOk, Descends, Snapshots.TauSnapshotCompatible, Moved;
    assert RecordOk(id, s.records[id], s.snapshot);
    if s.records[id].proposal.tau.Some? { Descending(s.records[id].proposal.tau.value.base, s.snapshot, step); }
  }

  lemma NewIsAlone(r: Record, p: Proposal, digest: string, before: Snapshot, after: Snapshot, reading: int, now: int)
    requires !TauOpportunityBlocked(p, r, before, reading) && reading <= now
    requires r.proposal.tau.Some? && Compatible(r.proposal.tau, after) ==> Compatible(r.proposal.tau, before)
    ensures PairOk(r, Record(p, digest, PENDING), after, now)
  {
  }

  lemma SweptFades(r: Record, unresolved: set<(string, string)>, current: Snapshot, now: int)
    ensures Fades(r, Swept(r, unresolved, current, now))
    ensures Uncertain(Swept(r, unresolved, current, now)) <==> Uncertain(r)
    ensures Due(Swept(r, unresolved, current, now), now) ==> Open(r) && Swept(r, unresolved, current, now) == r
  {
  }

  lemma ClaimKeepsExclusive(s: State, now: int, consumer: string, reading: int, limit: nat, lease: int)
    requires Exclusive(s, now)
    ensures Exclusive(AfterClaim(s, consumer, reading, limit, lease), now)
  {
    hide PairOk, Descends, Swept, Snapshots.TauSnapshotCompatible, Moved;
    var t, unresolved := AfterClaim(s, consumer, reading, limit, lease), UnresolvedScopes(s.records);
    forall id | id in s.records ensures Fades(s.records[id], t.records[id]) {
      SweptFades(s.records[id], unresolved, s.snapshot, reading);
    }
    if t.snapshot == s.snapshot { SameAges(s, t, now); } else { MovedAges(s, t, now, Snapshots.Agency); }
    FadingKeepsExclusive(s, t, now, now);
  }

  lemma DeleteKeepsExclusive(s: State, now: int, deleted: set<string>, reading: int)
    requires Exclusive(s, now)
    ensures Exclusive(AfterDelete(s, deleted, reading), now)
  {
    hide PairOk, Descends, Snapshots.TauSnapshotCompatible, Moved;
    var t := AfterDelete(s, deleted, reading);
    if deleted == {} {
      SameAges(s, t, now);
    } else {
      MovedAges(s, t, now, Snapshots.Delete(exists id :: id in s.records && t.records[id] != s.records[id]));
    }
    FadingKeepsExclusive(s, t, now, now);
  }

  /** This call approves the proposal. */
  ghost predicate Approves(s: State, c: Call, id: string) {
    id in s.records && !Approved(s.records[id]) && id in After(s, c).records && Approved(After(s, c).records[id])
  }

  /** Only a consumer holding the lease of a live proposal can approve it, while its scope has nothing unresolved. */
  lemma ApprovalNeeds(s: State, c: Call, id: string)
    requires Approves(s, c, id) && Decides(c.step)
    ensures Approving(c.step) && c.step.id == id && After(s, c).snapshot == Kept(s.snapshot)
    ensures After(s, c).records == s.records[id := After(s, c).records[id]]
    ensures After(s, c).records[id].proposal == s.records[id].proposal && After(s, c).records[id].state.resolvedAt == c.now
    ensures Open(s.records[id]) && c.now < s.records[id].proposal.expiresAt && Compatible(s.records[id].proposal.tau, s.snapshot)
    ensures !Unresolved(s.records, s.records[id].proposal)
    ensures s.records[id].state.status.Claimed? && s.records[id].state.claimedBy == c.step.request.consumer
    ensures c.now < s.records[id].state.leaseUntil
  {
    hide Answered, AfterPut, AfterClaim, Compatible, Moved, Unresolved;
    match c.step
    case Put(p, digest, limits) => PutShape(s, p, digest, c.now, limits);
    case Claim(consumer, limit, lease) => ClaimedShape(s, consumer, c.now, limit, lease, id);
    case Resolve(_, request) =>
      var r := s.records[id];
      AnswerFacts(r, Unresolved(s.records, r.proposal), Compatible(r.proposal.tau, s.snapshot), request, c.now);
    case Delete(_) =>
    case Elsewhere(_) =>
  }

  lemma ResolveFades(s: State, id: string, request: Request, now: int, other: string)
    requires Decides(Resolve(id, request)) && other in s.records
    requires !Approves(s, Call(now, Resolve(id, request)), other)
    ensures other in AfterResolve(s, id, request, now).0.records
    ensures Fades(s.records[other], AfterResolve(s, id, request, now).0.records[other])
  {
    hide Answered, Compatible, Moved, Unresolved;
    var r := s.records[other];
    AnswerFacts(r, Unresolved(s.records, r.proposal), Compatible(r.proposal.tau, s.snapshot), request, now);
  }

  /** Nothing of the scope could still be approved within the cooldown of an approval at `at`, and every approval that
      stands is a cooldown away from it, before or after. */
  ghost predicate Clear(s: State, id: string, at: int, now: int)
    requires id in s.records
  {
    forall b :: b in s.records && b != id && SameScope(s.records[id].proposal, s.records[b].proposal) ==>
      ClearOf(s.records[b], at, Cooldown(s.records[id].proposal, s.records[b].proposal), s.snapshot, now)
  }

  predicate ClearOf(b: Record, at: int, cooldown: int, current: Snapshot, now: int) {
    && (Live(b, current, now) ==> at + cooldown <= now)
    && (Approved(b) ==> at + cooldown <= b.state.resolvedAt || b.state.resolvedAt + cooldown <= at)
  }

  /** Whatever this call approves is clear. */
  ghost predicate InTime(s: State, c: Call, now: int) { forall id :: Approves(s, c, id) ==> Clear(s, id, c.now, now) }

  lemma ResolveKeepsExclusiveIff(s: State, now: int, id: string, request: Request, reading: int)
    requires Exclusive(s, now) && Decides(Resolve(id, request))
    ensures Exclusive(AfterResolve(s, id, request, reading).0, now) <==> InTime(s, Call(reading, Resolve(id, request)), now)
  {
    hide PairOk, Descends, AfterResolve, Fades, Clear, Exclusive, Ages, Approves, Snapshots.TauSnapshotCompatible, Moved;
    var t, c := AfterResolve(s, id, request, reading).0, Call(reading, Resolve(id, request));
    ResolvedShape(s, id, request, reading);
    StepAges(s, now, c);
    if Approves(s, c, id) {
      ApprovalNeeds(s, c, id);
      ApprovesIs(s, c, id);
      ApprovalKeepsIff(s, t, now, id, reading);
      OnlyItsOwn(s, c);
    } else {
      OnlyItsOwn(s, c);
      forall other | other in s.records ensures Fades(s.records[other], t.records[other]) {
        ResolveFades(s, id, request, reading, other);
      }
      FadingKeepsExclusive(s, t, now, now);
    }
  }

  lemma ApprovesIs(s: State, c: Call, id: string)
    requires Approves(s, c, id)
    ensures id in s.records && id in After(s, c).records && Approved(After(s, c).records[id])
  {
    hide After, Approved;
  }

  /** A resolution approves no other proposal than its own. */
  lemma OnlyItsOwn(s: State, c: Call)
    requires c.step.Resolve? && Decides(c.step)
    ensures forall other :: Approves(s, c, other) ==> other == c.step.id
  {
    hide Approves, After, Moved;
    forall other | Approves(s, c, other) ensures other == c.step.id { ApprovalNeeds(s, c, other); }
  }

  lemma ResolvedShape(s: State, id: string, request: Request, now: int)
    ensures var t := AfterResolve(s, id, request, now).0;
      && (t.snapshot == s.snapshot || t.snapshot == Kept(s.snapshot)) && t.records.Keys == s.records.Keys
      && forall other :: other in s.records && other != id ==> t.records[other] == s.records[other]
  {
    hide Answered, Moved;
  }

  /** AN APPROVAL keeps exclusivity if and only if it is clear. */
  lemma ApprovalKeepsIff(s: State, t: State, now: int, id: string, at: int)
    requires Exclusive(s, now) && id in s.records && id in t.records && Ages(s, t) && t.snapshot == Kept(s.snapshot)
    requires t.records == s.records[id := t.records[id]] && t.records[id].proposal == s.records[id].proposal
    requires Approved(t.records[id]) && t.records[id].state.resolvedAt == at
    ensures Exclusive(t, now) <==> Clear(s, id, at, now)
  {
    hide PairOk, Descends, Fades, ClearOf, SameScope, Cooldown, Approved, Snapshots.TauSnapshotCompatible, Moved;
    var same := s.(snapshot := t.snapshot);
    StayedFades(s);
    FadingKeepsExclusive(s, same, now, now);
    forall b | b in s.records && b != id
      ensures PairOk(t.records[id], t.records[b], t.snapshot, now)
         <==> (SameScope(s.records[id].proposal, s.records[b].proposal) ==>
                 ClearOf(s.records[b], at, Cooldown(s.records[id].proposal, s.records[b].proposal), s.snapshot, now))
    {
      KeptLive(s, now, b);
      PairIsClear(t.records[id], s.records[b], s.snapshot, t.snapshot, now);
    }
    forall a | a in t.records ensures RecordOk(a, t.records[a], t.snapshot) { assert RecordOk(a, same.records[a], t.snapshot); }
    if Clear(s, id, at, now) {
      forall a, b | a in t.records && b in t.records && a != b ensures PairOk(t.records[a], t.records[b], t.snapshot, now) {
        if a == id { assert b in s.records; }
        else if b == id { PairSymmetric(t.records[b], t.records[a], t.snapshot, now); }
        else { assert PairOk(same.records[a], same.records[b], t.snapshot, now); }
      }
    }
  }

  lemma KeptLive(s: State, now: int, id: string)
    requires Exclusive(s, now) && id in s.records
    ensures Live(s.records[id], Kept(s.snapshot), now) <==> Live(s.records[id], s.snapshot, now)
  {
    hide PairOk, Descends, Snapshots.TauSnapshotCompatible, Moved;
    assert RecordOk(id, s.records[id], s.snapshot);
    if s.records[id].proposal.tau.Some? { Descending(s.records[id].proposal.tau.value.base, s.snapshot, Snapshots.Agency); }
  }

  lemma PairIsClear(r: Record, b: Record, before: Snapshot, after: Snapshot, now: int)
    requires Approved(r) && (Live(b, after, now) <==> Live(b, before, now))
    ensures PairOk(r, b, after, now)
       <==> (SameScope(r.proposal, b.proposal) ==>
               ClearOf(b, r.state.resolvedAt, Cooldown(r.proposal, b.proposal), before, now))
  {
    hide Compatible;
  }

  /** Every call, whatever its reading of the clock, keeps exclusivity if and only if what it approves is clear; only
      queueing must not be ahead of `now`. */
  lemma ExclusiveStep(s: State, now: int, c: Call)
    requires Exclusive(s, now) && Decides(c.step) && (c.step.Put? ==> c.now <= now)
    ensures Exclusive(After(s, c), now) <==> InTime(s, c, now)
  {
    hide AfterPut, AfterClaim, AfterResolve, AfterDelete, PairOk, Fades, Moved, Clear;
    if !c.step.Resolve? { OnlyResolving(s, c); }
    match c.step
    case Put(p, digest, limits) => PutKeepsExclusive(s, now, p, digest, c.now, limits);
    case Claim(consumer, limit, lease) => ClaimKeepsExclusive(s, now, consumer, c.now, limit, lease);
    case Resolve(id, request) => ResolveKeepsExclusiveIff(s, now, id, request, c.now);
    case Delete(deleted) => DeleteKeepsExclusive(s, now, deleted, c.now);
    case Elsewhere(step) =>
      MovedAges(s, After(s, c), now, step);
      StayedFades(s);
      FadingKeepsExclusive(s, After(s, c), now, now);
  }

  lemma OnlyResolving(s: State, c: Call)
    requires !c.step.Resolve? && Decides(c.step)
    ensures forall id :: !Approves(s, c, id)
  {
    hide Approves, After, Moved;
    forall id ensures !Approves(s, c, id) {
      if Approves(s, c, id) { ApprovalNeeds(s, c, id); }
    }
  }

  /** An approval that does not read an earlier time than `now` is clear. */
  lemma LateIsInTime(s: State, now: int, c: Call)
    requires Exclusive(s, now) && Decides(c.step) && now <= c.now
    ensures InTime(s, c, now)
  {
    hide After, Exclusive, Descends, Snapshots.TauSnapshotCompatible, Clear;
    forall id | Approves(s, c, id) ensures Clear(s, id, c.now, now) {
      ApprovalNeeds(s, c, id);
      ApprovesIs(s, c, id);
      LiveIsClear(s, now, id, c.now);
    }
  }

  lemma LiveIsClear(s: State, now: int, id: string, at: int)
    requires Exclusive(s, now) && now <= at && id in s.records
    requires Open(s.records[id]) && at < s.records[id].proposal.expiresAt && Compatible(s.records[id].proposal.tau, s.snapshot)
    ensures Clear(s, id, at, now)
  {
    hide Compatible, Descends;
    forall b | b in s.records && b != id && SameScope(s.records[id].proposal, s.records[b].proposal)
      ensures ClearOf(s.records[b], at, Cooldown(s.records[id].proposal, s.records[b].proposal), s.snapshot, now)
    {
      assert PairOk(s.records[id], s.records[b], s.snapshot, now);
    }
  }

  lemma StayedFades(s: State)
    ensures forall id :: id in s.records ==> Fades(s.records[id], s.records[id])
  {
  }

  predicate Approving(step: Step) { step.Resolve? && step.request.decision.Approved? }

  /** An approval reads a clock at most `d` behind any reading by which a proposal was queued before it. */
  predicate Lags(calls: seq<Call>, d: int) {
    forall i, j :: 0 <= i < j < |calls| && calls[i].step.Put? && Approving(calls[j].step) ==> calls[i].now <= calls[j].now + d
  }

  predicate QueuedBy(calls: seq<Call>, now: int) { forall i :: 0 <= i < |calls| && calls[i].step.Put? ==> calls[i].now <= now }

  /** ONE OPPORTUNITY AT A TIME. However the calls on the store interleave and whatever clocks they read, as long as no
      approval reads an earlier time than a queueing before it: never are two proposals of one session and target both
      able to be approved, and approvals that stand are a cooldown apart. */
  lemma {:induction false} RunIsExclusive(start: Snapshot, calls: seq<Call>, now: int)
    requires AllDecide(calls) && Lags(calls, 0) && QueuedBy(calls, now)
    ensures Exclusive(Run(start, calls), now)
    decreases |calls|
  {
    hide Exclusive, After, InTime;
    if calls == [] {
      NothingQueued(start, now);
    } else {
      var n := |calls| - 1;
      var s, c := Run(start, calls[..n]), calls[n];
      var at := if c.now < now && Approving(c.step) then c.now else now;
      RunIsExclusive(start, calls[..n], at);
      ExclusiveStep(s, at, c);
      if Approving(c.step) { LateIsInTime(s, at, c); } else { NothingApproved(s, c, at); }
      WaitingKeepsExclusive(Run(start, calls), at, now);
    }
  }

  lemma NothingApproved(s: State, c: Call, now: int)
    requires Decides(c.step) && !Approving(c.step)
    ensures InTime(s, c, now)
  {
    hide After, Clear, Approves, Moved;
    forall id ensures !Approves(s, c, id) {
      if Approves(s, c, id) { ApprovalNeeds(s, c, id); }
    }
  }

  /** The latest reading by which anything was queued. */
  function Latest(calls: seq<Call>, floor: int): int {
    if calls == [] then floor
    else
      var init, last := Latest(calls[..|calls| - 1], floor), calls[|calls| - 1];
      if last.step.Put? then MaxInt(init, last.now) else init
  }

  ghost predicate AlwaysExclusive(start: Snapshot, calls: seq<Call>, floor: int) {
    forall n :: 0 <= n <= |calls| ==> Exclusive(Run(start, calls[..n]), Latest(calls[..n], floor))
  }

  ghost predicate AlwaysInTime(start: Snapshot, calls: seq<Call>, floor: int) {
    forall n :: 0 <= n < |calls| ==> InTime(Run(start, calls[..n]), calls[n], Latest(calls[..n], floor))
  }

  /** EXACTLY WHEN, for any clocks at all: a run is exclusive throughout if and only if each of its approvals is clear
      when it happens. */
  lemma {:induction false} RunIsExclusiveIff(start: Snapshot, calls: seq<Call>, floor: int)
    requires AllDecide(calls)
    ensures AlwaysExclusive(start, calls, floor) <==> AlwaysInTime(start, calls, floor)
    decreases |calls|
  {
    hide Exclusive, After, InTime, Run, Latest;
    if calls == [] {
      assert calls[..0] == [];
      EmptyRun(start, floor);
    } else {
      var n := |calls| - 1;
      var init := calls[..n];
      assert calls[..n + 1] == calls;
      assert forall k :: 0 <= k <= n ==> init[..k] == calls[..k];
      RunIsExclusiveIff(start, init, floor);
      assert AlwaysExclusive(start, calls, floor)
        <==> AlwaysExclusive(start, init, floor) && Exclusive(Run(start, calls), Latest(calls, floor));
      assert AlwaysInTime(start, calls, floor)
        <==> AlwaysInTime(start, init, floor) && InTime(Run(start, init), calls[n], Latest(init, floor));
      if AlwaysExclusive(start, init, floor) {
        assert Exclusive(Run(start, init[..n]), Latest(init[..n], floor)) && init[..n] == init;
        LastStep(start, calls, floor);
      }
    }
  }

  lemma EmptyRun(start: Snapshot, floor: int)
    ensures Exclusive(Run(start, []), Latest([], floor))
  {
  }

  lemma LastStep(start: Snapshot, calls: seq<Call>, floor: int)
    requires AllDecide(calls) && calls != []
    requires Exclusive(Run(start, calls[..|calls| - 1]), Latest(calls[..|calls| - 1], floor))
    ensures Exclusive(Run(start, calls), Latest(calls, floor))
       <==> InTime(Run(start, calls[..|calls| - 1]), calls[|calls| - 1], Latest(calls[..|calls| - 1], floor))
  {
    hide Exclusive, After, InTime;
    var n := |calls| - 1;
    var s, c := Run(start, calls[..n]), calls[n];
    if c.step.Put? {
      WaitingKeepsExclusive(s, Latest(calls[..n], floor), Latest(calls, floor));
      NothingApproved(s, c, Latest(calls[..n], floor));
      NothingApproved(s, c, Latest(calls, floor));
    }
    ExclusiveStep(s, Latest(calls, floor), c);
  }

  lemma NothingQueued(start: Snapshot, now: int)
    ensures Exclusive(State(map[], start), now)
  {
  }

  lemma WaitingKeepsExclusive(s: State, now: int, later: int)
    requires Exclusive(s, now) && now <= later
    ensures Exclusive(s, later)
  {
    SameAges(s, s, now);
    StayedFades(s);
    FadingKeepsExclusive(s, s, now, later);
  }

  // ---- what a new approval can count on ----

  /** What stands beside a proposal being approved: nothing uncertain, nothing else live, and every standing approval a
      cooldown past. */
  ghost predicate Fenced(s: State, id: string, now: int)
    requires id in s.records
  {
    forall other :: other in s.records && other != id && SameScope(s.records[other].proposal, s.records[id].proposal) ==>
      !Uncertain(s.records[other]) && !Live(s.records[other], s.snapshot, now)
      && (Approved(s.records[other]) ==>
            s.records[other].state.resolvedAt + Cooldown(s.records[other].proposal, s.records[id].proposal) <= now)
  }

  lemma ApprovalIsFenced(s: State, now: int, c: Call, id: string)
    requires Exclusive(s, now) && now <= c.now && Approves(s, c, id) && Decides(c.step)
    ensures Fenced(s, id, c.now)
  {
    hide After, Descends, Moved, Snapshots.TauSnapshotCompatible;
    assert RecordOk(id, s.records[id], s.snapshot);
    ApprovalNeeds(s, c, id);
    forall other | other in s.records && other != id && SameScope(s.records[other].proposal, s.records[id].proposal)
      ensures !Uncertain(s.records[other]) && !Live(s.records[other], s.snapshot, c.now)
      ensures Approved(s.records[other]) ==>
        s.records[other].state.resolvedAt + Cooldown(s.records[other].proposal, s.records[id].proposal) <= c.now
    {
      assert PairOk(s.records[other], s.records[id], s.snapshot, now);
    }
  }

  /** What becomes of a proposal approved at `at`: the approval stands, or its execution is in doubt, or was cancelled. */
  predicate SinceApproval(r: Record, p: Proposal, at: int) {
    r.proposal == p && ((Approved(r) && r.state.resolvedAt == at) || Uncertain(r) || r.state.status.Rejected?)
  }

  lemma SinceApprovalStep(s: State, c: Call, id: string, p: Proposal, at: int)
    requires id in s.records && SinceApproval(s.records[id], p, at) && Decides(c.step)
    ensures id in After(s, c).records && SinceApproval(After(s, c).records[id], p, at)
  {
    hide AfterClaim, AfterResolve, Moved, Admissible;
    match c.step
    case Put(p', digest, limits) => PutShape(s, p', digest, c.now, limits);
    case Claim(consumer, limit, lease) => ClosedStays(s, consumer, c.now, limit, lease, id);
    case Resolve(other, request) => ResolvedSince(s, other, request, c.now, id, p, at);
    case Delete(_) =>
    case Elsewhere(_) =>
  }

  lemma PutShape(s: State, p: Proposal, digest: string, now: int, limits: Limits)
    ensures forall id :: id in s.records ==>
      id in AfterPut(s, p, digest, now, limits).records && AfterPut(s, p, digest, now, limits).records[id] == s.records[id]
  {
    hide Compatible, ForecastClash, TauOpportunityBlocked, ValidParent, InChain, Waiting, Moved;
  }

  lemma ResolvedSince(s: State, id: string, request: Request, now: int, other: string, p: Proposal, at: int)
    requires other in s.records && SinceApproval(s.records[other], p, at) && Decides(Resolve(id, request))
    ensures other in AfterResolve(s, id, request, now).0.records
    ensures SinceApproval(AfterResolve(s, id, request, now).0.records[other], p, at)
  {
    hide Answered, Compatible, Moved, Unresolved;
    var r := s.records[other];
    AnswerFacts(r, Unresolved(s.records, r.proposal), Compatible(r.proposal.tau, s.snapshot), request, now);
  }

  lemma ClosedStays(s: State, consumer: string, now: int, limit: nat, lease: int, id: string)
    requires id in s.records && !Open(s.records[id])
    ensures id in AfterClaim(s, consumer, now, limit, lease).records
    ensures AfterClaim(s, consumer, now, limit, lease).records[id] == s.records[id]
  {
    hide Moved, Ahead, Handed;
    SweptFades(s.records[id], UnresolvedScopes(s.records), s.snapshot, now);
  }

  lemma {:induction false} ApprovalLeaves(start: Snapshot, calls: seq<Call>, i: nat, id: string)
    requires AllDecide(calls) && i < |calls| && Approves(Run(start, calls[..i]), calls[i], id)
    ensures id in Run(start, calls).records
    ensures SinceApproval(Run(start, calls).records[id], Run(start, calls[..i]).records[id].proposal, calls[i].now)
    decreases |calls|
  {
    hide After, SinceApproval;
    var n := |calls| - 1;
    if i == n {
      ApprovalNeeds(Run(start, calls[..n]), calls[n], id);
      ApprovedSince(After(Run(start, calls[..n]), calls[n]).records[id], calls[n].now);
    } else {
      assert calls[..n][..i] == calls[..i];
      ApprovalLeaves(start, calls[..n], i, id);
      SinceApprovalStep(Run(start, calls[..n]), calls[n], id, Run(start, calls[..i]).records[id].proposal, calls[i].now);
    }
  }

  lemma ApprovedSince(r: Record, at: int)
    requires Approved(r) && r.state.resolvedAt == at
    ensures SinceApproval(r, r.proposal, at)
  {
  }

  /** COOLDOWN. Over any run, of two approvals in one scope the later comes a full cooldown after the earlier, unless the
      earlier one's execution has been cancelled in between. */
  lemma CooldownUnlessCancelled(start: Snapshot, calls: seq<Call>, i: nat, j: nat, a: string, b: string)
    requires AllDecide(calls) && Lags(calls, 0) && i < j < |calls|
    requires Approves(Run(start, calls[..i]), calls[i], a) && Approves(Run(start, calls[..j]), calls[j], b)
    requires SameScope(Run(start, calls[..i]).records[a].proposal, Run(start, calls[..j]).records[b].proposal)
    ensures a in Run(start, calls[..j]).records
    ensures var first, second := Run(start, calls[..i]).records[a].proposal, Run(start, calls[..j]).records[b].proposal;
      || calls[i].now + Cooldown(first, second) <= calls[j].now
      || Run(start, calls[..j]).records[a].state.status.Rejected?
  {
    hide Run, After, PairOk, Descends, Lags, QueuedBy;
    var s := Run(start, calls[..j]);
    assert calls[..j][..i] == calls[..i];
    ApprovalNeeds(Run(start, calls[..i]), calls[i], a);
    ApprovalNeeds(s, calls[j], b);
    QueuedBefore(calls, i);
    QueuedBefore(calls, j);
    RunIsExclusive(start, calls[..i], calls[i].now);
    RunIsExclusive(start, calls[..j], calls[j].now);
    ApprovalLeaves(start, calls[..j], i, a);
    if a != b { ApprovalIsFenced(s, calls[j].now, calls[j], b); }
  }

  lemma QueuedBefore(calls: seq<Call>, j: nat)
    requires Lags(calls, 0) && j < |calls| && Approving(calls[j].step)
    ensures Lags(calls[..j], 0) && QueuedBy(calls[..j], calls[j].now)
  {
    assert forall i :: 0 <= i < j ==> calls[..j][i] == calls[i];
  }

  // ---- leases ----

  /** EXACTLY WHEN a resolution approves: decided so by the consumer whose lease runs, on a proposal neither expired nor
      overtaken, whose scope has nothing unresolved. */
  lemma ApprovesIff(s: State, id: string, request: Request, now: int)
    requires Decides(Resolve(id, request))
    ensures Approves(s, Call(now, Resolve(id, request)), id)
       <==> && id in s.records && request.decision.Approved? && s.records[id].state.status.Claimed?
            && s.records[id].state.claimedBy == request.consumer && now < s.records[id].state.leaseUntil
            && now < s.records[id].proposal.expiresAt && Compatible(s.records[id].proposal.tau, s.snapshot)
            && forall other :: other in s.records && Uncertain(s.records[other]) ==>
                 !SameScope(s.records[other].proposal, s.records[id].proposal)
  {
    hide After, AfterResolve, Compatible, SameScope;
    var c := Call(now, Resolve(id, request));
    if Approves(s, c, id) { ApprovalNeeds(s, c, id); }
    if id in s.records && request.decision.Approved? && Leased(s.records[id], request.consumer, now)
       && now < s.records[id].proposal.expiresAt && Compatible(s.records[id].proposal.tau, s.snapshot)
       && !Unresolved(s.records, s.records[id].proposal) {
      ApprovalWorks(s, id, request, now);
    }
  }

  /** This call hands the proposal out. */
  ghost predicate HandsOut(s: State, c: Call, id: string) { c.step.Claim? && id in Winners(s, c.now, c.step.limit) }

  /** A lease is that of the call that handed the proposal out, or the one there was. */
  lemma LeaseStep(s: State, c: Call, id: string)
    requires Decides(c.step) && id in After(s, c).records && After(s, c).records[id].state.status.Claimed?
    ensures var r := After(s, c).records[id].state;
      if HandsOut(s, c, id) then r.claimedBy == c.step.consumer && r.leaseUntil == c.now + c.step.lease
      else id in s.records && s.records[id].state.status.Claimed? && s.records[id].state.claimedBy == r.claimedBy
           && s.records[id].state.leaseUntil == r.leaseUntil
  {
    hide Answered, AfterClaim, Compatible, Moved, Unresolved, Winners, Admissible, UnresolvedScopes;
    match c.step
    case Put(p, digest, limits) => PutShape(s, p, digest, c.now, limits);
    case Claim(consumer, limit, lease) =>
      SameKeys(s, consumer, c.now, limit, lease);
      ClaimedIs(s, consumer, c.now, limit, lease, id);
    case Resolve(_, request) =>
      var r := s.records[id];
      AnswerFacts(r, Unresolved(s.records, r.proposal), Compatible(r.proposal.tau, s.snapshot), request, c.now);
    case Delete(_) =>
    case Elsewhere(_) =>
  }

  /** The `i`-th call handed the proposal to this consumer until then, and no call since handed it to anyone. */
  ghost predicate LastHandedOut(start: Snapshot, calls: seq<Call>, i: nat, id: string, consumer: string, until: int) {
    && i < |calls| && HandsOut(Run(start, calls[..i]), calls[i], id)
    && calls[i].step.Claim? && calls[i].step.consumer == consumer && calls[i].now + calls[i].step.lease == until
    && forall k :: i < k < |calls| ==> !HandsOut(Run(start, calls[..k]), calls[k], id)
  }

  lemma {:induction false} LeaseIsHandedOut(start: Snapshot, calls: seq<Call>, id: string) returns (i: nat)
    requires AllDecide(calls) && id in Run(start, calls).records && Run(start, calls).records[id].state.status.Claimed?
    ensures var r := Run(start, calls).records[id].state;
      LastHandedOut(start, calls, i, id, r.claimedBy, r.leaseUntil)
    decreases |calls|
  {
    hide After, HandsOut;
    var n := |calls| - 1;
    var s, c := Run(start, calls[..n]), calls[n];
    LeaseStep(s, c, id);
    if HandsOut(s, c, id) {
      i := n;
      HandsIs(s, c, id);
    } else {
      i := LeaseIsHandedOut(start, calls[..n], id);
      assert calls[..n][..i] == calls[..i];
      forall k | i < k < |calls| ensures !HandsOut(Run(start, calls[..k]), calls[k], id) {
        if k < n { assert calls[..n][..k] == calls[..k]; }
      }
    }
  }

  lemma HandsIs(s: State, c: Call, id: string)
    requires HandsOut(s, c, id)
    ensures c.step.Claim?
  {
  }

  /** BY ITS LEASE HOLDER ALONE. In every run an approved proposal was handed to the very consumer that approves it, was
      handed to nobody since, and is approved by a reading before that lease ends. */
  lemma ApprovalIsLeased(start: Snapshot, calls: seq<Call>, j: nat, id: string) returns (i: nat)
    requires AllDecide(calls) && j < |calls| && Approves(Run(start, calls[..j]), calls[j], id)
    ensures i < j && HandsOut(Run(start, calls[..i]), calls[i], id) && calls[i].step.Claim? && calls[j].step.Resolve?
    ensures calls[i].step.consumer == calls[j].step.request.consumer && calls[j].now < calls[i].now + calls[i].step.lease
    ensures forall k :: i < k < j ==> !HandsOut(Run(start, calls[..k]), calls[k], id)
  {
    hide Run, After, HandsOut;
    ApprovalNeeds(Run(start, calls[..j]), calls[j], id);
    i := LeaseIsHandedOut(start, calls[..j], id);
    assert calls[..j][..i] == calls[..i];
    forall k | i < k < j ensures !HandsOut(Run(start, calls[..k]), calls[k], id) { assert calls[..j][..k] == calls[..k]; }
  }

  // ---- uncertain executions ----

  /** No live proposal shares its scope with an uncertain execution. */
  ghost predicate NoneBeside(s: State, now: int) {
    forall a, b :: a in s.records && b in s.records && SameScope(s.records[a].proposal, s.records[b].proposal) ==>
      !(Uncertain(s.records[a]) && Live(s.records[b], s.snapshot, now))
  }

  /** Only a report can put the two side by side. */
  lemma BesideNeedsReport(s: State, now: int, c: Call, later: int)
    requires Exclusive(s, now) && now <= later && Decides(c.step) && NoneBeside(s, now)
    requires c.step.Resolve? ==> !c.step.request.decision.Uncertain?
    ensures NoneBeside(After(s, c), later)
  {
    hide After, PairOk, Descends, Live, Snapshots.TauSnapshotCompatible;
    var t := After(s, c);
    forall a, b | a in t.records && b in t.records && SameScope(t.records[a].proposal, t.records[b].proposal)
      ensures !(Uncertain(t.records[a]) && Live(t.records[b], t.snapshot, later))
    {
      if Uncertain(t.records[a]) && Live(t.records[b], t.snapshot, later) {
        DoubtIsOld(s, c, a);
        if b in s.records {
          LifeIsOld(s, now, c, b, later);
        } else {
          NewIsUnblocked(s, now, c, a, b);
        }
      }
    }
  }

  lemma DoubtIsOld(s: State, c: Call, id: string)
    requires id in After(s, c).records && Uncertain(After(s, c).records[id])
    requires Decides(c.step) && (c.step.Resolve? ==> !c.step.request.decision.Uncertain?)
    ensures id in s.records && Uncertain(s.records[id]) && After(s, c).records[id].proposal == s.records[id].proposal
  {
    hide Answered, AfterClaim, Compatible, Moved, Unresolved, Admissible;
    match c.step
    case Put(p, digest, limits) => PutShape(s, p, digest, c.now, limits);
    case Claim(consumer, limit, lease) =>
      SameKeys(s, consumer, c.now, limit, lease);
      ClaimedShape(s, consumer, c.now, limit, lease, id);
    case Resolve(_, request) =>
      var r := s.records[id];
      AnswerFacts(r, Unresolved(s.records, r.proposal), Compatible(r.proposal.tau, s.snapshot), request, c.now);
    case Delete(_) =>
    case Elsewhere(_) =>
  }

  lemma SameKeys(s: State, consumer: string, now: int, limit: nat, lease: int)
    ensures AfterClaim(s, consumer, now, limit, lease).records.Keys == s.records.Keys
  {
    hide Winners, Swept, UnresolvedScopes, Moved;
  }

  lemma LifeIsOld(s: State, now: int, c: Call, id: string, later: int)
    requires Exclusive(s, now) && now <= later && Decides(c.step) && id in s.records && id in After(s, c).records
    requires Live(After(s, c).records[id], After(s, c).snapshot, later)
    ensures Live(s.records[id], s.snapshot, now) && After(s, c).records[id].proposal == s.records[id].proposal
  {
    hide After, PairOk, Descends, Snapshots.TauSnapshotCompatible;
    var t := After(s, c);
    StepShape(s, now, c, id);
  }

  lemma StepShape(s: State, now: int, c: Call, id: string)
    requires Exclusive(s, now) && Decides(c.step) && id in s.records
    ensures Ages(s, After(s, c)) && id in After(s, c).records
    ensures After(s, c).records[id].proposal == s.records[id].proposal
    ensures Open(After(s, c).records[id]) ==> Open(s.records[id])
  {
    hide AfterPut, AfterClaim, AfterResolve, Moved, Exclusive, Ages;
    StepAges(s, now, c);
    match c.step
    case Put(p, digest, limits) => PutShape(s, p, digest, c.now, limits);
    case Claim(consumer, limit, lease) => ClaimedShape(s, consumer, c.now, limit, lease, id);
    case Resolve(other, request) => ResolvedOpen(s, other, request, c.now, id);
    case Delete(_) =>
    case Elsewhere(_) =>
  }

  lemma StepAges(s: State, now: int, c: Call)
    requires Exclusive(s, now)
    ensures Ages(s, After(s, c))
  {
    hide Exclusive, Ages, Moved, Admissible, Winners, Swept, UnresolvedScopes, AfterResolve;
    var t := After(s, c);
    if c.step.Resolve? { ResolvedShape(s, c.step.id, c.step.request, c.now); }
    if t.snapshot == s.snapshot { SameAges(s, t, now); }
    else if c.step.Elsewhere? { MovedAges(s, t, now, c.step.step); }
    else if c.step.Delete? {
      var after := map k | k in s.records :: Undone(s.records[k], c.step.deleted, c.now);
      MovedAges(s, t, now, Snapshots.Delete(after != s.records));
    } else {
      MovedAges(s, t, now, Snapshots.Agency);
    }
  }

  lemma ClaimedShape(s: State, consumer: string, now: int, limit: nat, lease: int, id: string)
    requires id in s.records
    ensures var t := AfterClaim(s, consumer, now, limit, lease);
      && id in t.records && t.records[id].proposal == s.records[id].proposal
      && (Open(t.records[id]) ==> Open(s.records[id])) && (Approved(t.records[id]) ==> Approved(s.records[id]))
      && (Uncertain(t.records[id]) ==> Uncertain(s.records[id]))
  {
    hide Moved, Ahead, Swept;
    SweptFades(s.records[id], UnresolvedScopes(s.records), s.snapshot, now);
  }

  lemma ResolvedOpen(s: State, id: string, request: Request, now: int, other: string)
    requires other in s.records && Decides(Resolve(id, request))
    ensures var t := AfterResolve(s, id, request, now).0;
      && other in t.records && t.records[other].proposal == s.records[other].proposal
      && (Open(t.records[other]) ==> Open(s.records[other]))
  {
    hide Answered, Compatible, Moved, Unresolved;
    var r := s.records[other];
    AnswerFacts(r, Unresolved(s.records, r.proposal), Compatible(r.proposal.tau, s.snapshot), request, now);
  }

  lemma NewIsUnblocked(s: State, now: int, c: Call, a: string, b: string)
    requires a in s.records && Uncertain(s.records[a]) && b !in s.records && b in After(s, c).records
    ensures !SameScope(After(s, c).records[a].proposal, After(s, c).records[b].proposal)
  {
    hide Snapshots.TauSnapshotCompatible, Moved, Winners, Unresolved, TauHandles.Covers, Compatible, UnresolvedScopes;
  }

  /** A report puts them side by side exactly when it is accepted while another proposal of its scope is live. */
  lemma ReportIsBesideIff(s: State, now: int, id: string, request: Request, reading: int, later: int)
    requires Exclusive(s, now) && now <= later && NoneBeside(s, now) && request.decision.Uncertain?
    requires AfterResolve(s, id, request, reading).1.Resolved?
    ensures NoneBeside(AfterResolve(s, id, request, reading).0, later) <==> NoneLiveBeside(s, id, later)
  {
    hide AfterResolve, PairOk, Descends, Live, Open, Uncertain, Compatible, Moved;
    ReportShape(s, id, request, reading);
    var c, t := Call(reading, Resolve(id, request)), AfterResolve(s, id, request, reading).0;
    assert After(s, c) == t;
    if NoneLiveBeside(s, id, later) {
      forall a, b | a in t.records && b in t.records && SameScope(t.records[a].proposal, t.records[b].proposal)
        ensures !(Uncertain(t.records[a]) && Live(t.records[b], t.snapshot, later))
      {
        if b == id { UncertainIsNotLive(t.records[b], t.snapshot, later); }
        else if a != id && Live(t.records[b], t.snapshot, later) { LifeIsOld(s, now, c, b, later); }
      }
    } else {
      var b :| b in s.records && b != id && SameScope(s.records[id].proposal, s.records[b].proposal)
               && Live(s.records[b], Kept(s.snapshot), later);
      assert t.records[b] == s.records[b];
    }
  }

  lemma ReportShape(s: State, id: string, request: Request, now: int)
    requires request.decision.Uncertain? && AfterResolve(s, id, request, now).1.Resolved?
    ensures var t := AfterResolve(s, id, request, now).0;
      && id in s.records && id in t.records && t.snapshot == Kept(s.snapshot) && t.records == s.records[id := t.records[id]]
      && Uncertain(t.records[id]) && t.records[id].proposal == s.records[id].proposal
  {
    hide Answered, Compatible, Moved, Unresolved;
    var r := s.records[id];
    AnswerFacts(r, Unresolved(s.records, r.proposal), Compatible(r.proposal.tau, s.snapshot), request, now);
  }

  lemma UncertainIsNotLive(r: Record, current: Snapshot, now: int)
    requires Uncertain(r)
    ensures !Live(r, current, now)
  {
  }

  /** Nothing else of this scope could still be approved. */
  ghost predicate NoneLiveBeside(s: State, id: string, now: int)
    requires id in s.records
  {
    forall b :: b in s.records && b != id && SameScope(s.records[id].proposal, s.records[b].proposal) ==>
      !Live(s.records[b], Kept(s.snapshot), now)
  }

  /** Handing out puts an end to it: afterwards no open proposal shares its scope with an uncertain execution, and every
      one handed out is live. */
  lemma ClaimClears(s: State, consumer: string, now: int, limit: nat, lease: int, a: string, b: string)
    requires a in s.records && b in s.records
    ensures var t := AfterClaim(s, consumer, now, limit, lease);
      && a in t.records && b in t.records
      && (Uncertain(t.records[a]) && SameScope(t.records[a].proposal, t.records[b].proposal) ==> !Open(t.records[b]))
      && (b in Winners(s, now, limit) && t.records[b].proposal.tau.Some? ==> Live(t.records[b], s.snapshot, now))
  {
    hide Moved, Ahead, Compatible, UnresolvedScopes, AfterClaim;
    ClaimedShape(s, consumer, now, limit, lease, a);
    ClaimedShape(s, consumer, now, limit, lease, b);
    ClaimedIs(s, consumer, now, limit, lease, b);
    if Uncertain(s.records[a]) && SameScope(s.records[a].proposal, s.records[b].proposal) {
      ScopeIsUnresolved(s.records, a, b);
    }
  }

  lemma ScopeIsUnresolved(records: Records, a: string, b: string)
    requires a in records && b in records && Uncertain(records[a]) && SameScope(records[a].proposal, records[b].proposal)
    ensures ScopeOf(records[b].proposal) in UnresolvedScopes(records)
  {
    assert ScopeOf(records[a].proposal) == ScopeOf(records[b].proposal);
  }

  lemma ClaimedIs(s: State, consumer: string, now: int, limit: nat, lease: int, id: string)
    requires id in s.records
    ensures var t, swept := AfterClaim(s, consumer, now, limit, lease),
                            Swept(s.records[id], UnresolvedScopes(s.records), s.snapshot, now);
      && id in t.records && t.records[id] == (if id in Winners(s, now, limit) then Handed(swept, consumer, now + lease) else swept)
      && (id in Winners(s, now, limit) ==> Due(swept, now))
  {
    hide Moved, Ahead, Swept, UnresolvedScopes;
  }

  // ---- clocks ----

  lemma ApprovalWorks(s: State, id: string, request: Request, now: int)
    requires id in s.records && s.records[id].state.status.Claimed? && s.records[id].state.claimedBy == request.consumer
    requires request.decision.Approved? && now < s.records[id].state.leaseUntil && now < s.records[id].proposal.expiresAt
    requires !Unresolved(s.records, s.records[id].proposal) && Compatible(s.records[id].proposal.tau, s.snapshot)
    ensures var c := Call(now, Resolve(id, request));
      && After(s, c) == State(s.records[id := Released(Decided(s.records[id], request, now))], Kept(s.snapshot))
      && Approves(s, c, id)
  {
    hide Compatible, Moved, Unresolved;
  }

  /** THE CLOCK MATTERS. Let a second proposal of the scope be queued by a reading at which the first has expired, and
      then a consumer that read an earlier time approve the first: the approval goes through, and the store stays
      exclusive if and only if the whole cooldown lies between the two readings. */
  lemma ClockGoingBackLetsTwoIn(s: State, id: string, p: Proposal, digest: string, limits: Limits, request: Request,
                                early: int, late: int)
    requires id in s.records && s.records[id].state.status.Claimed? && s.records[id].state.claimedBy == request.consumer
    requires request.decision.Approved? && early < s.records[id].state.leaseUntil && early < s.records[id].proposal.expiresAt
    requires !Unresolved(s.records, s.records[id].proposal) && Compatible(s.records[id].proposal.tau, s.snapshot)
    requires Admissible(s, p, late, limits) && SameScope(p, s.records[id].proposal) && late < p.expiresAt
    ensures var t := After(After(s, Call(late, Put(p, digest, limits))), Call(early, Resolve(id, request)));
      && Approved(t.records[id]) && t.records[id].state.resolvedAt == early && Live(t.records[p.id], t.snapshot, late)
      && (late < early + Cooldown(s.records[id].proposal, p) ==> !Exclusive(t, late))
      && (Exclusive(s, early) && early <= late ==>
            (Exclusive(t, late) <==> early + Cooldown(s.records[id].proposal, p) <= late))
  {
    hide Compatible, Unresolved, Exclusive, PairOk, Clear, InTime, Admissible, Moved, Descends;
    var q, c := After(s, Call(late, Put(p, digest, limits))), Call(early, Resolve(id, request));
    QueuedBeside(s, id, p, digest, late, limits);
    ApprovalWorks(q, id, request, early);
    var t := After(q, c);
    StandsBesideLive(t, id, p.id, late);
    if Exclusive(s, early) && early <= late {
      WaitingKeepsExclusive(s, early, late);
      PutKeepsExclusive(s, late, p, digest, late, limits);
      ApprovedOnly(q, c, id);
      ExclusiveStep(q, late, c);
      if early + Cooldown(s.records[id].proposal, p) <= late { ClearBeside(s, q, id, p, early, late); }
    }
  }

  /** The proposal queued is live, and the other is as it was. */
  lemma QueuedBeside(s: State, id: string, p: Proposal, digest: string, late: int, limits: Limits)
    requires id in s.records && Admissible(s, p, late, limits) && SameScope(p, s.records[id].proposal) && late < p.expiresAt
    requires !Unresolved(s.records, s.records[id].proposal) && Compatible(s.records[id].proposal.tau, s.snapshot)
    ensures var q := After(s, Call(late, Put(p, digest, limits)));
      && p.id !in s.records && q == State(s.records[p.id := Record(p, digest, PENDING)], Kept(s.snapshot))
      && Live(q.records[p.id], q.snapshot, late) && Live(q.records[p.id], Kept(q.snapshot), late)
      && !Unresolved(q.records, s.records[id].proposal) && Compatible(s.records[id].proposal.tau, q.snapshot)
  {
    hide TauOpportunityBlocked, ForecastClash, InChain, Waiting, ValidParent;
  }

  lemma StandsBesideLive(t: State, id: string, other: string, now: int)
    requires id in t.records && other in t.records && id != other && SameScope(t.records[id].proposal, t.records[other].proposal)
    requires Approved(t.records[id]) && Live(t.records[other], t.snapshot, now)
    ensures Exclusive(t, now) ==>
      t.records[id].state.resolvedAt + Cooldown(t.records[id].proposal, t.records[other].proposal) <= now
  {
    hide Live, Descends;
    if Exclusive(t, now) { assert PairOk(t.records[id], t.records[other], t.snapshot, now); }
  }

  lemma ApprovedOnly(s: State, c: Call, id: string)
    requires Approves(s, c, id) && c.step.Resolve? && Decides(c.step)
    ensures forall now :: InTime(s, c, now) <==> Clear(s, id, c.now, now)
  {
    hide After, Clear;
    OnlyItsOwn(s, c);
    ApprovesIs(s, c, id);
  }

  lemma ClearBeside(s: State, q: State, id: string, p: Proposal, early: int, late: int)
    requires Exclusive(s, early) && early <= late && id in s.records && p.id !in s.records && p.id in q.records
    requires Open(s.records[id]) && early < s.records[id].proposal.expiresAt && Compatible(s.records[id].proposal.tau, s.snapshot)
    requires q.records == s.records[p.id := q.records[p.id]] && q.records[p.id].proposal == p && Open(q.records[p.id])
    requires q.snapshot == Kept(s.snapshot) && SameScope(p, s.records[id].proposal)
    requires early + Cooldown(s.records[id].proposal, p) <= late
    ensures Clear(q, id, early, late)
  {
    hide Descends, Compatible, Moved;
    forall b | b in q.records && b != id && SameScope(q.records[id].proposal, q.records[b].proposal)
      ensures ClearOf(q.records[b], early, Cooldown(q.records[id].proposal, q.records[b].proposal), q.snapshot, late)
    {
      if b in s.records {
        assert PairOk(s.records[id], s.records[b], s.snapshot, early);
        KeptLive(s, early, b);
      }
    }
  }

  /** Under any clocks: of two approvals in one scope, the later one clear, the readings are a cooldown apart, one way or
      the other, unless the earlier one's execution has been cancelled in between. */
  lemma ApartUnlessCancelled(start: Snapshot, calls: seq<Call>, i: nat, j: nat, a: string, b: string, now: int)
    requires AllDecide(calls) && i < j < |calls| && a != b
    requires Approves(Run(start, calls[..i]), calls[i], a) && Approves(Run(start, calls[..j]), calls[j], b)
    requires SameScope(Run(start, calls[..i]).records[a].proposal, Run(start, calls[..j]).records[b].proposal)
    requires InTime(Run(start, calls[..j]), calls[j], now)
    ensures a in Run(start, calls[..j]).records
    ensures var first, second := Run(start, calls[..i]).records[a].proposal, Run(start, calls[..j]).records[b].proposal;
      || calls[i].now + Cooldown(first, second) <= calls[j].now || calls[j].now + Cooldown(first, second) <= calls[i].now
      || Run(start, calls[..j]).records[a].state.status.Rejected?
  {
    hide Run, After, Live, Compatible;
    var s := Run(start, calls[..j]);
    assert calls[..j][..i] == calls[..i];
    ApprovalLeaves(start, calls[..j], i, a);
    ApprovalNeeds(s, calls[j], b);
    assert Clear(s, b, calls[j].now, now);
    assert ClearOf(s.records[a], calls[j].now, Cooldown(s.records[b].proposal, s.records[a].proposal), s.snapshot, now);
  }

  // ---- runs that show what is needed ----

  /** Two turns of one session and target with a cooldown of a millisecond. */
  function Turn(id: string, base: Snapshot, expiresAt: int): Proposal {
    Proposal(id, "session", [], id, "", 0, 0.0, 0, expiresAt, Some(Tau("target", "forecast", "digest", base, 1)))
  }

  const WIDE := Limits(10, 10, {})

  function Ask(p: Proposal): Step { Put(p, "", WIDE) }

  const HAND := Claim("consumer", 10, 100)

  function Report(id: string, decision: TauHandles.Status): Step {
    Resolve(id, Request("consumer", decision, "", "reference", []))
  }

  lemma RunNext(start: Snapshot, calls: seq<Call>, c: Call)
    ensures Run(start, calls + [c]) == After(Run(start, calls), c)
  {
    hide After;
    assert (calls + [c])[..|calls|] == calls;
  }

  /** Nothing stands in the way of a new root proposal when every other is closed or expired, certain, and a cooldown
      past. */
  lemma AskWorks(s: State, p: Proposal, now: int)
    requires p.id !in s.records && p.depth == 0 && p.parent == "" && p.evidence == [] && Compatible(p.tau, s.snapshot)
    requires forall id :: id in s.records ==> s.records[id].proposal.chain != p.chain && !Counts(s.records[id], now)
    requires forall id :: id in s.records ==>
      !ForecastClash(p, s.records[id]) && !TauOpportunityBlocked(p, s.records[id], s.snapshot, now)
    ensures After(s, Call(now, Ask(p))) == State(s.records[p.id := Record(p, "", PENDING)], Kept(s.snapshot))
  {
    hide Compatible, ForecastClash, TauOpportunityBlocked, Moved, Counts;
    assert InChain(s.records, p.chain) == {} && Waiting(s.records, now) == {};
  }

  /** A due proposal is handed out when the limit takes everyone. */
  lemma HandWorks(s: State, id: string, now: int)
    requires id in s.records && |s.records| <= 10 && UnresolvedScopes(s.records) == {}
    requires s.records[id].state.status.Pending? && s.records[id].proposal.notBefore <= now < s.records[id].proposal.expiresAt
    requires Compatible(s.records[id].proposal.tau, s.snapshot)
    ensures var t := After(s, Call(now, HAND));
      && t.snapshot == Kept(s.snapshot) && t.records.Keys == s.records.Keys
      && t.records[id] == Handed(s.records[id], "consumer", now + 100)
      && forall other :: other in s.records && !Open(s.records[other]) ==> t.records[other] == s.records[other]
  {
    hide Compatible, Moved, Precedes;
    var others := s.records.Keys - {id};
    PrecedesIsTotal(s.records[id].proposal, s.records[id].proposal);
    SubsetSize(Ahead(s.records, Eligible(s, now), id), others);
    assert id in Winners(s, now, 10);
  }

  /** The first proposal is queued and handed out. */
  lemma FirstTurn(start: Snapshot) returns (calls: seq<Call>)
    ensures calls == [Call(0, Ask(Turn("a", start, 10))), Call(0, HAND)]
    ensures var s := Run(start, calls);
      && s.records == map["a" := Handed(Record(Turn("a", start, 10), "", PENDING), "consumer", 100)]
      && s.snapshot == Kept(Kept(start))
  {
    hide After, Compatible, Moved, Kept, Handed;
    var p := Turn("a", start, 10);
    var none := State(map[], start);
    var first, second := Call(0, Ask(p)), Call(0, HAND);
    BaseIsCompatible(start);
    AskWorks(none, p, 0);
    var one := After(none, first);
    SingleIsCertain(one.records, "a");
    HandWorks(one, "a", 0);
    RunNext(start, [], first);
    RunNext(start, [first], second);
    calls := [first] + [second];
  }

  lemma BaseIsCompatible(start: Snapshot)
    ensures var tau := Turn("", start, 0).tau;
      && Compatible(tau, start) && Compatible(tau, Kept(start)) && Compatible(tau, Kept(Kept(start)))
      && Compatible(tau, Kept(Kept(Kept(start)))) && Compatible(tau, Kept(Kept(Kept(Kept(start)))))
      && Compatible(tau, Kept(Kept(Kept(Kept(Kept(start))))))
  {
  }

  lemma SingleIsCertain(records: Records, id: string)
    requires records.Keys == {id} && !Uncertain(records[id])
    ensures UnresolvedScopes(records) == {} && |records| == 1
  {
  }

  /** TWO WITHIN ONE COOLDOWN. From an empty store: the second proposal is queued at 10, when the first has expired, and
      the first is approved by a reading of 9, the second by one of 10. Both approvals stand. */
  lemma OneBehindLetsTwoIn(start: Snapshot) returns (calls: seq<Call>)
    ensures AllDecide(calls) && Lags(calls, 1) && |calls| == 6
    ensures Approves(Run(start, calls[..3]), calls[3], "a") && Approves(Run(start, calls[..5]), calls[5], "b")
    ensures BothStand(Run(start, calls)) && !CooldownHolds(start, calls)
  {
    hide Run, After, Compatible, Kept, Approves, BothStand, SameScope, Approved, CooldownHolds;
    var begun := FirstTurn(start);
    var ask, one, hand, two := Call(10, Ask(Turn("b", start, 100))), Call(9, Report("a", TauHandles.Approved)),
                               Call(10, HAND), Call(10, Report("b", TauHandles.Approved));
    SecondTurn(Run(start, begun), start);
    RunNext(start, begun, ask);
    RunNext(start, begun + [ask], one);
    RunNext(start, begun + [ask, one], hand);
    RunNext(start, begun + [ask, one, hand], two);
    assert begun + [ask] + [one] == begun + [ask, one] && begun + [ask, one] + [hand] == begun + [ask, one, hand];
    calls := begun + [ask, one, hand] + [two];
    assert calls[..3] == begun + [ask] && calls[..5] == begun + [ask, one, hand];
    ScopeOfTurns(start);
    TwoTooClose(start, calls, 3, 5, "a", "b");
  }

  /** Both proposals are approved, in one scope, less than a cooldown apart. */
  ghost predicate BothStand(s: State) {
    && "a" in s.records && "b" in s.records && SameScope(s.records["a"].proposal, s.records["b"].proposal)
    && Approved(s.records["a"]) && Approved(s.records["b"]) && !Apart(s.records["a"], s.records["b"])
  }

  lemma ScopeOfTurns(start: Snapshot)
    ensures SameScope(Turn("a", start, 10), Turn("b", start, 100))
    ensures Cooldown(Turn("a", start, 10), Turn("b", start, 100)) == MS
  {
  }

  lemma SecondTurn(s: State, start: Snapshot)
    requires s.records == map["a" := Handed(Record(Turn("a", start, 10), "", PENDING), "consumer", 100)]
    requires s.snapshot == Kept(Kept(start))
    ensures var s3 := After(s, Call(10, Ask(Turn("b", start, 100))));
      var s4 := After(s3, Call(9, Report("a", TauHandles.Approved)));
      var s5 := After(s4, Call(10, HAND));
      && Approves(s3, Call(9, Report("a", TauHandles.Approved)), "a") && s3.records["a"].proposal == Turn("a", start, 10)
      && Approves(s5, Call(10, Report("b", TauHandles.Approved)), "b") && s5.records["b"].proposal == Turn("b", start, 100)
      && "a" in s5.records && Approved(s5.records["a"])
      && BothStand(After(s5, Call(10, Report("b", TauHandles.Approved))))
  {
    hide After, Compatible, Moved, Kept, Approves, BothStand, Handed;
    FirstApproved(s, start);
    var s3 := After(s, Call(10, Ask(Turn("b", start, 100))));
    SecondApproved(After(s3, Call(9, Report("a", TauHandles.Approved))), start);
  }

  lemma FirstApproved(s: State, start: Snapshot)
    requires s.records == map["a" := Handed(Record(Turn("a", start, 10), "", PENDING), "consumer", 100)]
    requires s.snapshot == Kept(Kept(start))
    ensures var s3, one := After(s, Call(10, Ask(Turn("b", start, 100)))), Call(9, Report("a", TauHandles.Approved));
      && Approves(s3, one, "a") && s3.records["a"].proposal == Turn("a", start, 10)
      && FirstStands(After(s3, one), start)
  {
    hide After, Compatible, Moved, Kept, Approves;
    BaseIsCompatible(start);
    AskWorks(s, Turn("b", start, 100), 10);
    var s3 := After(s, Call(10, Ask(Turn("b", start, 100))));
    NoneUnresolved(s3.records);
    ApprovalWorks(s3, "a", Report("a", TauHandles.Approved).request, 9);
  }

  /** The first proposal is approved at 9, the second waits. */
  ghost predicate FirstStands(s: State, start: Snapshot) {
    && s.records.Keys == {"a", "b"} && s.snapshot == Kept(Kept(Kept(Kept(start))))
    && Approved(s.records["a"]) && s.records["a"].state.resolvedAt == 9 && s.records["a"].proposal == Turn("a", start, 10)
    && s.records["b"] == Record(Turn("b", start, 100), "", PENDING)
  }

  lemma SecondApproved(s: State, start: Snapshot)
    requires FirstStands(s, start)
    ensures var s5, two := After(s, Call(10, HAND)), Call(10, Report("b", TauHandles.Approved));
      && Approves(s5, two, "b") && s5.records["b"].proposal == Turn("b", start, 100)
      && "a" in s5.records && Approved(s5.records["a"]) && BothStand(After(s5, two))
  {
    hide After, Compatible, Moved, Kept, Approves;
    BaseIsCompatible(start);
    NoneUnresolved(s.records);
    HandWorks(s, "b", 10);
    var s5 := After(s, Call(10, HAND));
    NoneUnresolved(s5.records);
    ApprovalWorks(s5, "b", Report("b", TauHandles.Approved).request, 10);
  }

  lemma NoneUnresolved(records: Records)
    requires forall id :: id in records ==> !Uncertain(records[id])
    ensures UnresolvedScopes(records) == {} && forall p :: !Unresolved(records, p)
  {
  }

  /** What `CooldownUnlessCancelled` says, of one run. */
  ghost predicate CooldownHolds(start: Snapshot, calls: seq<Call>) {
    forall i, j, a, b ::
      0 <= i < j < |calls| && Approves(Run(start, calls[..i]), calls[i], a) && Approves(Run(start, calls[..j]), calls[j], b)
      ==> CooldownBetween(start, calls, i, j, a, b)
  }

  ghost predicate CooldownBetween(start: Snapshot, calls: seq<Call>, i: nat, j: nat, a: string, b: string)
    requires i < j < |calls| && a in Run(start, calls[..i]).records && b in Run(start, calls[..j]).records
  {
    var s, first, second := Run(start, calls[..j]), Run(start, calls[..i]).records[a].proposal,
                            Run(start, calls[..j]).records[b].proposal;
    SameScope(first, second) ==>
      a in s.records && (calls[i].now + Cooldown(first, second) <= calls[j].now || s.records[a].state.status.Rejected?)
  }

  lemma TwoTooClose(start: Snapshot, calls: seq<Call>, i: nat, j: nat, a: string, b: string)
    requires i < j < |calls|
    requires Approves(Run(start, calls[..i]), calls[i], a) && Approves(Run(start, calls[..j]), calls[j], b)
    requires var first, second := Run(start, calls[..i]).records[a].proposal, Run(start, calls[..j]).records[b].proposal;
      SameScope(first, second) && calls[j].now < calls[i].now + Cooldown(first, second)
    requires a in Run(start, calls[..j]).records && Approved(Run(start, calls[..j]).records[a])
    ensures !CooldownHolds(start, calls)
  {
    hide Run, After;
    assert !CooldownBetween(start, calls, i, j, a, b);
  }

  /** HOW FAR BEHIND may approvals read the clock? In all runs whose approvals lag at most `d` the cooldown holds, if and
      only if `d` allows no lag at all. */
  lemma CooldownHoldsIff(start: Snapshot, d: int)
    ensures (forall calls: seq<Call> | AllDecide(calls) && Lags(calls, d) :: CooldownHolds(start, calls)) <==> d <= 0
  {
    hide Run, After;
    if d <= 0 {
      forall calls: seq<Call> | AllDecide(calls) && Lags(calls, d) ensures CooldownHolds(start, calls) {
        forall i, j, a, b |
          0 <= i < j < |calls| && Approves(Run(start, calls[..i]), calls[i], a) && Approves(Run(start, calls[..j]), calls[j], b)
          ensures CooldownBetween(start, calls, i, j, a, b)
        {
          ApprovesIs(Run(start, calls[..i]), calls[i], a);
          ApprovesIs(Run(start, calls[..j]), calls[j], b);
          if SameScope(Run(start, calls[..i]).records[a].proposal, Run(start, calls[..j]).records[b].proposal) {
            CooldownUnlessCancelled(start, calls, i, j, a, b);
          }
        }
      }
    } else {
      var calls := OneBehindLetsTwoIn(start);
      assert Lags(calls, d);
    }
  }

  /** UNCERTAIN BESIDE LIVE, with clocks in order, from an empty store: the first proposal is approved at 0, the second
      queued a cooldown later, and then the first one's execution is reported uncertain. */
  lemma UncertainBesideLive(start: Snapshot) returns (calls: seq<Call>)
    ensures AllDecide(calls) && Lags(calls, 0) && forall i, j :: 0 <= i < j < |calls| ==> calls[i].now <= calls[j].now
    ensures |calls| == 5 && QueuedBy(calls, MS) && NoneBeside(Run(start, calls[..4]), MS) && !NoneBeside(Run(start, calls), MS)
  {
    hide After, Compatible, Moved, Kept;
    var b := Turn("b", start, 2 * MS);
    var begun := FirstTurn(start);
    BaseIsCompatible(start);
    var one, ask, doubt := Call(0, Report("a", TauHandles.Approved)), Call(MS, Ask(b)),
                           Call(MS, Report("a", TauHandles.Uncertain));
    var s2 := Run(start, begun);
    NoneUnresolved(s2.records);
    ApprovalWorks(s2, "a", one.step.request, 0);
    var s3 := After(s2, one);
    AskWorks(s3, b, MS);
    var s4 := After(s3, ask);
    DoubtWorks(s4, "a", doubt.step.request, MS);
    var s5 := After(s4, doubt);
    RunNext(start, begun, one);
    RunNext(start, begun + [one], ask);
    RunNext(start, begun + [one, ask], doubt);
    assert begun + [one] + [ask] == begun + [one, ask];
    calls := begun + [one, ask] + [doubt];
    assert calls[..4] == begun + [one, ask];
    assert Live(s5.records["b"], s5.snapshot, MS);
  }

  lemma DoubtWorks(s: State, id: string, request: Request, now: int)
    requires id in s.records && request.decision.Uncertain? && !Uncertain(s.records[id]) && s.records[id].state.handles == []
    ensures var t := After(s, Call(now, Resolve(id, request)));
      && t.snapshot == Kept(s.snapshot) && id in t.records && t.records == s.records[id := t.records[id]]
      && Uncertain(t.records[id]) && t.records[id].proposal == s.records[id].proposal
  {
    hide Compatible, Moved, Unresolved;
  }

  // ---- the order of handing out ----

  lemma PrecedesIsTotal(a: Proposal, b: Proposal)
    ensures a.id == b.id || Precedes(a, b) || Precedes(b, a)
    ensures !(Precedes(a, b) && Precedes(b, a)) && !Precedes(a, a)
  {
    hide Less;
    LessIsTotal(a.id, b.id);
    LessIsTotal(a.id, a.id);
  }

  lemma PrecedesIsTransitive(a: Proposal, b: Proposal, c: Proposal)
    requires Precedes(a, b) && Precedes(b, c)
    ensures Precedes(a, c)
  {
    hide Less;
    if Less(a.id, b.id) && Less(b.id, c.id) { LessIsTransitive(a.id, b.id, c.id); }
  }

  ghost predicate Named(records: Records) { forall id :: id in records ==> records[id].proposal.id == id }

  predicate InOrder(records: Records, order: seq<string>)
    requires forall id :: id in order ==> id in records
  {
    forall i, j :: 0 <= i < j < |order| ==> Precedes(records[order[i]].proposal, records[order[j]].proposal)
  }

  method First(records: Records, ids: set<string>) returns (first: string)
    requires Named(records) && ids <= records.Keys && ids != {}
    ensures first in ids
    ensures forall id :: id in ids ==> id == first || Precedes(records[first].proposal, records[id].proposal)
  {
    hide Precedes;
    var start :| start in ids;
    first := start;
    var todo := ids - {first};
    while todo != {}
      invariant todo <= ids && first in ids
      invariant forall id :: id in ids && id !in todo ==> id == first || Precedes(records[first].proposal, records[id].proposal)
      decreases todo
    {
      var id :| id in todo;
      ghost var was := first;
      PrecedesIsTotal(records[id].proposal, records[first].proposal);
      if Precedes(records[id].proposal, records[first].proposal) { first := id; }
      forall k | k in ids && k !in todo && k != was && first != was
        ensures Precedes(records[first].proposal, records[k].proposal)
      {
        PrecedesIsTransitive(records[first].proposal, records[was].proposal, records[k].proposal);
      }
      todo := todo - {id};
    }
  }

  method SortEligible(records: Records, ids: set<string>) returns (order: seq<string>)
    requires Named(records) && ids <= records.Keys
    ensures forall id :: id in order <==> id in ids
    ensures InOrder(records, order)
  {
    hide Precedes;
    order := [];
    var todo := ids;
    while todo != {}
      invariant todo <= ids && forall id :: id in order <==> id in ids && id !in todo
      invariant InOrder(records, order)
      invariant forall a, b :: a in order && b in todo ==> Precedes(records[a].proposal, records[b].proposal)
      decreases todo
    {
      var id := First(records, todo);
      order := order + [id];
      todo := todo - {id};
    }
  }

  /** In a sorted list the proposals ahead of one are those before it. */
  lemma RankIsPlace(records: Records, order: seq<string>, ids: set<string>, i: nat)
    requires ids <= records.Keys && (forall id :: id in order <==> id in ids) && InOrder(records, order) && i < |order|
    ensures |Ahead(records, ids, order[i])| == i
  {
    hide Precedes;
    OrderDistinct(records, order);
    var ahead, earlier := Ahead(records, ids, order[i]), TauHandles.SetOf(order[..i]);
    forall id ensures id in ahead <==> id in earlier {
      if id in ahead {
        var k :| 0 <= k < |order| && order[k] == id;
        PrecedesIsTotal(records[order[k]].proposal, records[order[i]].proposal);
        assert k < i ==> order[..i][k] == id;
      }
      if id in earlier {
        var k :| 0 <= k < i && order[..i][k] == id;
        assert order[k] == id;
      }
    }
    assert ahead == earlier;
    TauHandles.DistinctSize(order[..i]);
  }

  lemma OrderDistinct(records: Records, order: seq<string>)
    requires (forall id :: id in order ==> id in records) && InOrder(records, order)
    ensures Distinct(order)
  {
    hide Precedes;
    forall i, j | 0 <= i < j < |order| ensures order[i] != order[j] {
      PrecedesIsTotal(records[order[i]].proposal, records[order[j]].proposal);
    }
  }

  /** The winners are the head of the sorted list. */
  lemma WinnersAreFirst(s: State, now: int, limit: nat, order: seq<string>)
    requires (forall id :: id in order <==> id in Eligible(s, now)) && InOrder(s.records, order)
    ensures forall id :: id in Winners(s, now, limit) <==> exists i :: 0 <= i < |order| && i < limit && order[i] == id
  {
    hide Precedes, Due, Swept, UnresolvedScopes;
    var eligible := Eligible(s, now);
    forall id | id in eligible
      ensures |Ahead(s.records, eligible, id)| < limit <==> exists i :: 0 <= i < |order| && i < limit && order[i] == id
    {
      var k :| 0 <= k < |order| && order[k] == id;
      RankIsPlace(s.records, order, eligible, k);
      OrderDistinct(s.records, order);
    }
  }

  /** THE MOST PRESSING FIRST. Whoever is handed out has a higher priority than whoever eligible is not; or as high a one
      and is due earlier; or due at the same time and the smaller identity. */
  lemma WinnersPress(s: State, now: int, limit: nat, a: string, b: string)
    requires Named(s.records) && a in Winners(s, now, limit) && b in Eligible(s, now) && b !in Winners(s, now, limit)
    ensures var p, q := s.records[a].proposal, s.records[b].proposal;
      || p.priority > q.priority || (p.priority == q.priority && p.notBefore < q.notBefore)
      || (p.priority == q.priority && p.notBefore == q.notBefore && Less(a, b))
  {
    hide Due, Swept, UnresolvedScopes, Less;
    WinnersPrecede(s, now, limit, a, b);
  }

  lemma WinnersPrecede(s: State, now: int, limit: nat, a: string, b: string)
    requires Named(s.records) && a in Winners(s, now, limit) && b in Eligible(s, now) && b !in Winners(s, now, limit)
    ensures Precedes(s.records[a].proposal, s.records[b].proposal)
  {
    hide Due, Swept, UnresolvedScopes, Precedes;
    var ids := Eligible(s, now);
    PrecedesIsTotal(s.records[a].proposal, s.records[b].proposal);
    if Precedes(s.records[b].proposal, s.records[a].proposal) {
      forall k | k in Ahead(s.records, ids, b) ensures k in Ahead(s.records, ids, a) {
        PrecedesIsTransitive(s.records[k].proposal, s.records[b].proposal, s.records[a].proposal);
      }
      SubsetSize(Ahead(s.records, ids, b), Ahead(s.records, ids, a));
    }
  }

  // ---- the store ----

  class AgencyStore {
    var records: Records
    var snapshot: Snapshot

    ghost predicate Valid()
      reads this
    {
      Named(records)
    }

    ghost function Contents(): State
      reads this
    {
      State(records, snapshot)
    }

    constructor (start: Snapshot)
      ensures Valid() && Contents() == State(map[], start)
    {
      records, snapshot := map[], start;
    }

    /** The first stored proposal met that stands in the way; which one depends on the order of the map. */
    method Obstacle(p: Proposal, now: int) returns (o: Option<PutOutcome>)
      ensures o.None? ==> forall id :: id in records ==>
        !ForecastClash(p, records[id]) && !TauOpportunityBlocked(p, records[id], snapshot, now)
      ensures o.Some? ==>
        || (o.value == Clash && exists id :: id in records && ForecastClash(p, records[id]))
        || (o.value == NoBudget && exists id :: id in records && TauOpportunityBlocked(p, records[id], snapshot, now))
    {
      hide ForecastClash, TauOpportunityBlocked;
      var todo := records.Keys;
      while todo != {}
        invariant todo <= records.Keys
        invariant forall id :: id in records && id !in todo ==>
          !ForecastClash(p, records[id]) && !TauOpportunityBlocked(p, records[id], snapshot, now)
        decreases todo
      {
        var id :| id in todo;
        if ForecastClash(p, records[id]) { return Some(Clash); }
        if TauOpportunityBlocked(p, records[id], snapshot, now) { return Some(NoBudget); }
        todo := todo - {id};
      }
      o := None;
    }

    method CountAgencyChain(chain: string) returns (count: nat)
      ensures count == |InChain(records, chain)|
    {
      count := 0;
      var todo := records.Keys;
      ghost var counted: set<string> := {};
      while todo != {}
        invariant todo <= records.Keys && count == |counted|
        invariant counted == set id | id in records && id !in todo && records[id].proposal.chain == chain
        decreases todo
      {
        var id :| id in todo;
        if records[id].proposal.chain == chain {
          count := count + 1;
          counted := counted + {id};
        }
        todo := todo - {id};
      }
      assert counted == InChain(records, chain);
    }

    method CountPendingAgency(now: int) returns (count: nat)
      ensures count == |Waiting(records, now)|
    {
      count := 0;
      var todo := records.Keys;
      ghost var counted: set<string> := {};
      while todo != {}
        invariant todo <= records.Keys && count == |counted|
        invariant counted == set id | id in records && id !in todo && Counts(records[id], now)
        decreases todo
      {
        hide Counts;
        var id :| id in todo;
        if Counts(records[id], now) {
          count := count + 1;
          counted := counted + {id};
        }
        todo := todo - {id};
      }
      assert counted == Waiting(records, now);
    }

    method PutAgencyProposal(p: Proposal, digest: string, now: int, limits: Limits) returns (o: PutOutcome)
      requires Valid()
      modifies this
      ensures Valid() && Contents() == AfterPut(old(Contents()), p, digest, now, limits)
      ensures PutAnswers(old(Contents()), p, digest, now, limits, o)
    {
      hide Compatible, ForecastClash, TauOpportunityBlocked, ValidParent, InChain, Waiting, Moved;
      if p.id in records { return if records[p.id].digest == digest then AlreadyThere else Clash; }
      if !Compatible(p.tau, snapshot) { return Stale; }
      var obstacle := Obstacle(p, now);
      if obstacle.Some? { return obstacle.value; }
      for i := 0 to |p.evidence|
        invariant forall k :: 0 <= k < i ==> p.evidence[k] in limits.available
      {
        if p.evidence[i] !in limits.available { return NoEvidence; }
      }
      var chain := CountAgencyChain(p.chain);
      var pending := CountPendingAgency(now);
      if !ValidParent(records, p) || chain >= limits.perChain || pending >= limits.pending { return NoBudget; }
      records := records[p.id := Record(p, digest, PENDING)];
      snapshot := Kept(snapshot);
      o := Added;
    }

    method Scopes() returns (unresolved: set<(string, string)>)
      ensures unresolved == UnresolvedScopes(records)
    {
      unresolved := {};
      var todo := records.Keys;
      while todo != {}
        invariant todo <= records.Keys
        invariant unresolved
               == set id | id in records && id !in todo && Uncertain(records[id]) && records[id].proposal.tau.Some?
                    :: ScopeOf(records[id].proposal)
        decreases todo
      {
        hide Uncertain;
        var id :| id in todo;
        ghost var before := unresolved;
        if Uncertain(records[id]) && records[id].proposal.tau.Some? {
          unresolved := unresolved + {ScopeOf(records[id].proposal)};
        }
        todo := todo - {id};
      }
    }

    /** Closes what can no longer be approved and finds what is due. */
    method Sweep(now: int) returns (eligible: set<string>, changed: bool)
      requires Valid()
      modifies this`records
      ensures Valid() && SweptBut(old(Contents()), now, {}, records, eligible, changed)
    {
      hide Uncertain, Compatible, UnresolvedScopes, Due, Swept, SweptBut;
      var unresolved := Scopes();
      ghost var before := Contents();
      eligible, changed := {}, false;
      var todo := records.Keys;
      NothingSwept(before, now);
      while todo != {}
        invariant todo <= records.Keys && records.Keys == before.records.Keys && Valid()
        invariant SweptBut(before, now, todo, records, eligible, changed)
        decreases todo
      {
        var id :| id in todo;
        var r := records[id];
        SweptDue(r, unresolved, snapshot, now);
        OneSwept(before, now, todo, id, records, eligible, changed);
        var swept := Swept(r, unresolved, snapshot, now);
        assert records[id := r] == records;
        if swept != r {
          records := records[id := swept];
          changed := true;
        } else if Due(r, now) {
          eligible := eligible + {id};
        }
        todo := todo - {id};
      }
    }

    method HandOut(order: seq<string>, consumer: string, until: int) returns (claimed: seq<Record>)
      requires Valid() && Distinct(order) && forall id :: id in order ==> id in records
      modifies this`records
      ensures Valid() && records == HandedOut(old(records), order, consumer, until)
      ensures |claimed| == |order| && forall i :: 0 <= i < |order| ==> claimed[i] == records[order[i]]
    {
      claimed := [];
      for i := 0 to |order|
        invariant records == HandedOut(old(records), order[..i], consumer, until) && |claimed| == i
        invariant forall k :: 0 <= k < i ==> claimed[k] == Handed(old(records)[order[k]], consumer, until)
      {
        assert order[..i + 1] == order[..i] + [order[i]];
        assert order[i] !in order[..i];
        var r := Handed(records[order[i]], consumer, until);
        records := records[order[i] := r];
        claimed := claimed + [r];
      }
      assert order[..|order|] == order;
    }

    /** The eligible proposals in order, as many as the limit allows. */
    method Best(ghost s: State, now: int, limit: nat, eligible: set<string>) returns (order: seq<string>)
      requires Valid() && records.Keys == s.records.Keys && eligible == Eligible(s, now)
      requires forall id :: id in records ==> records[id].proposal == s.records[id].proposal
      ensures Distinct(order) && |order| == |Winners(s, now, limit)|
      ensures forall id :: id in order <==> id in Winners(s, now, limit)
      ensures forall i, j :: 0 <= i < j < |order| ==> Precedes(records[order[i]].proposal, records[order[j]].proposal)
    {
      hide Precedes, Winners, UnresolvedScopes, Swept, Due;
      order := SortEligible(records, eligible);
      SameOrder(s.records, records, order);
      WinnersAreFirst(s, now, limit, order);
      ghost var all := order;
      if |order| > limit { order := order[..limit]; }
      Chosen(s, now, limit, all, order);
    }

    /** Returns the winners, best first, each as it is stored from now on. */
    method ClaimAgencyProposals(consumer: string, now: int, limit: nat, lease: int) returns (claimed: seq<Record>)
      requires Valid()
      modifies this
      ensures Valid() && Contents() == AfterClaim(old(Contents()), consumer, now, limit, lease)
      ensures forall i :: 0 <= i < |claimed| ==>
        claimed[i].proposal.id in Winners(old(Contents()), now, limit) && records[claimed[i].proposal.id] == claimed[i]
      ensures |claimed| == |Winners(old(Contents()), now, limit)|
      ensures forall i, j :: 0 <= i < j < |claimed| ==> Precedes(claimed[i].proposal, claimed[j].proposal)
    {
      hide Precedes, Winners, Eligible, UnresolvedScopes, Swept, SweptBut, Moved, AfterClaim, HandedOut, Distinct;
      ghost var before := Contents();
      var eligible, changed := Sweep(now);
      ghost var swept := records;
      AllSwept(before, now, records, eligible, changed);
      var order := Best(before, now, limit, eligible);
      claimed := HandOut(order, consumer, now + lease);
      if changed || order != [] { snapshot := Kept(snapshot); }
      Claimed(before, swept, now, limit, order, consumer, lease, changed);
    }

    method HasUnresolved(p: Proposal) returns (found: bool)
      ensures found <==> Unresolved(records, p)
    {
      hide SameScope, Uncertain;
      var todo := records.Keys;
      while todo != {}
        invariant todo <= records.Keys
        invariant forall id :: id in records && id !in todo ==> !(Uncertain(records[id]) && SameScope(records[id].proposal, p))
        decreases todo
      {
        var id :| id in todo;
        if Uncertain(records[id]) && SameScope(records[id].proposal, p) { return true; }
        todo := todo - {id};
      }
      found := false;
    }

    method Store(id: string, r: Record)
      requires Valid() && r.proposal.id == id
      modifies this
      ensures Valid() && Contents() == Stored(old(Contents()), id, r)
    {
      records := records[id := r];
      snapshot := Kept(snapshot);
    }

    method ResolveAgencyProposal(id: string, request: Request, now: int) returns (o: ResolveOutcome)
      requires Valid()
      modifies this
      ensures Valid() && (Contents(), o) == AfterResolve(old(Contents()), id, request, now)
    {
      hide Compatible, Moved, Kept, Unresolved, TauHandles.Covers, TauHandles.BothKept;
      if id !in records { return NotFound; }
      var r := records[id];
      if request.decision.Uncertain? && Repeats(r, request) { return Repeated; }
      if request.decision.Uncertain? {
        var updated := TauHandles.AgencyUncertainRecord(r.state, TauHandles.Report(request.reason, request.executionRef, now));
        if updated.BoundReached? { return TooManyHandles; }
        Store(id, r.(state := updated.record));
        return Resolved;
      }
      if Uncertain(r) && request.decision.Rejected? {
        var ok := TauHandles.TauCancellationMatches(r.state.handles, request.cancelled);
        if !ok { return Conflict; }
        Store(id, Decided(r, request, now));
        return Resolved;
      }
      if !Open(r) { return if Repeats(r, request) then Repeated else Conflict; }
      if !r.state.status.Claimed? || r.state.claimedBy != request.consumer { return LeaseLost; }
      if r.proposal.expiresAt <= now {
        var ended := Ended(r, TauHandles.Expired, "proposal expired before authorization completed", now);
        Store(id, ended.(state := ended.state.(executionRef := "")));
        return Lapsed;
      }
      if r.state.leaseUntil <= now { return LeaseLost; }
      var unresolved := HasUnresolved(r.proposal);
      if request.decision.Approved? && unresolved { return Conflict; }
      if request.decision.Approved? && !Compatible(r.proposal.tau, snapshot) { return Overtaken; }
      Store(id, Released(Decided(r, request, now)));
      o := Resolved;
    }

    method CancelAgencyByEvidence(deleted: set<string>, now: int) returns (changed: bool)
      requires Valid()
      modifies this`records
      ensures Valid() && records == (map id | id in old(records) :: Undone(old(records)[id], deleted, now))
      ensures changed <==> records != old(records)
    {
      hide Open, Rests, Ended;
      changed := false;
      ghost var before := records;
      var todo := records.Keys;
      while todo != {}
        invariant todo <= records.Keys == before.Keys
        invariant forall id :: id in before ==> records[id] == if id in todo then before[id] else Undone(before[id], deleted, now)
        invariant changed <==> exists id :: id in before && id !in todo && Undone(before[id], deleted, now) != before[id]
        decreases todo
      {
        var id :| id in todo;
        var r := records[id];
        if Open(r) && Rests(r.proposal, deleted) {
          EndingChanges(r, "supporting evidence was deleted", now);
          records := records[id := Ended(r, TauHandles.Rejected, "supporting evidence was deleted", now)];
          changed := true;
        }
        todo := todo - {id};
      }
      UndoneNames(before, deleted, now);
    }

    /** Deletes events that became available before the cutoff, up to the limit; which of them, where there are more,
        depends on the order of the map. `entries` says when each stored event became available. */
    method DeleteBefore(entries: map<string, int>, before: int, limit: int, now: int)
      returns (deleted: set<string>, left: map<string, int>)
      requires Valid()
      modifies this
      ensures Valid() && deleted <= OlderThan(entries, before) && left == entries - deleted
      ensures |deleted| == MinInt(MaxInt(limit, 0), |OlderThan(entries, before)|)
      ensures forall id :: id in deleted ==> id in entries && entries[id] < before
      ensures |deleted| < limit ==> forall id :: id in left ==> before <= left[id]
      ensures Contents() == AfterDelete(old(Contents()), deleted, now)
    {
      hide Undone, Moved;
      deleted := Oldest(entries, before, limit);
      left := entries - deleted;
      if |deleted| > 0 {
        var changed := CancelAgencyByEvidence(deleted, now);
        snapshot := Moved(snapshot, Snapshots.Delete(changed));
      }
    }
  }

  function OlderThan(entries: map<string, int>, before: int): set<string> { set id | id in entries && entries[id] < before }

  /** The pass over the stored events. */
  method Oldest(entries: map<string, int>, before: int, limit: int) returns (ids: set<string>)
    ensures ids <= OlderThan(entries, before) && |ids| == MinInt(MaxInt(limit, 0), |OlderThan(entries, before)|)
    ensures forall id :: id in ids ==> id in entries && entries[id] < before
    ensures |ids| < limit ==> forall id :: id in entries && entries[id] < before ==> id in ids
  {
    ids := {};
    var todo := entries.Keys;
    while todo != {}
      invariant todo <= entries.Keys && ids <= OlderThan(entries, before) - todo
      invariant |ids| <= MaxInt(limit, 0) && (|ids| < limit ==> ids == OlderThan(entries, before) - todo)
      decreases todo
    {
      var id :| id in todo;
      if entries[id] < before && |ids| < limit { ids := ids + {id}; }
      todo := todo - {id};
    }
    assert OlderThan(entries, before) - todo == OlderThan(entries, before);
    SubsetSize(ids, OlderThan(entries, before));
  }

  lemma EndingChanges(r: Record, reason: string, now: int)
    requires Open(r)
    ensures Ended(r, TauHandles.Rejected, reason, now) != r
  {
  }

  lemma UndoneNames(records: Records, deleted: set<string>, now: int)
    ensures forall id :: id in records ==> Undone(records[id], deleted, now).proposal == records[id].proposal
  {
  }

  /** The records after these have been handed out. */
  ghost function HandedOut(records: Records, order: seq<string>, consumer: string, until: int): (after: Records)
    ensures after.Keys == records.Keys && forall id :: id in records ==> after[id].proposal == records[id].proposal
  {
    map id | id in records :: if id in order then Handed(records[id], consumer, until) else records[id]
  }

  /** The list cut to the limit is the winners. */
  lemma Chosen(s: State, now: int, limit: nat, all: seq<string>, order: seq<string>)
    requires (forall id :: id in all ==> id in s.records) && InOrder(s.records, all)
    requires order == if |all| > limit then all[..limit] else all
    requires forall id :: id in Winners(s, now, limit) <==> exists i :: 0 <= i < |all| && i < limit && all[i] == id
    ensures (forall id :: id in order ==> id in s.records) && InOrder(s.records, order) && Distinct(order)
    ensures (forall id :: id in order <==> id in Winners(s, now, limit)) && |order| == |Winners(s, now, limit)|
  {
    hide Precedes, Winners;
    forall id ensures id in order <==> id in Winners(s, now, limit) {
      if id in Winners(s, now, limit) {
        var i :| 0 <= i < |all| && i < limit && all[i] == id;
        assert order[i] == id;
      }
      if id in order {
        var i :| 0 <= i < |order| && order[i] == id;
        assert all[i] == id;
      }
    }
    OrderDistinct(s.records, order);
    TauHandles.DistinctSize(order);
    assert TauHandles.SetOf(order) == Winners(s, now, limit);
  }

  lemma Claimed(s: State, swept: Records, now: int, limit: nat, order: seq<string>, consumer: string, lease: int, changed: bool)
    requires swept == map id | id in s.records :: Swept(s.records[id], UnresolvedScopes(s.records), s.snapshot, now)
    requires (changed <==> swept != s.records) && (forall id :: id in order <==> id in Winners(s, now, limit))
    ensures AfterClaim(s, consumer, now, limit, lease)
         == State(HandedOut(swept, order, consumer, now + lease),
                  if changed || order != [] then Kept(s.snapshot) else s.snapshot)
  {
    hide Winners, Swept, UnresolvedScopes, Moved;
    var t := AfterClaim(s, consumer, now, limit, lease);
    assert t.records == HandedOut(swept, order, consumer, now + lease);
    if order != [] { assert order[0] in Winners(s, now, limit); }
  }

  lemma SweptDue(r: Record, unresolved: set<(string, string)>, current: Snapshot, now: int)
    ensures Swept(r, unresolved, current, now).proposal == r.proposal
    ensures Due(Swept(r, unresolved, current, now), now) ==> Swept(r, unresolved, current, now) == r
  {
    SweptFades(r, unresolved, current, now);
  }

  /** The sweep so far, `todo` left. */
  ghost predicate SweptBut(s: State, now: int, todo: set<string>, records: Records, eligible: set<string>, changed: bool) {
    var unresolved := UnresolvedScopes(s.records);
    && records.Keys == s.records.Keys
    && (forall id :: id in s.records ==>
          records[id] == if id in todo then s.records[id] else Swept(s.records[id], unresolved, s.snapshot, now))
    && eligible == Eligible(s, now) - todo
    && (changed <==> records != s.records)
  }

  lemma NothingSwept(s: State, now: int)
    ensures SweptBut(s, now, s.records.Keys, s.records, {}, false)
  {
    hide Swept, Due, UnresolvedScopes;
  }

  lemma OneSwept(s: State, now: int, todo: set<string>, id: string, records: Records, eligible: set<string>, changed: bool)
    requires id in todo && id in s.records && SweptBut(s, now, todo, records, eligible, changed)
    ensures id in records && records[id] == s.records[id]
    ensures var swept := Swept(s.records[id], UnresolvedScopes(s.records), s.snapshot, now);
      SweptBut(s, now, todo - {id}, records[id := swept],
               if Due(swept, now) then eligible + {id} else eligible, changed || swept != s.records[id])
  {
    hide Swept, Due, UnresolvedScopes;
    var swept := Swept(s.records[id], UnresolvedScopes(s.records), s.snapshot, now);
    if changed {
      var other :| other in s.records && records[other] != s.records[other];
      assert records[id := swept][other] != s.records[other];
    }
  }

  lemma AllSwept(s: State, now: int, records: Records, eligible: set<string>, changed: bool)
    requires SweptBut(s, now, {}, records, eligible, changed)
    ensures records.Keys == s.records.Keys && eligible == Eligible(s, now) <= records.Keys && (changed <==> records != s.records)
    ensures records == map id | id in s.records :: Swept(s.records[id], UnresolvedScopes(s.records), s.snapshot, now)
    ensures forall id :: id in s.records ==> records[id].proposal == s.records[id].proposal
  {
    hide Due, UnresolvedScopes;
  }

  lemma SameOrder(a: Records, b: Records, order: seq<string>)
    requires a.Keys == b.Keys && forall id :: id in a ==> a[id].proposal == b[id].proposal
    requires (forall id :: id in order ==> id in b) && InOrder(b, order)
    ensures InOrder(a, order)
  {
    hide Precedes;
  }
}

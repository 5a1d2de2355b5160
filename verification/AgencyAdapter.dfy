/** When the adapter delivers an authorised proposal (plugin/src/agency.ts), and what that means for a planned turn. */
module AgencyAdapter {
  import opened Prelude
  import opened QuietHours
  import Tau

  const SECOND: int := 1_000_000_000

  /** The adapter reads instants to the millisecond, dropping what is finer. */
  function Truncated(t: int): int { t - t % MS }

  /** `None` is a date that does not parse; `tauLatest` is the last dispatch a turn proposal signs for. */
  datatype Proposal = Proposal(
    tenant: string, action: string, capability: string, depth: int, session: string, isSchedule: bool,
    scheduledFor: Option<int>, notBefore: Option<int>, expiresAt: Option<int>, priority: real, tauLatest: Option<int>)

  datatype Config = Config(
    enabled: bool, killSwitch: bool, tenant: string, consented: seq<string>, capabilities: seq<string>, maxDepth: int,
    sessionPrefixes: seq<string>, quietStart: Option<int>, quietEnd: Option<int>, criticalThreshold: real)

  datatype Reason =
    | KillSwitch | WrongTenant | NoConsent | NoCapability | TooDeep | SessionOutside | Unavailable | AllowanceExhausted
    | OutsideValidity | QuietIncomplete | QuietPastExpiry | QuietPastAllowance

  datatype Verdict = Refused(reason: Reason) | Allowed(deliverAt: int)

  ghost predicate ConfigInRange(c: Config)
  {
    (c.quietStart.Some? ==> ValidHour(c.quietStart.value)) && (c.quietEnd.Some? ==> ValidHour(c.quietEnd.value))
  }

  // ---- what the verdict depends on ----

  ghost predicate SessionAllowed(p: Proposal, c: Config)
  {
    exists i :: 0 <= i < |c.sessionPrefixes| && c.sessionPrefixes[i] <= p.session
  }

  /** The proposal is within the authority the configuration grants. */
  ghost predicate Authorised(p: Proposal, c: Config)
  {
    && c.enabled && !c.killSwitch && p.tenant == c.tenant && p.action in c.consented && p.capability in c.capabilities
    && p.depth <= c.maxDepth && SessionAllowed(p, c)
  }

  predicate Available(p: Proposal, now: int)
  {
    p.notBefore.Some? && p.expiresAt.Some? && p.notBefore.value <= now < p.expiresAt.value
  }

  /** All dates parse that the decision needs. */
  predicate Dated(p: Proposal) { p.notBefore.Some? && p.expiresAt.Some? && (p.isSchedule ==> p.scheduledFor.Some?) }

  predicate QuietComplete(c: Config) { c.quietStart.Some? == c.quietEnd.Some? }

  /** The quiet hours that bind this proposal; critical ones ignore them. */
  function Binding(p: Proposal, c: Config): Option<Hours>
  {
    if p.priority < c.criticalThreshold && c.quietStart.Some? && c.quietEnd.Some?
    then Some(Hours(c.quietStart.value, c.quietEnd.value)) else None
  }

  /** The instant asked for. */
  function Wanted(p: Proposal, now: int): int
    requires Dated(p)
  {
    var asked := if p.isSchedule then p.scheduledFor.value else MaxInt(now + SECOND, p.notBefore.value);
    if p.tauLatest.Some? then MaxInt(asked, now + SECOND) else asked
  }

  /** Delivery must come before the proposal lapses and, for a turn, before its allowance does. */
  function Deadline(p: Proposal): int
    requires Dated(p)
  {
    if p.tauLatest.Some? && p.tauLatest.value < p.expiresAt.value then p.tauLatest.value else p.expiresAt.value
  }

  /** `d` is the first instant from `wanted` on that is not quiet. */
  ghost predicate FirstPermitted(wanted: int, quiet: Option<Hours>, d: int)
  {
    wanted <= d && !InQuietHours(d, quiet) && forall t: int :: wanted <= t < d ==> InQuietHours(t, quiet)
  }

  /** Allowed at `d`: authorised, available, and `d` the first permitted instant, before the deadline. */
  ghost predicate AllowedAt(p: Proposal, c: Config, now: int, d: int)
  {
    && Authorised(p, c) && Available(p, now) && Dated(p) && QuietComplete(c)
    && FirstPermitted(Wanted(p, now), Binding(p, c), d) && d < Deadline(p)
  }

  /** What each reason for refusal means. */
  ghost predicate Explains(reason: Reason, p: Proposal, c: Config, now: int)
  {
    match reason
    case KillSwitch => !c.enabled || c.killSwitch
    case WrongTenant => p.tenant != c.tenant
    case NoConsent => p.action !in c.consented
    case NoCapability => p.capability !in c.capabilities
    case TooDeep => p.depth > c.maxDepth
    case SessionOutside => !SessionAllowed(p, c)
    case Unavailable => !Available(p, now)
    case AllowanceExhausted => Dated(p) && p.tauLatest.Some? && p.tauLatest.value <= Wanted(p, now)
    case OutsideValidity => Dated(p) ==> p.expiresAt.value <= Wanted(p, now)
    case QuietIncomplete => !QuietComplete(c)
    case QuietPastExpiry => Dated(p) && AllQuiet(Wanted(p, now), p.expiresAt.value, Binding(p, c))
    case QuietPastAllowance =>
      Dated(p) && p.tauLatest.Some? && AllQuiet(Wanted(p, now), p.tauLatest.value, Binding(p, c))
  }

  ghost predicate AllQuiet(from: int, until: int, quiet: Option<Hours>)
  {
    forall t: int :: from <= t < until ==> InQuietHours(t, quiet)
  }

  /** The order in which reasons are looked for. */
  const REASONS: seq<Reason> := [
    KillSwitch, WrongTenant, NoConsent, NoCapability, TooDeep, SessionOutside, Unavailable, AllowanceExhausted,
    OutsideValidity, QuietIncomplete, QuietPastExpiry, QuietPastAllowance]

  /** Reason `k` holds and none before it. */
  ghost predicate FirstReason(k: nat, p: Proposal, c: Config, now: int)
    requires k < |REASONS|
  {
    Explains(REASONS[k], p, c, now) && forall j :: 0 <= j < k ==> !Explains(REASONS[j], p, c, now)
  }

  ghost predicate Decides(p: Proposal, c: Config, now: int, v: Verdict)
  {
    && (forall d: int :: v == Allowed(d) <==> AllowedAt(p, c, now, d))
    && (v.Refused? ==> exists k: nat :: k < |REASONS| && v.reason == REASONS[k] && FirstReason(k, p, c, now))
  }

  method StartsWithOne(session: string, prefixes: seq<string>) returns (ok: bool)
    ensures ok <==> exists i :: 0 <= i < |prefixes| && prefixes[i] <= session
  {
    for i := 0 to |prefixes|
      invariant forall k :: 0 <= k < i ==> !(prefixes[k] <= session)
    {
      if prefixes[i] <= session { return true; }
    }
    ok := false;
  }

  /** The checks that do not depend on the clock. */
  method CheckAuthority(p: Proposal, c: Config, ghost now: int) returns (refusal: Option<Reason>)
    ensures refusal.None? <==> Authorised(p, c)
    ensures refusal.None? ==> forall j :: 0 <= j < 6 ==> !Explains(REASONS[j], p, c, now)
    ensures refusal.Some? ==> exists k: nat :: k < |REASONS| && refusal.value == REASONS[k] && FirstReason(k, p, c, now)
  {
    if !c.enabled || c.killSwitch { assert FirstReason(0, p, c, now); return Some(KillSwitch); }
    if p.tenant != c.tenant { assert FirstReason(1, p, c, now); return Some(WrongTenant); }
    if p.action !in c.consented { assert FirstReason(2, p, c, now); return Some(NoConsent); }
    if p.capability !in c.capabilities { assert FirstReason(3, p, c, now); return Some(NoCapability); }
    if p.depth > c.maxDepth { assert FirstReason(4, p, c, now); return Some(TooDeep); }
    var session := StartsWithOne(p.session, c.sessionPrefixes);
    if !session { assert FirstReason(5, p, c, now); return Some(SessionOutside); }
    refusal := None;
  }

  method EvaluateProposal(p: Proposal, c: Config, now: int) returns (v: Verdict)
    requires ConfigInRange(c)
    ensures Decides(p, c, now, v)
  {
    hide InQuietHours, QuietEndAfter, Authorised;
    var refusal := CheckAuthority(p, c, now);
    if refusal.Some? { return Refused(refusal.value); }
    if p.expiresAt.None? || p.notBefore.None? || now >= p.expiresAt.value || now < p.notBefore.value {
      assert FirstReason(6, p, c, now);
      return Refused(Unavailable);
    }
    if p.isSchedule && p.scheduledFor.None? { assert FirstReason(8, p, c, now); return Refused(OutsideValidity); }
    var deliverAt := if p.isSchedule then p.scheduledFor.value else MaxInt(now + SECOND, p.notBefore.value);
    if p.tauLatest.Some? {
      deliverAt := MaxInt(deliverAt, now + SECOND);
      if deliverAt >= p.tauLatest.value { assert FirstReason(7, p, c, now); return Refused(AllowanceExhausted); }
    }
    assert deliverAt == Wanted(p, now);
    if deliverAt >= p.expiresAt.value { assert FirstReason(8, p, c, now); return Refused(OutsideValidity); }
    if c.quietStart.Some? != c.quietEnd.Some? { assert FirstReason(9, p, c, now); return Refused(QuietIncomplete); }
    if p.priority < c.criticalThreshold && c.quietStart.Some?
       && InQuietHours(deliverAt, Some(Hours(c.quietStart.value, c.quietEnd.value))) {
      QuietEndIsFirst(deliverAt, Hours(c.quietStart.value, c.quietEnd.value));
      deliverAt := NextQuietEnd(deliverAt, c.quietEnd.value);
    }
    NeverQuiet(deliverAt);
    assert FirstPermitted(Wanted(p, now), Binding(p, c), deliverAt);
    OnlyOne(Wanted(p, now), Binding(p, c), deliverAt);
    if deliverAt >= p.expiresAt.value { assert FirstReason(10, p, c, now); return Refused(QuietPastExpiry); }
    if p.tauLatest.Some? && deliverAt >= p.tauLatest.value { assert FirstReason(11, p, c, now); return Refused(QuietPastAllowance); }
    v := Allowed(deliverAt);
  }

  lemma NeverQuiet(t: int)
    ensures !InQuietHours(t, None)
  {
  }

  lemma OnlyOne(wanted: int, quiet: Option<Hours>, d: int)
    requires FirstPermitted(wanted, quiet, d)
    ensures forall e: int :: FirstPermitted(wanted, quiet, e) <==> e == d
  {
    forall e: int | FirstPermitted(wanted, quiet, e) ensures e == d { FirstPermittedUnique(wanted, quiet, d, e); }
  }

  lemma FirstPermittedUnique(wanted: int, quiet: Option<Hours>, d: int, e: int)
    requires FirstPermitted(wanted, quiet, d) && FirstPermitted(wanted, quiet, e)
    ensures d == e
  {
  }

  /** The adapter refuses an authorised proposal only when no instant will do, and never picks a later one than needed. */
  lemma RefusedOnlyWhenNothingFits(p: Proposal, c: Config, now: int, v: Verdict, t: int)
    requires ConfigInRange(c) && Decides(p, c, now, v)
    requires Authorised(p, c) && Available(p, now) && Dated(p) && QuietComplete(c)
    requires Wanted(p, now) <= t < Deadline(p) && !InQuietHours(t, Binding(p, c))
    ensures v.Allowed? && v.deliverAt <= t
  {
    var w, quiet := Wanted(p, now), Binding(p, c);
    var d := if InQuietHours(w, quiet) then QuietEndAfter(w, quiet.value.end) else w;
    if InQuietHours(w, quiet) { QuietEndIsFirst(w, quiet.value); }
    assert FirstPermitted(w, quiet, d) && d <= t;
    assert AllowedAt(p, c, now, d);
  }

  /** The proposal as the adapter reads it for this decision. */
  ghost predicate Carries(p: Proposal, decision: Tau.TauDecision) {
    && p.isSchedule && p.notBefore == p.scheduledFor == Some(Truncated(decision.deliverAt))
    && p.expiresAt == Some(Truncated(decision.latestDispatch)) && p.tauLatest == Some(Truncated(decision.latestDispatch))
  }

  /** END TO END. A planned turn that the adapter allows is dispatched inside the signed allowance, so the
      planner's guarantee holds for the instant actually used: under every law within the radius its expected
      utility is at least the reported one. Reading instants to the millisecond costs nothing: it may open the
      proposal early, but delivery comes a second later. */
  lemma AllowedTurnKeepsItsUtility(f: Tau.TauForecast, policy: Tau.TauTurnPolicy, planned: int, decision: Tau.TauDecision,
                                   p: Proposal, c: Config, now: int, v: Verdict, support: seq<Tau.Atom>, q: Tau.Law)
    requires Tau.ValidTau(f, policy, planned) && Tau.BestOf(f, policy, planned, Tau.Offsets(f, policy), decision) && decision.schedule
    requires Carries(p, decision)
    requires Decides(p, c, now, v) && v.Allowed?
    requires Tau.Carries(support, f, q) && Tau.Distance(support, f, q) <= f.tvRadius
    ensures decision.deliverAt <= v.deliverAt < decision.latestDispatch
    ensures Tau.ExpectedUtility(support, q, f, policy, v.deliverAt) >= decision.lowerUtility > 0.0
  {
    hide Tau.ValidTau, Tau.BestOf, Tau.Carries, Tau.Distance;
    assert AllowedAt(p, c, now, v.deliverAt);
    Tau.ScheduledTurnIsRobust(f, policy, planned, decision, support, q, v.deliverAt);
  }
}

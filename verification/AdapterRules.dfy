/** When the adapter delivers and why it refuses (plugin/src/agency.ts), told from the clock and the fields alone. */
module AdapterRules {
  import opened Prelude
  import opened QuietHours
  import opened AgencyAdapter

  // ---- what is quiet ----

  /** The hours from one mark of the clock to the next time it shows the other; a whole day when they are the same. */
  function Span(from: int, to: int): int { if from < to then to - from else to - from + 24 }

  /** Inside the quiet time that began on this day, days counted from the zero time. */
  ghost predicate AsleepSince(t: int, day: int, from: int, to: int) {
    var began := (24 * day + from) * 3_600_000_000_000;
    began <= t && t < began + Span(from, to) * 3_600_000_000_000
  }

  /** QUIET, to the planner: some day's quiet time began and has not ended. */
  lemma QuietIs(t: int, from: int, to: int)
    requires ValidHour(from) && ValidHour(to)
    ensures Quiet(t, Hours(from, to)) <==> exists day: int :: AsleepSince(t, day, from, to)
  {
    forall day: int ensures AsleepSince(t, day, from, to) <==> InWindowOf(t, day, Hours(from, to)) { }
  }

  /** A stretch of time is blocked when somewhere in it, its ends included, such a quiet time runs. */
  lemma BlockedIs(start: int, end: int, from: int, to: int)
    requires ValidHour(from) && ValidHour(to)
    ensures SomeInstantQuiet(start, end, Hours(from, to))
       <==> exists t: int, day: int :: start <= t && t <= end && AsleepSince(t, day, from, to)
  {
    hide AsleepSince, Quiet;
    if SomeInstantQuiet(start, end, Hours(from, to)) {
      var t: int :| start <= t <= end && Quiet(t, Hours(from, to));
      QuietIs(t, from, to);
    }
    if t: int, day: int :| start <= t && t <= end && AsleepSince(t, day, from, to) {
      QuietIs(t, from, to);
      assert Quiet(t, Hours(from, to));
    }
  }

  /** Quiet, to the adapter: likewise, but equal marks never are. */
  lemma AdapterQuietIs(t: int, from: int, to: int)
    requires ValidHour(from) && ValidHour(to)
    ensures InQuietHours(t, Some(Hours(from, to))) <==> from != to && exists day: int :: AsleepSince(t, day, from, to)
  {
    hide AsleepSince;
    QuietIs(t, from, to);
    if from != to { AgreeAt(t, Hours(from, to)); }
  }

  // ---- when a proposal is delivered ----

  /** The proposal disturbs at this instant: it is less than critical and the configured quiet time runs. */
  ghost predicate Disturbs(p: Proposal, c: Config, t: int) {
    && p.priority < c.criticalThreshold && c.quietStart.Some? && c.quietEnd.Some? && c.quietStart != c.quietEnd
    && exists day: int :: AsleepSince(t, day, c.quietStart.value, c.quietEnd.value)
  }

  /** An instant that will do: not before what was asked for, a second from now except for a schedule that no turn plan
      made, before the proposal and the turn lapse, and without disturbing. */
  ghost predicate Suits(p: Proposal, c: Config, now: int, t: int) {
    && (p.isSchedule ==> p.scheduledFor.Some? && p.scheduledFor.value <= t)
    && (!p.isSchedule ==> p.notBefore.Some? && p.notBefore.value <= t && now + 1_000_000_000 <= t)
    && (p.tauLatest.Some? ==> now + 1_000_000_000 <= t && t < p.tauLatest.value)
    && p.expiresAt.Some? && t < p.expiresAt.value
    && !Disturbs(p, c, t)
  }

  /** Within what the configuration allows, and open now. */
  ghost predicate Granted(p: Proposal, c: Config, now: int) {
    && c.enabled && !c.killSwitch && p.tenant == c.tenant && p.action in c.consented && p.capability in c.capabilities
    && !(c.maxDepth < p.depth) && (exists prefix :: prefix in c.sessionPrefixes && prefix <= p.session)
    && p.notBefore.Some? && p.expiresAt.Some? && p.notBefore.value <= now && now < p.expiresAt.value
    && (c.quietStart.None? <==> c.quietEnd.None?)
  }

  lemma GrantedIs(p: Proposal, c: Config, now: int)
    ensures Granted(p, c, now) <==> Authorised(p, c) && Available(p, now) && QuietComplete(c)
  {
    if SessionAllowed(p, c) {
      var i :| 0 <= i < |c.sessionPrefixes| && c.sessionPrefixes[i] <= p.session;
      assert c.sessionPrefixes[i] in c.sessionPrefixes;
    }
  }

  lemma DisturbsIs(p: Proposal, c: Config, t: int)
    requires ConfigInRange(c)
    ensures Disturbs(p, c, t) <==> InQuietHours(t, Binding(p, c))
  {
    hide AsleepSince;
    if c.quietStart.Some? && c.quietEnd.Some? { AdapterQuietIs(t, c.quietStart.value, c.quietEnd.value); }
  }

  lemma SuitsIs(p: Proposal, c: Config, now: int, t: int)
    requires ConfigInRange(c) && Available(p, now)
    ensures Suits(p, c, now, t) <==> Dated(p) && Wanted(p, now) <= t < Deadline(p) && !InQuietHours(t, Binding(p, c))
  {
    hide Disturbs, InQuietHours, Binding;
    DisturbsIs(p, c, t);
  }

  /** AS SOON AS IT MAY. The adapter delivers at an instant if and only if the proposal is granted, the instant will do, and
      no earlier one would. */
  lemma DeliversIff(p: Proposal, c: Config, now: int, v: Verdict, d: int)
    requires ConfigInRange(c) && Decides(p, c, now, v)
    ensures v == Allowed(d) <==> Granted(p, c, now) && Suits(p, c, now, d) && forall t: int :: t < d ==> !Suits(p, c, now, t)
  {
    hide Suits, Granted, InQuietHours, Binding, Wanted, Deadline, Authorised, Available, QuietComplete, Explains;
    GrantedIs(p, c, now);
    if Available(p, now) {
      forall t: int
        ensures Suits(p, c, now, t) <==> Dated(p) && Wanted(p, now) <= t < Deadline(p) && !InQuietHours(t, Binding(p, c))
      {
        SuitsIs(p, c, now, t);
      }
    }
    assert v == Allowed(d) <==> AllowedAt(p, c, now, d);
  }

  /** REFUSED ONLY WHEN NOTHING SUITS: a verdict is a refusal exactly when the proposal is not granted or no instant does. */
  lemma RefusesIff(p: Proposal, c: Config, now: int, v: Verdict)
    requires ConfigInRange(c) && Decides(p, c, now, v)
    ensures v.Refused? <==> !Granted(p, c, now) || forall t: int :: !Suits(p, c, now, t)
  {
    hide Suits, Granted, InQuietHours, Wanted, Deadline, Authorised, Available, QuietComplete, Explains;
    GrantedIs(p, c, now);
    if v.Allowed? {
      DeliversIff(p, c, now, v, v.deliverAt);
    } else if Granted(p, c, now) {
      forall t: int ensures !Suits(p, c, now, t) {
        SuitsIs(p, c, now, t);
        if Suits(p, c, now, t) { RefusedOnlyWhenNothingFits(p, c, now, v, t); }
      }
    }
  }

  // ---- why it refuses ----

  /** The reasons that need no clock, in the order they are looked for. */
  lemma FirstRefusals(p: Proposal, c: Config, now: int, v: Verdict)
    requires Decides(p, c, now, v)
    ensures var served := exists prefix :: prefix in c.sessionPrefixes && prefix <= p.session;
      if !c.enabled || c.killSwitch then v == Refused(KillSwitch)
      else if p.tenant != c.tenant then v == Refused(WrongTenant)
      else if p.action !in c.consented then v == Refused(NoConsent)
      else if p.capability !in c.capabilities then v == Refused(NoCapability)
      else if c.maxDepth < p.depth then v == Refused(TooDeep)
      else if !served then v == Refused(SessionOutside)
      else v.Refused? ==> v.reason !in {KillSwitch, WrongTenant, NoConsent, NoCapability, TooDeep, SessionOutside}
  {
    ServedIs(p, c);
    hide SessionAllowed, Available, QuietComplete, Binding, Wanted;
    if v.Allowed? {
      assert AllowedAt(p, c, now, v.deliverAt);
    } else {
      FirstOf(p, c, now, v, 0);
      FirstOf(p, c, now, v, 1);
      FirstOf(p, c, now, v, 2);
      FirstOf(p, c, now, v, 3);
      FirstOf(p, c, now, v, 4);
      FirstOf(p, c, now, v, 5);
    }
  }

  /** The first instant asked for, a second from now except for a schedule that no turn plan made. */
  function Asked(p: Proposal, now: int): int {
    var soon := now + 1_000_000_000;
    var asked := if p.isSchedule then (if p.scheduledFor.Some? then p.scheduledFor.value else 0)
                 else if p.notBefore.Some? then p.notBefore.value else 0;
    if (p.isSchedule && p.tauLatest.None?) || soon <= asked then asked else soon
  }

  /** Every instant from the one asked for up to this one would disturb. */
  ghost predicate Sleepless(p: Proposal, c: Config, now: int, until: int) {
    forall t: int :: Asked(p, now) <= t < until ==> Disturbs(p, c, t)
  }

  /** The reasons that need the clock, in the order they are looked for, once the configuration allows the proposal. */
  lemma LaterRefusals(p: Proposal, c: Config, now: int, v: Verdict)
    requires ConfigInRange(c) && Decides(p, c, now, v)
    requires Authorised(p, c)
    ensures var expires, latest := p.expiresAt, p.tauLatest;
      if p.notBefore.None? || expires.None? || now < p.notBefore.value || expires.value <= now then v == Refused(Unavailable)
      else if p.isSchedule && p.scheduledFor.None? then v == Refused(OutsideValidity)
      else if latest.Some? && latest.value <= Asked(p, now) then v == Refused(AllowanceExhausted)
      else if expires.value <= Asked(p, now) then v == Refused(OutsideValidity)
      else if c.quietStart.Some? != c.quietEnd.Some? then v == Refused(QuietIncomplete)
      else if Sleepless(p, c, now, expires.value) then v == Refused(QuietPastExpiry)
      else if latest.Some? && Sleepless(p, c, now, latest.value) then v == Refused(QuietPastAllowance)
      else v.Allowed?
  {
    hide Authorised, InQuietHours, Binding, Disturbs;
    var w := Asked(p, now);
    NotEarlier(p, c, now, v);
    forall t: int ensures Disturbs(p, c, t) <==> InQuietHours(t, Binding(p, c)) { DisturbsIs(p, c, t); }
    if v.Refused? {
      FirstOf(p, c, now, v, 6);
      FirstOf(p, c, now, v, 7);
      FirstOf(p, c, now, v, 8);
      FirstOf(p, c, now, v, 9);
      FirstOf(p, c, now, v, 10);
      FirstOf(p, c, now, v, 11);
    } else {
      assert AllowedAt(p, c, now, v.deliverAt);
    }
  }

  /** Nothing the configuration decides alone stands in the way. */
  lemma NotEarlier(p: Proposal, c: Config, now: int, v: Verdict)
    requires Authorised(p, c)
    ensures forall j :: 0 <= j < 6 ==> !Explains(REASONS[j], p, c, now)
  {
  }

  lemma ServedIs(p: Proposal, c: Config)
    ensures SessionAllowed(p, c) <==> exists prefix :: prefix in c.sessionPrefixes && prefix <= p.session
  {
    if SessionAllowed(p, c) {
      var i :| 0 <= i < |c.sessionPrefixes| && c.sessionPrefixes[i] <= p.session;
      assert c.sessionPrefixes[i] in c.sessionPrefixes;
    }
  }

  /** A refusal gives a reason exactly when it holds and no earlier one does. */
  lemma FirstOf(p: Proposal, c: Config, now: int, v: Verdict, k: nat)
    requires Decides(p, c, now, v) && v.Refused? && k < |REASONS|
    ensures v.reason == REASONS[k] <==> FirstReason(k, p, c, now)
  {
    hide Explains;
    var j: nat :| j < |REASONS| && v.reason == REASONS[j] && FirstReason(j, p, c, now);
    if FirstReason(k, p, c, now) { assert !(j < k) && !(k < j); }
    if v.reason == REASONS[k] { OnePlace(j, k); }
  }

  lemma OnePlace(j: nat, k: nat)
    requires j < |REASONS| && k < |REASONS| && REASONS[j] == REASONS[k]
    ensures j == k
  {
  }
}

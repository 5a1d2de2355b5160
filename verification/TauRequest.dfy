/** Which planning requests are accepted and what is wrong with the others (internal/agency/tau.go, ValidateTau), in numbers. */
module TauRequest {
  import opened Prelude
  import opened RealSums
  import opened Tau

  predicate Unit(v: real) { !(v < 0.0) && !(1.0 < v) }

  /** A name of one to 256 characters. */
  predicate Named(s: string) { 0 < |s| && |s| < 257 }

  const WEEK_MS := 7 * 24 * 3600 * 1000

  /** Issued between its origin and now, still valid, and valid no longer than its horizon of at most a week. */
  predicate Issued(f: TauForecast, now: int) {
    && Named(f.id) && f.origin != 0 && !(f.issuedAt < f.origin) && !(now < f.issuedAt) && now < f.validUntil
    && 0 < f.horizonMS && f.horizonMS <= WEEK_MS && f.validUntil - f.origin <= f.horizonMS * 1_000_000
  }

  predicate Sized(f: TauForecast) { |f.points| < 33 && Unit(f.noEvent) && Unit(f.tvRadius) }

  /** Points after the origin and within the horizon, in order of time, no mark twice at one time. */
  ghost predicate Plotted(points: seq<TauPoint>, horizonMS: int) {
    && (forall pt :: pt in points ==> Named(pt.mark) && 0 < pt.delayMS && pt.delayMS <= horizonMS && Unit(pt.probability))
    && (forall i :: 0 < i < |points| ==> points[i - 1].delayMS <= points[i].delayMS)
    && forall i, j :: 0 <= i < |points| && 0 <= j < |points| && SamePlace(points[i], points[j]) ==> i == j
  }

  predicate SamePlace(a: TauPoint, b: TauPoint) { a.mark == b.mark && a.delayMS == b.delayMS }

  lemma PlottedIs(points: seq<TauPoint>, horizonMS: int)
    ensures Plotted(points, horizonMS) <==> AtomsOk(points, horizonMS)
  {
    if Plotted(points, horizonMS) {
      forall i | 0 <= i < |points| ensures AtomOk(points[i], horizonMS) { assert points[i] in points; }
      forall i, j | 0 <= i < j < |points|
        ensures points[i].delayMS <= points[j].delayMS && AtomOf(points[i]) != AtomOf(points[j])
      {
        InTime(points, i, j);
      }
    }
    if AtomsOk(points, horizonMS) {
      forall i, j | 0 <= i < |points| && 0 <= j < |points| && SamePlace(points[i], points[j]) ensures i == j {
        assert AtomOf(points[i]) == AtomOf(points[j]);
      }
    }
  }

  lemma {:induction false} InTime(points: seq<TauPoint>, i: nat, j: nat)
    requires i < j < |points| && forall k :: 0 < k < |points| ==> points[k - 1].delayMS <= points[k].delayMS
    ensures points[i].delayMS <= points[j].delayMS
    decreases j
  {
    if i < j - 1 { InTime(points, i, j - 1); }
  }

  function Chances(points: seq<TauPoint>): (ps: seq<real>)
    ensures |ps| == |points|
  {
    seq(|points|, i requires 0 <= i < |points| => points[i].probability)
  }

  lemma {:induction false} MassIsSum(points: seq<TauPoint>)
    ensures TotalMass(points) == Sum(Chances(points))
    decreases |points|
  {
    if points != [] {
      var n := |points| - 1;
      MassIsSum(points[..n]);
      assert Chances(points)[..n] == Chances(points[..n]);
    }
  }

  /** All the probability there is, to a billionth of a thousandth. */
  ghost predicate Whole(f: TauForecast) {
    f.noEvent + Sum(Chances(f.points)) - 1.0 <= 0.000_000_000_001 && 1.0 - f.noEvent - Sum(Chances(f.points)) <= 0.000_000_000_001
  }

  predicate Priced(p: TauTurnPolicy) {
    Named(p.targetKind) && Unit(p.benefit) && Unit(p.falseCost) && Unit(p.turnCost) && Unit(p.minProbability) && Unit(p.margin)
  }

  function Given(p: TauTurnPolicy): seq<int> { if p.candidateDelaysMS.None? then [] else p.candidateDelaysMS.value }

  /** Offsets that rise from zero or more to the horizon at most. */
  predicate Rising(c: seq<int>, horizonMS: int) {
    && (c != [] ==> 0 <= c[0] && c[|c| - 1] <= horizonMS)
    && forall i :: 0 < i < |c| ==> c[i - 1] < c[i]
  }

  lemma RisingIs(c: seq<int>, horizonMS: int)
    ensures Rising(c, horizonMS) <==> Ordered(c, horizonMS)
  {
    if Rising(c, horizonMS) {
      forall i, j | 0 <= i < j < |c| ensures c[i] < c[j] { Rises(c, i, j); }
      forall i | 0 <= i < |c| ensures 0 <= c[i] <= horizonMS {
        if i > 0 { Rises(c, 0, i); }
        if i < |c| - 1 { Rises(c, i, |c| - 1); }
      }
    }
  }

  lemma {:induction false} Rises(c: seq<int>, i: nat, j: nat)
    requires i < j < |c| && forall k :: 0 < k < |c| ==> c[k - 1] < c[k]
    ensures c[i] < c[j]
    decreases j
  {
    if i < j - 1 { Rises(c, i, j - 1); }
  }

  /** Two different hours of the day. */
  predicate Hourly(p: TauTurnPolicy) {
    p.quietStart.Some? && p.quietEnd.Some? ==>
      && 0 <= p.quietStart.value && p.quietStart.value < 24 && 0 <= p.quietEnd.value && p.quietEnd.value < 24
      && p.quietStart.value != p.quietEnd.value
  }

  /** A lead of up to a week, two seconds of slack or more, a window and a cooldown no shorter than the slack, and a second's
      notice or more; nothing longer than a week. */
  predicate Timed(p: TauTurnPolicy) {
    && 0 <= p.leadMS && p.leadMS <= WEEK_MS && 2 * 1000 <= p.slackMS
    && p.slackMS <= p.windowMS && p.windowMS <= WEEK_MS && p.slackMS <= p.cooldownMS && p.cooldownMS <= WEEK_MS
    && 1000 <= p.minDelayMS && p.minDelayMS <= WEEK_MS
  }

  /** THE FIRST THING WRONG is what the planner complains of; a request with nothing wrong is planned for. */
  lemma ComplaintIs(f: TauForecast, p: TauTurnPolicy, now: int)
    ensures FirstFailure(f, p, now)
      == if !Issued(f, now) then Some(BadIdentity)
         else if !Sized(f) then Some(BadSupport)
         else if !Plotted(f.points, f.horizonMS) then Some(BadAtoms)
         else if !Whole(f) then Some(BadMass)
         else if !Priced(p) then Some(BadUtility)
         else if !(p.margin > 0.0) then Some(NoMargin)
         else if 32 < |Given(p)| then Some(TooManyCandidates)
         else if !Rising(Given(p), f.horizonMS) then Some(BadCandidates)
         else if (p.quietStart.None? && p.quietEnd.Some?) || (p.quietStart.Some? && p.quietEnd.None?) then Some(HalfQuiet)
         else if !Hourly(p) then Some(BadQuiet)
         else if !Timed(p) then Some(BadTiming)
         else None
    ensures ValidTau(f, p, now) <==> FirstFailure(f, p, now).None?
  {
    hide AtomsOk, Plotted, TotalMass, Sum, Chances, Ordered, Rising;
    PlottedIs(f.points, f.horizonMS);
    MassIsSum(f.points);
    RisingIs(Given(p), f.horizonMS);
  }
}

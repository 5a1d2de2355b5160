/** The turn planner (internal/agency/tau.go): one dispatch time chosen by conservative utility over a finite
    marked-time law. Delays are milliseconds, instants nanoseconds. */
module Tau {
  import opened Prelude
  import opened RealSums
  import opened QuietHours

  const MAX_POINTS: nat := 32
  const MAX_HORIZON_MS: int := 604_800_000
  const EPSILON: real := 0.000000000001

  datatype TauPoint = TauPoint(mark: string, delayMS: int, probability: real)

  datatype TauForecast = TauForecast(id: string, origin: int, issuedAt: int, validUntil: int, horizonMS: int,
                                     points: seq<TauPoint>, noEvent: real, tvRadius: real)

  datatype TauTurnPolicy = TauTurnPolicy(candidateDelaysMS: Option<seq<int>>,
                                         quietStart: Option<int>, quietEnd: Option<int>, targetKind: string,
                                         benefit: real, falseCost: real, turnCost: real, minProbability: real, margin: real,
                                         leadMS: int, windowMS: int, slackMS: int, minDelayMS: int, cooldownMS: int)

  datatype TauDecision = TauDecision(schedule: bool, deliverAt: int, latestDispatch: int,
                                     probability: real, lowerProbability: real, lowerUtility: real)

  const NO_TURN := TauDecision(false, 0, 0, 0.0, 0.0, 0.0)

  datatype TauError = BadIdentity | BadSupport | BadAtoms | BadMass | BadUtility | NoMargin
                    | TooManyCandidates | BadCandidates | HalfQuiet | BadQuiet | BadTiming

  // ---- what a valid request is ----

  function BoundedString(s: string, maximum: nat): bool { s != "" && |s| <= maximum }

  function Probability(v: real): bool { 0.0 <= v <= 1.0 }

  function TotalMass(points: seq<TauPoint>): real
  {
    if points == [] then 0.0 else TotalMass(points[..|points| - 1]) + points[|points| - 1].probability
  }

  ghost predicate IdentityOk(f: TauForecast, now: int)
  {
    && BoundedString(f.id, 256) && f.origin != 0 && f.origin <= f.issuedAt <= now < f.validUntil
    && 1 <= f.horizonMS <= MAX_HORIZON_MS && f.validUntil <= f.origin + f.horizonMS * MS
  }

  ghost predicate SupportOk(f: TauForecast)
  {
    |f.points| <= MAX_POINTS && Probability(f.noEvent) && Probability(f.tvRadius)
  }

  predicate AtomOk(p: TauPoint, horizonMS: int)
  {
    BoundedString(p.mark, 256) && 1 <= p.delayMS <= horizonMS && Probability(p.probability)
  }

  /** Atoms are bounded, inside the horizon, sorted by delay and pairwise different. */
  ghost predicate AtomsOk(points: seq<TauPoint>, horizonMS: int)
  {
    && (forall i :: 0 <= i < |points| ==> AtomOk(points[i], horizonMS))
    && (forall i, j :: 0 <= i < j < |points| ==> points[i].delayMS <= points[j].delayMS)
    && (forall i, j :: 0 <= i < j < |points| ==> AtomOf(points[i]) != AtomOf(points[j]))
  }

  ghost predicate MassOk(f: TauForecast) { Abs(f.noEvent + TotalMass(f.points) - 1.0) <= EPSILON }

  ghost predicate UtilityOk(p: TauTurnPolicy)
  {
    && BoundedString(p.targetKind, 256) && Probability(p.benefit) && Probability(p.falseCost) && Probability(p.turnCost)
    && Probability(p.minProbability) && Probability(p.margin)
  }

  function Supplied(p: TauTurnPolicy): seq<int>
  {
    if p.candidateDelaysMS.Some? then p.candidateDelaysMS.value else []
  }

  /** Candidates are offsets inside the horizon, strictly increasing. */
  ghost predicate Ordered(c: seq<int>, horizonMS: int)
  {
    && (forall i :: 0 <= i < |c| ==> 0 <= c[i] <= horizonMS)
    && (forall i, j :: 0 <= i < j < |c| ==> c[i] < c[j])
  }

  ghost predicate CandidatesOk(p: TauTurnPolicy, horizonMS: int) { Ordered(Supplied(p), horizonMS) }

  ghost predicate QuietOk(p: TauTurnPolicy)
  {
    p.quietStart.Some? && p.quietEnd.Some? ==>
      ValidHour(p.quietStart.value) && ValidHour(p.quietEnd.value) && p.quietStart != p.quietEnd
  }

  ghost predicate TimingOk(p: TauTurnPolicy)
  {
    && 0 <= p.leadMS <= MAX_HORIZON_MS && 2000 <= p.slackMS <= MAX_HORIZON_MS
    && p.slackMS <= p.windowMS <= MAX_HORIZON_MS && 1000 <= p.minDelayMS <= MAX_HORIZON_MS
    && p.slackMS <= p.cooldownMS <= MAX_HORIZON_MS
  }

  ghost predicate ValidTau(f: TauForecast, p: TauTurnPolicy, now: int)
  {
    && IdentityOk(f, now) && SupportOk(f) && AtomsOk(f.points, f.horizonMS) && MassOk(f)
    && UtilityOk(p) && p.margin != 0.0 && |Supplied(p)| <= MAX_POINTS && CandidatesOk(p, f.horizonMS)
    && p.quietStart.Some? == p.quietEnd.Some? && QuietOk(p) && TimingOk(p)
  }

  /** The first group of rules that a request fails, in the order they are checked. */
  ghost function FirstFailure(f: TauForecast, p: TauTurnPolicy, now: int): Option<TauError>
  {
    if !IdentityOk(f, now) then Some(BadIdentity)
    else if !SupportOk(f) then Some(BadSupport)
    else if !AtomsOk(f.points, f.horizonMS) then Some(BadAtoms)
    else if !MassOk(f) then Some(BadMass)
    else if !UtilityOk(p) then Some(BadUtility)
    else if p.margin == 0.0 then Some(NoMargin)
    else if |Supplied(p)| > MAX_POINTS then Some(TooManyCandidates)
    else if !CandidatesOk(p, f.horizonMS) then Some(BadCandidates)
    else if p.quietStart.Some? != p.quietEnd.Some? then Some(HalfQuiet)
    else if !QuietOk(p) then Some(BadQuiet)
    else if !TimingOk(p) then Some(BadTiming)
    else None
  }

  /** Accepts exactly the valid requests and otherwise names the first group of rules that fails. */
  method ValidateTau(f: TauForecast, p: TauTurnPolicy, now: int) returns (error: Option<TauError>)
    ensures error.None? <==> ValidTau(f, p, now)
    ensures error == FirstFailure(f, p, now)
  {
    hide AtomsOk, Ordered, TotalMass;
    if !BoundedString(f.id, 256) || f.origin == 0 || f.issuedAt < f.origin || f.issuedAt > now || f.validUntil <= now
       || f.horizonMS < 1 || f.horizonMS > MAX_HORIZON_MS || f.validUntil > f.origin + f.horizonMS * MS {
      return Some(BadIdentity);
    }
    if |f.points| > MAX_POINTS || !Probability(f.noEvent) || !Probability(f.tvRadius) { return Some(BadSupport); }
    var ok, mass := ValidateAtoms(f.points, f.horizonMS, f.noEvent);
    if !ok { return Some(BadAtoms); }
    if Abs(mass - 1.0) > EPSILON { return Some(BadMass); }
    if !BoundedString(p.targetKind, 256) || !Probability(p.benefit) || !Probability(p.falseCost) || !Probability(p.turnCost)
       || !Probability(p.minProbability) || !Probability(p.margin) {
      return Some(BadUtility);
    }
    if p.margin == 0.0 { return Some(NoMargin); }
    var supplied := Supplied(p);
    if |supplied| > MAX_POINTS { return Some(TooManyCandidates); }
    var ordered := ValidateCandidates(supplied, f.horizonMS);
    if !ordered { return Some(BadCandidates); }
    if p.quietStart.Some? != p.quietEnd.Some? { return Some(HalfQuiet); }
    if p.quietStart.Some? && (p.quietStart.value < 0 || p.quietStart.value > 23 || p.quietEnd.value < 0 || p.quietEnd.value > 23
                              || p.quietStart.value == p.quietEnd.value) {
      return Some(BadQuiet);
    }
    if p.leadMS < 0 || p.leadMS > MAX_HORIZON_MS || p.slackMS < 2000 || p.slackMS > MAX_HORIZON_MS || p.windowMS < p.slackMS
       || p.windowMS > MAX_HORIZON_MS || p.minDelayMS < 1000 || p.minDelayMS > MAX_HORIZON_MS || p.cooldownMS < p.slackMS
       || p.cooldownMS > MAX_HORIZON_MS {
      return Some(BadTiming);
    }
    error := None;
  }

  method ValidateAtoms(points: seq<TauPoint>, horizonMS: int, noEvent: real) returns (ok: bool, mass: real)
    ensures ok <==> AtomsOk(points, horizonMS)
    ensures ok ==> mass == noEvent + TotalMass(points)
  {
    hide AtomsOk, TotalMass;
    NoAtoms(points, horizonMS);
    mass := noEvent;
    var last := 0;
    var seen: set<Atom> := {};
    for i := 0 to |points|
      invariant mass == noEvent + TotalMass(points[..i])
      invariant AtomsOk(points[..i], horizonMS)
      invariant last == if i == 0 then 0 else points[i - 1].delayMS
      invariant forall a :: a in seen <==> exists j :: 0 <= j < i && AtomOf(points[j]) == a
    {
      var point := points[i];
      var key := At(point.mark, point.delayMS);
      AtomsOkStep(points, i, horizonMS);
      TotalMassStep(points, i);
      if !BoundedString(point.mark, 256) || point.delayMS < 1 || point.delayMS > horizonMS || point.delayMS < last
         || !Probability(point.probability) {
        return false, mass;
      }
      if key in seen { return false, mass; }
      seen := seen + {key};
      last := point.delayMS;
      mass := mass + point.probability;
    }
    assert points[..|points|] == points;
    ok := true;
  }

  /** One more atom is fine when it is in bounds, not earlier than the last one, and new. */
  lemma AtomsOkStep(points: seq<TauPoint>, i: nat, horizonMS: int)
    requires i < |points| && AtomsOk(points[..i], horizonMS)
    ensures AtomsOk(points, horizonMS) ==> AtomsOk(points[..i + 1], horizonMS)
    ensures AtomsOk(points[..i + 1], horizonMS)
      <==> && AtomOk(points[i], horizonMS)
           && (i > 0 ==> points[i - 1].delayMS <= points[i].delayMS)
           && (forall j :: 0 <= j < i ==> AtomOf(points[j]) != AtomOf(points[i]))
  {
    hide AtomOk;
    var before, after := points[..i], points[..i + 1];
    assert forall j :: 0 <= j < i ==> after[j] == before[j] == points[j];
    assert after[i] == points[i];
    if i > 0 { assert after[i - 1] == points[i - 1]; }
  }

  lemma NoAtoms(points: seq<TauPoint>, horizonMS: int)
    ensures AtomsOk(points[..0], horizonMS) && TotalMass(points[..0]) == 0.0
  {
  }

  lemma TotalMassStep(points: seq<TauPoint>, i: nat)
    requires i < |points|
    ensures TotalMass(points[..i + 1]) == TotalMass(points[..i]) + points[i].probability
  {
    assert points[..i + 1][..i] == points[..i];
  }

  method ValidateCandidates(supplied: seq<int>, horizonMS: int) returns (ok: bool)
    ensures ok <==> Ordered(supplied, horizonMS)
  {
    var last := -1;
    for i := 0 to |supplied|
      invariant last == if i == 0 then -1 else supplied[i - 1]
      invariant forall j :: 0 <= j < i ==> 0 <= supplied[j] <= horizonMS
      invariant forall j, k :: 0 <= j < k < i ==> supplied[j] < supplied[k]
    {
      if supplied[i] < 0 || supplied[i] > horizonMS || supplied[i] <= last { return false; }
      last := supplied[i];
    }
    ok := true;
  }

  // ---- candidates ----

  function QuietOf(p: TauTurnPolicy): Option<Hours>
  {
    if p.quietStart.Some? && p.quietEnd.Some? then Some(Hours(p.quietStart.value, p.quietEnd.value)) else None
  }

  /** Probability the forecast gives to the target landing between two delays. */
  function WindowMass(points: seq<TauPoint>, kind: string, lo: int, hi: int): real
  {
    if points == [] then 0.0
    else
      var last := points[|points| - 1];
      WindowMass(points[..|points| - 1], kind, lo, hi)
        + (if last.mark == kind && lo <= last.delayMS <= hi then last.probability else 0.0)
  }

  /** Default candidates: for each target atom, the dispatch whose useful window closes on it last. */
  function TargetOffsets(points: seq<TauPoint>, p: TauTurnPolicy): seq<int>
  {
    if points == [] then []
    else
      var last := points[|points| - 1];
      TargetOffsets(points[..|points| - 1], p)
        + (if last.mark == p.targetKind then [last.delayMS - p.leadMS - p.slackMS] else [])
  }

  function Offsets(f: TauForecast, p: TauTurnPolicy): seq<int>
  {
    if p.candidateDelaysMS.Some? then p.candidateDelaysMS.value else TargetOffsets(f.points, p)
  }

  /** What a turn is worth when at least this much probability is sure. */
  function ConservativeUtility(p: TauTurnPolicy, lower: real): real {
    (p.benefit + p.falseCost) * lower - p.falseCost - p.turnCost - EPSILON
  }

  /** The decision a candidate offset stands for, admissible or not. */
  function Offer(f: TauForecast, p: TauTurnPolicy, offset: int): (d: TauDecision)
    ensures d.schedule
  {
    var s := f.origin + offset * MS;
    var mass := WindowMass(f.points, p.targetKind, offset + p.leadMS + p.slackMS, offset + p.leadMS + p.windowMS);
    var lower := Max(0.0, Min(1.0, mass) - f.tvRadius);
    TauDecision(true, s, s + p.slackMS * MS, mass, lower, ConservativeUtility(p, lower))
  }

  ghost predicate InTime(f: TauForecast, p: TauTurnPolicy, now: int, d: TauDecision)
  {
    && d.deliverAt >= now + p.minDelayMS * MS && d.latestDispatch <= f.validUntil
    && !(QuietOf(p).Some? && SomeInstantQuiet(d.deliverAt, d.latestDispatch, QuietOf(p).value))
  }

  ghost predicate Admissible(f: TauForecast, p: TauTurnPolicy, now: int, offset: int)
  {
    var d := Offer(f, p, offset);
    InTime(f, p, now, d) && d.lowerProbability >= p.minProbability && d.lowerUtility > p.margin
  }

  /** `d` is at least as good as `e`: more utility, or as much and not later. */
  ghost predicate AtLeastAsGood(d: TauDecision, e: TauDecision)
  {
    d.lowerUtility > e.lowerUtility || (d.lowerUtility == e.lowerUtility && d.deliverAt <= e.deliverAt)
  }

  /** `d` is the best admissible candidate, or no turn when there is none. */
  ghost predicate BestOf(f: TauForecast, p: TauTurnPolicy, now: int, offsets: seq<int>, d: TauDecision)
  {
    if d.schedule then
      && (exists i :: 0 <= i < |offsets| && Admissible(f, p, now, offsets[i]) && d == Offer(f, p, offsets[i]))
      && (forall i :: 0 <= i < |offsets| && Admissible(f, p, now, offsets[i]) ==> AtLeastAsGood(d, Offer(f, p, offsets[i])))
    else d == NO_TURN && forall i :: 0 <= i < |offsets| ==> !Admissible(f, p, now, offsets[i])
  }

  datatype PlanResult = Planned(decision: TauDecision) | Invalid(error: TauError)

  method PlanTau(f: TauForecast, p: TauTurnPolicy, now: int) returns (r: PlanResult)
    ensures r.Planned? <==> ValidTau(f, p, now)
    ensures r.Planned? ==> BestOf(f, p, now, Offsets(f, p), r.decision)
  {
    var error := ValidateTau(f, p, now);
    if error.Some? { return Invalid(error.value); }
    var candidates := Candidates(f, p);
    hide *;
    var best := NO_TURN;
    NothingYet(f, p, now, candidates);
    for c := 0 to |candidates|
      invariant BestOf(f, p, now, candidates[..c], best)
    {
      ghost var before := best;
      var admissible, d := Evaluate(f, p, now, candidates[c]);
      if admissible && (!best.schedule || d.lowerUtility > best.lowerUtility
                        || (d.lowerUtility == best.lowerUtility && d.deliverAt < best.deliverAt)) {
        best := d;
      }
      BestOfStep(f, p, now, candidates, c, before, best);
    }
    assert candidates[..|candidates|] == candidates;
    r := Planned(best);
  }

  method Candidates(f: TauForecast, p: TauTurnPolicy) returns (candidates: seq<int>)
    ensures candidates == Offsets(f, p)
  {
    candidates := [];
    if p.candidateDelaysMS.Some? { return p.candidateDelaysMS.value; }
    for i := 0 to |f.points|
      invariant candidates == TargetOffsets(f.points[..i], p)
    {
      var point := f.points[i];
      if point.mark == p.targetKind { candidates := candidates + [point.delayMS - p.leadMS - p.slackMS]; }
      assert f.points[..i + 1][..i] == f.points[..i];
    }
    assert f.points[..|f.points|] == f.points;
  }

  /** One turn of the planner's loop, up to the comparison with the best so far. */
  method Evaluate(f: TauForecast, p: TauTurnPolicy, now: int, offset: int) returns (admissible: bool, d: TauDecision)
    requires ValidTau(f, p, now)
    ensures admissible <==> Admissible(f, p, now, offset)
    ensures admissible ==> d == Offer(f, p, offset)
  {
    hide ConservativeUtility, WindowMass, SomeInstantQuiet;
    d := NO_TURN;
    var s := f.origin + offset * MS;
    var latest := s + p.slackMS * MS;
    var blocked := TauQuietBlocked(s, latest, QuietOf(p));
    if s < now + p.minDelayMS * MS || latest > f.validUntil || blocked { return false, d; }
    var mass := MassBetween(f.points, p.targetKind, offset + p.leadMS + p.slackMS, offset + p.leadMS + p.windowMS);
    var lower := Max(0.0, Min(1.0, mass) - f.tvRadius);
    var u := ConservativeUtility(p, lower);
    d := TauDecision(true, s, latest, mass, lower, u);
    admissible := !(lower < p.minProbability || u <= p.margin);
  }

  lemma NothingYet(f: TauForecast, p: TauTurnPolicy, now: int, offsets: seq<int>)
    ensures BestOf(f, p, now, offsets[..0], NO_TURN)
  {
  }

  lemma BestOfStep(f: TauForecast, p: TauTurnPolicy, now: int, offsets: seq<int>, c: nat, before: TauDecision, after: TauDecision)
    requires c < |offsets| && BestOf(f, p, now, offsets[..c], before)
    requires var d := Offer(f, p, offsets[c]);
      after == if Admissible(f, p, now, offsets[c])
                  && (!before.schedule || d.lowerUtility > before.lowerUtility
                      || (d.lowerUtility == before.lowerUtility && d.deliverAt < before.deliverAt))
               then d else before
    ensures BestOf(f, p, now, offsets[..c + 1], after)
  {
    hide Offer, Admissible;
    var shorter, longer := offsets[..c], offsets[..c + 1];
    assert forall i :: 0 <= i < c ==> shorter[i] == longer[i];
    assert longer[c] == offsets[c];
    if before.schedule {
      var i :| 0 <= i < c && Admissible(f, p, now, shorter[i]) && before == Offer(f, p, shorter[i]);
      assert Admissible(f, p, now, longer[i]) && before == Offer(f, p, longer[i]);
    }
  }

  method MassBetween(points: seq<TauPoint>, kind: string, lo: int, hi: int) returns (mass: real)
    ensures mass == WindowMass(points, kind, lo, hi)
  {
    mass := 0.0;
    for i := 0 to |points|
      invariant mass == WindowMass(points[..i], kind, lo, hi)
    {
      if points[i].mark == kind && lo <= points[i].delayMS <= hi { mass := mass + points[i].probability; }
      assert points[..i + 1][..i] == points[..i];
    }
    assert points[..|points|] == points;
  }

  // ---- the law side ----

  /** A marked time, or no marked event inside the horizon. */
  datatype Atom = NoEvent | At(mark: string, delayMS: int)

  type Law = Atom -> real

  function AtomOf(point: TauPoint): Atom { At(point.mark, point.delayMS) }

  function PointMass(points: seq<TauPoint>, x: Atom): real
  {
    if points == [] then 0.0
    else PointMass(points[..|points| - 1], x)
           + (if AtomOf(points[|points| - 1]) == x then points[|points| - 1].probability else 0.0)
  }

  /** The forecast read as a law over atoms. */
  function ForecastLaw(f: TauForecast): Law
  {
    x => (if x == NoEvent then f.noEvent else 0.0) + PointMass(f.points, x)
  }

  ghost function Over(support: seq<Atom>, g: Atom -> real): real
  {
    if support == [] then 0.0 else Over(support[..|support| - 1], g) + g(support[|support| - 1])
  }

  /** A finite support that carries the forecast and the law `q`; it may be larger than either. */
  ghost predicate Carries(support: seq<Atom>, f: TauForecast, q: Law)
  {
    && Distinct(support) && NoEvent in support
    && (forall i :: 0 <= i < |f.points| ==> AtomOf(f.points[i]) in support)
    && (forall x :: q(x) >= 0.0)
    && Over(support, q) == 1.0
  }

  /** Half the L1 distance between the forecast and `q`. */
  ghost function Distance(support: seq<Atom>, f: TauForecast, q: Law): real
  {
    Over(support, x => Abs(ForecastLaw(f)(x) - q(x))) / 2.0
  }

  /** The target lands while a turn dispatched at `d` is useful. */
  ghost predicate Useful(f: TauForecast, p: TauTurnPolicy, d: int, x: Atom)
  {
    && x.At? && x.mark == p.targetKind
    && d + p.leadMS * MS <= f.origin + x.delayMS * MS <= d + (p.leadMS + p.windowMS) * MS
  }

  /** Expected incremental utility, under `q`, of a turn dispatched at `d`. */
  ghost function ExpectedUtility(support: seq<Atom>, q: Law, f: TauForecast, p: TauTurnPolicy, d: int): real
  {
    Over(support, x => Times(q(x), if Useful(f, p, d, x) then p.benefit else -p.falseCost)) - p.turnCost
  }

  lemma {:induction false} OverLinear(support: seq<Atom>, a: real, g: Atom -> real, b: real, h: Atom -> real, k: Atom -> real)
    requires forall x :: k(x) == Times(a, g(x)) + Times(b, h(x))
    ensures Over(support, k) == Times(a, Over(support, g)) + Times(b, Over(support, h))
  {
    if support != [] {
      OverLinear(support[..|support| - 1], a, g, b, h, k);
      OverLast(a, Over(support[..|support| - 1], g), g(support[|support| - 1]), b, Over(support[..|support| - 1], h), h(support[|support| - 1]));
    }
  }

  lemma OverLast(a: real, x: real, dx: real, b: real, y: real, dy: real)
    ensures a * x + b * y + (a * dx + b * dy) == a * (x + dx) + b * (y + dy)
  {
  }

  lemma {:induction false} OverMonotone(support: seq<Atom>, g: Atom -> real, h: Atom -> real)
    requires forall x :: g(x) <= h(x)
    ensures Over(support, g) <= Over(support, h)
  {
    if support != [] { OverMonotone(support[..|support| - 1], g, h); }
  }

  /** A single atom is counted once by a duplicate-free support that contains it. */
  lemma {:induction false} OverSingle(support: seq<Atom>, a: Atom, v: real)
    requires Distinct(support)
    ensures Over(support, x => if x == a then v else 0.0) == if a in support then v else 0.0
  {
    hide Distinct;
    if support != [] {
      DistinctInit(support);
      OverSingle(support[..|support| - 1], a, v);
    }
  }

  lemma DistinctInit(support: seq<Atom>)
    requires Distinct(support) && support != []
    ensures var init, last := support[..|support| - 1], support[|support| - 1];
      Distinct(init) && last !in init && forall x :: x in support <==> x in init || x == last
  {
    assert support == support[..|support| - 1] + [support[|support| - 1]];
  }

  ghost predicate InWindow(kind: string, lo: int, hi: int, x: Atom) { x.At? && x.mark == kind && lo <= x.delayMS <= hi }

  /** Summing the forecast's law over a support that carries it gives back the planner's running mass. */
  lemma {:induction false} WindowMassIsLawMass(support: seq<Atom>, points: seq<TauPoint>, kind: string, lo: int, hi: int)
    requires Distinct(support) && forall i :: 0 <= i < |points| ==> AtomOf(points[i]) in support
    ensures Over(support, x => if InWindow(kind, lo, hi, x) then PointMass(points, x) else 0.0)
         == WindowMass(points, kind, lo, hi)
  {
    var whole := x => if InWindow(kind, lo, hi, x) then PointMass(points, x) else 0.0;
    if points == [] {
      OverZero(support, whole);
    } else {
      var init, last := points[..|points| - 1], points[|points| - 1];
      WindowMassIsLawMass(support, init, kind, lo, hi);
      var v := if InWindow(kind, lo, hi, AtomOf(last)) then last.probability else 0.0;
      OverSingle(support, AtomOf(last), v);
      OverLinear(support, 1.0, x => if InWindow(kind, lo, hi, x) then PointMass(init, x) else 0.0,
                 1.0, x => if x == AtomOf(last) then v else 0.0, whole);
    }
  }

  lemma {:induction false} OverZero(support: seq<Atom>, g: Atom -> real)
    requires forall x :: g(x) == 0.0
    ensures Over(support, g) == 0.0
  {
    if support != [] { OverZero(support[..|support| - 1], g); }
  }

  lemma {:induction false} PointMassTotal(support: seq<Atom>, points: seq<TauPoint>)
    requires Distinct(support) && forall i :: 0 <= i < |points| ==> AtomOf(points[i]) in support
    ensures Over(support, x => PointMass(points, x)) == TotalMass(points)
  {
    if points == [] {
      OverZero(support, x => PointMass(points, x));
    } else {
      var init, last := points[..|points| - 1], points[|points| - 1];
      PointMassTotal(support, init);
      OverSingle(support, AtomOf(last), last.probability);
      OverLinear(support, 1.0, x => PointMass(init, x), 1.0, x => if x == AtomOf(last) then last.probability else 0.0,
                 x => PointMass(points, x));
    }
  }

  lemma ForecastLawTotal(support: seq<Atom>, f: TauForecast)
    requires Distinct(support) && NoEvent in support
    requires forall i :: 0 <= i < |f.points| ==> AtomOf(f.points[i]) in support
    ensures Over(support, ForecastLaw(f)) == f.noEvent + TotalMass(f.points)
  {
    PointMassTotal(support, f.points);
    OverSingle(support, NoEvent, f.noEvent);
    OverLinear(support, 1.0, x => if x == NoEvent then f.noEvent else 0.0, 1.0, x => PointMass(f.points, x), ForecastLaw(f));
  }

  ghost function LawMass(support: seq<Atom>, q: Law, kind: string, lo: int, hi: int): real
  {
    Over(support, x => if InWindow(kind, lo, hi, x) then q(x) else 0.0)
  }

  /** The heart of the robustness argument: no law within `Distance` can take more from a window than that distance
      plus half of whatever mass the forecast has in excess of one. */
  lemma WindowLoses(support: seq<Atom>, f: TauForecast, q: Law, kind: string, lo: int, hi: int)
    requires Carries(support, f, q)
    ensures LawMass(support, q, kind, lo, hi)
         >= WindowMass(f.points, kind, lo, hi) - Distance(support, f, q) - (f.noEvent + TotalMass(f.points) - 1.0) / 2.0
  {
    var P := ForecastLaw(f);
    var gap := x => Abs(P(x) - q(x));
    var diff := x => P(x) - q(x);
    ForecastLawTotal(support, f);
    OverLinear(support, 1.0, P, -1.0, q, diff);
    // The positive part of the difference, summed, is half the L1 distance plus half the excess mass.
    var positive := x => 0.5 * gap(x) + 0.5 * diff(x);
    OverLinear(support, 0.5, gap, 0.5, diff, positive);
    var inP := x => if InWindow(kind, lo, hi, x) then PointMass(f.points, x) else 0.0;
    var inQ := x => if InWindow(kind, lo, hi, x) then q(x) else 0.0;
    var lost := x => inP(x) - inQ(x);
    WindowMassIsLawMass(support, f.points, kind, lo, hi);
    OverLinear(support, 1.0, inP, -1.0, inQ, lost);
    assert forall x :: lost(x) <= positive(x);
    OverMonotone(support, lost, positive);
  }

  lemma {:induction false} LawMassNonNegative(support: seq<Atom>, q: Law, kind: string, lo: int, hi: int)
    requires forall x :: q(x) >= 0.0
    ensures LawMass(support, q, kind, lo, hi) >= 0.0
  {
    var g := x => if InWindow(kind, lo, hi, x) then q(x) else 0.0;
    OverZero(support, x => 0.0);
    OverMonotone(support, x => 0.0, g);
  }

  /** The intersection window the planner counts lies inside the useful window of every dispatch it allows. */
  lemma WindowIsUseful(f: TauForecast, p: TauTurnPolicy, offset: int, d: int, x: Atom)
    requires p.slackMS >= 0 && f.origin + offset * MS <= d <= f.origin + offset * MS + p.slackMS * MS
    requires InWindow(p.targetKind, offset + p.leadMS + p.slackMS, offset + p.leadMS + p.windowMS, x)
    ensures Useful(f, p, d, x)
  {
  }

  /** Expected utility is affine in the useful mass, hence at least that of any smaller window. */
  lemma UtilityFromMass(support: seq<Atom>, f: TauForecast, p: TauTurnPolicy, q: Law, offset: int, d: int)
    requires Carries(support, f, q) && UtilityOk(p) && p.slackMS >= 0
    requires f.origin + offset * MS <= d <= f.origin + offset * MS + p.slackMS * MS
    ensures ExpectedUtility(support, q, f, p, d)
         >= Times(p.benefit + p.falseCost,
                  LawMass(support, q, p.targetKind, offset + p.leadMS + p.slackMS, offset + p.leadMS + p.windowMS))
            - p.falseCost - p.turnCost
  {
    hide Times;
    var lo, hi := offset + p.leadMS + p.slackMS, offset + p.leadMS + p.windowMS;
    var inside := x => if InWindow(p.targetKind, lo, hi, x) then q(x) else 0.0;
    var floor := x => Times(p.benefit + p.falseCost, inside(x)) + Times(-p.falseCost, q(x));
    OverLinear(support, p.benefit + p.falseCost, inside, -p.falseCost, q, floor);
    var value := x => Times(q(x), if Useful(f, p, d, x) then p.benefit else -p.falseCost);
    forall x ensures floor(x) <= value(x) {
      if InWindow(p.targetKind, lo, hi, x) { WindowIsUseful(f, p, offset, d, x); }
      FloorBelow(p.benefit, p.falseCost, q(x), InWindow(p.targetKind, lo, hi, x), Useful(f, p, d, x));
    }
    OverMonotone(support, floor, value);
    MinusOne(p.falseCost, Over(support, q));
  }

  lemma MinusOne(c: real, one: real)
    requires one == 1.0
    ensures Times(-c, one) == -c
  {
  }

  lemma FloorBelow(b: real, c: real, q: real, inside: bool, useful: bool)
    requires b >= 0.0 && c >= 0.0 && q >= 0.0 && (inside ==> useful)
    ensures Times(b + c, if inside then q else 0.0) + Times(-c, q) <= Times(q, if useful then b else -c)
  {
    ProductNonNegative(b, q);
    ProductNonNegative(c, q);
    assert (b + c) * q == b * q + c * q;
  }

  /** MAIN RESULT. When the planner schedules, every law within the declared radius, on any support, and every
      dispatch inside the allowed slack give an expected utility of at least the reported one, which exceeds
      the margin. The deducted 1e-12 pays for the tolerance the validator grants the forecast's total mass. */
  lemma ScheduledTurnIsRobust(f: TauForecast, p: TauTurnPolicy, now: int, decision: TauDecision,
                              support: seq<Atom>, q: Law, d: int)
    requires ValidTau(f, p, now) && BestOf(f, p, now, Offsets(f, p), decision) && decision.schedule
    requires Carries(support, f, q) && Distance(support, f, q) <= f.tvRadius
    requires decision.deliverAt <= d <= decision.latestDispatch
    ensures ExpectedUtility(support, q, f, p, d) >= decision.lowerUtility > p.margin > 0.0
  {
    var offsets := Offsets(f, p);
    var i :| 0 <= i < |offsets| && Admissible(f, p, now, offsets[i]) && decision == Offer(f, p, offsets[i]);
    OfferIsRobust(f, p, offsets[i], support, q, d);
  }

  lemma OfferIsRobust(f: TauForecast, p: TauTurnPolicy, offset: int, support: seq<Atom>, q: Law, d: int)
    requires MassOk(f) && UtilityOk(p) && p.slackMS >= 0
    requires Carries(support, f, q) && Distance(support, f, q) <= f.tvRadius
    requires Offer(f, p, offset).deliverAt <= d <= Offer(f, p, offset).latestDispatch
    ensures ExpectedUtility(support, q, f, p, d) >= Offer(f, p, offset).lowerUtility
  {
    hide ExpectedUtility, Carries, Distance, LawMass, TotalMass, WindowMass, Times;
    var lo, hi := offset + p.leadMS + p.slackMS, offset + p.leadMS + p.windowMS;
    UtilityFromMass(support, f, p, q, offset, d);
    WindowLoses(support, f, q, p.targetKind, lo, hi);
    CarriedNonNegative(support, f, q, p.targetKind, lo, hi);
    LowerPays(p.benefit, p.falseCost, LawMass(support, q, p.targetKind, lo, hi), Offer(f, p, offset).lowerProbability);
  }

  lemma CarriedNonNegative(support: seq<Atom>, f: TauForecast, q: Law, kind: string, lo: int, hi: int)
    requires Carries(support, f, q)
    ensures LawMass(support, q, kind, lo, hi) >= 0.0
  {
    LawMassNonNegative(support, q, kind, lo, hi);
  }

  lemma LowerPays(b: real, c: real, mass: real, lower: real)
    requires 0.0 <= b <= 1.0 && 0.0 <= c <= 1.0 && mass >= lower - EPSILON / 2.0
    ensures Times(b + c, mass) >= (b + c) * lower - EPSILON
  {
    var slack := mass - lower + EPSILON / 2.0;
    ProductNonNegative(b + c, slack);
    assert (b + c) * slack == (b + c) * mass - (b + c) * lower + (b + c) * (EPSILON / 2.0);
  }

  /** The deduction cannot be smaller: here is a valid request and a law inside the radius under which the
      scheduled turn is worth exactly the reported utility. */
  lemma DeductionIsTight()
    returns (f: TauForecast, p: TauTurnPolicy, now: int, decision: TauDecision, support: seq<Atom>, q: Law, d: int)
    ensures ValidTau(f, p, now) && BestOf(f, p, now, Offsets(f, p), decision) && decision.schedule
    ensures Carries(support, f, q) && Distance(support, f, q) <= f.tvRadius
    ensures decision.deliverAt <= d <= decision.latestDispatch
    ensures ExpectedUtility(support, q, f, p, d) == decision.lowerUtility
  {
    var point := TauPoint("t", 10000, 0.9);
    f := TauForecast("f", 1, 1, 1 + 20000 * MS, 20000, [point], 0.1 + EPSILON, 0.1);
    p := TauTurnPolicy(Some([8000]), None, None, "t", 1.0, 1.0, 0.05, 0.0, 0.1, 0, 2000, 2000, 1000, 2000);
    now := 1;
    assert f.points[..0] == [];
    assert TotalMass(f.points) == 0.9;
    decision := Offer(f, p, 8000);
    assert WindowMass(f.points, "t", 10000, 10000) == 0.9;
    assert Offsets(f, p)[0] == 8000 && Admissible(f, p, now, 8000);
    support := [NoEvent, AtomOf(point)];
    var atMark, atNone := 0.8 - EPSILON / 2.0, 0.2 + EPSILON / 2.0;
    q := x => if x == AtomOf(point) then atMark else if x == NoEvent then atNone else 0.0;
    d := decision.deliverAt;
    TwoAtoms(NoEvent, AtomOf(point), q);
    OnePoint(point, NoEvent);
    OnePoint(point, AtomOf(point));
    TwoAtoms(NoEvent, AtomOf(point), x => Abs(ForecastLaw(f)(x) - q(x)));
    TwoAtoms(NoEvent, AtomOf(point), x => Times(q(x), if Useful(f, p, d, x) then p.benefit else -p.falseCost));
  }

  lemma OnePoint(point: TauPoint, x: Atom)
    ensures PointMass([point], x) == if AtomOf(point) == x then point.probability else 0.0
  {
    assert [point][..0] == [];
  }

  lemma TwoAtoms(a: Atom, b: Atom, g: Atom -> real)
    ensures Over([a, b], g) == g(a) + g(b)
  {
    var one, two := [a], [a, b];
    assert one[..0] == [] && two[..1] == one;
    assert Over(one, g) == Over([], g) + g(a);
  }
}

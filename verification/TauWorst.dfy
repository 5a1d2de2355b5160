/** The other side of the planner's guarantee (internal/agency/tau.go): its reported utility is not only safe, it is all
    that can be promised. For every candidate there is a law inside the radius under which it is worth no more. */
module TauWorst {
  import opened Prelude
  import opened RealSums
  import opened QuietHours
  import opened Tau

  /** How much probability a forecast states beyond one. */
  function Excess(f: TauForecast): real { f.noEvent + TotalMass(f.points) - 1.0 }

  /** The atoms the forecast speaks of. */
  function Atoms(points: seq<TauPoint>): (xs: seq<Atom>)
    ensures |xs| == |points| && forall i :: 0 <= i < |xs| ==> xs[i] == AtomOf(points[i])
  {
    seq(|points|, i requires 0 <= i < |points| => AtomOf(points[i]))
  }

  function Support(f: TauForecast): seq<Atom> { [NoEvent] + Atoms(f.points) }

  /** What a turn is worth that is paid inside the counted window, and costs a false alarm anywhere else. */
  ghost function Worth(support: seq<Atom>, q: Law, f: TauForecast, p: TauTurnPolicy, offset: int): real
  {
    Over(support, x => Times(q(x), if Counted(p, offset, x) then p.benefit else -p.falseCost)) - p.turnCost
  }

  /** The target lands where every dispatch from the candidate's instant to the end of its slack is useful. */
  predicate Counted(p: TauTurnPolicy, offset: int, x: Atom) {
    && x.At? && x.mark == p.targetKind
    && offset + p.leadMS + p.slackMS <= x.delayMS <= offset + p.leadMS + p.windowMS
  }

  lemma CountedIsInWindow(p: TauTurnPolicy, offset: int, x: Atom)
    ensures Counted(p, offset, x) <==> InWindow(p.targetKind, offset + p.leadMS + p.slackMS, offset + p.leadMS + p.windowMS, x)
  {
  }

  // ---- sums over the support ----

  lemma SupportCarries(f: TauForecast)
    requires AtomsOk(f.points, f.horizonMS)
    ensures Distinct(Support(f)) && NoEvent in Support(f)
    ensures forall i :: 0 <= i < |f.points| ==> AtomOf(f.points[i]) in Support(f)
  {
    var s := Support(f);
    forall i, j | 0 <= i < j < |s| ensures s[i] != s[j] {
      if i > 0 { assert AtomOf(f.points[i - 1]) != AtomOf(f.points[j - 1]); }
    }
    forall i | 0 <= i < |f.points| ensures AtomOf(f.points[i]) in s { assert s[i + 1] == AtomOf(f.points[i]); }
  }

  lemma {:induction false} PointMassNonNegative(points: seq<TauPoint>, x: Atom)
    requires forall i :: 0 <= i < |points| ==> points[i].probability >= 0.0
    ensures PointMass(points, x) >= 0.0
  {
    if points != [] { PointMassNonNegative(points[..|points| - 1], x); }
  }

  lemma ForecastNonNegative(f: TauForecast)
    requires SupportOk(f) && AtomsOk(f.points, f.horizonMS)
    ensures forall x :: ForecastLaw(f)(x) >= 0.0
  {
    forall x ensures ForecastLaw(f)(x) >= 0.0 {
      assert forall i :: 0 <= i < |f.points| ==> AtomOk(f.points[i], f.horizonMS);
      PointMassNonNegative(f.points, x);
    }
  }

  ghost function Inside(p: TauTurnPolicy, offset: int, g: Law): Law {
    x => if Counted(p, offset, x) then g(x) else 0.0
  }

  /** The forecast's mass in the counted window. */
  lemma InsideForecast(f: TauForecast, p: TauTurnPolicy, offset: int)
    requires SupportOk(f) && AtomsOk(f.points, f.horizonMS)
    ensures Over(Support(f), Inside(p, offset, ForecastLaw(f)))
         == WindowMass(f.points, p.targetKind, offset + p.leadMS + p.slackMS, offset + p.leadMS + p.windowMS)
  {
    hide WindowMass, PointMass, AtomsOk, Over;
    var lo, hi := offset + p.leadMS + p.slackMS, offset + p.leadMS + p.windowMS;
    SupportCarries(f);
    WindowMassIsLawMass(Support(f), f.points, p.targetKind, lo, hi);
    var g := x => if InWindow(p.targetKind, lo, hi, x) then PointMass(f.points, x) else 0.0;
    forall x ensures Inside(p, offset, ForecastLaw(f))(x) == g(x) { CountedIsInWindow(p, offset, x); }
    OverEqual(Support(f), Inside(p, offset, ForecastLaw(f)), g);
  }

  lemma {:induction false} OverEqual(support: seq<Atom>, g: Law, h: Law)
    requires forall x :: g(x) == h(x)
    ensures Over(support, g) == Over(support, h)
  {
    if support != [] { OverEqual(support[..|support| - 1], g, h); }
  }

  lemma InsideBounds(support: seq<Atom>, p: TauTurnPolicy, offset: int, g: Law)
    requires forall x :: g(x) >= 0.0
    ensures 0.0 <= Over(support, Inside(p, offset, g)) <= Over(support, g)
  {
    OverZero(support, x => 0.0);
    OverMonotone(support, x => 0.0, Inside(p, offset, g));
    OverMonotone(support, Inside(p, offset, g), g);
  }

  /** What such a turn is worth under a law is what the law gives to the counted window. */
  lemma WorthFromMass(support: seq<Atom>, q: Law, f: TauForecast, p: TauTurnPolicy, offset: int)
    requires Over(support, q) == 1.0
    ensures Worth(support, q, f, p, offset)
         == Times(p.benefit + p.falseCost, Over(support, Inside(p, offset, q))) - p.falseCost - p.turnCost
  {
    hide Times, Counted;
    var value := x => Times(q(x), if Counted(p, offset, x) then p.benefit else -p.falseCost);
    forall x ensures value(x) == Times(p.benefit + p.falseCost, Inside(p, offset, q)(x)) + Times(-p.falseCost, q(x)) {
      Priced(p.benefit, p.falseCost, q(x), Counted(p, offset, x));
    }
    OverLinear(support, p.benefit + p.falseCost, Inside(p, offset, q), -p.falseCost, q, value);
    MinusOne(p.falseCost, Over(support, q));
  }

  lemma Priced(b: real, c: real, q: real, counted: bool)
    ensures Times(q, if counted then b else -c) == Times(b + c, if counted then q else 0.0) + Times(-c, q)
  {
  }

  // ---- the law that takes the most ----

  ghost function Scaled(g: real, h: Law): Law { x => Times(g, h(x)) }

  /** Takes the share `c` of everything in the counted window and puts `a` on "no event". */
  ghost function Shifted(p: TauTurnPolicy, offset: int, h: Law, c: real, a: real): Law {
    x => h(x) - Times(c, Inside(p, offset, h)(x)) + (if x == NoEvent then a else 0.0)
  }

  lemma OverScaled(support: seq<Atom>, g: real, h: Law)
    ensures Over(support, Scaled(g, h)) == Times(g, Over(support, h))
  {
    hide Times;
    forall x ensures Scaled(g, h)(x) == Times(g, h(x)) + Times(0.0, h(x)) { TimesNothing(h(x)); }
    OverLinear(support, g, h, 0.0, h, Scaled(g, h));
    TimesNothing(Over(support, h));
  }

  lemma TimesNothing(x: real)
    ensures Times(0.0, x) == 0.0 && Times(1.0, x) == x && Times(-1.0, x) == -x
  {
  }

  lemma InsideScaled(support: seq<Atom>, p: TauTurnPolicy, offset: int, g: real, h: Law)
    ensures Over(support, Inside(p, offset, Scaled(g, h))) == Times(g, Over(support, Inside(p, offset, h)))
  {
    hide Times, Counted;
    forall x ensures Inside(p, offset, Scaled(g, h))(x) == Scaled(g, Inside(p, offset, h))(x) {
      TimesZero(g);
    }
    OverEqual(support, Inside(p, offset, Scaled(g, h)), Scaled(g, Inside(p, offset, h)));
    OverScaled(support, g, Inside(p, offset, h));
  }

  lemma TimesZero(g: real)
    ensures Times(g, 0.0) == 0.0
  {
  }

  /** Shifting moves mass and creates none. */
  lemma OverShifted(support: seq<Atom>, p: TauTurnPolicy, offset: int, h: Law, c: real, a: real)
    requires Distinct(support) && NoEvent in support
    ensures var w := Over(support, Inside(p, offset, h));
      && Over(support, Shifted(p, offset, h, c, a)) == Over(support, h) - Times(c, w) + a
      && Over(support, Inside(p, offset, Shifted(p, offset, h, c, a))) == w - Times(c, w)
  {
    hide Times, Counted;
    var less := x => h(x) - Times(c, Inside(p, offset, h)(x));
    forall x ensures less(x) == Times(1.0, h(x)) + Times(-c, Inside(p, offset, h)(x)) {
      TimesNothing(h(x));
      TimesMinus(c, Inside(p, offset, h)(x));
    }
    OverLinear(support, 1.0, h, -c, Inside(p, offset, h), less);
    OverSingle(support, NoEvent, a);
    var extra := x => if x == NoEvent then a else 0.0;
    forall x ensures Shifted(p, offset, h, c, a)(x) == Times(1.0, less(x)) + Times(1.0, extra(x)) {
      TimesNothing(less(x));
      TimesNothing(extra(x));
    }
    OverLinear(support, 1.0, less, 1.0, extra, Shifted(p, offset, h, c, a));
    TimesNothing(Over(support, less));
    TimesNothing(Over(support, extra));
    TimesNothing(Over(support, h));
    TimesMinus(c, Over(support, Inside(p, offset, h)));
    ShiftedInside(support, p, offset, h, c, a);
  }

  lemma TimesMinus(c: real, x: real)
    ensures Times(-c, x) == -Times(c, x)
  {
  }

  lemma ShiftedInside(support: seq<Atom>, p: TauTurnPolicy, offset: int, h: Law, c: real, a: real)
    ensures var w := Over(support, Inside(p, offset, h));
      Over(support, Inside(p, offset, Shifted(p, offset, h, c, a))) == w - Times(c, w)
  {
    hide Times;
    var inside := Inside(p, offset, h);
    forall x ensures Inside(p, offset, Shifted(p, offset, h, c, a))(x) == Times(1.0, inside(x)) + Times(-c, inside(x)) {
      TimesNothing(inside(x));
      TimesMinus(c, inside(x));
      TimesZero(c);
    }
    OverLinear(support, 1.0, inside, -c, inside, Inside(p, offset, Shifted(p, offset, h, c, a)));
    TimesNothing(Over(support, inside));
    TimesMinus(c, Over(support, inside));
  }

  /** How far the forecast is from its own scaling to mass one, and that from its shift. */
  lemma ScaledDistance(f: TauForecast, g: real)
    requires SupportOk(f) && AtomsOk(f.points, f.horizonMS) && Times(g, 1.0 + Excess(f)) == 1.0
    ensures Over(Support(f), x => Abs(ForecastLaw(f)(x) - Scaled(g, ForecastLaw(f))(x))) == Abs(Excess(f))
  {
    hide Times, ForecastLaw, TotalMass, PointMass, Abs, Over, AtomsOk, Scaled;
    var F := ForecastLaw(f);
    SupportCarries(f);
    ForecastNonNegative(f);
    ForecastLawTotal(Support(f), f);
    ScaledGaps(Support(f), F, g);
    OverZero(Support(f), x => 0.0);
    OverMonotone(Support(f), x => 0.0, F);
    ScaledGap(1.0 + Excess(f), g);
  }

  lemma ScaledGaps(support: seq<Atom>, h: Law, g: real)
    requires forall x :: h(x) >= 0.0
    ensures Over(support, x => Abs(h(x) - Scaled(g, h)(x))) == Times(Abs(1.0 - g), Over(support, h))
  {
    hide Times, Abs;
    var gap := x => Abs(h(x) - Scaled(g, h)(x));
    forall x ensures gap(x) == Scaled(Abs(1.0 - g), h)(x) { ScaledGap(h(x), g); }
    OverEqual(support, gap, Scaled(Abs(1.0 - g), h));
    OverScaled(support, Abs(1.0 - g), h);
  }

  lemma ScaledGap(x: real, g: real)
    requires x >= 0.0
    ensures Abs(x - Times(g, x)) == Times(Abs(1.0 - g), x)
  {
    if g <= 1.0 { assert x - g * x == (1.0 - g) * x >= 0.0; } else { assert x - g * x == (1.0 - g) * x <= 0.0; }
  }

  lemma ShiftedDistance(support: seq<Atom>, p: TauTurnPolicy, offset: int, h: Law, c: real, a: real)
    requires Distinct(support) && NoEvent in support && (forall x :: h(x) >= 0.0) && c >= 0.0 && a >= 0.0
    ensures Over(support, x => Abs(h(x) - Shifted(p, offset, h, c, a)(x)))
         == Times(c, Over(support, Inside(p, offset, h))) + a
  {
    hide Times;
    var gap := x => Abs(h(x) - Shifted(p, offset, h, c, a)(x));
    var extra := x => if x == NoEvent then a else 0.0;
    OverSingle(support, NoEvent, a);
    forall x ensures gap(x) == Times(c, Inside(p, offset, h)(x)) + Times(1.0, extra(x)) {
      TimesNothing(extra(x));
      TimesZero(c);
      ShareNonNegative(c, h(x));
    }
    OverLinear(support, c, Inside(p, offset, h), 1.0, extra, gap);
    TimesNothing(Over(support, extra));
  }

  lemma ShareNonNegative(c: real, x: real)
    requires c >= 0.0 && x >= 0.0
    ensures Times(c, x) >= 0.0
  {
  }

  lemma TriangleDistance(support: seq<Atom>, h: Law, mid: Law, q: Law)
    ensures Over(support, x => Abs(h(x) - q(x)))
         <= Over(support, x => Abs(h(x) - mid(x))) + Over(support, x => Abs(mid(x) - q(x)))
  {
    hide Times;
    var one, two, sum := (x: Atom) => Abs(h(x) - mid(x)), (x: Atom) => Abs(mid(x) - q(x)),
                         (x: Atom) => Abs(h(x) - mid(x)) + Abs(mid(x) - q(x));
    forall x ensures sum(x) == Times(1.0, one(x)) + Times(1.0, two(x)) { TimesNothing(one(x)); TimesNothing(two(x)); }
    OverLinear(support, 1.0, one, 1.0, two, sum);
    TimesNothing(Over(support, one));
    TimesNothing(Over(support, two));
    var far := (x: Atom) => Abs(h(x) - q(x));
    forall x ensures far(x) <= sum(x) { AbsTriangle(h(x), mid(x), q(x)); }
    OverMonotone(support, far, sum);
  }

  lemma AbsTriangle(x: real, y: real, z: real)
    ensures Abs(x - z) <= Abs(x - y) + Abs(y - z)
  {
  }

  /** The forecast's mass in the counted window. */
  ghost function CountedMass(f: TauForecast, p: TauTurnPolicy, offset: int): real {
    Over(Support(f), Inside(p, offset, ForecastLaw(f)))
  }

  /** The law scaled to mass one, with as much of the counted window as the radius pays for moved to "no event". */
  lemma ShiftedLaw(f: TauForecast, p: TauTurnPolicy, offset: int, g: real, c: real, a: real)
    requires SupportOk(f) && AtomsOk(f.points, f.horizonMS) && g > 0.0 && Times(g, 1.0 + Excess(f)) == 1.0
    requires 0.0 <= c <= 1.0 && a >= 0.0 && Times(c, Times(g, CountedMass(f, p, offset))) == a
    requires Abs(Excess(f)) / 2.0 + a <= f.tvRadius
    ensures var q := Shifted(p, offset, Scaled(g, ForecastLaw(f)), c, a);
      && Carries(Support(f), f, q) && Distance(Support(f), f, q) <= f.tvRadius
      && Over(Support(f), Inside(p, offset, q)) == Times(g, CountedMass(f, p, offset)) - a
  {
    hide Times, TotalMass, PointMass, Abs, Counted, ForecastLaw;
    var F, S := ForecastLaw(f), Support(f);
    var G := Scaled(g, F);
    var q := Shifted(p, offset, G, c, a);
    SupportCarries(f);
    ForecastNonNegative(f);
    ForecastLawTotal(S, f);
    OverScaled(S, g, F);
    InsideScaled(S, p, offset, g, F);
    OverShifted(S, p, offset, G, c, a);
    forall x ensures G(x) >= 0.0 && q(x) >= 0.0 {
      ShareNonNegative(g, F(x));
      LessThanAll(c, G(x));
      TimesZero(c);
    }
    ScaledDistance(f, g);
    ShiftedDistance(S, p, offset, G, c, a);
    TriangleDistance(S, F, G, q);
  }

  lemma LessThanAll(c: real, x: real)
    requires 0.0 <= c <= 1.0 && x >= 0.0
    ensures x - Times(c, x) >= 0.0
  {
    assert (1.0 - c) * x >= 0.0;
  }

  /** The most the radius can take from the window. */
  lemma MostTaken(f: TauForecast, w: real) returns (g: real, c: real, a: real)
    requires Abs(Excess(f)) <= EPSILON && Abs(Excess(f)) / 2.0 <= f.tvRadius && 0.0 <= w <= 1.0 + Excess(f)
    ensures g > 0.0 && Times(g, 1.0 + Excess(f)) == 1.0 && 0.0 <= c <= 1.0 && a >= 0.0
    ensures Times(c, Times(g, w)) == a && Abs(Excess(f)) / 2.0 + a <= f.tvRadius
    ensures Times(g, w) - a <= Max(0.0, Min(1.0, w) - f.tvRadius) + 1.5 * EPSILON
  {
    hide TotalMass;
    var e, total := Excess(f), 1.0 + Excess(f);
    g := 1.0 / total;
    var scaled := Times(g, w);
    ScaledShare(w, total, e);
    var most := f.tvRadius - Abs(e) / 2.0;
    a := if scaled < most then scaled else most;
    c := if scaled == 0.0 then 0.0 else a / scaled;
    if scaled != 0.0 { ShareOf(a, scaled); } else { TimesNothing(scaled); }
  }

  lemma ScaledShare(w: real, total: real, e: real)
    requires total == 1.0 + e && Abs(e) <= EPSILON && 0.0 <= w <= total
    ensures Times(1.0 / total, total) == 1.0 && 0.0 <= Times(1.0 / total, w) <= 1.0
    ensures Times(1.0 / total, w) <= w + Abs(e)
  {
    var g := 1.0 / total;
    assert g * total == 1.0 && g > 0.0;
    ProductNonNegative(g, total - w);
    ProductNonNegative(g, w);
    assert g * w == w - g * w * e;
    var s := g * w;
    assert 1.0 - s == g * (total - w) >= 0.0;
    if e >= 0.0 { ProductNonNegative(s, e); } else { ProductNonNegative(1.0 - s, 0.0 - e); }
  }

  lemma ShareOf(a: real, x: real)
    requires 0.0 <= a <= x && x > 0.0
    ensures 0.0 <= a / x <= 1.0 && Times(a / x, x) == a
  {
  }

  /** What can be promised of a candidate: the reported formula, without its deduction. */
  function Promised(p: TauTurnPolicy, mass: real, radius: real): real {
    Times(p.benefit + p.falseCost, if mass < radius then 0.0 else (if mass < 1.0 then mass else 1.0) - radius)
      - p.falseCost - p.turnCost
  }

  /** What the tolerance on the forecast's mass can cost. */
  function Tolerance(p: TauTurnPolicy): real { Times(p.benefit + p.falseCost, 1.5 * EPSILON) }

  /** NO MORE CAN BE PROMISED. For every valid request and every candidate, admissible or not, some law inside the radius
      makes the turn worth no more than the window's mass less the radius pays for, up to the mass tolerance; unless the
      forecast is so far from mass one that there is no law inside the radius at all. */
  lemma WorstLaw(f: TauForecast, p: TauTurnPolicy, now: int, offset: int) returns (support: seq<Atom>, q: Law)
    requires ValidTau(f, p, now) && Abs(Excess(f)) <= 2.0 * f.tvRadius
    ensures Carries(support, f, q) && Distance(support, f, q) <= f.tvRadius
    ensures Worth(support, q, f, p, offset) <= Promised(p, CountedMass(f, p, offset), f.tvRadius) + Tolerance(p)
  {
    hide Times, TotalMass, PointMass, Abs, Counted, ForecastLaw, AtomsOk, Carries, Distance, Worth, IdentityOk;
    var mass := CountedMass(f, p, offset);
    SupportCarries(f);
    ForecastNonNegative(f);
    ForecastLawTotal(Support(f), f);
    InsideBounds(Support(f), p, offset, ForecastLaw(f));
    var g, c, a := MostTaken(f, mass);
    ShiftedLaw(f, p, offset, g, c, a);
    support, q := Support(f), Shifted(p, offset, Scaled(g, ForecastLaw(f)), c, a);
    CarriesOne(support, f, q);
    WorthFromMass(support, q, f, p, offset);
    var lower := Max(0.0, Min(1.0, mass) - f.tvRadius);
    TimesMonotone(p.benefit + p.falseCost, Over(support, Inside(p, offset, q)), lower, 1.5 * EPSILON);
    LowerIs(mass, f.tvRadius);
  }

  lemma LowerIs(mass: real, radius: real)
    requires 0.0 <= radius <= 1.0
    ensures Max(0.0, Min(1.0, mass) - radius) == if mass < radius then 0.0 else (if mass < 1.0 then mass else 1.0) - radius
  {
  }

  lemma CarriesOne(support: seq<Atom>, f: TauForecast, q: Law)
    requires Carries(support, f, q)
    ensures Over(support, q) == 1.0
  {
  }

  lemma TimesMonotone(k: real, x: real, y: real, d: real)
    requires k >= 0.0 && x <= y + d
    ensures Times(k, x) <= Times(k, y) + Times(k, d)
  {
    assert k * (y + d - x) >= 0.0;
  }

  /** Otherwise there is none: every law is at least half the excess away. */
  lemma EmptyBall(support: seq<Atom>, f: TauForecast, q: Law)
    requires Carries(support, f, q)
    ensures Distance(support, f, q) >= Abs(Excess(f)) / 2.0
  {
    hide Times, TotalMass, ForecastLaw;
    var F := ForecastLaw(f);
    var gap, over, under := (x: Atom) => Abs(F(x) - q(x)), (x: Atom) => F(x) - q(x), (x: Atom) => q(x) - F(x);
    ForecastLawTotal(support, f);
    Minus(support, F, q);
    Minus(support, q, F);
    OverMonotone(support, over, gap);
    OverMonotone(support, under, gap);
  }

  lemma Minus(support: seq<Atom>, g: Law, h: Law)
    ensures Over(support, x => g(x) - h(x)) == Over(support, g) - Over(support, h)
  {
    hide Times;
    var d := (x: Atom) => g(x) - h(x);
    forall x ensures d(x) == Times(1.0, g(x)) + Times(-1.0, h(x)) { TimesNothing(g(x)); TimesNothing(h(x)); }
    OverLinear(support, 1.0, g, -1.0, h, d);
    TimesNothing(Over(support, g));
    TimesNothing(Over(support, h));
  }

  // ---- the plan, said without the planner's formulas ----

  /** Not before the minimum delay, inside the forecast's validity, and quiet at no instant the slack allows. */
  ghost predicate CanDispatch(f: TauForecast, p: TauTurnPolicy, now: int, offset: int) {
    var s := f.origin + offset * MS;
    && now + p.minDelayMS * MS <= s && s + p.slackMS * MS <= f.validUntil
    && forall t: int :: s <= t <= s + p.slackMS * MS ==>
         !(p.quietStart.Some? && p.quietEnd.Some? && Quiet(t, Hours(p.quietStart.value, p.quietEnd.value)))
  }

  /** What the radius leaves of the counted window's mass. */
  function Left(mass: real, radius: real): real { if mass < radius then 0.0 else (if mass < 1.0 then mass else 1.0) - radius }

  /** When a turn is scheduled it is at a candidate, over the slack, dispatchable, and reported as it is. */
  lemma ScheduledAsReported(f: TauForecast, p: TauTurnPolicy, now: int, d: TauDecision) returns (i: nat)
    requires ValidTau(f, p, now) && BestOf(f, p, now, Offsets(f, p), d) && d.schedule
    ensures i < |Offsets(f, p)| && CanDispatch(f, p, now, Offsets(f, p)[i])
    ensures d.deliverAt == f.origin + Offsets(f, p)[i] * MS && d.latestDispatch == d.deliverAt + p.slackMS * MS
    ensures d.probability == CountedMass(f, p, Offsets(f, p)[i])
    ensures d.lowerProbability == Left(d.probability, f.tvRadius) >= p.minProbability && d.lowerUtility > p.margin
  {
    i :| 0 <= i < |Offsets(f, p)| && Admissible(f, p, now, Offsets(f, p)[i]) && d == Offer(f, p, Offsets(f, p)[i]);
    OfferInNumbers(f, p, now, Offsets(f, p)[i]);
  }

  lemma OfferInNumbers(f: TauForecast, p: TauTurnPolicy, now: int, offset: int)
    requires ValidTau(f, p, now)
    ensures var d, mass := Offer(f, p, offset), CountedMass(f, p, offset);
      && d.deliverAt == f.origin + offset * MS && d.latestDispatch == d.deliverAt + p.slackMS * MS
      && d.probability == mass && d.lowerProbability == Left(mass, f.tvRadius)
      && d.lowerUtility == Promised(p, mass, f.tvRadius) - EPSILON
      && (InTime(f, p, now, d) <==> CanDispatch(f, p, now, offset))
  {
    hide AtomsOk, MassOk, IdentityOk, Over, ForecastLaw, Inside;
    InsideForecast(f, p, offset);
    LowerIs(CountedMass(f, p, offset), f.tvRadius);
  }

  /** THE PLAN IS NOT PESSIMISTIC. Whatever the planner decides, any candidate that can be dispatched and meets the
      probability floor is worth, under some law inside the radius, no more than the decision reports, up to the mass
      tolerance and the deduction; and when there is no turn, no more than the margin. */
  lemma PlanIsNotPessimistic(f: TauForecast, p: TauTurnPolicy, now: int, d: TauDecision, i: nat)
    returns (support: seq<Atom>, q: Law)
    requires ValidTau(f, p, now) && BestOf(f, p, now, Offsets(f, p), d) && i < |Offsets(f, p)|
    requires CanDispatch(f, p, now, Offsets(f, p)[i])
    requires Left(CountedMass(f, p, Offsets(f, p)[i]), f.tvRadius) >= p.minProbability
    requires Abs(Excess(f)) <= 2.0 * f.tvRadius
    ensures Carries(support, f, q) && Distance(support, f, q) <= f.tvRadius
    ensures Worth(support, q, f, p, Offsets(f, p)[i])
         <= (if d.schedule then d.lowerUtility else p.margin) + Tolerance(p) + EPSILON
  {
    hide Offer, InTime, CanDispatch, Carries, Distance, Worth, CountedMass, Promised, Tolerance, Left, ValidTau, Abs, Offsets,
      Excess;
    var offset := Offsets(f, p)[i];
    OfferInNumbers(f, p, now, offset);
    support, q := WorstLaw(f, p, now, offset);
    BestOffers(f, p, now, d, i);
  }

  lemma BestOffers(f: TauForecast, p: TauTurnPolicy, now: int, d: TauDecision, i: nat)
    requires BestOf(f, p, now, Offsets(f, p), d) && i < |Offsets(f, p)|
    ensures var offer := Offer(f, p, Offsets(f, p)[i]);
      InTime(f, p, now, offer) && offer.lowerProbability >= p.minProbability ==>
        offer.lowerUtility <= if d.schedule then d.lowerUtility else p.margin
    ensures var offer := Offer(f, p, Offsets(f, p)[i]);
      Admissible(f, p, now, Offsets(f, p)[i]) && d.schedule && offer.lowerUtility == d.lowerUtility ==> d.deliverAt <= offer.deliverAt
  {
    hide Offer, InTime, Offsets;
  }

  /** Of candidates that promise alike the earliest is planned. */
  lemma EarliestOfEquals(f: TauForecast, p: TauTurnPolicy, now: int, d: TauDecision, i: nat, j: nat)
    requires ValidTau(f, p, now) && BestOf(f, p, now, Offsets(f, p), d) && d.schedule && i < |Offsets(f, p)| && j < |Offsets(f, p)|
    requires CanDispatch(f, p, now, Offsets(f, p)[i]) && Offsets(f, p)[i] < Offsets(f, p)[j]
    requires CountedMass(f, p, Offsets(f, p)[i]) == CountedMass(f, p, Offsets(f, p)[j])
    ensures d.deliverAt != f.origin + Offsets(f, p)[j] * MS
  {
    var k := ScheduledAsReported(f, p, now, d);
    hide BestOf, Offer, InTime, CanDispatch, CountedMass, Promised, Left, ValidTau, Offsets;
    OfferInNumbers(f, p, now, Offsets(f, p)[i]);
    OfferInNumbers(f, p, now, Offsets(f, p)[k]);
    DecisionIsOffer(f, p, now, d, k);
    BestOffers(f, p, now, d, i);
  }

  lemma DecisionIsOffer(f: TauForecast, p: TauTurnPolicy, now: int, d: TauDecision, k: nat)
    requires BestOf(f, p, now, Offsets(f, p), d) && d.schedule && k < |Offsets(f, p)|
    requires d.deliverAt == f.origin + Offsets(f, p)[k] * MS
    ensures d == Offer(f, p, Offsets(f, p)[k]) && Admissible(f, p, now, Offsets(f, p)[k])
  {
  }

  /** DEFAULT CANDIDATES: for each atom of the target, the latest dispatch after which it would no longer be counted. */
  lemma DefaultCandidates(f: TauForecast, p: TauTurnPolicy, offset: int)
    requires p.candidateDelaysMS.None? && 0 <= p.slackMS <= p.windowMS
    ensures offset in Offsets(f, p) <==> exists k :: 0 <= k < |f.points| && LastCounting(p, f.points[k], offset)
  {
    OffsetsOf(f.points, p, offset);
  }

  ghost predicate LastCounting(p: TauTurnPolicy, point: TauPoint, offset: int) {
    Counted(p, offset, AtomOf(point)) && forall later: int :: later > offset ==> !Counted(p, later, AtomOf(point))
  }

  lemma {:induction false} OffsetsOf(points: seq<TauPoint>, p: TauTurnPolicy, offset: int)
    requires 0 <= p.slackMS <= p.windowMS
    ensures offset in TargetOffsets(points, p) <==> exists k :: 0 <= k < |points| && LastCounting(p, points[k], offset)
  {
    hide LastCounting;
    if points != [] {
      var n := |points| - 1;
      OffsetsOf(points[..n], p, offset);
      LastIs(p, points[n], offset);
      if exists k :: 0 <= k < n && LastCounting(p, points[k], offset) {
        var k :| 0 <= k < n && LastCounting(p, points[k], offset);
        assert points[..n][k] == points[k];
      }
    }
  }

  lemma LastIs(p: TauTurnPolicy, point: TauPoint, offset: int)
    requires 0 <= p.slackMS <= p.windowMS
    ensures LastCounting(p, point, offset) <==> point.mark == p.targetKind && offset == point.delayMS - p.leadMS - p.slackMS
  {
    if LastCounting(p, point, offset) { assert !Counted(p, offset + 1, AtomOf(point)); }
  }

  // ---- what a turn is worth ----

  /** The target lands no sooner after the dispatch than the lead and no later than the lead and the window. */
  lemma UsefulIs(f: TauForecast, p: TauTurnPolicy, d: int, x: Atom)
    ensures Useful(f, p, d, x)
       <==> && x.At? && x.mark == p.targetKind
            && var after := f.origin + x.delayMS * 1_000_000 - d;
               p.leadMS * 1_000_000 <= after && after <= (p.leadMS + p.windowMS) * 1_000_000
  {
  }

  /** THE UTILITY of a dispatch is the benefit for the chance that it proves useful, less the false cost for the chance
      that it does not, less the cost of the turn itself. */
  lemma UtilityInNumbers(support: seq<Atom>, q: Law, f: TauForecast, p: TauTurnPolicy, d: int)
    requires Over(support, q) == 1.0
    ensures var chance := Over(support, WhenUseful(q, f, p, d));
      ExpectedUtility(support, q, f, p, d) == Times(p.benefit, chance) - Times(p.falseCost, 1.0 - chance) - p.turnCost
  {
    hide Times, Useful;
    var inside := WhenUseful(q, f, p, d);
    var value := x => Times(q(x), if Useful(f, p, d, x) then p.benefit else -p.falseCost);
    forall x ensures value(x) == Times(p.benefit + p.falseCost, inside(x)) + Times(-p.falseCost, q(x)) {
      Priced(p.benefit, p.falseCost, q(x), Useful(f, p, d, x));
    }
    OverLinear(support, p.benefit + p.falseCost, inside, -p.falseCost, q, value);
    MinusOne(p.falseCost, Over(support, q));
    Expand(p.benefit, p.falseCost, Over(support, inside));
  }

  ghost function WhenUseful(q: Law, f: TauForecast, p: TauTurnPolicy, d: int): Law { x => if Useful(f, p, d, x) then q(x) else 0.0 }

  lemma Expand(b: real, c: real, m: real)
    ensures Times(b + c, m) - c == Times(b, m) - Times(c, 1.0 - m)
  {
  }
}

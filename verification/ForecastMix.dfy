/** The online selector of complete forecast laws (internal/bayes/forecast_mix.go): four experts, fixed share. */
module ForecastMix {
  import opened RealSums
  import FixedShare

  const EXPERTS: nat := 4
  const SHARE: real := 0.002
  const CLIP: real := 0.000001

  /** A float raised to a float. Only what the standard `Pow` promises is used. */
  type PowFunction = (real, real) -> real

  ghost predicate IsPow(pow: PowFunction)
  {
    && (forall p: real :: pow(p, 1.0) == p)
    && (forall p: real, w: real :: p > 0.0 ==> pow(p, w) > 0.0)
  }

  datatype Observation = Observation(experts: seq<real>, useful: bool, weight: real)

  function MixPrior(): seq<real> { [0.7, 0.1, 0.1, 0.1] }

  function Zeros(): seq<real> { [0.0, 0.0, 0.0, 0.0] }

  // ---- specification ----

  ghost predicate Usable(w: seq<real>)
  {
    && (forall j :: 0 <= j < |w| ==> 0.0 <= w[j] <= 1.0)
    && Abs(Sum(w) - 1.0) <= TOLERANCE
  }

  /** The law over experts that the next forecast averages with. */
  ghost function PredictiveLaw(w: seq<real>): (p: seq<real>)
    requires |w| == EXPERTS
    ensures |p| == EXPERTS
  {
    if Usable(w) then FixedShare.Shared(MixPrior(), SHARE, Normalised(w, Sum(w))) else MixPrior()
  }

  ghost predicate ValidExperts(experts: seq<real>)
  {
    |experts| == EXPERTS && forall j :: 0 <= j < |experts| ==> 0.0 <= experts[j] <= 1.0
  }

  function Clip(p: real): (c: real)
    ensures CLIP <= c <= 1.0 - CLIP
  {
    Max(CLIP, Min(1.0 - CLIP, p))
  }

  /** What each expert, clipped, gave to the outcome that happened. */
  function OutcomeLikelihood(experts: seq<real>, useful: bool): (l: seq<real>)
    ensures |l| == |experts|
    ensures forall j :: 0 <= j < |l| ==> CLIP <= l[j] <= 1.0 - CLIP
  {
    seq(|experts|, j requires 0 <= j < |experts| => if useful then Clip(experts[j]) else 1.0 - Clip(experts[j]))
  }

  function Powered(pow: PowFunction, l: seq<real>, weight: real): (q: seq<real>)
    ensures |q| == |l|
  {
    seq(|l|, j requires 0 <= j < |l| => pow(l[j], weight))
  }

  ghost function ForecastOf(w: seq<real>, experts: seq<real>): real
    requires |w| == |experts| == EXPERTS
  {
    if ValidExperts(experts) then Dot(PredictiveLaw(w), OutcomeLikelihood(experts, true)) else 0.5
  }

  /** An observation that leaves the weights alone. */
  ghost predicate Ignored(o: Observation) { !ValidExperts(o.experts) || o.weight <= 0.0 }

  ghost function Observed(pow: PowFunction, w: seq<real>, o: Observation): (next: seq<real>)
    requires |w| == |o.experts| == EXPERTS && IsPow(pow)
    ensures |next| == EXPERTS
  {
    if Ignored(o) then w
    else
      var l := Powered(pow, OutcomeLikelihood(o.experts, o.useful), Min(1.0, o.weight));
      PredictiveIsLaw(w);
      PoweredPositive(pow, o);
      DotPositive(PredictiveLaw(w), l);
      FixedShare.Updated(PredictiveLaw(w), l, Dot(PredictiveLaw(w), l))
  }

  lemma PoweredPositive(pow: PowFunction, o: Observation)
    requires IsPow(pow)
    ensures Positive(Powered(pow, OutcomeLikelihood(o.experts, o.useful), Min(1.0, o.weight)))
  {
  }

  lemma PriorIsLaw()
    ensures IsLaw(MixPrior())
  {
    var p := MixPrior();
    SumStep(p, 0); SumStep(p, 1); SumStep(p, 2); SumStep(p, 3);
    assert p[..4] == p;
  }

  lemma ZerosNotUsable()
    ensures !Usable(Zeros())
  {
    var p := Zeros();
    SumStep(p, 0); SumStep(p, 1); SumStep(p, 2); SumStep(p, 3);
    assert p[..4] == p;
  }

  /** Whatever was stored, the law used to forecast is a probability vector. */
  lemma PredictiveIsLaw(w: seq<real>)
    requires |w| == EXPERTS
    ensures IsLaw(PredictiveLaw(w))
  {
    PriorIsLaw();
    if Usable(w) {
      NormalisedIsLaw(w, Sum(w));
      FixedShare.SharedIsLaw(MixPrior(), SHARE, Normalised(w, Sum(w)));
    }
  }

  lemma NormalisedLaw(w: seq<real>)
    requires IsLaw(w)
    ensures Usable(w) && Normalised(w, Sum(w)) == w
  {
    SumNonNegative(w);
    assert forall j :: 0 <= j < |w| ==> w[j] / 1.0 == w[j];
  }

  /** An accepted observation always leaves a probability vector, whatever was stored and for every weight. */
  lemma ObservedIsLaw(pow: PowFunction, w: seq<real>, o: Observation)
    requires |w| == |o.experts| == EXPERTS && IsPow(pow) && !Ignored(o)
    ensures IsLaw(Observed(pow, w, o))
  {
    PredictiveIsLaw(w);
    PoweredPositive(pow, o);
    FixedShare.UpdatedIsLaw(PredictiveLaw(w), Powered(pow, OutcomeLikelihood(o.experts, o.useful), Min(1.0, o.weight)));
  }

  /** A forecast is a probability bounded away from certainty, and complementary for the two outcomes:
      the likelihood it gives to what happens is the mixture's evidence factor. */
  lemma ForecastIsProbability(w: seq<real>, experts: seq<real>)
    requires |w| == |experts| == EXPERTS
    ensures CLIP <= ForecastOf(w, experts) <= 1.0 - CLIP
    ensures ValidExperts(experts) ==>
      Dot(PredictiveLaw(w), OutcomeLikelihood(experts, false)) == 1.0 - ForecastOf(w, experts)
  {
    if ValidExperts(experts) {
      PredictiveIsLaw(w);
      DotBetween(PredictiveLaw(w), OutcomeLikelihood(experts, true), CLIP, 1.0 - CLIP);
      DotComplement(PredictiveLaw(w), OutcomeLikelihood(experts, true), OutcomeLikelihood(experts, false));
    }
  }

  // ---- the loops ----

  method PredictiveWeights(weights: seq<real>) returns (law: seq<real>)
    requires |weights| == EXPERTS
    ensures law == PredictiveLaw(weights)
  {
    var prior := new real[EXPERTS](j requires 0 <= j < EXPERTS => MixPrior()[j]);
    assert prior[..] == MixPrior();
    var sum := 0.0;
    for j := 0 to EXPERTS
      invariant sum == Sum(weights[..j])
      invariant prior[..] == MixPrior()
      invariant forall i :: 0 <= i < j ==> 0.0 <= weights[i] <= 1.0
    {
      if weights[j] < 0.0 || weights[j] > 1.0 {
        return prior[..];
      }
      sum := sum + weights[j];
      SumStep(weights, j);
    }
    assert weights[..EXPERTS] == weights;
    if Abs(sum - 1.0) > TOLERANCE {
      return prior[..];
    }
    for j := 0 to EXPERTS
      invariant forall i :: 0 <= i < j ==> prior[i] == PredictiveLaw(weights)[i]
      invariant forall i :: j <= i < EXPERTS ==> prior[i] == MixPrior()[i]
    {
      prior[j] := (1.0 - SHARE) * weights[j] / sum + SHARE * prior[j];
      SharedEntry(weights[j], sum);
    }
    law := prior[..];
  }

  lemma SharedEntry(w: real, s: real)
    requires s > 0.0
    ensures (1.0 - SHARE) * w / s == (1.0 - SHARE) * (w / s)
  {
  }

  method Forecast(weights: seq<real>, experts: seq<real>) returns (p: real)
    requires |weights| == |experts| == EXPERTS
    ensures p == ForecastOf(weights, experts)
  {
    var valid := ExpertsValid(experts);
    if !valid { return 0.5; }
    var w := PredictiveWeights(weights);
    var l := OutcomeLikelihood(experts, true);
    p := 0.0;
    for j := 0 to EXPERTS
      invariant p == Dot(w[..j], l[..j])
    {
      p := p + w[j] * Max(CLIP, Min(1.0 - CLIP, experts[j]));
      DotStep(w, l, j);
    }
    assert w[..EXPERTS] == w && l[..EXPERTS] == l;
  }

  method ExpertsValid(experts: seq<real>) returns (ok: bool)
    requires |experts| == EXPERTS
    ensures ok <==> ValidExperts(experts)
  {
    for j := 0 to EXPERTS
      invariant forall i :: 0 <= i < j ==> 0.0 <= experts[i] <= 1.0
    {
      if experts[j] < 0.0 || experts[j] > 1.0 { return false; }
    }
    ok := true;
  }

  method Observe(pow: PowFunction, weights: seq<real>, o: Observation) returns (next: seq<real>)
    requires |weights| == |o.experts| == EXPERTS && IsPow(pow)
    ensures next == Observed(pow, weights, o)
  {
    var valid := ExpertsValid(o.experts);
    if !valid || o.weight <= 0.0 { return weights; }
    var law := PredictiveWeights(weights);
    var w, sum := WeighExperts(pow, law, o);
    ghost var l := Powered(pow, OutcomeLikelihood(o.experts, o.useful), Min(1.0, o.weight));
    hide Dot, Sum, PredictiveLaw, Times, FixedShare.Updated;
    PredictiveIsLaw(weights);
    PoweredPositive(pow, o);
    DotPositive(law, l);
    DivideAll(w, sum);
    next := w[..];
    assert next == FixedShare.Updated(law, l, sum) by {
      forall j | 0 <= j < EXPERTS ensures next[j] == FixedShare.Updated(law, l, sum)[j] {
        UpdatedEntry(law, l, sum, j);
      }
    }
  }

  /** Bayes' numerators and their sum. */
  method WeighExperts(pow: PowFunction, law: seq<real>, o: Observation) returns (w: array<real>, sum: real)
    requires |law| == |o.experts| == EXPERTS
    ensures fresh(w) && w.Length == EXPERTS
    ensures var l := Powered(pow, OutcomeLikelihood(o.experts, o.useful), Min(1.0, o.weight));
      sum == Dot(law, l) && forall j :: 0 <= j < EXPERTS ==> w[j] == Times(law[j], l[j])
  {
    hide Times;
    w := new real[EXPERTS](j requires 0 <= j < EXPERTS => law[j]);
    var weight := Min(1.0, o.weight);
    ghost var l := Powered(pow, OutcomeLikelihood(o.experts, o.useful), weight);
    sum := 0.0;
    for j := 0 to EXPERTS
      invariant sum == Dot(law[..j], l[..j])
      invariant forall i :: 0 <= i < j ==> w[i] == Times(law[i], l[i])
      invariant forall i :: j <= i < EXPERTS ==> w[i] == law[i]
    {
      var p := Max(CLIP, Min(1.0 - CLIP, o.experts[j]));
      if !o.useful { p := 1.0 - p; }
      w[j] := Times(w[j], pow(p, weight));
      sum := sum + w[j];
      DotStep(law, l, j);
    }
    assert law[..EXPERTS] == law && l[..EXPERTS] == l;
  }

  method DivideAll(w: array<real>, sum: real)
    requires sum > 0.0
    modifies w
    ensures forall j :: 0 <= j < w.Length ==> w[j] == old(w[j]) / sum
  {
    for j := 0 to w.Length
      invariant forall i :: 0 <= i < j ==> w[i] == old(w[i]) / sum
      invariant forall i :: j <= i < w.Length ==> w[i] == old(w[i])
    {
      w[j] := w[j] / sum;
    }
  }

  lemma UpdatedEntry(p: seq<real>, l: seq<real>, m: real, j: nat)
    requires |p| == |l| && j < |p| && m > 0.0
    ensures FixedShare.Updated(p, l, m)[j] == Times(p[j], l[j]) / m
  {
  }

  // ---- what the numbers mean, said without the functions above ----

  /** Between a millionth and its complement. */
  function Bounded(e: real): real { if e < 0.000_001 then 0.000_001 else if e > 0.999_999 then 0.999_999 else e }

  /** AN AVERAGE OF EXPERTS. For valid experts the forecast lies between the least and the greatest of their bounded
      numbers; so experts that agree are forecast as themselves. */
  lemma ForecastIsAverage(w: seq<real>, experts: seq<real>, lo: real, hi: real)
    requires |w| == |experts| == EXPERTS && forall j :: 0 <= j < EXPERTS ==> 0.0 <= experts[j] <= 1.0
    requires forall j :: 0 <= j < EXPERTS ==> lo <= Bounded(experts[j]) <= hi
    ensures lo <= ForecastOf(w, experts) <= hi
  {
    PredictiveIsLaw(w);
    DotBetween(PredictiveLaw(w), OutcomeLikelihood(experts, true), lo, hi);
  }

  /** What the forecaster trusts when it knows nothing: the first expert seven tenths, the others one tenth each. */
  function FreshForecast(experts: seq<real>): real
    requires |experts| == EXPERTS
  {
    0.7 * Bounded(experts[0]) + 0.1 * Bounded(experts[1]) + 0.1 * Bounded(experts[2]) + 0.1 * Bounded(experts[3])
  }

  function Four(w: seq<real>): real
    requires |w| == EXPERTS
  {
    w[0] + w[1] + w[2] + w[3]
  }

  ghost predicate WellFormed(w: seq<real>)
    requires |w| == EXPERTS
  {
    (forall j :: 0 <= j < EXPERTS ==> 0.0 <= w[j] <= 1.0) && -0.000_000_001 <= Four(w) - 1.0 <= 0.000_000_001
  }

  function Weighed(w: seq<real>, experts: seq<real>): real
    requires |w| == |experts| == EXPERTS
  {
    w[0] * Bounded(experts[0]) + w[1] * Bounded(experts[1]) + w[2] * Bounded(experts[2]) + w[3] * Bounded(experts[3])
  }

  /** THE SHARE, in numbers. Weights that are no law, to a billionth, are forgotten; otherwise the forecast is the
      weighted average of the experts for 0.998 and the fresh forecast for 0.002. */
  lemma ForecastInNumbers(w: seq<real>, experts: seq<real>)
    requires |w| == |experts| == EXPERTS && forall j :: 0 <= j < EXPERTS ==> 0.0 <= experts[j] <= 1.0
    ensures !WellFormed(w) ==> ForecastOf(w, experts) == FreshForecast(experts)
    ensures WellFormed(w) ==>
      ForecastOf(w, experts) * Four(w) == 0.998 * Weighed(w, experts) + 0.002 * FreshForecast(experts) * Four(w)
  {
    hide PredictiveLaw, Usable, Sum, Dot, Clip, Bounded, WellFormed, Four, Weighed, FreshForecast, ForecastOf;
    var p := PredictiveLaw(w);
    ForecastIsWeighed(w, experts);
    PredictiveInNumbers(w);
    if WellFormed(w) {
      MixtureOfFour(p, w, experts, Four(w));
    } else {
      FreshIsWeighed(experts);
    }
  }

  lemma FreshIsWeighed(experts: seq<real>)
    requires |experts| == EXPERTS
    ensures Weighed([0.7, 0.1, 0.1, 0.1], experts) == FreshForecast(experts)
  {
    hide Bounded;
  }

  lemma ForecastIsWeighed(w: seq<real>, experts: seq<real>)
    requires |w| == |experts| == EXPERTS && forall j :: 0 <= j < EXPERTS ==> 0.0 <= experts[j] <= 1.0
    ensures ForecastOf(w, experts) == Weighed(PredictiveLaw(w), experts)
  {
    hide PredictiveLaw, Dot, Bounded, OutcomeLikelihood;
    BoundedIsClip(experts);
    DotOfFour(PredictiveLaw(w), OutcomeLikelihood(experts, true));
  }

  lemma BoundedIsClip(experts: seq<real>)
    requires |experts| == EXPERTS
    ensures forall j :: 0 <= j < EXPERTS ==> OutcomeLikelihood(experts, true)[j] == Bounded(experts[j])
    ensures forall j :: 0 <= j < EXPERTS ==> OutcomeLikelihood(experts, false)[j] == 1.0 - Bounded(experts[j])
  {
  }

  lemma SumOfFour(w: seq<real>)
    requires |w| == EXPERTS
    ensures Sum(w) == Four(w)
  {
    SumStep(w, 0); SumStep(w, 1); SumStep(w, 2); SumStep(w, 3);
    assert w[..4] == w;
  }

  lemma DotOfFour(u: seq<real>, v: seq<real>)
    requires |u| == |v| == EXPERTS
    ensures Dot(u, v) == u[0] * v[0] + u[1] * v[1] + u[2] * v[2] + u[3] * v[3]
  {
    DotStep(u, v, 0); DotStep(u, v, 1); DotStep(u, v, 2); DotStep(u, v, 3);
    assert u[..4] == u && v[..4] == v;
  }

  lemma UsableIsWellFormed(w: seq<real>)
    requires |w| == EXPERTS && Sum(w) == Four(w)
    ensures Usable(w) <==> WellFormed(w)
  {
    hide Sum;
  }

  /** The predictive law, entry by entry. */
  lemma PredictiveInNumbers(w: seq<real>)
    requires |w| == EXPERTS
    ensures !WellFormed(w) ==> PredictiveLaw(w) == [0.7, 0.1, 0.1, 0.1]
    ensures WellFormed(w) ==> forall j :: 0 <= j < EXPERTS ==>
      PredictiveLaw(w)[j] * Four(w) == 0.998 * w[j] + 0.002 * (if j == 0 then 0.7 else 0.1) * Four(w)
  {
    SumOfFour(w);
    UsableIsWellFormed(w);
    hide Sum, Four;
    if WellFormed(w) {
      forall j | 0 <= j < EXPERTS
        ensures PredictiveLaw(w)[j] * Four(w) == 0.998 * w[j] + 0.002 * (if j == 0 then 0.7 else 0.1) * Four(w)
      {
        SharedTimes(w[j], Four(w), if j == 0 then 0.7 else 0.1);
      }
    }
  }

  lemma SharedTimes(w: real, s: real, prior: real)
    requires s > 0.0
    ensures ((1.0 - SHARE) * (w / s) + SHARE * prior) * s == 0.998 * w + 0.002 * prior * s
  {
    assert w / s * s == w;
  }

  lemma MixtureOfFour(p: seq<real>, w: seq<real>, experts: seq<real>, s: real)
    requires |p| == |w| == |experts| == EXPERTS
    requires forall j :: 0 <= j < EXPERTS ==> p[j] * s == 0.998 * w[j] + 0.002 * (if j == 0 then 0.7 else 0.1) * s
    ensures Weighed(p, experts) * s == 0.998 * Weighed(w, experts) + 0.002 * FreshForecast(experts) * s
  {
    hide Bounded;
    Scaled(p[0], s, w[0], 0.0014, Bounded(experts[0])); Scaled(p[1], s, w[1], 0.0002, Bounded(experts[1]));
    Scaled(p[2], s, w[2], 0.0002, Bounded(experts[2])); Scaled(p[3], s, w[3], 0.0002, Bounded(experts[3]));
  }

  lemma Scaled(p: real, s: real, w: real, c: real, l: real)
    requires p * s == 0.998 * w + c * s
    ensures p * l * s == 0.998 * (w * l) + c * l * s
  {
    assert p * l * s == (p * s) * l;
  }

  /** What an expert, bounded, gave to the outcome. */
  function Gave(e: real, useful: bool): real { if useful then Bounded(e) else 1.0 - Bounded(e) }

  /** WHAT WAS RIGHT GAINS. An accepted observation multiplies the odds of any expert against any other, relative to the
      predictive law, by the ratio of what the two gave to the outcome, raised to the weight, at most one. */
  lemma ObservedOdds(pow: PowFunction, w: seq<real>, o: Observation, i: nat, j: nat)
    requires |w| == |o.experts| == EXPERTS && IsPow(pow) && i < EXPERTS && j < EXPERTS && o.weight > 0.0
    requires forall k :: 0 <= k < EXPERTS ==> 0.0 <= o.experts[k] <= 1.0
    ensures var next, law, weight := Observed(pow, w, o), PredictiveLaw(w), if o.weight < 1.0 then o.weight else 1.0;
      next[j] * Times(law[i], pow(Gave(o.experts[i], o.useful), weight))
        == next[i] * Times(law[j], pow(Gave(o.experts[j], o.useful), weight))
  {
    hide Dot, Sum, PredictiveLaw, Bounded, OutcomeLikelihood, Observed, Times;
    BoundedIsClip(o.experts);
    ObservedAt(pow, w, o, i);
    ObservedAt(pow, w, o, j);
    var law, weight := PredictiveLaw(w), Min(1.0, o.weight);
    var l := Powered(pow, OutcomeLikelihood(o.experts, o.useful), weight);
    Proportional(Times(law[i], l[i]), Times(law[j], l[j]), Dot(law, l));
  }

  lemma ObservedAt(pow: PowFunction, w: seq<real>, o: Observation, i: nat)
    requires |w| == |o.experts| == EXPERTS && IsPow(pow) && i < EXPERTS && o.weight > 0.0
    requires forall k :: 0 <= k < EXPERTS ==> 0.0 <= o.experts[k] <= 1.0
    ensures var law, l := PredictiveLaw(w), Powered(pow, OutcomeLikelihood(o.experts, o.useful), Min(1.0, o.weight));
      Dot(law, l) > 0.0 && Observed(pow, w, o)[i] == Times(law[i], l[i]) / Dot(law, l)
  {
    hide Dot, Sum, PredictiveLaw, OutcomeLikelihood;
    PredictiveIsLaw(w);
    PoweredPositive(pow, o);
    DotPositive(PredictiveLaw(w), Powered(pow, OutcomeLikelihood(o.experts, o.useful), Min(1.0, o.weight)));
  }

  lemma Proportional(a: real, b: real, m: real)
    requires m > 0.0
    ensures b / m * a == a / m * b
  {
    assert b / m * a * m == b * a == a / m * b * m;
  }

  /** At full weight: a useful outcome moves the odds by the ratio of the bounded numbers, any other by that of their
      complements. */
  lemma FullWeightOdds(pow: PowFunction, w: seq<real>, o: Observation, i: nat, j: nat)
    requires |w| == |o.experts| == EXPERTS && IsPow(pow) && i < EXPERTS && j < EXPERTS && o.weight >= 1.0
    requires forall k :: 0 <= k < EXPERTS ==> 0.0 <= o.experts[k] <= 1.0
    ensures var next, law, e, f := Observed(pow, w, o), PredictiveLaw(w), Bounded(o.experts[i]), Bounded(o.experts[j]);
      if o.useful then next[j] * Times(law[i], e) == next[i] * Times(law[j], f)
      else next[j] * Times(law[i], 1.0 - e) == next[i] * Times(law[j], 1.0 - f)
  {
    hide Observed, PredictiveLaw, Bounded, Times;
    ObservedOdds(pow, w, o, i, j);
  }

  /** The likelihoods of the regret bound are these: what each expert gave to each outcome. */
  lemma {:induction false} LikelihoodsAreGave(run: seq<Observation>, t: nat, j: nat)
    requires t < |run| && j < EXPERTS && UnitRun(run) && forall i :: 0 <= i < |run| ==> !Ignored(run[i])
    ensures |RunExperts(run)| == |run| && |RunExperts(run)[t]| == EXPERTS
    ensures RunExperts(run)[t][j] == Gave(run[t].experts[j], run[t].useful)
    decreases |run|
  {
    hide OutcomeLikelihood, Gave;
    var n := |run| - 1;
    if t < n {
      LikelihoodsAreGave(run[..n], t, j);
    } else {
      if n > 0 { LikelihoodsAreGave(run[..n], n - 1, j); }
      BoundedIsClip(run[n].experts);
      GaveIs(run[n].experts[j]);
    }
  }

  lemma GaveIs(e: real)
    ensures Gave(e, true) == Bounded(e) && Gave(e, false) == 1.0 - Bounded(e)
  {
  }

  /** Nothing is learnt from an expert outside the unit interval or from a weight that is not positive. */
  lemma NothingLearnt(pow: PowFunction, w: seq<real>, o: Observation)
    requires |w| == |o.experts| == EXPERTS && IsPow(pow)
    requires o.weight <= 0.0 || exists k :: 0 <= k < EXPERTS && !(0.0 <= o.experts[k] <= 1.0)
    ensures Observed(pow, w, o) == w
    ensures (exists k :: 0 <= k < EXPERTS && !(0.0 <= o.experts[k] <= 1.0)) ==> ForecastOf(w, o.experts) == 0.5
  {
  }

  // ---- runs ----

  /** An observation of full weight; larger weights are capped and so mint no evidence. */
  ghost predicate FullWeight(o: Observation) { !Ignored(o) && o.weight >= 1.0 }

  ghost predicate UnitRun(run: seq<Observation>)
  {
    forall i :: 0 <= i < |run| ==> |run[i].experts| == EXPERTS && (Ignored(run[i]) || FullWeight(run[i]))
  }

  /** The weights stored after a run that began without any. */
  ghost function RunWeights(pow: PowFunction, run: seq<Observation>): (w: seq<real>)
    requires IsPow(pow) && forall i :: 0 <= i < |run| ==> |run[i].experts| == EXPERTS
    ensures |w| == EXPERTS
  {
    if run == [] then Zeros() else Observed(pow, RunWeights(pow, run[..|run| - 1]), run[|run| - 1])
  }

  /** The product of the likelihoods the mixture's own forecasts gave to the accepted outcomes. */
  ghost function RunLikelihood(pow: PowFunction, run: seq<Observation>): real
    requires IsPow(pow) && forall i :: 0 <= i < |run| ==> |run[i].experts| == EXPERTS
  {
    if run == [] then 1.0
    else
      var before, o := RunLikelihood(pow, run[..|run| - 1]), run[|run| - 1];
      var p := ForecastOf(RunWeights(pow, run[..|run| - 1]), o.experts);
      if Ignored(o) then before else Times(before, if o.useful then p else 1.0 - p)
  }

  /** The experts' clipped likelihoods of the accepted outcomes. */
  ghost function RunExperts(run: seq<Observation>): seq<seq<real>>
  {
    if run == [] then []
    else
      var before, o := RunExperts(run[..|run| - 1]), run[|run| - 1];
      if Ignored(o) then before else before + [OutcomeLikelihood(o.experts, o.useful)]
  }

  /** The stored weights are the exact posterior over experts of the reset model, and the forecasts'
      cumulative likelihood is that model's evidence. */
  ghost predicate Tracks(ls: seq<seq<real>>, w: seq<real>, likelihood: real)
  {
    && FixedShare.Model(MixPrior(), SHARE, ls)
    && likelihood == FixedShare.Evidence(MixPrior(), SHARE, ls)
    && w == if ls == [] then Zeros() else FixedShare.Posterior(MixPrior(), SHARE, ls)
  }

  lemma {:induction false} RunIsFilter(pow: PowFunction, run: seq<Observation>)
    requires IsPow(pow) && UnitRun(run)
    ensures Tracks(RunExperts(run), RunWeights(pow, run), RunLikelihood(pow, run))
  {
    if run == [] {
      PriorIsLaw();
    } else {
      var prior, o := run[..|run| - 1], run[|run| - 1];
      RunIsFilter(pow, prior);
      RunUnfolds(pow, run);
      hide Tracks, Observed, ForecastOf, IsPow, Times;
      if Ignored(o) {
        IgnoredKeeps(pow, RunWeights(pow, prior), o);
      } else {
        TracksStep(pow, RunExperts(prior), RunWeights(pow, prior), RunLikelihood(pow, prior), o);
      }
    }
  }

  lemma TracksStep(pow: PowFunction, ls: seq<seq<real>>, w: seq<real>, likelihood: real, o: Observation)
    requires IsPow(pow) && |w| == |o.experts| == EXPERTS && FullWeight(o)
    requires Tracks(ls, w, likelihood)
    ensures Tracks(ls + [OutcomeLikelihood(o.experts, o.useful)], Observed(pow, w, o),
                   Times(likelihood, if o.useful then ForecastOf(w, o.experts) else 1.0 - ForecastOf(w, o.experts)))
  {
    hide Times, ForecastOf, Observed, PredictiveLaw, OutcomeLikelihood, Dot;
    NextPredictive(ls, w);
    OutcomeFactor(w, o);
    NextObserved(pow, ls, w, o);
  }

  lemma RunUnfolds(pow: PowFunction, run: seq<Observation>)
    requires IsPow(pow) && run != [] && forall i :: 0 <= i < |run| ==> |run[i].experts| == EXPERTS
    ensures var prior, o := run[..|run| - 1], run[|run| - 1];
      && |o.experts| == EXPERTS
      && RunWeights(pow, run) == Observed(pow, RunWeights(pow, prior), o)
      && RunExperts(run) == RunExperts(prior) + (if Ignored(o) then [] else [OutcomeLikelihood(o.experts, o.useful)])
      && RunLikelihood(pow, run)
         == (if Ignored(o) then RunLikelihood(pow, prior)
             else Times(RunLikelihood(pow, prior),
                        if o.useful then ForecastOf(RunWeights(pow, prior), o.experts)
                        else 1.0 - ForecastOf(RunWeights(pow, prior), o.experts)))
  {
    hide Times, ForecastOf, Observed;
  }

  lemma OutcomeFactor(w: seq<real>, o: Observation)
    requires |w| == |o.experts| == EXPERTS && ValidExperts(o.experts)
    ensures Dot(PredictiveLaw(w), OutcomeLikelihood(o.experts, o.useful))
         == if o.useful then ForecastOf(w, o.experts) else 1.0 - ForecastOf(w, o.experts)
  {
    ForecastIsProbability(w, o.experts);
  }

  lemma IgnoredKeeps(pow: PowFunction, w: seq<real>, o: Observation)
    requires |w| == |o.experts| == EXPERTS && IsPow(pow) && Ignored(o)
    ensures Observed(pow, w, o) == w
  {
  }

  lemma NextObserved(pow: PowFunction, ls: seq<seq<real>>, w: seq<real>, o: Observation)
    requires IsPow(pow) && |w| == |o.experts| == EXPERTS && FullWeight(o)
    requires FixedShare.Model(MixPrior(), SHARE, ls)
    requires PredictiveLaw(w) == FixedShare.Predictive(MixPrior(), SHARE, ls)
    ensures var next := ls + [OutcomeLikelihood(o.experts, o.useful)];
      && FixedShare.Model(MixPrior(), SHARE, next)
      && Observed(pow, w, o) == FixedShare.Posterior(MixPrior(), SHARE, next)
      && FixedShare.Evidence(MixPrior(), SHARE, next)
         == Times(FixedShare.Evidence(MixPrior(), SHARE, ls), Dot(PredictiveLaw(w), OutcomeLikelihood(o.experts, o.useful)))
  {
    var l := OutcomeLikelihood(o.experts, o.useful);
    assert Powered(pow, l, Min(1.0, o.weight)) == l;
    FixedShare.NextFilter(MixPrior(), SHARE, ls, l);
  }

  lemma NextPredictive(ls: seq<seq<real>>, w: seq<real>)
    requires FixedShare.Model(MixPrior(), SHARE, ls)
    requires w == if ls == [] then Zeros() else FixedShare.Posterior(MixPrior(), SHARE, ls)
    ensures |w| == EXPERTS && PredictiveLaw(w) == FixedShare.Predictive(MixPrior(), SHARE, ls)
  {
    if ls == [] {
      ZerosNotUsable();
    } else {
      NormalisedLaw(w);
    }
  }

  /** What `k` switches in `length` outcomes cost. */
  function SwitchingPrice(length: nat, k: nat): real
    requires length > 0 && k <= length - 1
  {
    0.1 * Power(0.998, length - 1 - k) * Power(0.0002, k)
  }

  /** MAIN RESULT. Against every sequence of experts with `k` switches, the mixture's cumulative likelihood is
      at least 0.1 * 0.998^(T-1-k) * 0.0002^k times the cumulative clipped likelihood of the experts followed. */
  lemma MixTrackingRegret(pow: PowFunction, run: seq<Observation>, path: seq<nat>)
    requires IsPow(pow) && UnitRun(run) && RunExperts(run) != []
    requires FixedShare.IsPath(EXPERTS, |RunExperts(run)|, path)
    ensures var k := FixedShare.Switches(path);
      && FixedShare.Model(MixPrior(), SHARE, RunExperts(run))
      && RunLikelihood(pow, run)
         >= Times(SwitchingPrice(|path|, k), FixedShare.FollowedLikelihood(RunExperts(run), path))
  {
    hide Times, FixedShare.PathPrice, SwitchingPrice;
    RunIsFilter(pow, run);
    FixedShare.TrackingBound(MixPrior(), SHARE, 0.1, RunExperts(run), path);
    MixPrice(|path|, FixedShare.Switches(path));
  }

  lemma MixPrice(length: nat, k: nat)
    requires length > 0 && k <= length - 1
    ensures FixedShare.PathPrice(0.1, SHARE, length, k) == SwitchingPrice(length, k)
  {
    hide Power;
    assert 1.0 - SHARE == 0.998 && SHARE * 0.1 == 0.0002;
  }

  /** Over a whole run the stored weights are either absent or a probability vector. */
  lemma RunWeightsAreLaw(pow: PowFunction, run: seq<Observation>)
    requires IsPow(pow) && forall i :: 0 <= i < |run| ==> |run[i].experts| == EXPERTS
    ensures RunWeights(pow, run) == Zeros() || IsLaw(RunWeights(pow, run))
  {
    if run != [] {
      RunWeightsAreLaw(pow, run[..|run| - 1]);
      if !Ignored(run[|run| - 1]) {
        ObservedIsLaw(pow, RunWeights(pow, run[..|run| - 1]), run[|run| - 1]);
      }
    }
  }

  // ---- the outcome transaction ----

  /** One delivered outcome: the journaled expert record, the versions it was made under, and the reset verdict. */
  datatype Feedback = Feedback(o: Observation, recordEnabled: bool, recordPolicy: nat, recordEpoch: nat,
                               reset: bool, enabled: bool, policy: nat, epoch: nat)

  ghost predicate Delivered(f: Feedback)
  {
    f.enabled && f.recordEnabled && f.recordPolicy == f.policy && f.recordEpoch == f.epoch
  }

  method UpdateForecastWeights(pow: PowFunction, weights: seq<real>, f: Feedback) returns (next: seq<real>)
    requires |weights| == |f.o.experts| == EXPERTS && IsPow(pow)
    ensures next == Transacted(pow, weights, f)
  {
    if f.reset { return Zeros(); }
    if !f.enabled || !f.recordEnabled || f.recordPolicy != f.policy || f.recordEpoch != f.epoch { return weights; }
    next := Observe(pow, weights, f.o);
  }

  ghost function Transacted(pow: PowFunction, w: seq<real>, f: Feedback): (next: seq<real>)
    requires |w| == |f.o.experts| == EXPERTS && IsPow(pow)
    ensures |next| == EXPERTS
  {
    if f.reset then Zeros() else if Delivered(f) then Observed(pow, w, f.o) else w
  }

  /** ONLY WHAT WAS RECORDED FOR THIS VERY STATE is learnt: an outcome leaves the weights alone unless it resets them or its
      record was made with the forecaster on and under the current policy and epoch; and a reset learns nothing from it. */
  lemma OnlyMatchingIsLearnt(pow: PowFunction, w: seq<real>, f: Feedback)
    requires |w| == |f.o.experts| == EXPERTS && IsPow(pow)
    ensures f.reset ==> Transacted(pow, w, f) == [0.0, 0.0, 0.0, 0.0]
    ensures !f.reset && Transacted(pow, w, f) != w ==>
      f.enabled && f.recordEnabled && f.recordPolicy == f.policy && f.recordEpoch == f.epoch && f.o.weight > 0.0
    ensures !f.reset && f.enabled && f.recordEnabled && f.recordPolicy == f.policy && f.recordEpoch == f.epoch ==>
      Transacted(pow, w, f) == Observed(pow, w, f.o)
  {
  }

  ghost function TransactedRun(pow: PowFunction, fs: seq<Feedback>): (w: seq<real>)
    requires IsPow(pow) && forall i :: 0 <= i < |fs| ==> |fs[i].o.experts| == EXPERTS
    ensures |w| == EXPERTS
  {
    if fs == [] then Zeros() else Transacted(pow, TransactedRun(pow, fs[..|fs| - 1]), fs[|fs| - 1])
  }

  /** The observations delivered since the last reset. */
  ghost function SinceReset(fs: seq<Feedback>): seq<Observation>
  {
    if fs == [] then []
    else
      var f := fs[|fs| - 1];
      if f.reset then [] else if Delivered(f) then SinceReset(fs[..|fs| - 1]) + [f.o] else SinceReset(fs[..|fs| - 1])
  }

  /** A reset forgets everything: the weights depend only on what was delivered under matching versions after it.
      With `MixTrackingRegret` this bounds the regret within every regime. */
  lemma {:induction false} ResetForgets(pow: PowFunction, fs: seq<Feedback>)
    requires IsPow(pow) && forall i :: 0 <= i < |fs| ==> |fs[i].o.experts| == EXPERTS
    ensures forall i :: 0 <= i < |SinceReset(fs)| ==> |SinceReset(fs)[i].experts| == EXPERTS
    ensures TransactedRun(pow, fs) == RunWeights(pow, SinceReset(fs))
  {
    if fs != [] {
      var prior, f := fs[..|fs| - 1], fs[|fs| - 1];
      ResetForgets(pow, prior);
      if !f.reset && Delivered(f) {
        var run := SinceReset(fs);
        assert run[..|run| - 1] == SinceReset(prior);
      }
    }
  }
}

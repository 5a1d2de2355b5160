/** What the grid forecasts and learns (internal/bayes/grid.go), in numbers: rates, averages and odds. */
module GridForecast {
  import opened Prelude
  import opened RealSums
  import opened Grid
  import FixedShare
  import ForecastMix

  /** The rates of usefulness the states stand for: twentieths, with the two ends a hundredth off. */
  function Rate(j: nat): (p: real)
    ensures 0.01 <= p <= 0.99 || j > 20
  {
    if j == 0 then 0.01 else if j == 20 then 0.99 else j as real / 20.0
  }

  function Rates(): (r: seq<real>)
    ensures |r| == 21 && forall j :: 0 <= j < 21 ==> r[j] == Rate(j)
  {
    seq(21, j requires 0 <= j < 21 => Rate(j))
  }

  /** What a state gives to an outcome. */
  function Gave(j: nat, success: bool): real { if success then Rate(j) else 1.0 - Rate(j) }

  lemma LikelihoodIsGave(success: bool, j: nat)
    requires j < 21
    ensures GridLikelihood(success)[j] == Gave(j, success)
  {
  }

  /** A belief of this very policy whose weights are a law to a billionth. */
  ghost predicate Readable(b: WorkingBelief, policyId: string) {
    && b.policyId == policyId && |b.gridWeights| == 21
    && (forall j :: 0 <= j < 21 ==> b.gridWeights[j] >= 0.0 && b.gridWeights[j] <= 1.0)
    && -0.000_000_001 <= Sum(b.gridWeights) - 1.0 <= 0.000_000_001
  }

  lemma ReadableIsUsable(b: WorkingBelief, reset: bool, policyId: string)
    requires |b.gridWeights| == 21
    ensures UsableBelief(Some(b), reset, policyId) <==> !reset && Readable(b, policyId)
  {
    hide Sum;
  }

  /** THE SHARE, in numbers. A belief that is read keeps 0.98 of each weight and gives every state the same of the rest. No
      belief, one of another policy, one that is no law, and any belief at a reset count as none: every state the same. */
  lemma PriorInNumbers(state: Option<WorkingBelief>, reset: bool, policyId: string, j: nat)
    requires WellFormed(state) && j < 21
    ensures var p := PriorLaw(state, reset, policyId)[j];
      if !reset && state.Some? && Readable(state.value, policyId) then
        var w := state.value.gridWeights;
        p * Sum(w) == 0.98 * w[j] + 0.02 * (Sum(w) / 21.0)
      else p == 1.0 / 21.0
  {
    hide Sum;
    if state.Some? {
      ReadableIsUsable(state.value, reset, policyId);
      if UsableBelief(state, reset, policyId) { SharedTimes(state.value.gridWeights[j], Sum(state.value.gridWeights)); }
    }
  }

  lemma SharedTimes(w: real, s: real)
    requires s > 0.0
    ensures ((1.0 - GRID_SHARE) * (w / s) + GRID_SHARE * (1.0 / 21.0)) * s == 0.98 * w + 0.02 * (s / 21.0)
  {
    assert w / s * s == w;
  }

  /** THE FORECAST, in numbers. A belief that is read forecasts 0.98 of the weighted average of the rates and 0.02 of one
      half; anything else forecasts one half. */
  lemma ForecastInNumbers(state: Option<WorkingBelief>, policyId: string)
    requires WellFormed(state)
    ensures var p := PredictiveMean(state, policyId);
      if state.Some? && Readable(state.value, policyId) then
        var w := state.value.gridWeights;
        p * Sum(w) == 0.98 * Dot(w, Rates()) + 0.01 * Sum(w)
      else p == 0.5
  {
    hide Sum, Dot, PriorLaw, Readable, Rate, Rates;
    var law := PriorLaw(state, false, policyId);
    LikelihoodIsRates();
    SumOfRates();
    forall j: nat | j < 21 ensures PriorEntry(state, policyId, law[j], j) { PriorInNumbers(state, false, policyId, j); }
    if state.Some? && Readable(state.value, policyId) {
      var w := state.value.gridWeights;
      forall j: nat | j < 21 ensures law[j] * Sum(w) == 0.98 * w[j] + 0.02 * (Sum(w) / 21.0) {
        assert PriorEntry(state, policyId, law[j], j);
      }
      DotLinear(law, Sum(w), 0.98, w, 0.02 * (Sum(w) / 21.0), Rates());
    } else {
      forall j: nat | j < 21 ensures law[j] * 21.0 == 0.0 * law[j] + 1.0 { assert PriorEntry(state, policyId, law[j], j); }
      DotLinear(law, 21.0, 0.0, law, 1.0, Rates());
    }
  }

  ghost predicate PriorEntry(state: Option<WorkingBelief>, policyId: string, p: real, j: nat)
    requires WellFormed(state) && j < 21
  {
    if state.Some? && Readable(state.value, policyId) then
      p * Sum(state.value.gridWeights) == 0.98 * state.value.gridWeights[j] + 0.02 * (Sum(state.value.gridWeights) / 21.0)
    else p == 1.0 / 21.0
  }

  lemma LikelihoodIsRates()
    ensures GridLikelihood(true) == Rates()
  {
    forall j: nat | j < 21 ensures GridLikelihood(true)[j] == Rates()[j] { LikelihoodIsGave(true, j); }
  }

  lemma {:induction false} DotLinear(p: seq<real>, s: real, a: real, w: seq<real>, b: real, r: seq<real>)
    requires |p| == |w| == |r| && forall j: nat :: j < |p| ==> p[j] * s == a * w[j] + b
    ensures Dot(p, r) * s == a * Dot(w, r) + b * Sum(r)
  {
    hide Dot, Sum, Times;
    Unfold(p, r);
    Unfold(w, r);
    Unfold(r, r);
    if p != [] {
      var k := |p| - 1;
      DotLinear(p[..k], s, a, w[..k], b, r[..k]);
      LinearTerm(p[k], s, a, w[k], b, r[k]);
      LinearSum(Dot(p[..k], r[..k]), Times(p[k], r[k]), s, a, Dot(w[..k], r[..k]), Times(w[k], r[k]), b, Sum(r[..k]), r[k]);
    }
  }

  lemma LinearTerm(p: real, s: real, a: real, w: real, b: real, r: real)
    requires p * s == a * w + b
    ensures Times(p, r) * s == a * Times(w, r) + b * r
  {
    assert p * r * s == (p * s) * r;
  }

  lemma LinearSum(d: real, t: real, s: real, a: real, e: real, u: real, b: real, m: real, r: real)
    requires d * s == a * e + b * m && t * s == a * u + b * r
    ensures (d + t) * s == a * (e + u) + b * (m + r)
  {
  }

  /** The rates are symmetric about one half. */
  lemma SumOfRates()
    ensures Sum(Rates()) == 10.5
  {
    SumOfFirst(20);
    assert Rates()[..20] + [Rate(20)] == Rates();
    SumStep(Rates(), 20);
    assert Rates()[..21] == Rates();
  }

  lemma {:induction false} SumOfFirst(n: nat)
    requires 0 < n <= 20
    ensures Sum(Rates()[..n]) == 0.01 + (n * (n - 1)) as real / 40.0
  {
    hide Sum;
    SumStep(Rates(), n - 1);
    if n == 1 {
      SumStep(Rates(), 0);
      SumOfNone();
    } else {
      SumOfFirst(n - 1);
      assert n * (n - 1) == (n - 1) * (n - 2) + 2 * (n - 1);
      assert Rates()[n - 1] == (n - 1) as real / 20.0;
    }
  }

  lemma SumOfNone()
    ensures Sum(Rates()[..0]) == 0.0
  {
  }

  /** What a likelihood counts for: itself from weight one on, its power below that, weights below zero counting as zero. */
  function Counted(pow: ForecastMix.PowFunction, weight: real, l: real): real {
    if weight >= 1.0 then l else pow(l, if weight < 0.0 then 0.0 else weight)
  }

  /** WHAT EXPLAINS GAINS. An update multiplies the odds of any state against any other, relative to the law before it, by
      the ratio of what the two gave to the outcome, to the power of the weight where it is less than one. */
  lemma ObservedOdds(pow: ForecastMix.PowFunction, state: Option<WorkingBelief>, o: Outcome, policyId: string, i: nat, j: nat)
    requires WellFormed(state) && ForecastMix.IsPow(pow) && i < 21 && j < 21
    ensures var next, law := Stored(pow, state, o, policyId).gridWeights, PriorLaw(state, o.reset, policyId);
      next[j] * Times(law[i], Counted(pow, o.weight, Gave(i, o.success)))
        == next[i] * Times(law[j], Counted(pow, o.weight, Gave(j, o.success)))
  {
    hide Dot, Sum, PriorLaw, Gave, Times, WeighedLikelihood, PredictiveMean, Counted;
    UpdatedAt(pow, state, o, policyId, i);
    UpdatedAt(pow, state, o, policyId, j);
    var law, l := PriorLaw(state, o.reset, policyId), WeighedLikelihood(pow, o);
    ForecastMix.Proportional(Times(law[i], l[i]), Times(law[j], l[j]), Dot(law, l));
  }

  lemma UpdatedAt(pow: ForecastMix.PowFunction, state: Option<WorkingBelief>, o: Outcome, policyId: string, i: nat)
    requires WellFormed(state) && ForecastMix.IsPow(pow) && i < 21
    ensures var law, l := PriorLaw(state, o.reset, policyId), WeighedLikelihood(pow, o);
      && l[i] == Counted(pow, o.weight, Gave(i, o.success))
      && Dot(law, l) > 0.0 && NextWeights(pow, state, o, policyId)[i] == Times(law[i], l[i]) / Dot(law, l)
  {
    hide Dot, Sum, PriorLaw, GridLikelihood, Gave;
    LikelihoodIsGave(o.success, i);
    PriorIsLaw(state, o.reset, policyId);
    WeighedPositive(pow, o);
    DotPositive(PriorLaw(state, o.reset, policyId), WeighedLikelihood(pow, o));
  }
}

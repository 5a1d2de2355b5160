/** The fixed-grid working belief (internal/bayes/grid.go): a 21-state fixed-share filter over usefulness rates. */
module Grid {
  import opened Prelude
  import opened RealSums
  import FixedShare
  import ForecastMix

  const STATES: nat := 21
  const GRID_SHARE: real := 0.02

  /** The stored belief; the policy digest is compared, never interpreted. */
  datatype WorkingBelief = WorkingBelief(policyId: string, predictiveUseful: real, gridWeights: seq<real>)

  datatype Outcome = Outcome(success: bool, weight: real, reset: bool)

  // ---- specification ----

  function GridProbability(j: nat): (p: real)
    ensures 0.01 <= p <= 0.99
  {
    Max(0.01, Min(0.99, j as real / 20.0))
  }

  /** What each state gives to an outcome of full weight. */
  function GridLikelihood(success: bool): (l: seq<real>)
    ensures |l| == STATES && forall j :: 0 <= j < STATES ==> 0.01 <= l[j] <= 0.99
  {
    seq(STATES, j requires 0 <= j < STATES => if success then GridProbability(j) else 1.0 - GridProbability(j))
  }

  function Uniform(): (u: seq<real>)
    ensures |u| == STATES
  {
    seq(STATES, _ => 1.0 / 21.0)
  }

  ghost predicate WellFormed(state: Option<WorkingBelief>) { state.Some? ==> |state.value.gridWeights| == STATES }

  ghost predicate UsableBelief(state: Option<WorkingBelief>, reset: bool, policyId: string)
  {
    && !reset && state.Some? && state.value.policyId == policyId
    && (forall j :: 0 <= j < |state.value.gridWeights| ==> 0.0 <= state.value.gridWeights[j] <= 1.0)
    && Abs(Sum(state.value.gridWeights) - 1.0) <= TOLERANCE
  }

  /** The law over states before the next outcome. */
  ghost function PriorLaw(state: Option<WorkingBelief>, reset: bool, policyId: string): (p: seq<real>)
    requires WellFormed(state)
    ensures |p| == STATES
  {
    if UsableBelief(state, reset, policyId) then
      var w := state.value.gridWeights;
      FixedShare.Shared(Uniform(), GRID_SHARE, Normalised(w, Sum(w)))
    else Uniform()
  }

  /** The forecast of usefulness that a stored belief stands for. */
  ghost function PredictiveMean(state: Option<WorkingBelief>, policyId: string): real
    requires WellFormed(state)
  {
    Dot(PriorLaw(state, false, policyId), GridLikelihood(true))
  }

  function CappedWeight(weight: real): real { Max(0.0, Min(1.0, weight)) }

  /** Full weight skips the power. */
  function WeighedLikelihood(pow: ForecastMix.PowFunction, o: Outcome): (l: seq<real>)
    ensures |l| == STATES
  {
    var weight := CappedWeight(o.weight);
    seq(STATES, j requires 0 <= j < STATES =>
      if weight != 1.0 then pow(GridLikelihood(o.success)[j], weight) else GridLikelihood(o.success)[j])
  }

  ghost function NextWeights(pow: ForecastMix.PowFunction, state: Option<WorkingBelief>, o: Outcome, policyId: string): (w: seq<real>)
    requires WellFormed(state) && ForecastMix.IsPow(pow)
    ensures |w| == STATES
  {
    var p, l := PriorLaw(state, o.reset, policyId), WeighedLikelihood(pow, o);
    PriorIsLaw(state, o.reset, policyId);
    WeighedPositive(pow, o);
    DotPositive(p, l);
    FixedShare.Updated(p, l, Dot(p, l))
  }

  lemma UniformIsLaw()
    ensures IsLaw(Uniform())
  {
    SumConstant(Uniform(), 1.0 / 21.0);
  }

  lemma PriorIsLaw(state: Option<WorkingBelief>, reset: bool, policyId: string)
    requires WellFormed(state)
    ensures IsLaw(PriorLaw(state, reset, policyId))
  {
    UniformIsLaw();
    if UsableBelief(state, reset, policyId) {
      var w := state.value.gridWeights;
      NormalisedIsLaw(w, Sum(w));
      FixedShare.SharedIsLaw(Uniform(), GRID_SHARE, Normalised(w, Sum(w)));
    }
  }

  /** Whatever was stored, the weights after an update are a probability vector, for every evidence weight. */
  lemma NextWeightsAreLaw(pow: ForecastMix.PowFunction, state: Option<WorkingBelief>, o: Outcome, policyId: string)
    requires WellFormed(state) && ForecastMix.IsPow(pow)
    ensures IsLaw(NextWeights(pow, state, o, policyId))
  {
    PriorIsLaw(state, o.reset, policyId);
    WeighedPositive(pow, o);
    FixedShare.UpdatedIsLaw(PriorLaw(state, o.reset, policyId), WeighedLikelihood(pow, o));
  }

  /** The forecast never reaches certainty, even from a malformed or foreign belief. */
  lemma PredictionInRange(state: Option<WorkingBelief>, policyId: string)
    requires WellFormed(state)
    ensures 0.01 <= PredictiveMean(state, policyId) <= 0.99
  {
    PriorIsLaw(state, false, policyId);
    DotBetween(PriorLaw(state, false, policyId), GridLikelihood(true), 0.01, 0.99);
  }

  // ---- the loops ----

  method GridPrior(state: Option<WorkingBelief>, reset: bool, policyId: string) returns (law: seq<real>)
    requires WellFormed(state)
    ensures law == PriorLaw(state, reset, policyId)
  {
    var weights := new real[STATES](_ => 0.0);
    var valid := !reset && state.Some? && state.value.policyId == policyId;
    var sum := 0.0;
    if valid {
      var w := state.value.gridWeights;
      for j := 0 to STATES
        invariant sum == Sum(w[..j])
        invariant valid <==> forall i :: 0 <= i < j ==> 0.0 <= w[i] <= 1.0
      {
        if w[j] < 0.0 || w[j] > 1.0 { valid := false; }
        sum := sum + w[j];
        SumStep(w, j);
      }
      assert w[..STATES] == w;
      valid := valid && Abs(sum - 1.0) <= TOLERANCE;
    }
    assert valid <==> UsableBelief(state, reset, policyId);
    for j := 0 to STATES
      invariant forall i :: 0 <= i < j ==> weights[i] == PriorLaw(state, reset, policyId)[i]
    {
      weights[j] := 1.0 / 21.0;
      if valid {
        weights[j] := (1.0 - GRID_SHARE) * state.value.gridWeights[j] / sum + GRID_SHARE / 21.0;
        SharedEntry(state.value.gridWeights[j], sum);
      }
    }
    law := weights[..];
  }

  lemma SharedEntry(w: real, s: real)
    requires s > 0.0
    ensures (1.0 - GRID_SHARE) * w / s == (1.0 - GRID_SHARE) * (w / s)
  {
  }

  method GridMean(weights: seq<real>) returns (p: real)
    requires |weights| == STATES
    ensures p == Dot(weights, GridLikelihood(true))
  {
    hide Times;
    var l := GridLikelihood(true);
    p := 0.0;
    for j := 0 to STATES
      invariant p == Dot(weights[..j], l[..j])
    {
      p := p + Times(weights[j], GridProbability(j));
      DotStep(weights, l, j);
    }
    assert weights[..STATES] == weights && l[..STATES] == l;
  }

  /** One observation. The stored forecast is the one every later read recomputes. */
  method UpdateGrid(pow: ForecastMix.PowFunction, previous: Option<WorkingBelief>, o: Outcome, policyId: string)
    returns (state: WorkingBelief)
    requires WellFormed(previous) && ForecastMix.IsPow(pow)
    ensures state.policyId == policyId
    ensures state.gridWeights == NextWeights(pow, previous, o, policyId)
    ensures state.predictiveUseful == PredictiveMean(Some(state), policyId)
  {
    var law := GridPrior(previous, o.reset, policyId);
    var weights, sum := WeighStates(pow, law, o);
    ghost var l := WeighedLikelihood(pow, o);
    hide Dot, Sum, PriorLaw, Times, FixedShare.Updated, GridLikelihood, Uniform;
    PriorIsLaw(previous, o.reset, policyId);
    WeighedPositive(pow, o);
    DotPositive(law, l);
    ForecastMix.DivideAll(weights, sum);
    assert weights[..] == FixedShare.Updated(law, l, sum) by {
      forall j | 0 <= j < STATES ensures weights[..][j] == FixedShare.Updated(law, l, sum)[j] {
        ForecastMix.UpdatedEntry(law, l, sum, j);
      }
    }
    state := WorkingBelief(policyId, 0.0, weights[..]);
    var next := GridPrior(Some(state), false, policyId);
    var mean := GridMean(next);
    ForecastIgnoresItself(state, mean, policyId);
    state := state.(predictiveUseful := mean);
  }

  lemma ForecastIgnoresItself(state: WorkingBelief, mean: real, policyId: string)
    requires |state.gridWeights| == STATES
    ensures PriorLaw(Some(state.(predictiveUseful := mean)), false, policyId) == PriorLaw(Some(state), false, policyId)
  {
  }

  lemma WeighedPositive(pow: ForecastMix.PowFunction, o: Outcome)
    requires ForecastMix.IsPow(pow)
    ensures Positive(WeighedLikelihood(pow, o))
  {
    var l := GridLikelihood(o.success);
    forall j | 0 <= j < STATES ensures WeighedLikelihood(pow, o)[j] > 0.0 {
      assert l[j] > 0.0;
    }
  }

  lemma StateLikelihood(pow: ForecastMix.PowFunction, o: Outcome, j: nat)
    requires j < STATES
    ensures var p := if o.success then GridProbability(j) else 1.0 - GridProbability(j);
      WeighedLikelihood(pow, o)[j] == if CappedWeight(o.weight) != 1.0 then pow(p, CappedWeight(o.weight)) else p
  {
    assert GridLikelihood(o.success)[j] == if o.success then GridProbability(j) else 1.0 - GridProbability(j);
  }

  lemma DotOfNone(u: seq<real>, v: seq<real>)
    ensures Dot(u[..0], v[..0]) == 0.0
  {
  }

  method WeighStates(pow: ForecastMix.PowFunction, law: seq<real>, o: Outcome) returns (w: array<real>, sum: real)
    requires |law| == STATES
    ensures fresh(w) && w.Length == STATES
    ensures var l := WeighedLikelihood(pow, o);
      sum == Dot(law, l) && forall j :: 0 <= j < STATES ==> w[j] == Times(law[j], l[j])
  {
    hide Times, Dot, GridLikelihood, WeighedLikelihood, GridProbability;
    w := new real[STATES](j requires 0 <= j < STATES => law[j]);
    var weight := Max(0.0, Min(1.0, o.weight));
    ghost var l := WeighedLikelihood(pow, o);
    sum := 0.0;
    DotOfNone(law, l);
    for j := 0 to STATES
      invariant sum == Dot(law[..j], l[..j])
      invariant forall i :: 0 <= i < j ==> w[i] == Times(law[i], l[i])
      invariant forall i :: j <= i < STATES ==> w[i] == law[i]
    {
      var likelihood := GridProbability(j);
      if !o.success { likelihood := 1.0 - likelihood; }
      if weight != 1.0 { likelihood := pow(likelihood, weight); }
      StateLikelihood(pow, o, j);
      w[j] := Times(w[j], likelihood);
      sum := sum + w[j];
      DotStep(law, l, j);
    }
    assert law[..STATES] == law && l[..STATES] == l;
  }

  // ---- runs ----

  ghost predicate UnitRun(run: seq<Outcome>) { forall i :: 0 <= i < |run| ==> run[i].weight >= 1.0 }

  /** The belief stored after a run of updates that began with none. */
  ghost function RunBelief(pow: ForecastMix.PowFunction, run: seq<Outcome>, policyId: string): (b: Option<WorkingBelief>)
    requires ForecastMix.IsPow(pow)
    ensures WellFormed(b)
  {
    if run == [] then None
    else Some(Stored(pow, RunBelief(pow, run[..|run| - 1], policyId), run[|run| - 1], policyId))
  }

  /** The belief `UpdateGrid` returns. */
  ghost function Stored(pow: ForecastMix.PowFunction, state: Option<WorkingBelief>, o: Outcome, policyId: string): (b: WorkingBelief)
    requires WellFormed(state) && ForecastMix.IsPow(pow)
    ensures |b.gridWeights| == STATES
  {
    var w := NextWeights(pow, state, o, policyId);
    WorkingBelief(policyId, PredictiveMean(Some(WorkingBelief(policyId, 0.0, w)), policyId), w)
  }

  /** What the update returns and what a later read computes are one forecast. */
  lemma StoredForecastIsRecomputed(pow: ForecastMix.PowFunction, state: Option<WorkingBelief>, o: Outcome, policyId: string)
    requires WellFormed(state) && ForecastMix.IsPow(pow)
    ensures var b := Stored(pow, state, o, policyId);
      b.predictiveUseful == PredictiveMean(Some(b), policyId) && 0.01 <= b.predictiveUseful <= 0.99
  {
    hide Dot, Sum, FixedShare.Shared, NextWeights;
    var b := Stored(pow, state, o, policyId);
    var blank := WorkingBelief(policyId, 0.0, b.gridWeights);
    ForecastIgnoresItself(blank, b.predictiveUseful, policyId);
    PredictionInRange(Some(b), policyId);
  }

  /** The outcomes since, and including, the last reset. */
  ghost function Regime(run: seq<Outcome>): (r: seq<Outcome>)
    ensures |r| <= |run| && r == run[|run| - |r|..]
    ensures run != [] ==> r != []
  {
    if run == [] then []
    else if run[|run| - 1].reset then [run[|run| - 1]]
    else Regime(run[..|run| - 1]) + [run[|run| - 1]]
  }

  ghost function Likelihoods(run: seq<Outcome>): (ls: seq<seq<real>>)
    ensures |ls| == |run|
  {
    seq(|run|, i requires 0 <= i < |run| => GridLikelihood(run[i].success))
  }

  /** The product, over the current regime, of the likelihoods the belief's forecasts gave to what happened. */
  ghost function RegimeLikelihood(pow: ForecastMix.PowFunction, run: seq<Outcome>, policyId: string): real
    requires ForecastMix.IsPow(pow)
  {
    if run == [] then 1.0
    else
      var o := run[|run| - 1];
      if o.reset then OutcomeProbability(PredictiveMean(None, policyId), o)
      else Times(RegimeLikelihood(pow, run[..|run| - 1], policyId),
                 OutcomeProbability(PredictiveMean(RunBelief(pow, run[..|run| - 1], policyId), policyId), o))
  }

  function OutcomeProbability(p: real, o: Outcome): real { if o.success then p else 1.0 - p }

  ghost predicate Tracks(ls: seq<seq<real>>, b: Option<WorkingBelief>, likelihood: real, policyId: string)
  {
    && FixedShare.Model(Uniform(), GRID_SHARE, ls)
    && likelihood == FixedShare.Evidence(Uniform(), GRID_SHARE, ls)
    && (b.None? <==> ls == [])
    && (b.Some? ==> b.value.policyId == policyId && b.value.gridWeights == FixedShare.Posterior(Uniform(), GRID_SHARE, ls))
  }

  lemma TracksPrior(ls: seq<seq<real>>, b: Option<WorkingBelief>, likelihood: real, policyId: string)
    requires WellFormed(b) && Tracks(ls, b, likelihood, policyId)
    ensures PriorLaw(b, false, policyId) == FixedShare.Predictive(Uniform(), GRID_SHARE, ls)
  {
    if b.Some? {
      ForecastMix.NormalisedLaw(b.value.gridWeights);
      SumNonNegative(b.value.gridWeights);
    }
  }

  lemma OutcomeFactor(state: Option<WorkingBelief>, o: Outcome, policyId: string)
    requires WellFormed(state)
    ensures Dot(PriorLaw(state, false, policyId), GridLikelihood(o.success))
         == OutcomeProbability(PredictiveMean(state, policyId), o)
  {
    PriorIsLaw(state, false, policyId);
    DotComplement(PriorLaw(state, false, policyId), GridLikelihood(true), GridLikelihood(false));
  }

  lemma FullWeightIsLikelihood(pow: ForecastMix.PowFunction, o: Outcome)
    requires o.weight >= 1.0
    ensures WeighedLikelihood(pow, o) == GridLikelihood(o.success)
  {
  }

  lemma TracksStep(pow: ForecastMix.PowFunction, ls: seq<seq<real>>, b: Option<WorkingBelief>, likelihood: real,
                   o: Outcome, policyId: string)
    requires WellFormed(b) && ForecastMix.IsPow(pow) && o.weight >= 1.0 && !o.reset
    requires Tracks(ls, b, likelihood, policyId)
    ensures Tracks(ls + [GridLikelihood(o.success)], Some(Stored(pow, b, o, policyId)),
                   Times(likelihood, OutcomeProbability(PredictiveMean(b, policyId), o)), policyId)
  {
    TracksPrior(ls, b, likelihood, policyId);
    OutcomeFactor(b, o, policyId);
    FullWeightIsLikelihood(pow, o);
    hide Times, PredictiveMean, PriorLaw, GridLikelihood, WeighedLikelihood, Dot, Uniform, Sum;
    FixedShare.NextFilter(Uniform(), GRID_SHARE, ls, GridLikelihood(o.success));
  }

  /** A reset starts the filter afresh: the outcome that carries it is the first of its regime. */
  lemma ResetIsFirst(pow: ForecastMix.PowFunction, state: Option<WorkingBelief>, o: Outcome, policyId: string)
    requires WellFormed(state) && ForecastMix.IsPow(pow) && o.reset
    ensures Stored(pow, state, o, policyId) == Stored(pow, None, o.(reset := false), policyId)
  {
    assert WeighedLikelihood(pow, o) == WeighedLikelihood(pow, o.(reset := false));
  }

  /** The stored weights are the exact posterior law over grid states of the current regime. */
  lemma {:induction false} RunIsFilter(pow: ForecastMix.PowFunction, run: seq<Outcome>, policyId: string)
    requires ForecastMix.IsPow(pow) && UnitRun(run)
    ensures Tracks(Likelihoods(Regime(run)), RunBelief(pow, run, policyId), RegimeLikelihood(pow, run, policyId), policyId)
  {
    hide *;
    if run == [] {
      EmptyRun(pow, run, policyId);
    } else {
      var prior, o := run[..|run| - 1], run[|run| - 1];
      UnitPrefix(run);
      RunUnfolds(pow, run, policyId);
      if o.reset {
        FreshRegime(pow, RunBelief(pow, prior, policyId), o, policyId);
        assert Likelihoods(Regime(run)) == [GridLikelihood(o.success)];
      } else {
        RunIsFilter(pow, prior, policyId);
        TracksStep(pow, Likelihoods(Regime(prior)), RunBelief(pow, prior, policyId),
                   RegimeLikelihood(pow, prior, policyId), o, policyId);
      }
    }
  }

  lemma UnitPrefix(run: seq<Outcome>)
    requires UnitRun(run) && run != []
    ensures UnitRun(run[..|run| - 1]) && run[|run| - 1].weight >= 1.0
  {
  }

  lemma EmptyRun(pow: ForecastMix.PowFunction, run: seq<Outcome>, policyId: string)
    requires ForecastMix.IsPow(pow) && run == []
    ensures Tracks(Likelihoods(Regime(run)), RunBelief(pow, run, policyId), RegimeLikelihood(pow, run, policyId), policyId)
  {
    UniformIsLaw();
  }

  lemma RunUnfolds(pow: ForecastMix.PowFunction, run: seq<Outcome>, policyId: string)
    requires ForecastMix.IsPow(pow) && run != []
    ensures var prior, o := run[..|run| - 1], run[|run| - 1];
      && RunBelief(pow, run, policyId) == Some(Stored(pow, RunBelief(pow, prior, policyId), o, policyId))
      && Likelihoods(Regime(run)) == (if o.reset then [] else Likelihoods(Regime(prior))) + [GridLikelihood(o.success)]
      && RegimeLikelihood(pow, run, policyId)
         == (if o.reset then OutcomeProbability(PredictiveMean(None, policyId), o)
             else Times(RegimeLikelihood(pow, prior, policyId),
                        OutcomeProbability(PredictiveMean(RunBelief(pow, prior, policyId), policyId), o)))
  {
    hide Stored, Times, OutcomeProbability, PredictiveMean, GridLikelihood;
  }

  lemma FreshRegime(pow: ForecastMix.PowFunction, state: Option<WorkingBelief>, o: Outcome, policyId: string)
    requires WellFormed(state) && ForecastMix.IsPow(pow) && o.weight >= 1.0 && o.reset
    ensures Tracks([GridLikelihood(o.success)], Some(Stored(pow, state, o, policyId)),
                   OutcomeProbability(PredictiveMean(None, policyId), o), policyId)
  {
    UniformIsLaw();
    ResetIsFirst(pow, state, o, policyId);
    hide PredictiveMean, GridLikelihood, Stored, Dot, Sum, Uniform;
    TracksStep(pow, [], None, 1.0, o.(reset := false), policyId);
    assert [] + [GridLikelihood(o.success)] == [GridLikelihood(o.success)];
  }

  /** What `k` switches in `length` outcomes cost. */
  function SwitchingPrice(length: nat, k: nat): real
    requires length > 0 && k <= length - 1
  {
    1.0 / 21.0 * Power(0.98, length - 1 - k) * Power(0.02 / 21.0, k)
  }

  lemma GridPrice(length: nat, k: nat)
    requires length > 0 && k <= length - 1
    ensures FixedShare.PathPrice(1.0 / 21.0, GRID_SHARE, length, k) == SwitchingPrice(length, k)
  {
    hide Power;
    assert 1.0 - GRID_SHARE == 0.98 && GRID_SHARE * (1.0 / 21.0) == 0.02 / 21.0;
  }

  /** MAIN RESULT. Within the current regime, against every sequence of grid states with `k` switches, the
      cumulative likelihood of the forecasts is at least (1/21) * 0.98^(T-1-k) * (0.02/21)^k times the path's. */
  lemma GridTrackingRegret(pow: ForecastMix.PowFunction, run: seq<Outcome>, policyId: string, path: seq<nat>)
    requires ForecastMix.IsPow(pow) && UnitRun(run) && run != []
    requires FixedShare.IsPath(STATES, |Regime(run)|, path)
    ensures var k := FixedShare.Switches(path);
      RegimeLikelihood(pow, run, policyId)
        >= Times(SwitchingPrice(|path|, k), FixedShare.FollowedLikelihood(Likelihoods(Regime(run)), path))
  {
    hide Times, FixedShare.PathPrice, SwitchingPrice;
    RunIsFilter(pow, run, policyId);
    FixedShare.TrackingBound(Uniform(), GRID_SHARE, 1.0 / 21.0, Likelihoods(Regime(run)), path);
    GridPrice(|path|, FixedShare.Switches(path));
  }
}

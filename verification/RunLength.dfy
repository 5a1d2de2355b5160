/** Capped Bayesian online changepoint detection for a Bernoulli stream (internal/bayes/changepoint.go). */
module RunLength {
  import opened Prelude
  import opened RealSums

  datatype ChangePolicy = ChangePolicy(hazard: real, threshold: real, maxRun: int, recentWindow: int, recentThreshold: real,
                                       fastRate: real, slowRate: real, driftThreshold: real, driftPersistence: int,
                                       minSamples: int, cusumSlack: real, cusumThreshold: real, cooldownSamples: int)

  predicate RecentDisabled(p: ChangePolicy) { p.recentWindow == 0 && p.recentThreshold == 0.0 }

  predicate CusumDisabled(p: ChangePolicy) { p.cusumSlack == 0.0 && p.cusumThreshold == 0.0 }

  predicate DriftDisabled(p: ChangePolicy)
  {
    && p.fastRate == 0.0 && p.slowRate == 0.0 && p.driftThreshold == 0.0 && p.driftPersistence == 0 && p.minSamples == 0
    && CusumDisabled(p) && p.cooldownSamples == 0
  }

  predicate Valid(p: ChangePolicy)
  {
    && 0.0 < p.hazard < 1.0 && 0.0 < p.threshold <= 1.0 && p.maxRun > 1
    && (RecentDisabled(p) || (0 < p.recentWindow <= p.maxRun && 0.0 < p.recentThreshold <= 1.0))
    && (DriftDisabled(p)
        || (&& 0.0 < p.fastRate <= 1.0 && 0.0 < p.slowRate < p.fastRate && 0.0 < p.driftThreshold <= 1.0
            && p.driftPersistence > 0 && p.minSamples > 1 && p.cooldownSamples >= 0
            && (CusumDisabled(p) || (0.0 < p.cusumSlack < 1.0 && p.cusumThreshold > 0.0))))
  }

  /** A law over run lengths and, per run length, the Beta parameters of its outcomes. */
  datatype State = State(probabilities: seq<real>, alpha: seq<real>, beta: seq<real>)

  const EMPTY := State([], [], [])
  const FRESH := State([1.0], [1.0], [1.0])

  function Indicator(success: bool): real { if success then 1.0 else 0.0 }

  ghost predicate Aligned(s: State) { |s.probabilities| == |s.alpha| == |s.beta| > 0 }

  /** A state without usable arrays is replaced by the fresh one. */
  function Started(s: State): State
  {
    if |s.probabilities| == 0 || |s.alpha| != |s.probabilities| || |s.beta| != |s.probabilities| then FRESH else s
  }

  ghost predicate Divisible(s: State)
  {
    |s.alpha| == |s.beta| ==> forall i :: 0 <= i < |s.alpha| ==> s.alpha[i] + s.beta[i] != 0.0
  }

  // ---- specification ----

  /** What run length `i` predicted for the outcome. */
  function Predicted(s: State, i: nat, success: bool): real
    requires i < |s.alpha| == |s.beta| && s.alpha[i] + s.beta[i] != 0.0
  {
    (s.alpha[i] * Indicator(success) + s.beta[i] * (1.0 - Indicator(success))) / (s.alpha[i] + s.beta[i])
  }

  function ChangeMass(p: real, hazard: real): real { p * hazard * 0.5 }

  function GrowthMass(p: real, hazard: real, predicted: real): real { p * (1.0 - hazard) * predicted }

  function NextLength(s: State, p: ChangePolicy): int { MinInt(|s.probabilities| + 1, p.maxRun + 1) }

  /** The unnormalised law after the first `k` run lengths have been moved. */
  ghost function Raw(s: State, p: ChangePolicy, success: bool, k: nat): (m: seq<real>)
    requires Aligned(s) && Divisible(s) && p.maxRun > 1 && k <= |s.probabilities|
    ensures |m| == NextLength(s, p)
  {
    if k == 0 then seq(NextLength(s, p), _ => 0.0)
    else Moved(Raw(s, p, success, k - 1), s, p, success, k - 1)
  }

  /** Run length `i` either ends in a change or grows by one, the longest class keeping what grows past it. */
  ghost function Moved(m: seq<real>, s: State, p: ChangePolicy, success: bool, i: nat): (n: seq<real>)
    requires Aligned(s) && Divisible(s) && i < |s.probabilities| && |m| == NextLength(s, p) > 1
    ensures |n| == |m|
  {
    var growth := MinInt(i + 1, |m| - 1);
    m[0 := m[0] + ChangeMass(s.probabilities[i], p.hazard)]
     [growth := m[growth] + GrowthMass(s.probabilities[i], p.hazard, Predicted(s, i, success))]
  }

  ghost function Normalizer(s: State, p: ChangePolicy, success: bool): real
    requires Aligned(s) && Divisible(s) && p.maxRun > 1
  {
    Sum(Raw(s, p, success, |s.probabilities|))
  }

  function Shifted(a: seq<real>, first: real, step: real, length: nat): (r: seq<real>)
    requires |a| > 0
    ensures |r| == length
  {
    seq(length, i requires 0 <= i < length => if i == 0 then first else a[MinInt(i - 1, |a| - 1)] + step)
  }

  /** Where the total is of no use: certainty of a change, the outcome the only evidence. */
  function Fallback(success: bool): (State, real) {
    (State([1.0], [1.0 + Indicator(success)], [2.0 - Indicator(success)]), 1.0)
  }

  ghost function Updated(state: State, success: bool, p: ChangePolicy): (r: (State, real))
    requires Valid(p) && Divisible(Started(state))
  {
    var s, x := Started(state), Indicator(success);
    var n := Normalizer(s, p, success);
    if n <= 0.0 then Fallback(success)
    else
      var law := Normalised(Raw(s, p, success, |s.probabilities|), n);
      (State(law, Shifted(s.alpha, 1.0 + x, x, NextLength(s, p)), Shifted(s.beta, 2.0 - x, 1.0 - x, NextLength(s, p))), law[0])
  }

  /** The update on any state and policy. Where the evidence of some class cancels, its prediction divides by zero, the
      floating-point total is not a positive finite number, and the fallback is taken. */
  ghost function Advanced(state: State, success: bool, p: ChangePolicy): (r: (State, real))
  {
    if !Valid(p) then (state, 0.0)
    else if !Divisible(Started(state)) then Fallback(success)
    else Updated(state, success, p)
  }

  // ---- the loops ----

  method UpdateRunLength(state: State, success: bool, p: ChangePolicy) returns (next: State, change: real)
    ensures (next, change) == Advanced(state, success, p)
  {
    if !Valid(p) { return state, 0.0; }
    var s := Started(state);
    var length := NextLength(s, p);
    var x := Indicator(success);
    var law, total := MoveRunLengths(s, success, p);
    if total.None? || total.value <= 0.0 { return Fallback(success).0, Fallback(success).1; }
    var normalizer := total.value;
    hide Raw, Sum, Shifted;
    ghost var raw := law[..];
    for i := 0 to length
      invariant forall j :: 0 <= j < i ==> law[j] == raw[j] / normalizer
      invariant forall j :: i <= j < length ==> law[j] == raw[j]
    {
      law[i] := law[i] / normalizer;
    }
    assert law[..] == Normalised(raw, normalizer);
    var alpha := ShiftEvidence(s.alpha, 1.0 + x, x, length);
    var beta := ShiftEvidence(s.beta, 2.0 - x, 1.0 - x, length);
    next := State(law[..], alpha, beta);
    change := law[0];
  }

  /** `None` is a total that is not a finite number. */
  method MoveRunLengths(s: State, success: bool, p: ChangePolicy) returns (law: array<real>, total: Option<real>)
    requires Valid(p) && Aligned(s)
    ensures fresh(law) && (total.Some? <==> Divisible(s))
    ensures total.Some? ==> law[..] == Raw(s, p, success, |s.probabilities|) && total.value == Normalizer(s, p, success)
  {
    hide ChangeMass, GrowthMass, Predicted, Raw, Valid, Sum;
    ValidCore(p);
    var length := NextLength(s, p);
    law := new real[length](_ => 0.0);
    if exists i :: 0 <= i < |s.probabilities| && s.alpha[i] + s.beta[i] == 0.0 { return law, None; }
    RawUnfolds(s, p, success, 0);
    for i := 0 to |s.probabilities|
      invariant law[..] == Raw(s, p, success, i)
    {
      RawUnfolds(s, p, success, i + 1);
      var predicted := Predicted(s, i, success);
      law[0] := law[0] + ChangeMass(s.probabilities[i], p.hazard);
      var growth := MinInt(i + 1, length - 1);
      law[growth] := law[growth] + GrowthMass(s.probabilities[i], p.hazard, predicted);
    }
    var normalizer := SumArray(law);
    total := Some(normalizer);
  }

  method SumArray(a: array<real>) returns (sum: real)
    ensures sum == Sum(a[..])
  {
    sum := 0.0;
    for i := 0 to a.Length
      invariant sum == Sum(a[..i])
    {
      sum := sum + a[i];
      SumStep(a[..], i);
      assert a[..][..i] == a[..i] && a[..][..i + 1] == a[..i + 1];
    }
    assert a[..a.Length] == a[..];
  }

  method ShiftEvidence(a: seq<real>, first: real, step: real, length: nat) returns (r: seq<real>)
    requires |a| > 0 && length > 0
    ensures r == Shifted(a, first, step, length)
  {
    var next := new real[length](_ => first);
    for i := 1 to length
      invariant next[0] == first
      invariant forall j :: 1 <= j < i ==> next[j] == a[MinInt(j - 1, |a| - 1)] + step
    {
      next[i] := a[MinInt(i - 1, |a| - 1)] + step;
    }
    r := next[..];
  }

  // ---- one step on good states ----

  /** The invariant of every run: a law over at most `maxRun + 1` run lengths, with evidence that a run of that length
      can have gathered. */
  ghost predicate Good(s: State, p: ChangePolicy)
  {
    && Aligned(s) && |s.probabilities| <= p.maxRun + 1 && IsLaw(s.probabilities)
    && (forall i :: 0 <= i < |s.alpha| ==> s.alpha[i] >= 1.0 && s.beta[i] >= 1.0)
    && (forall i :: 0 <= i < |s.alpha| ==> s.alpha[i] + s.beta[i] <= i as real + 3.0)
  }

  lemma GoodBounds(s: State, p: ChangePolicy)
    requires Good(s, p)
    ensures Divisible(s) && Started(s) == s
    ensures forall i :: 0 <= i < |s.alpha| ==> s.alpha[i] + s.beta[i] <= p.maxRun as real + 3.0
  {
  }

  lemma PredictedIsProbability(s: State, p: ChangePolicy, i: nat, success: bool)
    requires Good(s, p) && i < |s.alpha|
    ensures s.alpha[i] + s.beta[i] != 0.0 && 0.0 < Predicted(s, i, success) < 1.0
  {
    FractionBetween(s.alpha[i], s.beta[i]);
  }

  lemma FractionBetween(a: real, b: real)
    requires a >= 1.0 && b >= 1.0
    ensures 0.0 < a / (a + b) < 1.0 && 0.0 < b / (a + b) < 1.0
  {
  }

  /** What every run length predicted. */
  ghost function Predictions(s: State, success: bool): (q: seq<real>)
    requires Aligned(s) && Divisible(s)
    ensures |q| == |s.probabilities|
  {
    seq(|s.alpha|, i requires 0 <= i < |s.alpha| => Predicted(s, i, success))
  }

  /** The probability the whole state gave to the outcome, had there been no change. */
  ghost function MeanPredictive(s: State, success: bool): real
    requires Aligned(s) && Divisible(s)
  {
    Dot(s.probabilities, Predictions(s, success))
  }

  function ChangeShare(h: real, moved: real): real { h * 0.5 * moved }

  function GrowthShare(h: real, predicted: real): real { (1.0 - h) * predicted }

  /** Conservation while moving: what has been moved is split between change and growth, and nothing else. */
  lemma {:induction false} RawTotals(s: State, p: ChangePolicy, success: bool, k: nat)
    requires Valid(p) && Good(s, p) && Divisible(s) && k <= |s.probabilities|
    ensures Totals(s, p, success, k)
  {
    hide Raw, Totals, Good, Divisible, Valid;
    ValidCore(p);
    GoodLaw(s, p);
    if k == 0 {
      RawStarts(s, p, success);
    } else {
      RawTotals(s, p, success, k - 1);
      RawContinues(s, p, success, k);
    }
  }

  ghost predicate Totals(s: State, p: ChangePolicy, success: bool, k: nat)
    requires Aligned(s) && Divisible(s) && p.maxRun > 1 && k <= |s.probabilities|
  {
    var m := Raw(s, p, success, k);
    && NonNegative(m) && m[0] == ChangeShare(p.hazard, Sum(s.probabilities[..k]))
    && Sum(m) == ChangeShare(p.hazard, Sum(s.probabilities[..k]))
                 + GrowthShare(p.hazard, Dot(s.probabilities[..k], Predictions(s, success)[..k]))
  }

  lemma RawStarts(s: State, p: ChangePolicy, success: bool)
    requires Aligned(s) && Divisible(s) && p.maxRun > 1
    ensures Totals(s, p, success, 0)
  {
    SumConstant(Raw(s, p, success, 0), 0.0);
    NothingMoved(p.hazard);
    hide ChangeShare, GrowthShare, Predictions;
  }

  lemma RawContinues(s: State, p: ChangePolicy, success: bool, k: nat)
    requires Valid(p) && Good(s, p) && Divisible(s) && 0 < k <= |s.probabilities| && Totals(s, p, success, k - 1)
    ensures Totals(s, p, success, k)
  {
    hide Raw, Moved, Sum, Dot, Predicted, Predictions, Times, ChangeShare, GrowthShare, ChangeMass, GrowthMass, IsLaw, Valid,
      Good, Divisible, NextLength, NonNegative;
    ValidCore(p);
    GoodLaw(s, p);
    var m, i := Raw(s, p, success, k - 1), k - 1;
    RawUnfolds(s, p, success, k);
    PredictedIsProbability(s, p, i, success);
    PredictionsAt(s, success, i);
    LawEntry(s.probabilities, i);
    MovedTotals(m, s, p, success, i);
    SumStep(s.probabilities, i);
    DotStep(s.probabilities, Predictions(s, success), i);
    TotalsStep(p.hazard, Sum(s.probabilities[..i]), s.probabilities[i],
               Dot(s.probabilities[..i], Predictions(s, success)[..i]), Predicted(s, i, success));
  }

  lemma ValidCore(p: ChangePolicy)
    requires Valid(p)
    ensures p.maxRun > 1 && 0.0 < p.hazard < 1.0
  {
  }

  lemma GoodLaw(s: State, p: ChangePolicy)
    requires Good(s, p)
    ensures Aligned(s) && IsLaw(s.probabilities)
  {
  }

  lemma RawUnfolds(s: State, p: ChangePolicy, success: bool, k: nat)
    requires Aligned(s) && Divisible(s) && p.maxRun > 1 && k <= |s.probabilities|
    ensures k == 0 ==> Raw(s, p, success, k) == seq(NextLength(s, p), _ => 0.0)
    ensures NextLength(s, p) > 1
    ensures k > 0 ==> Raw(s, p, success, k) == Moved(Raw(s, p, success, k - 1), s, p, success, k - 1)
  {
  }

  lemma LawEntry(law: seq<real>, i: nat)
    requires IsLaw(law) && i < |law|
    ensures law[i] >= 0.0
  {
  }

  lemma PredictionsAt(s: State, success: bool, i: nat)
    requires Aligned(s) && Divisible(s) && i < |s.probabilities|
    ensures s.alpha[i] + s.beta[i] != 0.0 && Predictions(s, success)[i] == Predicted(s, i, success)
  {
  }

  lemma MovedTotals(m: seq<real>, s: State, p: ChangePolicy, success: bool, i: nat)
    requires Valid(p) && Aligned(s) && Divisible(s) && i < |s.probabilities| && |m| == NextLength(s, p)
    requires NonNegative(m) && s.probabilities[i] >= 0.0 && Predicted(s, i, success) >= 0.0
    ensures var n := Moved(m, s, p, success, i);
      && NonNegative(n) && n[0] == m[0] + ChangeMass(s.probabilities[i], p.hazard)
      && Sum(n) == Sum(m) + ChangeMass(s.probabilities[i], p.hazard)
                   + GrowthMass(s.probabilities[i], p.hazard, Predicted(s, i, success))
  {
    hide ChangeMass, GrowthMass, Predicted, Sum;
    var c, g := ChangeMass(s.probabilities[i], p.hazard), GrowthMass(s.probabilities[i], p.hazard, Predicted(s, i, success));
    MassesNonNegative(s.probabilities[i], p.hazard, Predicted(s, i, success));
    SumSet(m, 0, c);
    SumSet(m[0 := m[0] + c], MinInt(i + 1, |m| - 1), g);
  }

  lemma NothingMoved(h: real)
    ensures ChangeShare(h, 0.0) == 0.0 && GrowthShare(h, 0.0) == 0.0
  {
  }

  lemma MassesNonNegative(q: real, h: real, predicted: real)
    requires q >= 0.0 && 0.0 < h < 1.0 && predicted >= 0.0
    ensures ChangeMass(q, h) >= 0.0 && GrowthMass(q, h, predicted) >= 0.0
  {
    ProductNonNegative(q, h);
    ProductNonNegative(q, 1.0 - h);
    ProductNonNegative(q * (1.0 - h), predicted);
  }

  lemma TotalsStep(h: real, sum: real, q: real, dot: real, predicted: real)
    ensures ChangeShare(h, sum + q) == ChangeShare(h, sum) + ChangeMass(q, h)
    ensures GrowthShare(h, dot + Times(q, predicted)) == GrowthShare(h, dot) + GrowthMass(q, h, predicted)
  {
  }

  /** The change probability in closed form: hazard times the flat prediction, against what the runs predicted. */
  ghost function ChangeProbability(h: real, mean: real): real
    requires h * 0.5 + (1.0 - h) * mean > 0.0
  {
    h * 0.5 / (h * 0.5 + (1.0 - h) * mean)
  }

  lemma NormalizerValue(s: State, p: ChangePolicy, success: bool)
    requires Valid(p) && Good(s, p) && Divisible(s)
    ensures MeanPredictive(s, success) >= 0.0
    ensures Normalizer(s, p, success) == p.hazard * 0.5 + (1.0 - p.hazard) * MeanPredictive(s, success) > 0.0
    ensures Raw(s, p, success, |s.probabilities|)[0] == p.hazard * 0.5
    ensures NonNegative(Raw(s, p, success, |s.probabilities|))
  {
    hide Raw, Sum, Dot, Predicted, Predictions, Times, Valid, Good, Divisible, IsLaw;
    ValidCore(p);
    GoodLaw(s, p);
    var n, q := |s.probabilities|, Predictions(s, success);
    RawTotals(s, p, success, n);
    MeanPositive(s, p, success);
    assert s.probabilities[..n] == s.probabilities && q[..n] == q;
    WholeMass(s.probabilities);
    NormalizerPositive(p.hazard, MeanPredictive(s, success));
  }

  lemma WholeMass(law: seq<real>)
    requires IsLaw(law)
    ensures Sum(law) == 1.0
  {
  }

  lemma NormalizerPositive(h: real, mean: real)
    requires 0.0 < h < 1.0 && mean >= 0.0
    ensures h * 0.5 + (1.0 - h) * mean > 0.0
  {
    ProductNonNegative(1.0 - h, mean);
  }

  lemma MeanPositive(s: State, p: ChangePolicy, success: bool)
    requires Good(s, p) && Divisible(s)
    ensures MeanPredictive(s, success) >= 0.0
  {
    var q := Predictions(s, success);
    forall i | 0 <= i < |q| ensures 0.0 < q[i] { PredictedIsProbability(s, p, i, success); }
    hide Predicted, Predictions;
    DotPositive(s.probabilities, q);
  }

  /** STEP. From a good state the update is good, its fallback is never taken, and the change probability is the
      closed form. */
  lemma GoodStep(s: State, p: ChangePolicy, success: bool)
    requires Valid(p) && Good(s, p) && Divisible(Started(s))
    ensures var (next, change) := Updated(s, success, p);
      && Good(next, p) && |next.probabilities| == NextLength(s, p)
      && p.hazard * 0.5 + (1.0 - p.hazard) * MeanPredictive(s, success) > 0.0
      && change == ChangeProbability(p.hazard, MeanPredictive(s, success))
  {
    GoodBounds(s, p);
    NormalizerValue(s, p, success);
    NormalisedIsLaw(Raw(s, p, success, |s.probabilities|), Normalizer(s, p, success));
    EvidenceStep(s, p, success);
    UpdateTaken(s, p, success);
    hide Raw, Sum, Normalizer, MeanPredictive, Shifted, Updated, Normalised;
  }

  /** On a good state the update normalises; the fallback for an empty total is never taken. */
  lemma UpdateTaken(s: State, p: ChangePolicy, success: bool)
    requires Valid(p) && Good(s, p) && Divisible(s) && Normalizer(s, p, success) > 0.0
    ensures Divisible(Started(s))
    ensures var law := Normalised(Raw(s, p, success, |s.probabilities|), Normalizer(s, p, success));
      var x := Indicator(success);
      Updated(s, success, p)
        == (State(law, Shifted(s.alpha, 1.0 + x, x, NextLength(s, p)), Shifted(s.beta, 2.0 - x, 1.0 - x, NextLength(s, p))), law[0])
  {
    hide Raw, Sum, Normalizer, Shifted, Normalised;
  }

  lemma ShiftedAt(a: seq<real>, first: real, step: real, length: nat, i: nat)
    requires 0 < |a| && i < length <= |a| + 1
    ensures Shifted(a, first, step, length)[i] == if i == 0 then first else a[i - 1] + step
  {
    assert i > 0 ==> MinInt(i - 1, |a| - 1) == i - 1;
  }

  lemma EvidenceStep(s: State, p: ChangePolicy, success: bool)
    requires Valid(p) && Good(s, p)
    ensures var x := Indicator(success);
      var alpha, beta := Shifted(s.alpha, 1.0 + x, x, NextLength(s, p)), Shifted(s.beta, 2.0 - x, 1.0 - x, NextLength(s, p));
      && (forall i :: 0 <= i < |alpha| ==> alpha[i] >= 1.0 && beta[i] >= 1.0)
      && (forall i :: 0 <= i < |alpha| ==> alpha[i] + beta[i] <= i as real + 3.0)
  {
    var x := Indicator(success);
    var alpha, beta := Shifted(s.alpha, 1.0 + x, x, NextLength(s, p)), Shifted(s.beta, 2.0 - x, 1.0 - x, NextLength(s, p));
    forall i | 0 <= i < |alpha| ensures alpha[i] >= 1.0 && beta[i] >= 1.0 && alpha[i] + beta[i] <= i as real + 3.0 {
      ShiftedAt(s.alpha, 1.0 + x, x, NextLength(s, p), i);
      ShiftedAt(s.beta, 2.0 - x, 1.0 - x, NextLength(s, p), i);
    }
  }

  // ---- whole runs ----

  /** The state after the outcomes `xs`, starting without any. */
  ghost function After(p: ChangePolicy, xs: seq<bool>): (s: State)
    requires Valid(p)
    ensures Good(s, p) && Divisible(Started(s))
    ensures |s.probabilities| == MinInt(|xs| + 1, p.maxRun + 1)
  {
    if xs == [] then
      FreshIsGood(p);
      FRESH
    else
      var s := After(p, xs[..|xs| - 1]);
      GoodStep(s, p, xs[|xs| - 1]);
      GoodBounds(Updated(s, xs[|xs| - 1], p).0, p);
      Updated(s, xs[|xs| - 1], p).0
  }

  lemma FreshIsGood(p: ChangePolicy)
    requires Valid(p)
    ensures Good(FRESH, p)
  {
    SumConstant([1.0], 1.0);
  }

  /** The first update reads an empty state as the fresh one. */
  lemma EmptyStartsFresh(p: ChangePolicy, success: bool)
    requires Valid(p)
    ensures Divisible(Started(EMPTY)) && Updated(EMPTY, success, p) == Updated(FRESH, success, p)
  {
  }

  function Successes(xs: seq<bool>): nat
  {
    if xs == [] then 0 else Successes(xs[..|xs| - 1]) + (if xs[|xs| - 1] then 1 else 0)
  }

  /** The most recent outcomes, as many as a run of index `i` can have seen. */
  function Recent(xs: seq<bool>, i: nat): seq<bool>
  {
    xs[|xs| - MinInt(i + 1, |xs|)..]
  }

  /** SUFFICIENT STATISTICS. Index `i` has counted exactly the successes and failures of the last `i + 1` outcomes
      (all of them when there are fewer), however long the run and whether or not the cap was reached. */
  lemma {:induction false} EvidenceIsRecentCounts(p: ChangePolicy, xs: seq<bool>, i: nat)
    requires Valid(p) && i < |After(p, xs).alpha|
    ensures i < |After(p, xs).beta| && Counted(After(p, xs).alpha[i], After(p, xs).beta[i], Recent(xs, i))
    decreases |xs|
  {
    hide *;
    if xs == [] {
      NothingCounted(p, i);
    } else {
      var init, x := xs[..|xs| - 1], xs[|xs| - 1];
      EvidenceUnfolds(p, xs, i);
      RecentGrows(xs, i);
      if i == 0 {
        NothingCounted(p, 0);
        CountedStep(1.0, 1.0, [], x);
      } else {
        EvidenceIsRecentCounts(p, init, i - 1);
        var s := After(p, init);
        CountedStep(s.alpha[i - 1], s.beta[i - 1], Recent(init, i - 1), x);
      }
    }
  }

  lemma NothingCounted(p: ChangePolicy, i: nat)
    requires Valid(p)
    ensures Counted(1.0, 1.0, [])
    ensures i < |After(p, []).alpha| ==>
      i < |After(p, []).beta| && Counted(After(p, []).alpha[i], After(p, []).beta[i], Recent([], i))
  {
  }

  lemma RecentGrows(xs: seq<bool>, i: nat)
    requires xs != []
    ensures Recent(xs, i) == (if i == 0 then [] else Recent(xs[..|xs| - 1], i - 1)) + [xs[|xs| - 1]]
  {
  }

  /** Beta parameters that have counted exactly the outcomes of `r`, from one and one. */
  ghost predicate Counted(a: real, b: real, r: seq<bool>)
  {
    a == 1.0 + Successes(r) as real && b == 1.0 + (|r| - Successes(r)) as real
  }

  lemma CountedStep(a: real, b: real, r: seq<bool>, x: bool)
    requires Counted(a, b, r)
    ensures Counted(a + Indicator(x), b + (1.0 - Indicator(x)), r + [x])
  {
    assert (r + [x])[..|r|] == r;
  }

  lemma EvidenceUnfolds(p: ChangePolicy, xs: seq<bool>, i: nat)
    requires Valid(p) && xs != [] && i < |After(p, xs).alpha|
    ensures var init, x := After(p, xs[..|xs| - 1]), Indicator(xs[|xs| - 1]);
      && i < |After(p, xs).beta| && (i > 0 ==> i - 1 < |init.alpha| == |init.beta|)
      && After(p, xs).alpha[i] == (if i == 0 then 1.0 else init.alpha[i - 1]) + x
      && After(p, xs).beta[i] == (if i == 0 then 1.0 else init.beta[i - 1]) + (1.0 - x)
  {
    var init, x := After(p, xs[..|xs| - 1]), xs[|xs| - 1];
    AfterUnfolds(p, xs);
    hide *;
    ShiftedAt(init.alpha, 1.0 + Indicator(x), Indicator(x), NextLength(init, p), i);
    ShiftedAt(init.beta, 2.0 - Indicator(x), 1.0 - Indicator(x), NextLength(init, p), i);
  }

  /** One more outcome, field by field. */
  lemma AfterUnfolds(p: ChangePolicy, xs: seq<bool>)
    requires Valid(p)
    ensures xs == [] ==> After(p, xs) == FRESH
    ensures xs != [] ==>
      var init, x := After(p, xs[..|xs| - 1]), Indicator(xs[|xs| - 1]);
      && Aligned(init) && Divisible(init) && |init.alpha| == MinInt(|xs|, p.maxRun + 1)
      && Normalizer(init, p, xs[|xs| - 1]) > 0.0
      && After(p, xs).probabilities == Normalised(Raw(init, p, xs[|xs| - 1], |init.probabilities|), Normalizer(init, p, xs[|xs| - 1]))
      && After(p, xs).alpha == Shifted(init.alpha, 1.0 + x, x, NextLength(init, p))
      && After(p, xs).beta == Shifted(init.beta, 2.0 - x, 1.0 - x, NextLength(init, p))
  {
    if xs != [] {
      var init, x := After(p, xs[..|xs| - 1]), xs[|xs| - 1];
      GoodBounds(init, p);
      NormalizerValue(init, p, x);
      UpdateTaken(init, p, x);
      hide Raw, Sum, Normalizer, MeanPredictive, Shifted, Updated, Normalised, Good;
    }
  }

  // ---- exactness ----

  /** The product of the filter's own normalisers. What it computes is `ChangeModel`'s subject. */
  ghost function Evidence(p: ChangePolicy, xs: seq<bool>): real
    requires Valid(p)
  {
    if xs == [] then 1.0
    else
      var s := After(p, xs[..|xs| - 1]);
      GoodBounds(s, p);
      Times(Evidence(p, xs[..|xs| - 1]), Normalizer(s, p, xs[|xs| - 1]))
  }

  function Factorial(n: nat): (f: real)
    ensures f > 0.0
  {
    if n == 0 then 1.0 else PositiveTimes(n as real, Factorial(n - 1))
  }

  function PositiveTimes(x: real, y: real): (z: real)
    requires x > 0.0 && y > 0.0
    ensures z > 0.0
  {
    x * y
  }

  /** Probability of one particular order of `s` successes and `f` failures when the rate is uniformly unknown. */
  function Marginal(s: nat, f: nat): real { Quotient(Times(Factorial(s), Factorial(f)), Factorial(s + f + 1)) }

  function Quotient(x: real, y: real): real
    requires y > 0.0
  {
    x / y
  }

  function MarginalOf(xs: seq<bool>): real
  {
    SuccessesAtMost(xs);
    Marginal(Successes(xs), |xs| - Successes(xs))
  }

  lemma {:induction false} SuccessesAtMost(xs: seq<bool>)
    ensures Successes(xs) <= |xs|
  {
    if xs != [] { SuccessesAtMost(xs[..|xs| - 1]); }
  }

  /** The evidence before a regime that began `i + 1` outcomes ago, one change, no change since, and the regime's own
      marginal likelihood. */
  ghost function RegimeMass(p: ChangePolicy, xs: seq<bool>, i: nat): real
    requires Valid(p) && i < |xs|
  {
    Joint(Evidence(p, xs[..|xs| - 1 - i]), Times(p.hazard, Power(1.0 - p.hazard, i)), MarginalOf(xs[|xs| - 1 - i..]))
  }

  function Ratio(k: nat, n: nat): real
    requires n > 0
  {
    k as real / n as real
  }

  lemma MarginalStep(s: nat, f: nat)
    ensures Marginal(s + 1, f) == Times(Marginal(s, f), Ratio(s + 1, s + f + 2))
    ensures Marginal(s, f + 1) == Times(Marginal(s, f), Ratio(f + 1, s + f + 2))
  {
    hide Factorial, Times, Quotient, Ratio;
    FactorialStep(s);
    FactorialStep(f);
    FactorialStep(s + f + 1);
    SplitRatio(s + 1, Factorial(s), Factorial(f), s + f + 2, Factorial(s + f + 1));
    SplitRatio(f + 1, Factorial(f), Factorial(s), s + f + 2, Factorial(s + f + 1));
  }

  lemma SplitRatio(k: nat, a: real, b: real, n: nat, c: real)
    requires n > 0 && c > 0.0
    ensures Times(n as real, c) > 0.0
    ensures Quotient(Times(Times(k as real, a), b), Times(n as real, c)) == Times(Quotient(Times(a, b), c), Ratio(k, n))
    ensures Quotient(Times(b, Times(k as real, a)), Times(n as real, c)) == Times(Quotient(Times(b, a), c), Ratio(k, n))
  {
    SplitFraction(k as real, a, b, n as real, c);
  }

  lemma FactorialStep(n: nat)
    ensures Factorial(n + 1) == Times((n + 1) as real, Factorial(n))
  {
  }

  lemma SplitFraction(k: real, a: real, b: real, n: real, c: real)
    requires n > 0.0 && c > 0.0
    ensures Times(n, c) > 0.0
    ensures Times(k, a) * b / Times(n, c) == Times(a * b / c, k / n)
    ensures b * Times(k, a) / Times(n, c) == Times(b * a / c, k / n)
  {
    var u, v := a * b / c, k / n;
    assert u * c == a * b && v * n == k;
    assert (u * v) * (n * c) == (u * c) * (v * n);
    assert (u * v) * (n * c) == k * a * b;
  }

  /** Away from the cap, a run length receives mass from its predecessor only. */
  lemma {:induction false} RawAt(s: State, p: ChangePolicy, success: bool, k: nat, i: nat)
    requires Valid(p) && Aligned(s) && Divisible(s) && k <= |s.probabilities|
    requires 0 < i < NextLength(s, p) && (i < NextLength(s, p) - 1 || NextLength(s, p) == |s.probabilities| + 1)
    ensures Raw(s, p, success, k)[i]
         == if i <= k then GrowthMass(s.probabilities[i - 1], p.hazard, Predicted(s, i - 1, success)) else 0.0
  {
    hide ChangeMass, GrowthMass, Predicted;
    if k > 0 { RawAt(s, p, success, k - 1, i); }
  }

  /** Unnormalising: the evidence so far times a posterior probability is what was moved into it. */
  lemma UnnormalisedAt(p: ChangePolicy, xs: seq<bool>, i: nat)
    requires Valid(p) && xs != [] && i < |After(p, xs).probabilities|
    ensures var s, x := After(p, xs[..|xs| - 1]), xs[|xs| - 1];
      && Good(s, p) && Divisible(s) && i < NextLength(s, p)
      && Times(Evidence(p, xs), After(p, xs).probabilities[i])
         == Times(Evidence(p, xs[..|xs| - 1]), Raw(s, p, x, |s.probabilities|)[i])
  {
    var s, x := After(p, xs[..|xs| - 1]), xs[|xs| - 1];
    GoodBounds(s, p);
    AfterUnfolds(p, xs);
    EvidenceStepValue(p, xs);
    hide *;
    CancelNormalizer(Evidence(p, xs[..|xs| - 1]), Raw(s, p, x, |s.probabilities|), Normalizer(s, p, x), i);
  }

  lemma EvidenceStepValue(p: ChangePolicy, xs: seq<bool>)
    requires Valid(p) && xs != []
    ensures var s := After(p, xs[..|xs| - 1]);
      && Aligned(s) && Divisible(s)
      && Evidence(p, xs) == Times(Evidence(p, xs[..|xs| - 1]), Normalizer(s, p, xs[|xs| - 1]))
  {
    GoodBounds(After(p, xs[..|xs| - 1]), p);
    hide Times, Normalizer, Good;
  }

  lemma CancelNormalizer(e: real, m: seq<real>, n: real, i: nat)
    requires n > 0.0 && i < |m|
    ensures Times(Times(e, n), Normalised(m, n)[i]) == Times(e, m[i])
  {
    var d := m[i] / n;
    assert n * d == m[i];
    assert (e * n) * d == e * (n * d);
  }

  /** RENEWAL. In every run, capped or not, evidence times the posterior of a run length below the cap is the evidence
      before the regime, times hazard, survival and the regime's own marginal likelihood. Past the cap that earlier
      evidence is itself computed with a limited memory. */
  lemma {:induction false} RegimeRenewal(p: ChangePolicy, xs: seq<bool>, i: nat)
    requires Valid(p) && i < |xs| && i < p.maxRun
    ensures i < |After(p, xs).probabilities|
    ensures Times(Evidence(p, xs), After(p, xs).probabilities[i]) == RegimeMass(p, xs, i)
    decreases i
  {
    hide *;
    IndexExists(p, xs, i);
    if i == 0 {
      RegimeBegins(p, xs);
    } else {
      RegimeRenewal(p, xs[..|xs| - 1], i - 1);
      RegimeContinues(p, xs, i);
    }
  }

  lemma RegimeBegins(p: ChangePolicy, xs: seq<bool>)
    requires Valid(p) && xs != [] && p.maxRun > 0
    ensures Times(Evidence(p, xs), After(p, xs).probabilities[0]) == RegimeMass(p, xs, 0)
  {
    hide *;
    var init, x := xs[..|xs| - 1], xs[|xs| - 1];
    IndexExists(p, xs, 0);
    UnnormalisedAt(p, xs, 0);
    NormalizerValue(After(p, init), p, x);
    SingleMarginal(x);
    RegimeMassBegins(p, xs);
    FirstMass(Evidence(p, init), p.hazard, MarginalOf([x]));
  }

  lemma IndexExists(p: ChangePolicy, xs: seq<bool>, i: nat)
    requires Valid(p) && i <= |xs| && i <= p.maxRun
    ensures i < |After(p, xs).probabilities| == |After(p, xs).alpha| == |After(p, xs).beta|
    ensures i < p.maxRun || |xs| < p.maxRun ==>
      var s := After(p, xs); i < NextLength(s, p) && (i < NextLength(s, p) - 1 || NextLength(s, p) == |s.probabilities| + 1)
  {
    hide After, Valid, IsLaw, Divisible, Started;
  }

  lemma RegimeMassBegins(p: ChangePolicy, xs: seq<bool>)
    requires Valid(p) && xs != []
    ensures RegimeMass(p, xs, 0)
         == Joint(Evidence(p, xs[..|xs| - 1]), Times(p.hazard, Power(1.0 - p.hazard, 0)), MarginalOf([xs[|xs| - 1]]))
  {
    hide Joint, Evidence, MarginalOf, Power, Times;
    assert xs[|xs| - 1..] == [xs[|xs| - 1]];
  }

  lemma RegimeContinues(p: ChangePolicy, xs: seq<bool>, i: nat)
    requires Valid(p) && 0 < i < |xs| && i < p.maxRun
    requires Times(Evidence(p, xs[..|xs| - 1]), After(p, xs[..|xs| - 1]).probabilities[i - 1]) == RegimeMass(p, xs[..|xs| - 1], i - 1)
    ensures Times(Evidence(p, xs), After(p, xs).probabilities[i]) == RegimeMass(p, xs, i)
  {
    hide *;
    var init, x := xs[..|xs| - 1], xs[|xs| - 1];
    var s := After(p, init);
    IndexExists(p, xs, i);
    IndexExists(p, init, i);
    UnnormalisedAt(p, xs, i);
    AfterAligned(p, init);
    RawAt(s, p, x, |s.probabilities|, i);
    PredictedFromCounts(p, init, i - 1, x);
    RecentIs(init, i - 1);
    assert init[|init| - 1 - (i - 1)..] == init[|init| - i..];
    RegimeMassGrows(p, xs, i);
    GrowMass(Evidence(p, init), s.probabilities[i - 1], p.hazard, Predicted(s, i - 1, x),
             Evidence(p, xs[..|xs| - 1 - i]), Power(1.0 - p.hazard, i - 1), MarginalOf(init[|init| - i..]));
  }

  lemma AfterAligned(p: ChangePolicy, xs: seq<bool>)
    requires Valid(p)
    ensures Aligned(After(p, xs)) && Divisible(After(p, xs))
    ensures forall i :: 0 <= i < |After(p, xs).alpha| ==> After(p, xs).alpha[i] + After(p, xs).beta[i] != 0.0
  {
    GoodBounds(After(p, xs), p);
  }

  /** The same for the class that has seen no change at all, while the run is not longer than the cap: everything is one
      regime. */
  lemma {:induction false} UnbrokenRenewal(p: ChangePolicy, xs: seq<bool>)
    requires Valid(p) && |xs| <= p.maxRun
    ensures |xs| < |After(p, xs).probabilities|
    ensures Times(Evidence(p, xs), After(p, xs).probabilities[|xs|])
         == Times(Power(1.0 - p.hazard, |xs|), MarginalOf(xs))
  {
    hide *;
    IndexExists(p, xs, |xs|);
    if xs == [] {
      NothingObserved(p);
    } else {
      var init, x := xs[..|xs| - 1], xs[|xs| - 1];
      var s, i := After(p, init), |xs|;
      UnbrokenRenewal(p, init);
      IndexExists(p, init, |init|);
      UnnormalisedAt(p, xs, i);
      AfterAligned(p, init);
      LastIndex(p, init);
      RawAt(s, p, x, |s.probabilities|, i);
      PredictedFromCounts(p, init, i - 1, x);
      RecentIsAll(init);
      assert xs == init + [x];
      PowerStep(1.0 - p.hazard, i);
      GrowUnbroken(Evidence(p, init), s.probabilities[i - 1], p.hazard, Predicted(s, i - 1, x),
                   Power(1.0 - p.hazard, i - 1), MarginalOf(init));
    }
  }

  lemma LastIndex(p: ChangePolicy, xs: seq<bool>)
    requires Valid(p) && |xs| < p.maxRun
    ensures var s := After(p, xs); |s.probabilities| == |xs| + 1 && NextLength(s, p) == |xs| + 2
  {
    hide After, IsLaw, Divisible, Started;
  }

  lemma NothingObserved(p: ChangePolicy)
    requires Valid(p)
    ensures After(p, []).probabilities == [1.0]
    ensures Times(Evidence(p, []), 1.0) == Times(Power(1.0 - p.hazard, 0), MarginalOf([]))
  {
    assert Power(1.0 - p.hazard, 0) == 1.0 && Factorial(0) == 1.0 && Factorial(1) == 1.0;
  }

  lemma RecentIsAll(xs: seq<bool>)
    ensures Recent(xs, |xs|) == xs
  {
  }

  lemma GrowUnbroken(e: real, q: real, h: real, predicted: real, power: real, m: real)
    requires Times(e, q) == Times(power, m)
    ensures Times(e, GrowthMass(q, h, predicted)) == Times(Times(1.0 - h, power), Times(m, predicted))
  {
    assert e * (q * (1.0 - h) * predicted) == (e * q) * ((1.0 - h) * predicted);
    assert (power * m) * ((1.0 - h) * predicted) == ((1.0 - h) * power) * (m * predicted);
  }

  /** The regime's mass after one more outcome, in terms of the shorter history. */
  lemma RegimeMassGrows(p: ChangePolicy, xs: seq<bool>, i: nat)
    requires Valid(p) && 0 < i < |xs|
    ensures var init, x := xs[..|xs| - 1], xs[|xs| - 1];
      && RegimeMass(p, init, i - 1)
         == Joint(Evidence(p, xs[..|xs| - 1 - i]), Times(p.hazard, Power(1.0 - p.hazard, i - 1)), MarginalOf(init[|init| - i..]))
      && RegimeMass(p, xs, i)
         == Joint(Evidence(p, xs[..|xs| - 1 - i]), Times(p.hazard, Times(1.0 - p.hazard, Power(1.0 - p.hazard, i - 1))),
                  MarginalOf(init[|init| - i..] + [x]))
  {
    hide Joint, Evidence, MarginalOf, Power, Times, Valid;
    var init, x := xs[..|xs| - 1], xs[|xs| - 1];
    assert init[..|init| - 1 - (i - 1)] == xs[..|xs| - 1 - i];
    assert init[|init| - 1 - (i - 1)..] == init[|init| - i..];
    assert xs[|xs| - 1 - i..] == init[|init| - i..] + [x];
    PowerStep(1.0 - p.hazard, i);
  }

  lemma PowerStep(x: real, i: nat)
    requires i > 0
    ensures Power(x, i) == Times(x, Power(x, i - 1))
  {
  }

  lemma GrowMass(e: real, q: real, h: real, predicted: real, e0: real, power: real, m: real)
    requires Times(e, q) == Joint(e0, Times(h, power), m)
    ensures Times(e, GrowthMass(q, h, predicted)) == Joint(e0, Times(h, Times(1.0 - h, power)), Times(m, predicted))
  {
    assert e * (q * (1.0 - h) * predicted) == (e * q) * ((1.0 - h) * predicted);
    assert (e0 * (h * power) * m) * ((1.0 - h) * predicted) == e0 * (h * ((1.0 - h) * power)) * (m * predicted);
  }

  /** A run's prediction is the ratio of successive marginal likelihoods. */
  lemma PredictedFromCounts(p: ChangePolicy, xs: seq<bool>, i: nat, x: bool)
    requires Valid(p) && i < |After(p, xs).alpha|
    ensures var s, r := After(p, xs), Recent(xs, i);
      && Aligned(s) && Divisible(s)
      && Times(MarginalOf(r), Predicted(s, i, x)) == MarginalOf(r + [x])
  {
    hide *;
    var s, r := After(p, xs), Recent(xs, i);
    AfterAligned(p, xs);
    EvidenceIsRecentCounts(p, xs, i);
    SuccessesAtMost(r);
    FractionOf(s, i, x, r);
    MarginalRatio(r, x);
  }

  lemma RecentIs(xs: seq<bool>, i: nat)
    requires i < |xs|
    ensures Recent(xs, i) == xs[|xs| - 1 - i..]
  {
  }

  lemma MarginalRatio(r: seq<bool>, x: bool)
    ensures Successes(r) <= |r|
    ensures MarginalOf(r + [x])
         == Times(MarginalOf(r), Ratio(if x then Successes(r) + 1 else |r| - Successes(r) + 1, |r| + 2))
  {
    SuccessesAtMost(r);
    SuccessesAppend(r, x);
    hide Marginal, Times, Successes, Ratio;
    MarginalStep(Successes(r), |r| - Successes(r));
  }

  lemma SuccessesAppend(r: seq<bool>, x: bool)
    ensures Successes(r + [x]) == Successes(r) + (if x then 1 else 0)
  {
    assert (r + [x])[..|r|] == r;
  }

  lemma FractionOf(s: State, i: nat, x: bool, r: seq<bool>)
    requires Aligned(s) && Divisible(s) && i < |s.alpha| && Successes(r) <= |r|
    requires Counted(s.alpha[i], s.beta[i], r)
    ensures s.alpha[i] + s.beta[i] != 0.0
    ensures Predicted(s, i, x) == Ratio(if x then Successes(r) + 1 else |r| - Successes(r) + 1, |r| + 2)
  {
    hide Successes;
  }

  lemma FirstMass(e: real, h: real, m: real)
    requires m == 0.5
    ensures Times(e, h * 0.5) == Joint(e, Times(h, Power(1.0 - h, 0)), m)
  {
    assert Power(1.0 - h, 0) == 1.0;
  }

  lemma SingleMarginal(x: bool)
    ensures MarginalOf([x]) == 0.5
  {
    assert [x][..0] == [];
    assert Factorial(0) == 1.0 && Factorial(1) == 1.0 && Factorial(2) == 2.0;
  }
}

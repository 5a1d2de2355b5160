/** What the capped changepoint filter computes (internal/bayes/changepoint.go), said without the filter: sums over
    every sequence of "change" and "no change" choices.

    A sequence gives each outcome a 1 when a new regime begins with it and a 0 otherwise. */
module ChangeModel {
  import opened Prelude
  import opened RealSums
  import opened RunLength
  import FixedShare

  const CHANGE: nat := 1

  // ---- the model: hazard, and a uniformly unknown rate per regime ----

  /** How many of the outcomes belong to the current regime. */
  function Since(cs: seq<nat>): (k: nat)
    ensures k <= |cs| && (cs != [] ==> k > 0)
  {
    if cs == [] then 0 else if cs[|cs| - 1] == CHANGE then 1 else Since(cs[..|cs| - 1]) + 1
  }

  /** The joint probability of the choices and the outcomes: regime by regime, the prior of its choices times the
      marginal likelihood of its outcomes. */
  function TrueMass(h: real, xs: seq<bool>, cs: seq<nat>): real
    requires |xs| == |cs|
    decreases |cs|
  {
    var k := Since(cs);
    var before := |cs| - k;
    if before == 0 && (cs == [] || cs[0] != CHANGE) then Times(Power(1.0 - h, k), MarginalOf(xs))
    else Times(TrueMass(h, xs[..before], cs[..before]),
               Times(Times(h, Power(1.0 - h, k - 1)), MarginalOf(xs[before..])))
  }

  // ---- the same, outcome by outcome, with a memory of at most `memory` outcomes ----

  function Latest(xs: seq<bool>, k: nat): seq<bool> { if k <= |xs| then xs[|xs| - k..] else xs }

  /** Rule of succession: the next outcome's probability given those of the regime. */
  function Succession(r: seq<bool>, x: bool): real {
    SuccessesAtMost(r);
    Ratio(if x then Successes(r) + 1 else |r| - Successes(r) + 1, |r| + 2)
  }

  function Factor(h: real, memory: nat, past: seq<bool>, cs: seq<nat>, choice: nat, x: bool): real {
    if choice == CHANGE then h * 0.5 else Times(1.0 - h, Succession(Latest(past, MinInt(Since(cs), memory)), x))
  }

  function PathMass(h: real, memory: nat, xs: seq<bool>, cs: seq<nat>): real
    requires |xs| == |cs|
    decreases |cs|
  {
    if cs == [] then 1.0
    else
      var n := |cs| - 1;
      Times(PathMass(h, memory, xs[..n], cs[..n]), Factor(h, memory, xs[..n], cs[..n], cs[n], xs[n]))
  }

  /** No regime has begun since the first outcome. */
  predicate Unbroken(cs: seq<nat>) { Since(cs) == |cs| && (cs == [] || cs[0] != CHANGE) }

  /** Probability of the choices of one regime of `k` outcomes, begun by a change or by the first outcome. */
  function Prior(h: real, begun: bool, k: nat): real
    requires begun ==> k > 0
  {
    if begun then Times(h, Power(1.0 - h, k - 1)) else Power(1.0 - h, k)
  }

  /** What a regime contributes: the prior of its choices and the marginal likelihood of its outcomes. */
  function RegimeFactor(h: real, begun: bool, r: seq<bool>): real
    requires begun ==> r != []
  {
    Times(Prior(h, begun, |r|), MarginalOf(r))
  }

  lemma TrueMassUnfolds(h: real, xs: seq<bool>, cs: seq<nat>)
    requires |xs| == |cs|
    ensures var before := |cs| - Since(cs);
      TrueMass(h, xs, cs) == if Unbroken(cs) then RegimeFactor(h, false, xs)
                             else Times(TrueMass(h, xs[..before], cs[..before]), RegimeFactor(h, true, xs[before..]))
  {
    hide MarginalOf, Times;
    if !Unbroken(cs) { assert cs != []; }
  }

  lemma SinceNext(cs: seq<nat>, choice: nat)
    ensures Since(cs + [choice]) == if choice == CHANGE then 1 else Since(cs) + 1
    ensures Unbroken(cs + [choice]) <==> Unbroken(cs) && choice != CHANGE
  {
    assert (cs + [choice])[..|cs|] == cs;
  }

  /** One more outcome of the regime, or the first of the next. */
  lemma RegimeFactorNext(h: real, begun: bool, r: seq<bool>, x: bool)
    requires begun ==> r != []
    ensures RegimeFactor(h, begun, r + [x]) == Times(RegimeFactor(h, begun, r), Times(1.0 - h, Succession(r, x)))
  {
    hide MarginalOf, Prior, Times, Ratio;
    MarginalRatio(r, x);
    PriorNext(h, begun, |r|);
    Regroup(Prior(h, begun, |r|), MarginalOf(r), 1.0 - h, Succession(r, x));
  }

  lemma RegimeFactorBegins(h: real, x: bool)
    ensures RegimeFactor(h, true, [x]) == h * 0.5
  {
    SingleMarginal(x);
    hide MarginalOf;
  }

  lemma PriorNext(h: real, begun: bool, k: nat)
    requires begun ==> k > 0
    ensures Prior(h, begun, k + 1) == Times(Prior(h, begun, k), 1.0 - h)
  {
  }

  lemma Regroup(prior: real, likelihood: real, stay: real, next: real)
    ensures Times(Times(prior, stay), Times(likelihood, next)) == Times(Times(prior, likelihood), Times(stay, next))
  {
  }

  lemma Nest(m: real, f: real, g: real)
    ensures Times(m, Times(f, g)) == Times(Times(m, f), g)
  {
  }

  lemma TrueMassNext(h: real, xs: seq<bool>, cs: seq<nat>, x: bool, choice: nat)
    requires |xs| == |cs|
    ensures TrueMass(h, xs + [x], cs + [choice])
         == Times(TrueMass(h, xs, cs), Factor(h, |xs|, xs, cs, choice, x))
  {
    hide TrueMass, Times, RegimeFactor, Since, Succession;
    var ys, ds := xs + [x], cs + [choice];
    var k := Since(cs);
    var before := |cs| - k;
    SinceNext(cs, choice);
    TrueMassUnfolds(h, xs, cs);
    TrueMassUnfolds(h, ys, ds);
    if choice == CHANGE {
      assert ds[..|cs|] == cs && ys[..|cs|] == xs && ys[|cs|..] == [x];
      RegimeFactorBegins(h, x);
    } else {
      var r := xs[before..];
      assert ys[..before] == xs[..before] && ds[..before] == cs[..before] && ys[before..] == r + [x];
      assert Latest(xs, MinInt(k, |xs|)) == r;
      if Unbroken(cs) {
        assert r == xs;
        RegimeFactorNext(h, false, xs, x);
      } else {
        RegimeFactorNext(h, true, r, x);
        Nest(TrueMass(h, xs[..before], cs[..before]), RegimeFactor(h, true, r), Times(1.0 - h, Succession(r, x)));
      }
    }
  }

  /** A memory long enough for every regime forgets nothing: the outcome-by-outcome mass is the true one. */
  lemma {:induction false} LongMemoryIsTrue(h: real, memory: nat, xs: seq<bool>, cs: seq<nat>)
    requires |xs| == |cs| && |xs| <= memory + 1
    ensures PathMass(h, memory, xs, cs) == TrueMass(h, xs, cs)
    decreases |cs|
  {
    hide *;
    if cs == [] {
      NoOutcomes(h, memory, xs, cs);
    } else {
      var n := |cs| - 1;
      LongMemoryIsTrue(h, memory, xs[..n], cs[..n]);
      TrueMassNext(h, xs[..n], cs[..n], xs[n], cs[n]);
      assert xs[..n] + [xs[n]] == xs && cs[..n] + [cs[n]] == cs;
      EnoughMemory(h, memory, xs[..n], cs[..n], cs[n], xs[n]);
      PathMassUnfolds(h, memory, xs, cs);
    }
  }

  lemma PathMassUnfolds(h: real, memory: nat, xs: seq<bool>, cs: seq<nat>)
    requires |xs| == |cs| > 0
    ensures var n := |cs| - 1;
      PathMass(h, memory, xs, cs)
        == Times(PathMass(h, memory, xs[..n], cs[..n]), Factor(h, memory, xs[..n], cs[..n], cs[n], xs[n]))
  {
    hide Factor, Times;
  }

  lemma EnoughMemory(h: real, memory: nat, past: seq<bool>, cs: seq<nat>, choice: nat, x: bool)
    requires |past| == |cs| <= memory
    ensures Factor(h, memory, past, cs, choice, x) == Factor(h, |past|, past, cs, choice, x)
  {
    hide Succession, Times;
  }

  lemma NoOutcomes(h: real, memory: nat, xs: seq<bool>, cs: seq<nat>)
    requires xs == [] && cs == []
    ensures PathMass(h, memory, xs, cs) == TrueMass(h, xs, cs) == 1.0
  {
  }

  // ---- sums over every sequence of choices ----

  type Choices = seq<nat>

  function Total(ps: seq<Choices>, m: Choices -> real): real {
    if ps == [] then 0.0 else Total(ps[..|ps| - 1], m) + m(ps[|ps| - 1])
  }

  lemma {:induction false} TotalEqual(ps: seq<Choices>, f: Choices -> real, g: Choices -> real)
    requires forall i :: 0 <= i < |ps| ==> f(ps[i]) == g(ps[i])
    ensures Total(ps, f) == Total(ps, g)
    decreases |ps|
  {
    if ps != [] { TotalEqual(ps[..|ps| - 1], f, g); }
  }

  lemma {:induction false} TotalAtMost(ps: seq<Choices>, f: Choices -> real, g: Choices -> real, k: nat)
    requires forall i :: 0 <= i < |ps| ==> f(ps[i]) <= g(ps[i])
    ensures Total(ps, f) <= Total(ps, g)
    ensures k < |ps| && f(ps[k]) < g(ps[k]) ==> Total(ps, f) < Total(ps, g)
    decreases |ps|
  {
    if ps != [] { TotalAtMost(ps[..|ps| - 1], f, g, k); }
  }

  lemma {:induction false} TotalConcat(ps: seq<Choices>, qs: seq<Choices>, m: Choices -> real)
    ensures Total(ps + qs, m) == Total(ps, m) + Total(qs, m)
    decreases |qs|
  {
    if qs == [] {
      assert ps + qs == ps;
    } else {
      var n := |qs| - 1;
      TotalConcat(ps, qs[..n], m);
      assert (ps + qs)[..|ps| + n] == ps + qs[..n];
    }
  }

  lemma {:induction false} TotalProlonged(ps: seq<Choices>, j: nat, m: Choices -> real)
    ensures Total(FixedShare.Prolonged(ps, j), m) == Total(ps, (cs: Choices) => m(cs + [j]))
    decreases |ps|
  {
    if ps != [] {
      var n := |ps| - 1;
      TotalProlonged(ps[..n], j, m);
      var qs := FixedShare.Prolonged(ps, j);
      assert qs[..n] == FixedShare.Prolonged(ps[..n], j) && qs[n] == ps[n] + [j];
    }
  }

  lemma {:induction false} TotalAdds(ps: seq<Choices>, f: Choices -> real, g: Choices -> real, sum: Choices -> real)
    requires forall i :: 0 <= i < |ps| ==> sum(ps[i]) == f(ps[i]) + g(ps[i])
    ensures Total(ps, sum) == Total(ps, f) + Total(ps, g)
    decreases |ps|
  {
    if ps != [] { TotalAdds(ps[..|ps| - 1], f, g, sum); }
  }

  /** One more outcome: every sequence continues in both ways. */
  lemma TotalNext(n: nat, m: Choices -> real, next: Choices -> real)
    requires forall cs: Choices :: FixedShare.IsPath(2, n, cs) ==> next(cs) == m(cs + [0]) + m(cs + [CHANGE])
    ensures Total(FixedShare.AllPaths(2, n + 1), m) == Total(FixedShare.AllPaths(2, n), next)
  {
    var ps := FixedShare.AllPaths(2, n);
    var stay, change := FixedShare.Prolonged(ps, 0), FixedShare.Prolonged(ps, 1);
    BothWays(ps);
    TotalConcat(stay, change, m);
    TotalProlonged(ps, 0, m);
    TotalProlonged(ps, 1, m);
    forall i | 0 <= i < |ps| ensures FixedShare.IsPath(2, n, ps[i]) {
      assert ps[i] in ps;
      FixedShare.AllPathsComplete(2, n, ps[i]);
    }
    hide Total;
    TotalAdds(ps, (cs: Choices) => m(cs + [0]), (cs: Choices) => m(cs + [1]), next);
  }

  lemma BothWays(ps: seq<Choices>)
    ensures FixedShare.ProlongedBelow(ps, 2) == FixedShare.Prolonged(ps, 0) + FixedShare.Prolonged(ps, 1)
  {
    assert FixedShare.ProlongedBelow(ps, 1) == FixedShare.ProlongedBelow(ps, 0) + FixedShare.Prolonged(ps, 0);
  }

  // ---- the run-length class a sequence of choices ends in ----

  function Class(cs: Choices, maxRun: nat): (i: nat)
    ensures i <= maxRun && i <= |cs|
  {
    if cs == [] || cs[|cs| - 1] == CHANGE then 0 else MinInt(Class(cs[..|cs| - 1], maxRun) + 1, maxRun)
  }

  lemma ClassNext(cs: Choices, maxRun: nat)
    ensures Class(cs + [0], maxRun) == MinInt(Class(cs, maxRun) + 1, maxRun) && Class(cs + [CHANGE], maxRun) == 0
  {
    assert (cs + [0])[..|cs|] == cs && (cs + [CHANGE])[..|cs|] == cs;
  }

  /** The class determines which outcomes are remembered: the last `maxRun + 1` of the regime. */
  lemma {:induction false} ClassIsMemory(cs: Choices, maxRun: nat)
    ensures MinInt(Since(cs), maxRun + 1) == MinInt(Class(cs, maxRun) + 1, |cs|)
    decreases |cs|
  {
    if cs != [] { ClassIsMemory(cs[..|cs| - 1], maxRun); }
  }

  /** A run length's stored evidence predicts as the regime's remembered outcomes do. */
  lemma PredictionIsSuccession(p: ChangePolicy, xs: seq<bool>, cs: Choices, x: bool)
    requires Valid(p) && |cs| == |xs|
    ensures var s, i := After(p, xs), Class(cs, p.maxRun);
      && i < |s.alpha| == |s.beta| && s.alpha[i] + s.beta[i] != 0.0
      && Predicted(s, i, x) == Succession(Latest(xs, MinInt(Since(cs), p.maxRun + 1)), x)
  {
    hide *;
    ValidCore(p);
    var s, i := After(p, xs), Class(cs, p.maxRun);
    LatestIsRecent(xs, cs, p.maxRun);
    IndexExists(p, xs, i);
    AfterAligned(p, xs);
    EvidenceIsRecentCounts(p, xs, i);
    SuccessesAtMost(Recent(xs, i));
    FractionOf(s, i, x, Recent(xs, i));
    SuccessionIsRatio(Recent(xs, i), x);
  }

  lemma LatestIsRecent(xs: seq<bool>, cs: Choices, maxRun: nat)
    requires |cs| == |xs|
    ensures Latest(xs, MinInt(Since(cs), maxRun + 1)) == Recent(xs, Class(cs, maxRun))
  {
    ClassIsMemory(cs, maxRun);
    hide Since, Class;
  }

  lemma SuccessionIsRatio(r: seq<bool>, x: bool)
    ensures Successes(r) <= |r|
    ensures Succession(r, x) == Ratio(if x then Successes(r) + 1 else |r| - Successes(r) + 1, |r| + 2)
  {
    SuccessesAtMost(r);
  }

  // ---- from class masses to class masses ----

  /** The mass of a sequence, limited to a memory of `memory` outcomes. */
  function Masses(h: real, memory: nat, xs: seq<bool>): Choices -> real {
    (cs: Choices) => if |cs| == |xs| then PathMass(h, memory, xs, cs) else 0.0
  }

  /** The same, counted for one class only. */
  function Ending(m: Choices -> real, maxRun: nat, i: nat): Choices -> real {
    (cs: Choices) => if Class(cs, maxRun) == i then m(cs) else 0.0
  }

  function Weighed(m: Choices -> real, maxRun: nat, t: seq<real>): Choices -> real {
    (cs: Choices) => if Class(cs, maxRun) < |t| then Times(m(cs), t[Class(cs, maxRun)]) else 0.0
  }

  lemma {:induction false} DotSet(u: seq<real>, t: seq<real>, i: nat, d: real)
    requires |u| == |t| && i < |u|
    ensures Dot(u[i := u[i] + d], t) == Dot(u, t) + Times(d, t[i])
    decreases |u|
  {
    var n, v := |u| - 1, u[i := u[i] + d];
    if i < n {
      DotSet(u[..n], t[..n], i, d);
      assert v[..n] == u[..n][i := u[i] + d];
    } else {
      assert v[..n] == u[..n];
    }
  }

  lemma {:induction false} DotNothing(u: seq<real>, t: seq<real>)
    requires |u| == |t| && forall i :: 0 <= i < |u| ==> u[i] == 0.0
    ensures Dot(u, t) == 0.0
    decreases |u|
  {
    if u != [] { DotNothing(u[..|u| - 1], t[..|t| - 1]); }
  }

  function EndMasses(ps: seq<Choices>, m: Choices -> real, maxRun: nat, n: nat): (e: seq<real>)
    ensures |e| == n && forall i :: 0 <= i < n ==> e[i] == Total(ps, Ending(m, maxRun, i))
  {
    seq(n, i requires 0 <= i < n => Total(ps, Ending(m, maxRun, i)))
  }

  /** Weighing sequences by their class is weighing the class masses. */
  lemma {:induction false} WeighedIsDot(ps: seq<Choices>, m: Choices -> real, maxRun: nat, t: seq<real>)
    requires forall i :: 0 <= i < |ps| ==> Class(ps[i], maxRun) < |t|
    ensures Total(ps, Weighed(m, maxRun, t)) == Dot(EndMasses(ps, m, maxRun, |t|), t)
    decreases |ps|
  {
    var ends := EndMasses(ps, m, maxRun, |t|);
    if ps == [] {
      DotNothing(ends, t);
    } else {
      var init, q := ps[..|ps| - 1], ps[|ps| - 1];
      WeighedIsDot(init, m, maxRun, t);
      var before, c := EndMasses(init, m, maxRun, |t|), Class(q, maxRun);
      hide Class, Dot, Times;
      DotSet(before, t, c, m(q));
      forall i | 0 <= i < |t| ensures ends[i] == before[c := before[c] + m(q)][i] {}
      assert ends == before[c := before[c] + m(q)];
    }
  }

  // ---- one step of the filter ----

  /** What each run length sends to class `j`. */
  ghost function Column(s: State, p: ChangePolicy, x: bool, j: nat): (t: seq<real>)
    requires Aligned(s) && Divisible(s)
    ensures |t| == |s.probabilities|
  {
    seq(|s.probabilities|, i requires 0 <= i < |s.probabilities| => Sent(s, p, x, i, j))
  }

  ghost function Sent(s: State, p: ChangePolicy, x: bool, i: nat, j: nat): real
    requires Aligned(s) && Divisible(s) && i < |s.probabilities|
  {
    if j == 0 then p.hazard * 0.5
    else if MinInt(i + 1, p.maxRun) == j then Times(1.0 - p.hazard, Predicted(s, i, x))
    else 0.0
  }

  lemma SentIsMass(q: real, h: real, predicted: real)
    ensures Times(q, h * 0.5) == ChangeMass(q, h)
    ensures Times(q, Times(1.0 - h, predicted)) == GrowthMass(q, h, predicted)
  {
  }

  /** The unnormalised law is the law times the transition, column by column. */
  lemma {:induction false} RawIsDot(s: State, p: ChangePolicy, x: bool, k: nat, j: nat)
    requires p.maxRun > 1 && Aligned(s) && Divisible(s) && |s.probabilities| <= p.maxRun + 1
    requires k <= |s.probabilities| && j < NextLength(s, p)
    ensures Raw(s, p, x, k)[j] == Dot(s.probabilities[..k], Column(s, p, x, j)[..k])
  {
    hide Raw, Moved, Predicted, ChangeMass, GrowthMass, Dot, Times;
    RawUnfolds(s, p, x, k);
    if k == 0 {
      DotNothing(s.probabilities[..0], Column(s, p, x, j)[..0]);
    } else {
      RawIsDot(s, p, x, k - 1, j);
      DotStep(s.probabilities, Column(s, p, x, j), k - 1);
      SentIsMass(s.probabilities[k - 1], p.hazard, Predicted(s, k - 1, x));
      MovedAt(Raw(s, p, x, k - 1), s, p, x, k - 1, j);
      TimesZero(s.probabilities[k - 1]);
    }
  }

  lemma TimesZero(q: real)
    ensures Times(q, 0.0) == 0.0
  {
  }

  lemma MovedAt(m: seq<real>, s: State, p: ChangePolicy, x: bool, i: nat, j: nat)
    requires p.maxRun > 1 && Aligned(s) && Divisible(s) && |s.probabilities| <= p.maxRun + 1 && i < |s.probabilities|
    requires |m| == NextLength(s, p) && j < |m|
    ensures Moved(m, s, p, x, i)[j] == m[j] +
      (if j == 0 then ChangeMass(s.probabilities[i], p.hazard)
       else if MinInt(i + 1, p.maxRun) == j then GrowthMass(s.probabilities[i], p.hazard, Predicted(s, i, x)) else 0.0)
  {
    hide ChangeMass, GrowthMass, Predicted;
  }

  /** Continuing a sequence both ways sends its mass on as its class does. */
  lemma NextMass(p: ChangePolicy, xs: seq<bool>, x: bool, j: nat, cs: Choices)
    requires Valid(p) && p.maxRun > 1 && |cs| == |xs|
    ensures Aligned(After(p, xs)) && Divisible(After(p, xs)) && Class(cs, p.maxRun) < |After(p, xs).probabilities|
    ensures var m := Ending(Masses(p.hazard, p.maxRun + 1, xs + [x]), p.maxRun, j);
      m(cs + [0]) + m(cs + [CHANGE])
        == Times(PathMass(p.hazard, p.maxRun + 1, xs, cs), Sent(After(p, xs), p, x, Class(cs, p.maxRun), j))
  {
    hide After, Valid, Since, Class, Times, Predicted, PathMass, Succession, Latest, Aligned, Divisible;
    var h, memory, s := p.hazard, p.maxRun + 1, After(p, xs);
    AfterAligned(p, xs);
    IndexExists(p, xs, Class(cs, p.maxRun));
    PredictionIsSuccession(p, xs, cs, x);
    ClassNext(cs, p.maxRun);
    PathMassAppend(h, memory, xs, cs, x, 0);
    PathMassAppend(h, memory, xs, cs, x, CHANGE);
    TimesZero(PathMass(h, memory, xs, cs));
  }

  lemma PathMassAppend(h: real, memory: nat, xs: seq<bool>, cs: Choices, x: bool, choice: nat)
    requires |xs| == |cs|
    ensures PathMass(h, memory, xs + [x], cs + [choice])
         == Times(PathMass(h, memory, xs, cs), Factor(h, memory, xs, cs, choice, x))
  {
    var ys, ds := xs + [x], cs + [choice];
    assert ys[..|xs|] == xs && ds[..|cs|] == cs;
    PathMassUnfolds(h, memory, ys, ds);
    hide PathMass, Factor, Times;
  }

  // ---- the filter, for every run ----

  /** Evidence is the total over all sequences of choices, and evidence times a posterior entry the total over those
      that end in its class, when predictions remember the last `maxRun + 1` outcomes of a regime. */
  ghost predicate ClassesExact(p: ChangePolicy, xs: seq<bool>)
    requires Valid(p)
  {
    var s, ps := After(p, xs), FixedShare.AllPaths(2, |xs|);
    var m := Masses(p.hazard, p.maxRun + 1, xs);
    forall i :: 0 <= i < |s.probabilities| ==>
      Times(Evidence(p, xs), s.probabilities[i]) == Total(ps, Ending(m, p.maxRun, i))
  }

  ghost predicate WholeExact(p: ChangePolicy, xs: seq<bool>)
    requires Valid(p)
  {
    Evidence(p, xs) == Total(FixedShare.AllPaths(2, |xs|), Masses(p.hazard, p.maxRun + 1, xs))
  }

  /** THE FILTER WITH A CAP. In every run, however long, the capped filter is exact Bayesian inference over all sequences
      of changes in the model whose predictions remember the last `maxRun + 1` outcomes of the current regime. */
  lemma {:induction false} FilterIsExact(p: ChangePolicy, xs: seq<bool>)
    requires Valid(p)
    ensures ClassesExact(p, xs) && WholeExact(p, xs)
    decreases |xs|
  {
    if xs == [] {
      ExactAtFirst(p);
    } else {
      hide *;
      var n := |xs| - 1;
      FilterIsExact(p, xs[..n]);
      ClassesNext(p, xs[..n], xs[n]);
      assert xs[..n] + [xs[n]] == xs;
      WholeFromClasses(p, xs);
    }
  }

  lemma ExactAtFirst(p: ChangePolicy)
    requires Valid(p)
    ensures ClassesExact(p, []) && WholeExact(p, [])
  {
    hide Valid, After, Evidence, Times, Masses, Ending, Total;
    NothingObserved(p);
    EvidenceOfNothing(p);
    var m := Masses(p.hazard, p.maxRun + 1, []);
    TotalOfOne(m, p.maxRun);
    MassOfNothing(p.hazard, p.maxRun + 1);
    TimesOne(1.0);
  }

  lemma EvidenceOfNothing(p: ChangePolicy)
    requires Valid(p)
    ensures Evidence(p, []) == 1.0
  {
    hide Valid, After;
  }

  lemma TotalOfOne(m: Choices -> real, maxRun: nat)
    ensures Total(FixedShare.AllPaths(2, 0), m) == m([])
    ensures Total(FixedShare.AllPaths(2, 0), Ending(m, maxRun, 0)) == m([])
  {
    var ps: seq<Choices> := [[]];
    assert FixedShare.AllPaths(2, 0) == ps && ps[..0] == [];
  }

  lemma MassOfNothing(h: real, memory: nat)
    ensures Masses(h, memory, [])([]) == 1.0
  {
  }

  /** The entry of one class after one more outcome. */
  lemma ClassNextTotal(p: ChangePolicy, xs: seq<bool>, x: bool, j: nat)
    requires Valid(p) && ClassesExact(p, xs) && j < |After(p, xs + [x]).probabilities|
    ensures Times(Evidence(p, xs + [x]), After(p, xs + [x]).probabilities[j])
         == Total(FixedShare.AllPaths(2, |xs| + 1), Ending(Masses(p.hazard, p.maxRun + 1, xs + [x]), p.maxRun, j))
  {
    hide *;
    ValidCore(p);
    var s, n, ps := After(p, xs), |xs|, FixedShare.AllPaths(2, |xs|);
    var m, next := Masses(p.hazard, p.maxRun + 1, xs), Ending(Masses(p.hazard, p.maxRun + 1, xs + [x]), p.maxRun, j);
    assert (xs + [x])[..n] == xs;
    UnnormalisedAt(p, xs + [x], j);
    AfterAligned(p, xs);
    AfterLength(p, xs);
    var t := Column(s, p, x, j);
    RawIsDot(s, p, x, |s.probabilities|, j);
    assert s.probabilities[..|s.probabilities|] == s.probabilities && t[..|s.probabilities|] == t;
    forall cs: Choices | FixedShare.IsPath(2, n, cs) ensures Weighed(m, p.maxRun, t)(cs) == next(cs + [0]) + next(cs + [CHANGE]) {
      PathLength(2, n, cs);
      NextMass(p, xs, x, j, cs);
      ColumnAt(s, p, x, j, Class(cs, p.maxRun));
      WeighedAt(p.hazard, p.maxRun, xs, t, cs);
    }
    TotalNext(n, next, Weighed(m, p.maxRun, t));
    forall i | 0 <= i < |ps| ensures Class(ps[i], p.maxRun) < |t| {
      PathInRange(2, n, i);
      IndexExists(p, xs, Class(ps[i], p.maxRun));
    }
    WeighedIsDot(ps, m, p.maxRun, t);
    ScaledEnds(p, xs);
    DotScaled(Evidence(p, xs), s.probabilities, EndMasses(ps, m, p.maxRun, |t|), t);
  }

  lemma AfterLength(p: ChangePolicy, xs: seq<bool>)
    requires Valid(p)
    ensures |After(p, xs).probabilities| <= p.maxRun + 1
  {
  }

  lemma PathLength(n: nat, length: nat, cs: Choices)
    requires FixedShare.IsPath(n, length, cs)
    ensures |cs| == length
  {
  }

  lemma PathInRange(n: nat, length: nat, i: nat)
    requires i < |FixedShare.AllPaths(n, length)|
    ensures |FixedShare.AllPaths(n, length)[i]| == length
  {
    var ps := FixedShare.AllPaths(n, length);
    assert ps[i] in ps;
    FixedShare.AllPathsComplete(n, length, ps[i]);
  }

  lemma ColumnAt(s: State, p: ChangePolicy, x: bool, j: nat, i: nat)
    requires Aligned(s) && Divisible(s) && i < |s.probabilities|
    ensures Column(s, p, x, j)[i] == Sent(s, p, x, i, j)
  {
  }

  lemma WeighedAt(h: real, maxRun: nat, xs: seq<bool>, t: seq<real>, cs: Choices)
    requires |cs| == |xs| && Class(cs, maxRun) < |t|
    ensures Weighed(Masses(h, maxRun + 1, xs), maxRun, t)(cs)
         == Times(PathMass(h, maxRun + 1, xs, cs), t[Class(cs, maxRun)])
  {
    hide PathMass, Class, Times;
  }

  lemma ScaledEnds(p: ChangePolicy, xs: seq<bool>)
    requires Valid(p) && ClassesExact(p, xs)
    ensures var s, m := After(p, xs), Masses(p.hazard, p.maxRun + 1, xs);
      var ends := EndMasses(FixedShare.AllPaths(2, |xs|), m, p.maxRun, |s.probabilities|);
      forall i :: 0 <= i < |ends| ==> ends[i] == Times(Evidence(p, xs), s.probabilities[i])
  {
    hide Valid, After, Evidence, Times, Masses, Ending, Total;
  }

  lemma {:induction false} DotScaled(e: real, u: seq<real>, ends: seq<real>, t: seq<real>)
    requires |u| == |ends| == |t| && forall i :: 0 <= i < |u| ==> ends[i] == Times(e, u[i])
    ensures Dot(ends, t) == Times(e, Dot(u, t))
    decreases |u|
  {
    if u != [] {
      var n := |u| - 1;
      DotScaled(e, u[..n], ends[..n], t[..n]);
    }
  }

  lemma ClassesNext(p: ChangePolicy, xs: seq<bool>, x: bool)
    requires Valid(p) && ClassesExact(p, xs)
    ensures ClassesExact(p, xs + [x])
  {
    hide Valid, After, Evidence, Times, Masses, Ending, Total;
    forall j | 0 <= j < |After(p, xs + [x]).probabilities|
      ensures Times(Evidence(p, xs + [x]), After(p, xs + [x]).probabilities[j])
           == Total(FixedShare.AllPaths(2, |xs| + 1), Ending(Masses(p.hazard, p.maxRun + 1, xs + [x]), p.maxRun, j))
    {
      ClassNextTotal(p, xs, x, j);
    }
  }

  function Ones(n: nat): (t: seq<real>)
    ensures |t| == n && forall i :: 0 <= i < n ==> t[i] == 1.0
  {
    seq(n, _ => 1.0)
  }

  lemma {:induction false} DotOnes(u: seq<real>, t: seq<real>)
    requires |u| == |t| && forall i :: 0 <= i < |u| ==> t[i] == 1.0
    ensures Dot(u, t) == Sum(u)
    decreases |u|
  {
    if u != [] { DotOnes(u[..|u| - 1], t[..|t| - 1]); }
  }

  lemma WholeFromClasses(p: ChangePolicy, xs: seq<bool>)
    requires Valid(p) && ClassesExact(p, xs)
    ensures WholeExact(p, xs)
  {
    hide Valid, After, Evidence, Times, Masses, Ending, Total, ClassesExact, Class, Dot, Sum;
    ValidCore(p);
    var s, n, ps := After(p, xs), |xs|, FixedShare.AllPaths(2, |xs|);
    var m, t := Masses(p.hazard, p.maxRun + 1, xs), Ones(|s.probabilities|);
    forall i | 0 <= i < |ps| ensures Class(ps[i], p.maxRun) < |t| && Weighed(m, p.maxRun, t)(ps[i]) == m(ps[i]) {
      PathInRange(2, n, i);
      IndexExists(p, xs, Class(ps[i], p.maxRun));
      TimesOne(m(ps[i]));
    }
    TotalEqual(ps, Weighed(m, p.maxRun, t), m);
    WeighedIsDot(ps, m, p.maxRun, t);
    ScaledEnds(p, xs);
    DotScaled(Evidence(p, xs), s.probabilities, EndMasses(ps, m, p.maxRun, |t|), t);
    DotOnes(s.probabilities, t);
    LawOfRun(p, xs);
    TimesOne(Evidence(p, xs));
  }

  lemma TimesOne(x: real)
    ensures Times(x, 1.0) == x
  {
  }

  lemma LawOfRun(p: ChangePolicy, xs: seq<bool>)
    requires Valid(p)
    ensures Sum(After(p, xs).probabilities) == 1.0
  {
    GoodLaw(After(p, xs), p);
    WholeMass(After(p, xs).probabilities);
    hide After, Sum;
  }

  // ---- where the cap makes no difference, and where it does ----

  /** The data's probability: the true mass of all sequences of choices. */
  function TrueEvidence(h: real, xs: seq<bool>): real { Total(FixedShare.AllPaths(2, |xs|), TrueMasses(h, xs)) }

  function TrueMasses(h: real, xs: seq<bool>): Choices -> real {
    (cs: Choices) => if |cs| == |xs| then TrueMass(h, xs, cs) else 0.0
  }

  /** EXACT. Up to `maxRun + 2` outcomes the filter is exact inference in the model itself: its evidence is the data's
      probability, and evidence times each posterior entry the joint probability of the data and the class. */
  lemma ExactUpToCap(p: ChangePolicy, xs: seq<bool>, i: nat)
    requires Valid(p) && |xs| <= p.maxRun + 2
    ensures Evidence(p, xs) == TrueEvidence(p.hazard, xs)
    ensures i < |After(p, xs).probabilities| ==>
      Times(Evidence(p, xs), After(p, xs).probabilities[i])
        == Total(FixedShare.AllPaths(2, |xs|), Ending(TrueMasses(p.hazard, xs), p.maxRun, i))
  {
    hide Valid, After, Evidence, Times, Masses, TrueMasses, Total;
    var ps, h := FixedShare.AllPaths(2, |xs|), p.hazard;
    ValidCore(p);
    FilterIsExact(p, xs);
    forall k | 0 <= k < |ps| ensures Masses(h, p.maxRun + 1, xs)(ps[k]) == TrueMasses(h, xs)(ps[k]) {
      PathInRange(2, |xs|, k);
      SameMass(h, p.maxRun + 1, xs, ps[k]);
    }
    TotalEqual(ps, Masses(h, p.maxRun + 1, xs), TrueMasses(h, xs));
    TotalEqual(ps, Ending(Masses(h, p.maxRun + 1, xs), p.maxRun, i), Ending(TrueMasses(h, xs), p.maxRun, i));
  }

  lemma SameMass(h: real, memory: nat, xs: seq<bool>, cs: Choices)
    requires |cs| == |xs| <= memory + 1
    ensures Masses(h, memory, xs)(cs) == TrueMasses(h, xs)(cs)
  {
    LongMemoryIsTrue(h, memory, xs, cs);
    hide PathMass, TrueMass;
  }

  /** The same regime by regime: what came before it, one change, no change since, and its own marginal likelihood. */
  lemma RegimePosteriorIsExact(p: ChangePolicy, xs: seq<bool>, i: nat)
    requires Valid(p) && i < |xs| <= p.maxRun + 2 && i < p.maxRun
    ensures i < |After(p, xs).probabilities|
    ensures Times(TrueEvidence(p.hazard, xs), After(p, xs).probabilities[i])
         == Joint(TrueEvidence(p.hazard, xs[..|xs| - 1 - i]), Times(p.hazard, Power(1.0 - p.hazard, i)),
                  MarginalOf(xs[|xs| - 1 - i..]))
  {
    hide Valid, After, Evidence, TrueEvidence, Times, Joint, Power, MarginalOf;
    RegimeRenewal(p, xs, i);
    ExactUpToCap(p, xs, i);
    ExactUpToCap(p, xs[..|xs| - 1 - i], 0);
  }

  lemma RatioOrder(j: nat, m: nat, k: nat, n: nat)
    requires m > 0 && n > 0 && j * n < k * m
    ensures Ratio(j, m) < Ratio(k, n)
  {
    var u, v := Ratio(j, m), Ratio(k, n);
    assert u * m as real == j as real && v * n as real == k as real;
    if u >= v { Cross(u, v, m as real, n as real); }
  }

  lemma Cross(u: real, v: real, m: real, n: real)
    requires u >= v && m > 0.0 && n > 0.0
    ensures (u * m) * n >= (v * n) * m
  {
  }

  lemma {:induction false} SuccessesFirst(r: seq<bool>)
    requires r != []
    ensures Successes(r) == Successes(r[1..]) + (if r[0] then 1 else 0)
    decreases |r|
  {
    if |r| == 1 {
      assert r[..0] == [] == r[1..];
    } else {
      SuccessesFirst(r[..|r| - 1]);
      assert r[..|r| - 1][1..] == r[1..][..|r| - 2];
    }
  }

  /** Forgetting the oldest outcome lowers the prediction of another like it and raises that of the opposite. */
  lemma ForgettingOldest(r: seq<bool>, x: bool)
    requires r != []
    ensures r[0] == x ==> Succession(r[1..], x) < Succession(r, x)
    ensures r[0] != x ==> Succession(r[1..], x) > Succession(r, x)
  {
    hide Succession, Ratio;
    SuccessesFirst(r);
    SuccessesAtMost(r[1..]);
    SuccessionIsRatio(r, x);
    SuccessionIsRatio(r[1..], x);
    var c: nat := if x then Successes(r[1..]) else |r| - 1 - Successes(r[1..]);
    hide Successes;
    LikeOutcomes(c, |r| - 1);
  }

  /** Rules of succession: `c` of `n` outcomes alike, against one more outcome, alike or not. */
  lemma LikeOutcomes(c: nat, n: nat)
    requires c <= n
    ensures Ratio(c + 1, n + 2) < Ratio(c + 2, n + 3)
    ensures Ratio(c + 1, n + 2) > Ratio(c + 1, n + 3)
  {
    RatioOrder(c + 1, n + 2, c + 2, n + 3);
    RatioOrder(c + 1, n + 3, c + 1, n + 2);
  }

  lemma SuccessionPositive(r: seq<bool>, x: bool)
    ensures 0.0 < Succession(r, x) < 1.0
  {
    SuccessionIsRatio(r, x);
    RatioOrder(0, 1, if x then Successes(r) + 1 else |r| - Successes(r) + 1, |r| + 2);
    RatioOrder(if x then Successes(r) + 1 else |r| - Successes(r) + 1, |r| + 2, 1, 1);
  }

  lemma FactorPositive(h: real, memory: nat, past: seq<bool>, cs: Choices, choice: nat, x: bool)
    requires 0.0 < h < 1.0
    ensures Factor(h, memory, past, cs, choice, x) > 0.0
  {
    var r := Latest(past, MinInt(Since(cs), memory));
    SuccessionPositive(r, x);
    hide Succession, Since;
    TimesPositive(1.0 - h, Succession(r, x));
  }

  lemma TimesPositive(x: real, y: real)
    requires x > 0.0 && y > 0.0
    ensures Times(x, y) > 0.0
  {
  }

  lemma TimesOrder(a: real, b: real, f: real, g: real)
    requires 0.0 < a <= b && 0.0 < f <= g
    ensures 0.0 < Times(a, f) <= Times(b, g) && (f < g ==> Times(a, f) < Times(b, g))
  {
    assert a * f <= b * f <= b * g;
    if f < g { assert b * f < b * g; }
  }

  lemma {:induction false} PathMassPositive(h: real, memory: nat, xs: seq<bool>, cs: Choices)
    requires |xs| == |cs| && 0.0 < h < 1.0
    ensures PathMass(h, memory, xs, cs) > 0.0
    decreases |cs|
  {
    if cs != [] {
      var n := |cs| - 1;
      PathMassUnfolds(h, memory, xs, cs);
      PathMassPositive(h, memory, xs[..n], cs[..n]);
      FactorPositive(h, memory, xs[..n], cs[..n], cs[n], xs[n]);
      TimesPositive(PathMass(h, memory, xs[..n], cs[..n]), Factor(h, memory, xs[..n], cs[..n], cs[n], xs[n]));
      hide Factor, Times, PathMass;
    }
  }

  /** One outcome past the exact range: the last prediction has forgotten the oldest outcome, if the regime is as old. */
  lemma FirstForgetting(h: real, memory: nat, xs: seq<bool>, cs: Choices)
    requires 0.0 < h < 1.0 && |xs| == |cs| == memory + 2 && memory > 0
    ensures var mass, truth := PathMass(h, memory, xs, cs), TrueMass(h, xs, cs);
      && (xs[0] == xs[|xs| - 1] ==> mass <= truth) && (xs[0] != xs[|xs| - 1] ==> mass >= truth)
      && (Since(cs) == |cs| && cs[|cs| - 1] != CHANGE ==> mass != truth)
  {
    var n := |cs| - 1;
    var past, before, x := xs[..n], cs[..n], xs[n];
    LongMemoryIsTrue(h, memory + 1, xs, cs);
    LongMemoryIsTrue(h, memory, past, before);
    LongMemoryIsTrue(h, memory + 1, past, before);
    PathMassPositive(h, memory, past, before);
    PathMassUnfolds(h, memory, xs, cs);
    PathMassUnfolds(h, memory + 1, xs, cs);
    FactorPositive(h, memory, past, before, cs[n], x);
    FactorPositive(h, memory + 1, past, before, cs[n], x);
    ForgettingFactor(h, memory, past, before, cs[n], x);
    SinceUnfolds(cs);
    hide *;
    var m, f, g := PathMass(h, memory, past, before), Factor(h, memory, past, before, cs[n], x),
                   Factor(h, memory + 1, past, before, cs[n], x);
    if f <= g { TimesOrder(m, m, f, g); }
    if f >= g { TimesOrder(m, m, g, f); }
  }

  lemma SinceUnfolds(cs: Choices)
    requires cs != []
    ensures var n := |cs| - 1; Since(cs) == if cs[n] == CHANGE then 1 else Since(cs[..n]) + 1
  {
  }

  lemma ForgettingFactor(h: real, memory: nat, past: seq<bool>, cs: Choices, choice: nat, x: bool)
    requires 0.0 < h < 1.0 && |past| == |cs| == memory + 1 && memory > 0
    ensures var f, g := Factor(h, memory, past, cs, choice, x), Factor(h, memory + 1, past, cs, choice, x);
      if choice == CHANGE || Since(cs) <= memory then f == g else if past[0] == x then f < g else f > g
  {
    hide Since, Succession, Times;
    if choice != CHANGE && Since(cs) > memory {
      assert Latest(past, memory) == past[1..] && Latest(past, memory + 1) == past;
      ForgettingOldest(past, x);
      var r, q := Succession(past[1..], x), Succession(past, x);
      SuccessionPositive(past[1..], x);
      SuccessionPositive(past, x);
      if past[0] == x { TimesOrder(1.0 - h, 1.0 - h, r, q); } else { TimesOrder(1.0 - h, 1.0 - h, q, r); }
    }
  }

  /** The sequence without any change. */
  function Unchanging(n: nat): (cs: Choices)
    ensures |cs| == n && forall i :: 0 <= i < n ==> cs[i] == 0
  {
    seq(n, _ => 0)
  }

  lemma {:induction false} UnchangingIsUnbroken(n: nat)
    ensures Unbroken(Unchanging(n))
  {
    if n > 0 {
      UnchangingIsUnbroken(n - 1);
      assert Unchanging(n)[..n - 1] == Unchanging(n - 1);
    }
  }

  lemma UnchangingListed(n: nat) returns (k: nat)
    ensures k < |FixedShare.AllPaths(2, n)| && FixedShare.AllPaths(2, n)[k] == Unchanging(n)
  {
    FixedShare.AllPathsComplete(2, n, Unchanging(n));
    hide FixedShare.AllPaths;
    k :| k < |FixedShare.AllPaths(2, n)| && FixedShare.AllPaths(2, n)[k] == Unchanging(n);
  }

  lemma MassAt(h: real, memory: nat, xs: seq<bool>, cs: Choices)
    requires |cs| == |xs|
    ensures Masses(h, memory, xs)(cs) == PathMass(h, memory, xs, cs) && TrueMasses(h, xs)(cs) == TrueMass(h, xs, cs)
  {
    hide PathMass, TrueMass;
  }

  /** INEXACT. At `maxRun + 3` outcomes the filter is wrong for every run: too low when the last outcome repeats the
      forgotten first one, else too high. */
  lemma FirstInexactLength(p: ChangePolicy, xs: seq<bool>)
    requires Valid(p) && |xs| == p.maxRun + 3
    ensures xs[0] == xs[|xs| - 1] ==> Evidence(p, xs) < TrueEvidence(p.hazard, xs)
    ensures xs[0] != xs[|xs| - 1] ==> Evidence(p, xs) > TrueEvidence(p.hazard, xs)
  {
    hide Valid, After, Evidence, Times, Masses, TrueMasses, Total, PathMass, TrueMass, Since, FixedShare.AllPaths;
    ValidCore(p);
    var ps, h, memory := FixedShare.AllPaths(2, |xs|), p.hazard, p.maxRun + 1;
    var m, t := Masses(h, memory, xs), TrueMasses(h, xs);
    FilterIsExact(p, xs);
    var k := UnchangingListed(|xs|);
    UnchangingIsUnbroken(|xs|);
    forall i | 0 <= i < |ps|
      ensures if xs[0] == xs[|xs| - 1] then m(ps[i]) <= t(ps[i]) else t(ps[i]) <= m(ps[i])
      ensures i == k ==> m(ps[i]) != t(ps[i])
    {
      PathInRange(2, |xs|, i);
      FirstForgetting(h, memory, xs, ps[i]);
      MassAt(h, memory, xs, ps[i]);
    }
    if xs[0] == xs[|xs| - 1] { TotalAtMost(ps, m, t, k); } else { TotalAtMost(ps, t, m, k); }
  }

  /** Outcomes that never vary. */
  predicate Steady(xs: seq<bool>, x: bool) { forall i :: 0 <= i < |xs| ==> xs[i] == x }

  lemma {:induction false} SteadySuccesses(r: seq<bool>, x: bool)
    requires Steady(r, x)
    ensures Successes(r) == if x then |r| else 0
    decreases |r|
  {
    if r != [] { SteadySuccesses(r[..|r| - 1], x); }
  }

  /** The longer the regime is known to be steady, the surer the prediction. */
  lemma SteadySuccession(r: seq<bool>, q: seq<bool>, x: bool)
    requires Steady(r, x) && Steady(q, x) && |r| <= |q|
    ensures 0.0 < Succession(r, x) <= Succession(q, x)
    ensures |r| < |q| ==> Succession(r, x) < Succession(q, x)
  {
    hide Ratio, Succession;
    SuccessionIsRatio(r, x);
    SuccessionIsRatio(q, x);
    SteadySuccesses(r, x);
    SteadySuccesses(q, x);
    hide Successes;
    SuccessionPositive(r, x);
    if |r| < |q| { SurerOfMore(|r|, |q|); }
  }

  lemma SurerOfMore(n: nat, k: nat)
    requires n < k
    ensures Ratio(n + 1, n + 2) < Ratio(k + 1, k + 2)
  {
    RatioOrder(n + 1, n + 2, k + 1, k + 2);
  }

  lemma SteadyFactor(h: real, memory: nat, longer: nat, past: seq<bool>, cs: Choices, choice: nat, x: bool)
    requires 0.0 < h < 1.0 && |past| == |cs| && memory < longer && Steady(past, x)
    ensures var f, g := Factor(h, memory, past, cs, choice, x), Factor(h, longer, past, cs, choice, x);
      && 0.0 < f <= g && (choice != CHANGE && Since(cs) > memory ==> f < g)
  {
    hide Factor, Latest, Succession, Since, Times, Steady;
    FactorPositive(h, memory, past, cs, choice, x);
    FactorIs(h, memory, past, cs, choice, x);
    FactorIs(h, longer, past, cs, choice, x);
    if choice != CHANGE {
      var j, k := MinInt(Since(cs), memory), MinInt(Since(cs), longer);
      var r, q := Latest(past, j), Latest(past, k);
      LatestSteady(past, j, x);
      LatestSteady(past, k, x);
      SteadySuccession(r, q, x);
      TimesOrder(1.0 - h, 1.0 - h, Succession(r, x), Succession(q, x));
    }
  }

  lemma FactorIs(h: real, memory: nat, past: seq<bool>, cs: Choices, choice: nat, x: bool)
    ensures Factor(h, memory, past, cs, choice, x)
         == if choice == CHANGE then h * 0.5 else Times(1.0 - h, Succession(Latest(past, MinInt(Since(cs), memory)), x))
  {
    hide Since, Succession, Times;
  }

  lemma LatestSteady(past: seq<bool>, k: nat, x: bool)
    requires Steady(past, x)
    ensures Steady(Latest(past, k), x) && |Latest(past, k)| == MinInt(k, |past|)
  {
  }

  /** On a steady run forgetting can only lower a sequence's mass. */
  lemma {:induction false} SteadyMass(h: real, memory: nat, longer: nat, xs: seq<bool>, cs: Choices, x: bool)
    requires 0.0 < h < 1.0 && |xs| == |cs| && memory < longer && Steady(xs, x)
    ensures 0.0 < PathMass(h, memory, xs, cs) <= PathMass(h, longer, xs, cs)
    ensures Unbroken(cs) && |xs| >= memory + 2 ==> PathMass(h, memory, xs, cs) < PathMass(h, longer, xs, cs)
    decreases |cs|
  {
    hide Factor, Times;
    if cs != [] {
      var n := |cs| - 1;
      SteadyMass(h, memory, longer, xs[..n], cs[..n], x);
      SteadyFactor(h, memory, longer, xs[..n], cs[..n], cs[n], x);
      PathMassUnfolds(h, memory, xs, cs);
      PathMassUnfolds(h, longer, xs, cs);
      SinceNext(cs[..n], cs[n]);
      assert cs[..n] + [cs[n]] == cs;
      hide Since, PathMass;
      TimesOrder(PathMass(h, memory, xs[..n], cs[..n]), PathMass(h, longer, xs[..n], cs[..n]),
                 Factor(h, memory, xs[..n], cs[..n], cs[n], xs[n]), Factor(h, longer, xs[..n], cs[..n], cs[n], xs[n]));
    }
  }

  /** Beyond `maxRun + 2` outcomes the filter undervalues every steady run. */
  lemma SteadyIsUndervalued(p: ChangePolicy, xs: seq<bool>, x: bool)
    requires Valid(p) && |xs| >= p.maxRun + 3 && Steady(xs, x)
    ensures Evidence(p, xs) < TrueEvidence(p.hazard, xs)
  {
    hide Valid, After, Evidence, Times, Masses, TrueMasses, Total, PathMass, TrueMass, Since, FixedShare.AllPaths;
    ValidCore(p);
    var ps, h, memory := FixedShare.AllPaths(2, |xs|), p.hazard, p.maxRun + 1;
    var m, t := Masses(h, memory, xs), TrueMasses(h, xs);
    FilterIsExact(p, xs);
    var k := UnchangingListed(|xs|);
    UnchangingIsUnbroken(|xs|);
    forall i | 0 <= i < |ps| ensures m(ps[i]) <= t(ps[i]) && (i == k ==> m(ps[i]) < t(ps[i])) {
      PathInRange(2, |xs|, i);
      SteadyMass(h, memory, |xs|, xs, ps[i], x);
      LongMemoryIsTrue(h, |xs|, xs, ps[i]);
      MassAt(h, memory, xs, ps[i]);
    }
    TotalAtMost(ps, m, t, k);
  }

  /** The filter's evidence is the data's probability for every run of `n` outcomes. */
  ghost predicate ExactAt(p: ChangePolicy, n: nat)
    requires Valid(p)
  {
    forall xs: seq<bool> :: |xs| == n ==> Evidence(p, xs) == TrueEvidence(p.hazard, xs)
  }

  /** The capped filter is exact for exactly the lengths up to `maxRun + 2`. */
  lemma ExactIff(p: ChangePolicy, n: nat)
    requires Valid(p)
    ensures ExactAt(p, n) <==> n <= p.maxRun + 2
  {
    hide Valid, Evidence, TrueEvidence;
    if n <= p.maxRun + 2 {
      forall xs: seq<bool> | |xs| == n ensures Evidence(p, xs) == TrueEvidence(p.hazard, xs) {
        ExactUpToCap(p, xs, 0);
      }
    } else {
      SteadyIsUndervalued(p, seq(n, _ => true), true);
    }
  }
}

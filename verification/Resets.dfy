/** When an outcome commits a reset (internal/bayes/changepoint.go), said without the detectors' recursions. */
module Resets {
  import opened Prelude
  import opened RealSums
  import opened RunLength
  import opened Drift

  // ---- what the two means are ----

  function Values(ys: seq<bool>): (v: seq<real>)
    ensures |v| == |ys| && forall k :: 0 <= k < |v| ==> v[k] == if ys[k] then 1.0 else 0.0
  {
    seq(|ys|, k requires 0 <= k < |ys| => if ys[k] then 1.0 else 0.0)
  }

  /** Geometric weights: the latest value counts for the rate, the one before for the rate of what is left, and so on. */
  function Fading(n: nat, rate: real): (w: seq<real>)
    ensures |w| == n && forall k :: 0 <= k < n ==> w[k] == Times(rate, Power(1.0 - rate, n - 1 - k))
  {
    seq(n, k requires 0 <= k < n => Times(rate, Power(1.0 - rate, n - 1 - k)))
  }

  /** The exponential average of `ys`, begun at `mean`. */
  function Exponential(mean: real, ys: seq<bool>, rate: real): real {
    Times(Power(1.0 - rate, |ys|), mean) + Dot(Fading(|ys|, rate), Values(ys))
  }

  lemma ExponentialStarts(mean: real, rate: real)
    ensures Exponential(mean, [], rate) == mean
  {
    assert Power(1.0 - rate, 0) == 1.0;
  }

  lemma ExponentialStep(mean: real, ys: seq<bool>, y: bool, rate: real)
    ensures Exponential(mean, ys + [y], rate) == Toward(Exponential(mean, ys, rate), Indicator(y), rate)
  {
    hide Power, Dot, Times, Toward;
    var n, more := |ys|, ys + [y];
    var w, u := Fading(n + 1, rate), Fading(n, rate);
    assert Values(more)[..n] == Values(ys);
    forall k | 0 <= k < n ensures w[..n][k] == Times(1.0 - rate, u[k]) { FadingStep(n, k, rate); }
    DotShare(1.0 - rate, u, w[..n], Values(ys));
    DotStep(w, Values(more), n);
    assert w[..n + 1] == w && Values(more)[..n + 1] == Values(more);
    LatestWeight(rate);
    PowerStep(1.0 - rate, n + 1);
    TowardIs(Power(1.0 - rate, n), mean, Dot(u, Values(ys)), rate, Indicator(y));
  }

  lemma FadingStep(n: nat, k: nat, rate: real)
    requires k < n
    ensures Times(rate, Power(1.0 - rate, n - k)) == Times(1.0 - rate, Times(rate, Power(1.0 - rate, n - 1 - k)))
  {
    PowerStep(1.0 - rate, n - k);
    hide Power;
  }

  lemma LatestWeight(rate: real)
    ensures Times(rate, Power(1.0 - rate, 0)) == rate
  {
    assert Power(1.0 - rate, 0) == 1.0;
  }

  lemma {:induction false} DotShare(c: real, u: seq<real>, w: seq<real>, v: seq<real>)
    requires |u| == |w| == |v| && forall k :: 0 <= k < |u| ==> w[k] == Times(c, u[k])
    ensures Dot(w, v) == Times(c, Dot(u, v))
    decreases |u|
  {
    hide Times;
    if u == [] {
      NothingShared(c);
    } else {
      var n := |u| - 1;
      DotShare(c, u[..n], w[..n], v[..n]);
      SharedSum(c, Dot(u[..n], v[..n]), u[n], v[n]);
    }
  }

  lemma NothingShared(c: real)
    ensures Times(c, 0.0) == 0.0
  {
  }

  lemma SharedSum(c: real, d: real, u: real, v: real)
    ensures Times(c, d) + Times(Times(c, u), v) == Times(c, d + Times(u, v))
  {
  }

  lemma TowardIs(power: real, mean: real, d: real, rate: real, y: real)
    ensures Times(Times(1.0 - rate, power), mean) + (Times(1.0 - rate, d) + Times(rate, y))
         == Toward(Times(power, mean) + d, y, rate)
  {
  }

  /** The streak detector: drift is watched, without the cumulative sums. */
  ghost predicate StreakPolicy(p: ChangePolicy) { Valid(p) && p.fastRate > 0.0 && p.cusumThreshold == 0.0 }

  /** Without the cumulative sums both means are exponential averages from the first outcome on, each with its rate. */
  lemma {:induction false} StreakMeans(p: ChangePolicy, xs: seq<bool>)
    requires StreakPolicy(p) && xs != []
    ensures var s, first := Followed(p, xs), Indicator(xs[0]);
      && s.samples == |xs|
      && s.fastMean == Exponential(first, xs[1..], p.fastRate) && s.slowMean == Exponential(first, xs[1..], p.slowRate)
    decreases |xs|
  {
    hide Followed, Exponential, Toward, Drifted;
    var n := |xs| - 1;
    var init, x := xs[..n], xs[n];
    FollowedUnfolds(p, xs);
    if n == 0 {
      assert xs == [x] && xs[1..] == [];
      FirstFollowed(p, x);
      ExponentialStarts(Indicator(x), p.fastRate);
      ExponentialStarts(Indicator(x), p.slowRate);
    } else {
      StreakMeans(p, init);
      assert xs[1..] == init[1..] + [x];
      ExponentialStep(Indicator(xs[0]), init[1..], x, p.fastRate);
      ExponentialStep(Indicator(xs[0]), init[1..], x, p.slowRate);
      TrackedMeans(p, Followed(p, init), x);
    }
  }

  lemma FirstFollowed(p: ChangePolicy, x: bool)
    requires StreakPolicy(p)
    ensures Followed(p, [x]) == ResetDrift(x)
  {
    assert [x][..0] == [];
    assert Followed(p, [x][..0]) == ZERO;
  }

  lemma TrackedMeans(p: ChangePolicy, s: DriftState, x: bool)
    requires StreakPolicy(p) && s.samples > 0
    ensures var t := Drifted(s, x, p).0;
      && t.samples == s.samples + 1
      && t.fastMean == Toward(s.fastMean, Indicator(x), p.fastRate) && t.slowMean == Toward(s.slowMean, Indicator(x), p.slowRate)
  {
    hide Toward, NextMean, Direction;
  }

  /** With the cumulative sums the slow mean is the exact mean of the warm-up, then the exponential average from there. */
  lemma {:induction false} CusumMean(p: ChangePolicy, xs: seq<bool>)
    requires CusumPolicy(p) && |xs| >= p.minSamples
    ensures var m := p.minSamples;
      && 0 < m && Followed(p, xs).samples == |xs|
      && Followed(p, xs).slowMean == Exponential(Ratio(Successes(xs[..m]), m), xs[m..], p.slowRate)
    decreases |xs|
  {
    hide Followed, Exponential, Toward, Drifted, Ratio, Successes;
    var m, n := p.minSamples, |xs| - 1;
    CusumNeedsSamples(p);
    if |xs| == m {
      assert xs[..m] == xs && xs[m..] == [];
      WarmUpIsQuiet(p, xs);
      ExactMean(Followed(p, xs).slowMean, Successes(xs), m);
      ExponentialStarts(Ratio(Successes(xs), m), p.slowRate);
    } else {
      var init, x := xs[..n], xs[n];
      FollowedUnfolds(p, xs);
      CusumMean(p, init);
      assert init[..m] == xs[..m] && xs[m..] == init[m..] + [x];
      ExponentialStep(Ratio(Successes(xs[..m]), m), init[m..], x, p.slowRate);
      CusumTracked(p, Followed(p, init), x);
    }
  }

  lemma CusumNeedsSamples(p: ChangePolicy)
    requires CusumPolicy(p)
    ensures p.minSamples > 1
  {
  }

  lemma ExactMean(mean: real, successes: nat, n: nat)
    requires n > 0 && mean * n as real == successes as real
    ensures mean == Ratio(successes, n)
  {
    assert Ratio(successes, n) * n as real == successes as real;
    ProductOrder(mean, Ratio(successes, n), n as real);
    ProductOrder(Ratio(successes, n), mean, n as real);
  }

  lemma CusumTracked(p: ChangePolicy, s: DriftState, x: bool)
    requires CusumPolicy(p) && s.samples >= p.minSamples
    ensures var t := Drifted(s, x, p).0;
      t.samples == s.samples + 1 && t.slowMean == Toward(s.slowMean, Indicator(x), p.slowRate)
  {
    hide Toward, NextMean;
  }

  // ---- the streak detector's alarm ----

  /** On which side the fast mean has left the slow one by the threshold, once there are enough outcomes. */
  function Side(p: ChangePolicy, xs: seq<bool>): int {
    if xs == [] || |xs| < p.minSamples then 0
    else
      var first := Indicator(xs[0]);
      var gap := Exponential(first, xs[1..], p.fastRate) - Exponential(first, xs[1..], p.slowRate);
      if gap >= p.driftThreshold then 1 else if gap <= -p.driftThreshold then -1 else 0
  }

  /** The last `k` outcomes each left the means on side `d`. */
  ghost predicate StreakOf(p: ChangePolicy, xs: seq<bool>, k: int, d: int) {
    k <= |xs| && forall n :: |xs| - k < n <= |xs| && 0 <= n ==> Side(p, xs[..n]) == d
  }

  /** What the detector stores: the side the means are on, and for how long. */
  ghost predicate StreakStored(p: ChangePolicy, xs: seq<bool>, s: DriftState) {
    && s.direction == Side(p, xs) && s.streak <= |xs| && (s.streak == 0 <==> s.direction == 0)
    && (s.direction != 0 ==>
          && StreakOf(p, xs, s.streak, s.direction)
          && (s.streak < |xs| ==> Side(p, xs[..|xs| - s.streak]) != s.direction))
  }

  lemma {:induction false} StreakIsStored(p: ChangePolicy, xs: seq<bool>)
    requires StreakPolicy(p)
    ensures StreakStored(p, xs, Followed(p, xs))
    decreases |xs|
  {
    hide Followed, Side, Drifted;
    if xs == [] {
      NothingFollowedYet(p);
    } else {
      var n := |xs| - 1;
      var init, x := xs[..n], xs[n];
      FollowedUnfolds(p, xs);
      SideIs(p, xs);
      assert xs[..|xs|] == xs;
      if n == 0 {
        FirstFollowed(p, x);
        assert xs == [x];
        FirstSide(p, xs);
      } else {
        StreakIsStored(p, init);
        StreakMeans(p, init);
        StreakMeans(p, xs);
        StreakStep(p, Followed(p, init), x);
        StreakExtends(p, xs, Followed(p, init), Followed(p, xs));
      }
    }
  }

  lemma StreakExtends(p: ChangePolicy, xs: seq<bool>, s: DriftState, t: DriftState)
    requires xs != [] && StreakStored(p, xs[..|xs| - 1], s) && t.direction == Side(p, xs)
    requires t.streak == if t.direction == 0 then 0 else if s.direction == t.direction then s.streak + 1 else 1
    ensures StreakStored(p, xs, t)
  {
    hide Side;
    var n := |xs| - 1;
    var init := xs[..n];
    assert xs[..|xs|] == xs && init[..n] == init;
    forall k | 0 <= k <= n ensures xs[..k] == init[..k] {}
    if t.direction != 0 {
      forall k | |xs| - t.streak < k <= |xs| && 0 <= k ensures Side(p, xs[..k]) == t.direction {
        if k <= n { assert Side(p, init[..k]) == s.direction; }
      }
      if t.streak < |xs| && s.direction == t.direction { assert Side(p, init[..n - s.streak]) != s.direction; }
    }
  }

  lemma NothingFollowedYet(p: ChangePolicy)
    requires StreakPolicy(p)
    ensures Followed(p, []) == ZERO && Side(p, []) == 0
  {
  }

  lemma FirstSide(p: ChangePolicy, xs: seq<bool>)
    requires StreakPolicy(p) && |xs| == 1
    ensures Side(p, xs) == 0
  {
  }

  /** The side in terms of the detector's own means. */
  lemma SideIs(p: ChangePolicy, xs: seq<bool>)
    requires StreakPolicy(p) && xs != []
    ensures Side(p, xs) == if |xs| < p.minSamples then 0 else Direction(Followed(p, xs), p)
  {
    StreakMeans(p, xs);
    hide Followed, Exponential;
  }

  lemma StreakStep(p: ChangePolicy, s: DriftState, x: bool)
    requires StreakPolicy(p) && s.samples > 0
    ensures var (t, alarm) := Drifted(s, x, p);
      var side := if t.samples < p.minSamples then 0 else Direction(t, p);
      && t.direction == side && t.streak == (if side == 0 then 0 else if s.direction == side then s.streak + 1 else 1)
      && (alarm <==> t.streak > 0 && t.streak >= p.driftPersistence)
  {
    hide Toward, NextMean;
  }

  /** STREAK ALARM. Within a regime the detector fires if and only if the last `driftPersistence` outcomes, this one
      included, each left the fast mean a threshold away from the slow one on one and the same side. */
  lemma StreakAlarm(p: ChangePolicy, xs: seq<bool>, x: bool)
    requires StreakPolicy(p)
    ensures Drifted(Followed(p, xs), x, p).1
       <==> exists d :: (d == 1 || d == -1) && StreakOf(p, xs + [x], p.driftPersistence, d)
  {
    hide Followed, Side, Drifted;
    var ys := xs + [x];
    assert ys[..|xs|] == xs && ys[..|ys|] == ys;
    FollowedUnfolds(p, ys);
    StreakIsStored(p, ys);
    PersistenceIsPositive(p);
    SideIsSide(p, ys);
    var t := Followed(p, ys);
    if xs == [] {
      NothingFollowedYet(p);
      FirstFollowed(p, x);
      FirstSide(p, ys);
      NoAlarmAtFirst(p, x);
    } else {
      StreakMeans(p, xs);
      StreakStep(p, Followed(p, xs), x);
    }
    if d :| (d == 1 || d == -1) && StreakOf(p, ys, p.driftPersistence, d) {
      StreakIsLong(p, ys, t, p.driftPersistence, d);
    }
    if t.streak > 0 && t.streak >= p.driftPersistence { assert StreakOf(p, ys, p.driftPersistence, t.direction); }
  }

  lemma StreakIsLong(p: ChangePolicy, ys: seq<bool>, t: DriftState, k: int, d: int)
    requires StreakStored(p, ys, t) && StreakOf(p, ys, k, d) && k > 0 && d != 0
    ensures t.streak >= k
  {
    hide Side;
    assert ys[..|ys|] == ys;
    assert t.direction == Side(p, ys[..|ys|]);
  }

  lemma PersistenceIsPositive(p: ChangePolicy)
    requires StreakPolicy(p)
    ensures p.driftPersistence > 0
  {
  }

  lemma SideIsSide(p: ChangePolicy, xs: seq<bool>)
    ensures Side(p, xs) == 0 || Side(p, xs) == 1 || Side(p, xs) == -1
  {
    hide Exponential;
  }

  lemma NoAlarmAtFirst(p: ChangePolicy, x: bool)
    requires StreakPolicy(p)
    ensures !Drifted(ZERO, x, p).1
  {
  }

  // ---- when a reset is committed ----

  /** Hazard times the flat prediction of one half is at least the threshold's share of everything that was predicted. */
  ghost predicate ChangeIsLikely(s: State, success: bool, p: ChangePolicy)
    requires Aligned(s) && Divisible(s)
  {
    p.hazard / 2.0 >= p.threshold * (p.hazard / 2.0 + (1.0 - p.hazard) * MeanPredictive(s, success))
  }

  /** The law has more than twice the window of run lengths, and those up to the window reach the recent threshold. */
  ghost predicate ChangeIsRecent(law: seq<real>, p: ChangePolicy) {
    p.recentWindow > 0 && |law| > 2 * p.recentWindow && Sum(law[..p.recentWindow + 1]) >= p.recentThreshold
  }

  /** The outcomes of the regime have drifted. */
  ghost predicate HasDrifted(p: ChangePolicy, ys: seq<bool>) {
    p.fastRate > 0.0 &&
    if p.cusumThreshold > 0.0 then
      StraysUp(Residuals(p, ys, -p.cusumSlack), p.cusumThreshold) || StraysDown(Residuals(p, ys, p.cusumSlack), p.cusumThreshold)
    else exists d :: (d == 1 || d == -1) && StreakOf(p, ys, p.driftPersistence, d)
  }

  lemma AlarmIs(p: ChangePolicy, xs: seq<bool>, x: bool, s: DriftState)
    requires Valid(p) && SameDetector(s, Followed(p, xs))
    ensures Drifted(s, x, p).1 <==> HasDrifted(p, xs + [x])
  {
    hide Followed, Residuals, StraysUp, StraysDown, StreakOf;
    DriftIgnoresCooldown(s, Followed(p, xs), x, p);
    if p.fastRate > 0.0 {
      if p.cusumThreshold > 0.0 { AlarmMeansStretch(p, xs, x); } else {
        NoNegativeThreshold(p);
        StreakAlarm(p, xs, x);
      }
    } else {
      RatesAreNotNegative(p);
    }
  }

  lemma NoNegativeThreshold(p: ChangePolicy)
    requires Valid(p)
    ensures p.cusumThreshold >= 0.0
  {
  }

  lemma RatesAreNotNegative(p: ChangePolicy)
    requires Valid(p)
    ensures p.fastRate >= 0.0
  {
  }

  /** What the update leaves, in closed form. */
  lemma UpdateInNumbers(post: Posterior, o: Outcome, p: ChangePolicy)
    requires Valid(p) && Sound(post, p)
    ensures var s, (next, change) := Started(post.runLength), Advanced(post.runLength, o.success, p);
      && Aligned(s) && Divisible(s) && |next.probabilities| == MinInt(|s.probabilities| + 1, p.maxRun + 1) > 1
      && p.hazard / 2.0 + (1.0 - p.hazard) * MeanPredictive(s, o.success) > 0.0
      && change * (p.hazard / 2.0 + (1.0 - p.hazard) * MeanPredictive(s, o.success)) == p.hazard / 2.0
      && (change >= p.threshold <==> ChangeIsLikely(s, o.success, p))
  {
    hide Updated, MeanPredictive, Good, Valid, Divisible;
    StartedIsGood(post, p, o.success);
    var s := Started(post.runLength);
    GoodStep(s, p, o.success);
    ValidCore(p);
    GoodBounds(s, p);
    GoodLaw(s, p);
    AtLeastShare(Advanced(post.runLength, o.success, p).1, p.hazard / 2.0,
                 p.hazard / 2.0 + (1.0 - p.hazard) * MeanPredictive(s, o.success), p.threshold);
  }

  lemma StartedIsGood(post: Posterior, p: ChangePolicy, success: bool)
    requires Valid(p) && Sound(post, p)
    ensures var s := Started(post.runLength);
      Good(s, p) && Divisible(s) && Started(s) == s && Advanced(post.runLength, success, p) == Updated(s, success, p)
  {
    FreshIsGood(p);
    EmptyStartsFresh(p, success);
    GoodBounds(Started(post.runLength), p);
    hide Updated, Good, Valid;
  }

  lemma AtLeastShare(change: real, x: real, y: real, threshold: real)
    requires y > 0.0 && change == x / y
    ensures change * y == x && (change >= threshold <==> x >= threshold * y)
  {
    assert change * y == x;
    ProductOrder(change, threshold, y);
  }

  lemma ProductOrder(a: real, b: real, y: real)
    requires y > 0.0
    ensures a >= b <==> a * y >= b * y
  {
    if a >= b { assert a * y >= b * y; } else { assert a * y < b * y; }
  }

  /** WHEN A RESET IS COMMITTED. Within a regime of outcomes `xs`: if and only if the outcome is authorised, no cooldown
      runs, and a change is likely, or recent, or the outcomes have drifted. */
  lemma ResetIff(post: Posterior, o: Outcome, p: ChangePolicy, xs: seq<bool>)
    requires Valid(p) && Sound(post, p) && SameDetector(post.drift, Followed(p, xs))
    ensures Aligned(Started(post.runLength)) && Divisible(Started(post.runLength))
    ensures Triggers(post, o, p)
       <==> && o.authorized && post.drift.cooldown <= 0
            && (|| ChangeIsLikely(Started(post.runLength), o.success, p)
                || ChangeIsRecent(Advanced(post.runLength, o.success, p).0.probabilities, p)
                || HasDrifted(p, xs + [o.success]))
  {
    hide Advanced, Drifted, Followed, ChangeIsLikely, HasDrifted, Started, Sound, SameDetector, Sum, Valid;
    UpdateInNumbers(post, o, p);
    AlarmIs(p, xs, o.success, post.drift);
    RecentIsSum(Advanced(post.runLength, o.success, p).0, p);
  }

  lemma RecentIsSum(s: State, p: ChangePolicy)
    ensures p.recentWindow > 0 && |s.probabilities| > 2 * p.recentWindow ==>
      RecentProbability(s, p.recentWindow) == Sum(s.probabilities[..p.recentWindow + 1])
  {
  }

  /** What an outcome leaves: with a reset, its own evidence and nothing else; without one, what there was and its own. */
  lemma AfterOutcome(post: Posterior, o: Outcome, p: ChangePolicy)
    requires Valid(p) && Sound(post, p)
    ensures var r, law, s := Applied(post, o, p), Advanced(post.runLength, o.success, p).0.probabilities,
                             Started(post.runLength);
      && Aligned(s) && Divisible(s)
      && r.changeProbability * (p.hazard / 2.0 + (1.0 - p.hazard) * MeanPredictive(s, o.success)) == p.hazard / 2.0
      && (p.recentWindow <= 0 ==> r.recentProbability == 0.0)
      && (0 < p.recentWindow < |law| ==> r.recentProbability == Sum(law[..p.recentWindow + 1]))
    ensures var r := Applied(post, o, p);
      if Triggers(post, o, p) then
        && r.alpha == (if o.success then 1.0 + o.weight else 1.0) && r.beta == (if o.success then 1.0 else 1.0 + o.weight)
        && r.effectiveSupport == o.weight && r.calibrationWeight == r.brierLoss == r.forecastUseful == r.observedUseful == 0.0
        && r.runLength.probabilities == [1.0] && |r.runLength.alpha| == |r.runLength.beta| == 1
        && Counted(r.runLength.alpha[0], r.runLength.beta[0], [o.success]) && r.drift.cooldown == p.cooldownSamples
      else
        && r.alpha == (if o.success then post.alpha + o.weight else post.alpha)
        && r.beta == (if o.success then post.beta else post.beta + o.weight)
        && r.effectiveSupport == post.effectiveSupport + o.weight
        && r.calibrationWeight == post.calibrationWeight && r.brierLoss == post.brierLoss
        && r.forecastUseful == post.forecastUseful && r.observedUseful == post.observedUseful
        && r.runLength.probabilities == Advanced(post.runLength, o.success, p).0.probabilities
  {
    hide Advanced, Drifted, Detected, Started, Sound, Sum, Valid, MeanPredictive;
    UpdateInNumbers(post, o, p);
    OneCounted(o.success);
  }

  lemma OneCounted(success: bool)
    ensures var s := ResetRunLength(success); |s.alpha| == |s.beta| == 1 && Counted(s.alpha[0], s.beta[0], [success])
  {
    assert [success][..0] == [];
  }

  /** Raising the threshold never adds a reset. */
  lemma HigherThresholdResetsLess(post: Posterior, o: Outcome, p: ChangePolicy, q: ChangePolicy, xs: seq<bool>)
    requires Valid(p) && Valid(q) && p.threshold <= q.threshold && q == p.(threshold := q.threshold)
    requires Sound(post, p) && SameDetector(post.drift, Followed(p, xs)) && Triggers(post, o, q)
    ensures Triggers(post, o, p)
  {
    SameDetection(post, o, p, q);
  }

  lemma SameDetection(post: Posterior, o: Outcome, p: ChangePolicy, q: ChangePolicy)
    requires Valid(p) && Valid(q) && q == p.(threshold := q.threshold)
    ensures Advanced(post.runLength, o.success, p) == Advanced(post.runLength, o.success, q)
    ensures Drifted(post.drift, o.success, p) == Drifted(post.drift, o.success, q)
  {
    hide Raw, Valid, Toward, NextMean;
    ValidCore(p);
    var s := Started(post.runLength);
    if Divisible(s) { SameRaw(s, p, q, o.success, |s.probabilities|); }
  }

  lemma {:induction false} SameRaw(s: State, p: ChangePolicy, q: ChangePolicy, success: bool, k: nat)
    requires p.maxRun > 1 && q == p.(threshold := q.threshold) && Aligned(s) && Divisible(s) && k <= |s.probabilities|
    ensures Raw(s, p, success, k) == Raw(s, q, success, k)
  {
    hide Raw, ChangeMass, GrowthMass, Predicted, Divisible;
    RawUnfolds(s, p, success, k);
    RawUnfolds(s, q, success, k);
    if k > 0 { SameRaw(s, p, q, success, k - 1); }
  }

  // ---- the cooldown ends ----

  /** One outcome takes one from a running cooldown and leaves none alone. */
  lemma CooldownStep(s: DriftState, success: bool, p: ChangePolicy)
    requires p.fastRate != 0.0 && s.samples > 0 && s.cooldown >= 0
    ensures var t := Drifted(s, success, p).0;
      t.samples > 0 && t.cooldown == if s.cooldown == 0 then 0 else s.cooldown - 1
  {
    hide Toward, NextMean;
  }

  /** THE COOLDOWN RUNS DOWN. Without a further reset it is down by the outcomes there were, to nought and no further. */
  lemma {:induction false} CooldownRuns(post: Posterior, os: seq<Outcome>, p: ChangePolicy)
    requires Valid(p) && Sound(post, p) && NoReset(post, os, p)
    requires p.fastRate != 0.0 && post.drift.samples > 0 && post.drift.cooldown >= 0
    ensures RunFrom(post, os, p).drift.cooldown == if |os| < post.drift.cooldown then post.drift.cooldown - |os| else 0
    decreases |os|
  {
    hide Applied, Triggers, Sound, Valid, Drifted, NoReset;
    if os != [] {
      NoResetTail(post, os, p);
      CreditKeepsDetectors(post, os[0], p);
      CooldownStep(post.drift, os[0].success, p);
      CooldownRuns(Applied(post, os[0], p), os[1..], p);
    }
  }

  /** THE COOLDOWN ENDS. `cooldownSamples` outcomes after a reset nothing is held back any more: from then on the authority of
      an outcome and the three grounds alone decide. */
  lemma GroundsDecideAgain(post: Posterior, o: Outcome, os: seq<Outcome>, last: Outcome, p: ChangePolicy)
    requires Valid(p) && Sound(post, p) && Triggers(post, o, p) && p.fastRate != 0.0
    requires Sound(Applied(post, o, p), p) && NoReset(Applied(post, o, p), os, p) && |os| >= p.cooldownSamples >= 0
    ensures var s := RunFrom(Applied(post, o, p), os, p);
      var xs := [o.success] + Successful(os);
      && Aligned(Started(s.runLength)) && Divisible(Started(s.runLength))
      && (Triggers(s, last, p)
          <==> && last.authorized
               && (|| ChangeIsLikely(Started(s.runLength), last.success, p)
                   || ChangeIsRecent(Advanced(s.runLength, last.success, p).0.probabilities, p)
                   || HasDrifted(p, xs + [last.success])))
  {
    hide Applied, Triggers, Sound, Valid, Drifted, NoReset, Advanced, ChangeIsLikely, HasDrifted, Started, Followed;
    var first := Applied(post, o, p);
    CreditKeepsDetectors(post, o, p);
    ResetKeepsOnlyTheTrigger(post, o, p);
    CooldownRuns(first, os, p);
    RegimeIsFollowed(first, os, p, [o.success]);
    ResetIff(RunFrom(first, os, p), last, p, [o.success] + Successful(os));
  }
}

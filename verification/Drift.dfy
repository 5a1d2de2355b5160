/** Drift detection, resets and cooldown (internal/bayes/changepoint.go). */
module Drift {
  import opened Prelude
  import opened RealSums
  import opened RunLength

  datatype DriftState = DriftState(fastMean: real, slowMean: real, samples: nat, streak: nat, direction: int,
                                   upward: real, downward: real, cooldown: int)

  const ZERO := DriftState(0.0, 0.0, 0, 0, 0, 0.0, 0.0, 0)

  function ResetDrift(success: bool): DriftState
  {
    DriftState(Indicator(success), Indicator(success), 1, 0, 0, 0.0, 0.0, 0)
  }

  // ---- the update ----

  function Cooled(s: DriftState): DriftState { if s.cooldown > 0 then s.(cooldown := s.cooldown - 1) else s }

  /** The running mean after an `n`-th value. */
  function NextMean(mean: real, x: real, n: nat): real
    requires n > 0
  {
    mean + (x - mean) / n as real
  }

  /** One step of an exponential average. */
  function Toward(mean: real, x: real, rate: real): real { mean + rate * (x - mean) }

  /** Warm-up: both means are the running mean and no evidence accumulates. */
  function WarmedUp(s: DriftState, x: real): DriftState
  {
    var mean := NextMean(s.slowMean, x, s.samples + 1);
    s.(samples := s.samples + 1, slowMean := mean, fastMean := mean, upward := 0.0, downward := 0.0)
  }

  function Tracked(s: DriftState, x: real, p: ChangePolicy): DriftState
  {
    s.(samples := s.samples + 1, fastMean := Toward(s.fastMean, x, p.fastRate),
       slowMean := Toward(s.slowMean, x, p.slowRate))
  }

  /** The two one-sided sums of how far outcomes stray from the slow mean. */
  function Accumulated(s: DriftState, residual: real, slack: real): DriftState
  {
    s.(upward := Max(0.0, s.upward + residual - slack), downward := Min(0.0, s.downward + residual + slack))
  }

  function Direction(s: DriftState, p: ChangePolicy): int
  {
    var difference := s.fastMean - s.slowMean;
    if difference >= p.driftThreshold then 1 else if difference <= -p.driftThreshold then -1 else 0
  }

  function Streaked(s: DriftState, p: ChangePolicy): DriftState
  {
    if s.samples < p.minSamples || Direction(s, p) == 0 then s.(streak := 0, direction := 0)
    else if s.direction == Direction(s, p) then s.(streak := s.streak + 1)
    else s.(direction := Direction(s, p), streak := 1)
  }

  function Drifted(s: DriftState, success: bool, p: ChangePolicy): (DriftState, bool)
  {
    var x := Indicator(success);
    var c := Cooled(s);
    if p.fastRate == 0.0 then (s, false)
    else if s.samples == 0 then (ResetDrift(success), false)
    else if p.cusumThreshold > 0.0 then
      if s.samples < p.minSamples then (WarmedUp(c, x), false)
      else
        var t := Accumulated(Tracked(c, x, p), x - s.slowMean, p.cusumSlack);
        (t, t.upward >= p.cusumThreshold || -t.downward >= p.cusumThreshold)
    else
      var t := Streaked(Tracked(c, x, p), p);
      (t, t.streak > 0 && t.streak >= p.driftPersistence)
  }

  method UpdateDrift(s: DriftState, success: bool, p: ChangePolicy) returns (next: DriftState, triggered: bool)
    ensures (next, triggered) == Drifted(s, success, p)
  {
    hide Toward, NextMean;
    if p.fastRate == 0.0 { return s, false; }
    var x := Indicator(success);
    if s.samples == 0 { return ResetDrift(success), false; }
    next := s;
    if next.cooldown > 0 { next := next.(cooldown := next.cooldown - 1); }
    if p.cusumThreshold > 0.0 && next.samples < p.minSamples {
      next := next.(samples := next.samples + 1);
      next := next.(slowMean := NextMean(next.slowMean, x, next.samples));
      next := next.(fastMean := next.slowMean, upward := 0.0, downward := 0.0);
      return next, false;
    }
    var residual := x - next.slowMean;
    next := next.(fastMean := Toward(next.fastMean, x, p.fastRate));
    next := next.(slowMean := Toward(next.slowMean, x, p.slowRate));
    next := next.(samples := next.samples + 1);
    if p.cusumThreshold > 0.0 {
      next := next.(upward := Max(0.0, next.upward + residual - p.cusumSlack));
      next := next.(downward := Min(0.0, next.downward + residual + p.cusumSlack));
      return next, next.upward >= p.cusumThreshold || -next.downward >= p.cusumThreshold;
    }
    var difference := next.fastMean - next.slowMean;
    var direction := 0;
    if difference >= p.driftThreshold { direction := 1; } else if difference <= -p.driftThreshold { direction := -1; }
    if next.samples < p.minSamples || direction == 0 { return next.(streak := 0, direction := 0), false; }
    if next.direction == direction {
      next := next.(streak := next.streak + 1);
    } else {
      next := next.(direction := direction, streak := 1);
    }
    triggered := next.streak >= p.driftPersistence;
  }

  // ---- the recursive sums against their batch meaning ----

  ghost predicate CusumPolicy(p: ChangePolicy) { Valid(p) && p.cusumThreshold > 0.0 }

  /** The detector after the outcomes of one regime. */
  function Followed(p: ChangePolicy, xs: seq<bool>): DriftState
  {
    if xs == [] then ZERO else Drifted(Followed(p, xs[..|xs| - 1]), xs[|xs| - 1], p).0
  }

  /** How far each outcome after warm-up strayed from the slow mean that preceded it, shifted by `shift`. */
  function Residuals(p: ChangePolicy, xs: seq<bool>, shift: real): seq<real>
  {
    if xs == [] || |xs| <= p.minSamples then []
    else Residuals(p, xs[..|xs| - 1], shift) + [Indicator(xs[|xs| - 1]) - Followed(p, xs[..|xs| - 1]).slowMean + shift]
  }

  /** `v` is the largest sum of a suffix of `ds`, the empty suffix included. */
  ghost predicate LargestSuffix(v: real, ds: seq<real>)
  {
    (forall j :: 0 <= j <= |ds| ==> Sum(ds[j..]) <= v) && exists j :: 0 <= j <= |ds| && v == Sum(ds[j..])
  }

  ghost predicate SmallestSuffix(v: real, ds: seq<real>)
  {
    (forall j :: 0 <= j <= |ds| ==> Sum(ds[j..]) >= v) && exists j :: 0 <= j <= |ds| && v == Sum(ds[j..])
  }

  lemma SuffixAppend(ds: seq<real>, d: real, j: nat)
    requires j <= |ds|
    ensures Sum((ds + [d])[j..]) == Sum(ds[j..]) + d
  {
    var s := (ds + [d])[j..];
    assert s[..|s| - 1] == ds[j..] && s[|s| - 1] == d;
  }

  lemma LargestSuffixStep(v: real, ds: seq<real>, d: real)
    requires LargestSuffix(v, ds)
    ensures LargestSuffix(Max(0.0, v + d), ds + [d])
  {
    var next, w := ds + [d], Max(0.0, v + d);
    forall j | 0 <= j <= |next| ensures Sum(next[j..]) <= w {
      if j <= |ds| { SuffixAppend(ds, d, j); }
    }
    var k :| 0 <= k <= |ds| && v == Sum(ds[k..]);
    SuffixAppend(ds, d, k);
    if v + d >= 0.0 { assert w == Sum(next[k..]); } else { assert w == Sum(next[|next|..]); }
  }

  lemma SmallestSuffixStep(v: real, ds: seq<real>, d: real)
    requires SmallestSuffix(v, ds)
    ensures SmallestSuffix(Min(0.0, v + d), ds + [d])
  {
    var next, w := ds + [d], Min(0.0, v + d);
    forall j | 0 <= j <= |next| ensures Sum(next[j..]) >= w {
      if j <= |ds| { SuffixAppend(ds, d, j); }
    }
    var k :| 0 <= k <= |ds| && v == Sum(ds[k..]);
    SuffixAppend(ds, d, k);
    if v + d <= 0.0 { assert w == Sum(next[k..]); } else { assert w == Sum(next[|next|..]); }
  }

  lemma NoSuffix()
    ensures LargestSuffix(0.0, []) && SmallestSuffix(0.0, [])
  {
    var e: seq<real> := [];
    assert Sum(e[0..]) == 0.0;
  }

  /** CUSUM. For every run of one regime, the recursive sums are the best suffix sums of the residuals: the best over
      stretches ending now. */
  lemma {:induction false} CusumIsBestSuffix(p: ChangePolicy, xs: seq<bool>)
    requires CusumPolicy(p)
    ensures Followed(p, xs).samples == |xs|
    ensures LargestSuffix(Followed(p, xs).upward, Residuals(p, xs, -p.cusumSlack))
    ensures SmallestSuffix(Followed(p, xs).downward, Residuals(p, xs, p.cusumSlack))
  {
    hide LargestSuffix, SmallestSuffix, Drifted, Followed;
    if xs == [] {
      NoSuffix();
      NothingFollowed(p);
    } else {
      var init, success := xs[..|xs| - 1], xs[|xs| - 1];
      var s := Followed(p, init);
      FollowedUnfolds(p, xs);
      CusumIsBestSuffix(p, init);
      if |xs| <= p.minSamples {
        NoSuffix();
        WarmUpIsQuiet(p, xs);
      } else {
        AccumulatedStep(p, s, success);
        LargestSuffixStep(s.upward, Residuals(p, init, -p.cusumSlack), Indicator(success) - s.slowMean + -p.cusumSlack);
        SmallestSuffixStep(s.downward, Residuals(p, init, p.cusumSlack), Indicator(success) - s.slowMean + p.cusumSlack);
      }
    }
  }

  ghost predicate StraysUp(ds: seq<real>, threshold: real) {
    exists j :: 0 <= j <= |ds| && Sum(ds[j..]) >= threshold
  }

  ghost predicate StraysDown(ds: seq<real>, threshold: real) {
    exists j :: 0 <= j <= |ds| && Sum(ds[j..]) <= -threshold
  }

  /** ALARM. In every regime the detector fires exactly when some stretch of outcomes ending now has strayed, beyond the
      slack, by the threshold; during warm-up there is no such stretch. */
  lemma AlarmMeansStretch(p: ChangePolicy, xs: seq<bool>, x: bool)
    requires CusumPolicy(p)
    ensures Drifted(Followed(p, xs), x, p).1
       <==> StraysUp(Residuals(p, xs + [x], -p.cusumSlack), p.cusumThreshold)
            || StraysDown(Residuals(p, xs + [x], p.cusumSlack), p.cusumThreshold)
  {
    CusumIsBestSuffix(p, xs);
    CusumIsBestSuffix(p, xs + [x]);
    assert (xs + [x])[..|xs|] == xs;
    FollowedUnfolds(p, xs + [x]);
    AlarmIsThreshold(p, Followed(p, xs), x);
    hide Followed, Residuals, Drifted, Sum, CusumPolicy;
  }

  /** The trigger, read off the two sums the update leaves. */
  lemma AlarmIsThreshold(p: ChangePolicy, s: DriftState, x: bool)
    requires CusumPolicy(p)
    ensures var (t, alarm) := Drifted(s, x, p);
      alarm <==> t.upward >= p.cusumThreshold || -t.downward >= p.cusumThreshold
  {
  }

  lemma NothingFollowed(p: ChangePolicy)
    ensures Followed(p, []) == ZERO
  {
  }

  lemma AccumulatedStep(p: ChangePolicy, s: DriftState, success: bool)
    requires CusumPolicy(p) && s.samples >= p.minSamples
    ensures var t, d := Drifted(s, success, p).0, Indicator(success) - s.slowMean;
      && t.samples == s.samples + 1
      && t.upward == Max(0.0, s.upward + (d + -p.cusumSlack)) && t.downward == Min(0.0, s.downward + (d + p.cusumSlack))
  {
    hide Toward;
  }

  /** WARM-UP. The slow mean is the exact mean of everything seen and both sums are zero. */
  lemma {:induction false} WarmUpIsQuiet(p: ChangePolicy, xs: seq<bool>)
    requires CusumPolicy(p) && 1 <= |xs| <= p.minSamples
    ensures var s := Followed(p, xs);
      && s.samples == |xs| && s.upward == 0.0 && s.downward == 0.0 && s.fastMean == s.slowMean
      && s.slowMean * |xs| as real == Successes(xs) as real
  {
    hide Drifted, Successes, Followed;
    var init := xs[..|xs| - 1];
    FollowedUnfolds(p, xs);
    if |xs| == 1 {
      FirstOutcome(p, xs[0]);
      assert xs == [xs[0]] && init == [];
    } else {
      WarmUpIsQuiet(p, init);
      WarmUpStep(p, Followed(p, init), xs[|xs| - 1], Successes(init));
    }
  }

  lemma FollowedUnfolds(p: ChangePolicy, xs: seq<bool>)
    requires xs != []
    ensures Followed(p, xs) == Drifted(Followed(p, xs[..|xs| - 1]), xs[|xs| - 1], p).0
    ensures Successes(xs) == Successes(xs[..|xs| - 1]) + (if xs[|xs| - 1] then 1 else 0)
  {
    hide Drifted;
  }

  lemma FirstOutcome(p: ChangePolicy, x: bool)
    requires CusumPolicy(p)
    ensures Followed(p, []) == ZERO && Drifted(ZERO, x, p).0 == ResetDrift(x)
    ensures Successes([x]) == if x then 1 else 0
  {
    assert [x][..0] == [];
  }

  lemma WarmUpStep(p: ChangePolicy, s: DriftState, success: bool, successes: nat)
    requires CusumPolicy(p) && 0 < s.samples < p.minSamples
    requires s.slowMean * s.samples as real == successes as real
    ensures var t := Drifted(s, success, p).0;
      && t.samples == s.samples + 1 && t.upward == 0.0 && t.downward == 0.0 && t.fastMean == t.slowMean
      && t.slowMean * (s.samples + 1) as real == (successes + (if success then 1 else 0)) as real
  {
    RunningMean(s.slowMean, Indicator(success), s.samples);
  }

  lemma RunningMean(mean: real, x: real, n: nat)
    ensures NextMean(mean, x, n + 1) * (n + 1) as real == mean * n as real + x
  {
    var q := (x - mean) / (n + 1) as real;
    assert q * (n + 1) as real == x - mean;
  }

  function Flipped(xs: seq<bool>): (ys: seq<bool>)
    ensures |ys| == |xs|
  {
    seq(|xs|, i requires 0 <= i < |xs| => !xs[i])
  }

  /** SYMMETRY. Swapping success and failure mirrors the detector: the downward sum is the upward one of the
      opposite stream, and it fires on the same outcomes. */
  lemma CusumIsSymmetric(p: ChangePolicy, xs: seq<bool>)
    requires CusumPolicy(p) && xs != []
    ensures var s, t := Followed(p, xs), Followed(p, Flipped(xs));
      s.samples == |xs| && Mirrored(s, t) && forall x :: Drifted(s, x, p).1 == Drifted(t, !x, p).1
  {
    forall x ensures Drifted(Followed(p, xs), x, p).1 == Drifted(Followed(p, Flipped(xs)), !x, p).1 {
      SymmetricSums(p, xs);
      MirrorStep(Followed(p, xs), Followed(p, Flipped(xs)), x, p);
    }
    SymmetricSums(p, xs);
    hide Drifted, Followed;
  }

  lemma {:induction false} SymmetricSums(p: ChangePolicy, xs: seq<bool>)
    requires CusumPolicy(p) && xs != []
    ensures var s, t := Followed(p, xs), Followed(p, Flipped(xs));
      s.samples == |xs| && Mirrored(s, t)
  {
    hide Drifted, Followed;
    var init, x := xs[..|xs| - 1], xs[|xs| - 1];
    assert Flipped(xs)[..|xs| - 1] == Flipped(init);
    FollowedUnfolds(p, xs);
    FollowedUnfolds(p, Flipped(xs));
    if |xs| == 1 {
      assert init == [] && Flipped(init) == [];
      FirstOutcome(p, x);
      FirstOutcome(p, !x);
    } else {
      SymmetricSums(p, init);
      MirrorStep(Followed(p, init), Followed(p, Flipped(init)), x, p);
    }
  }

  ghost predicate Mirrored(s: DriftState, t: DriftState)
  {
    && t.samples == s.samples && t.slowMean == 1.0 - s.slowMean && t.fastMean == 1.0 - s.fastMean
    && t.upward == -s.downward && t.downward == -s.upward
  }

  lemma MirrorStep(s: DriftState, t: DriftState, success: bool, p: ChangePolicy)
    requires CusumPolicy(p) && s.samples > 0 && Mirrored(s, t)
    ensures Mirrored(Drifted(s, success, p).0, Drifted(t, !success, p).0)
    ensures Drifted(s, success, p).0.samples == s.samples + 1
    ensures Drifted(s, success, p).1 == Drifted(t, !success, p).1
  {
    hide Toward, NextMean;
    MirrorMean(s.slowMean, Indicator(success), s.samples + 1);
    MirrorRate(s.slowMean, Indicator(success), p.slowRate);
    MirrorRate(s.fastMean, Indicator(success), p.fastRate);
  }

  lemma MirrorMean(mean: real, x: real, n: nat)
    requires n > 0
    ensures NextMean(1.0 - mean, 1.0 - x, n) == 1.0 - NextMean(mean, x, n)
  {
    assert ((1.0 - x) - (1.0 - mean)) / n as real == -((x - mean) / n as real);
  }

  lemma MirrorRate(mean: real, x: real, rate: real)
    ensures Toward(1.0 - mean, 1.0 - x, rate) == 1.0 - Toward(mean, x, rate)
  {
  }

  // ---- applying outcomes ----

  datatype Posterior = Posterior(alpha: real, beta: real, effectiveSupport: real, calibrationWeight: real, brierLoss: real,
                                 forecastUseful: real, observedUseful: real, changeProbability: real, recentProbability: real,
                                 runLength: State, drift: DriftState)

  datatype Outcome = Outcome(success: bool, weight: real, authorized: bool)

  function ResetRunLength(success: bool): State
  {
    if success then State([1.0], [2.0], [1.0]) else State([1.0], [1.0], [2.0])
  }

  function RecentProbability(s: State, window: nat): real
  {
    Sum(s.probabilities[..MinInt(window + 1, |s.probabilities|)])
  }

  method RecentRunProbability(s: State, window: nat) returns (probability: real)
    ensures probability == RecentProbability(s, window)
  {
    var limit := MinInt(window + 1, |s.probabilities|);
    probability := 0.0;
    for i := 0 to limit
      invariant probability == Sum(s.probabilities[..i])
    {
      probability := probability + s.probabilities[i];
      SumStep(s.probabilities, i);
    }
  }

  /** The detectors' verdict on one outcome, before authority is considered. */
  ghost function Detected(post: Posterior, o: Outcome, p: ChangePolicy): bool
  {
    var (state, probability) := Advanced(post.runLength, o.success, p);
    && post.drift.cooldown <= 0 && |state.probabilities| > 1
    && (|| probability >= p.threshold
        || (p.recentWindow > 0 && |state.probabilities| > 2 * p.recentWindow
            && RecentProbability(state, p.recentWindow) >= p.recentThreshold)
        || Drifted(post.drift, o.success, p).1)
  }

  ghost predicate Triggers(post: Posterior, o: Outcome, p: ChangePolicy)
  {
    o.authorized && Detected(post, o, p)
  }

  /** A reset restarts every detector and every statistic on the outcome that caused it. */
  function ResetPosterior(post: Posterior, o: Outcome, p: ChangePolicy): Posterior
  {
    post.(alpha := 1.0, beta := 1.0, effectiveSupport := 0.0, calibrationWeight := 0.0, brierLoss := 0.0,
          forecastUseful := 0.0, observedUseful := 0.0, runLength := ResetRunLength(o.success),
          drift := ResetDrift(o.success).(cooldown := p.cooldownSamples))
  }

  function Credited(post: Posterior, o: Outcome): Posterior
  {
    var r := post.(effectiveSupport := post.effectiveSupport + o.weight);
    if o.success then r.(alpha := r.alpha + o.weight) else r.(beta := r.beta + o.weight)
  }

  ghost function Applied(post: Posterior, o: Outcome, p: ChangePolicy): Posterior
  {
    var (state, probability) := Advanced(post.runLength, o.success, p);
    var observed := post.(runLength := state, changeProbability := probability,
                          recentProbability := if p.recentWindow > 0 then RecentProbability(state, p.recentWindow) else 0.0,
                          drift := Drifted(post.drift, o.success, p).0);
    Credited(if Triggers(post, o, p) then ResetPosterior(observed, o, p) else observed, o)
  }

  method ApplyOutcomeAuthorized(post: Posterior, o: Outcome, p: ChangePolicy) returns (next: Posterior, triggered: bool)
    ensures next == Applied(post, o, p) && triggered == Triggers(post, o, p)
  {
    hide Advanced, Drifted, RecentProbability;
    next := post;
    var coolingDown := next.drift.cooldown > 0;
    var state, probability := UpdateRunLength(next.runLength, o.success, p);
    next := next.(runLength := state, changeProbability := probability, recentProbability := 0.0);
    var recentTriggered := false;
    if p.recentWindow > 0 {
      var recent := RecentRunProbability(state, p.recentWindow);
      next := next.(recentProbability := recent);
      recentTriggered := |state.probabilities| > 2 * p.recentWindow && recent >= p.recentThreshold;
    }
    var drift, driftTriggered := UpdateDrift(next.drift, o.success, p);
    next := next.(drift := drift);
    var detected := !coolingDown && |state.probabilities| > 1
                    && (probability >= p.threshold || recentTriggered || driftTriggered);
    triggered := detected && o.authorized;
    if triggered {
      next := next.(alpha := 1.0, beta := 1.0, effectiveSupport := 0.0);
      next := next.(calibrationWeight := 0.0, brierLoss := 0.0, forecastUseful := 0.0, observedUseful := 0.0);
      next := next.(runLength := ResetRunLength(o.success), drift := ResetDrift(o.success));
      next := next.(drift := next.drift.(cooldown := p.cooldownSamples));
    }
    if o.success { next := next.(alpha := next.alpha + o.weight); } else { next := next.(beta := next.beta + o.weight); }
    next := next.(effectiveSupport := next.effectiveSupport + o.weight);
  }

  // ---- whole runs ----

  /** Usable detectors: arrays that are absent or good. */
  ghost predicate Sound(post: Posterior, p: ChangePolicy)
  {
    (post.runLength == EMPTY || Good(post.runLength, p)) && Divisible(Started(post.runLength))
  }

  lemma SoundStep(post: Posterior, o: Outcome, p: ChangePolicy)
    requires Valid(p) && Sound(post, p)
    ensures Sound(Applied(post, o, p), p)
    ensures Good(Applied(post, o, p).runLength, p)
  {
    hide Updated, Advanced, Drifted, RecentProbability, Credited, Applied, Triggers, Valid;
    CreditKeepsDetectors(post, o, p);
    if post.runLength == EMPTY {
      EmptyStartsFresh(p, o.success);
      FreshIsGood(p);
      GoodStep(FRESH, p, o.success);
    } else {
      GoodStep(post.runLength, p, o.success);
    }
    ResetIsGood(p, o.success);
    GoodBounds(Applied(post, o, p).runLength, p);
  }

  lemma CreditKeepsDetectors(post: Posterior, o: Outcome, p: ChangePolicy)
    requires Valid(p) && Sound(post, p)
    ensures Applied(post, o, p).runLength
         == if Triggers(post, o, p) then ResetRunLength(o.success) else Updated(post.runLength, o.success, p).0
    ensures Applied(post, o, p).drift
         == if Triggers(post, o, p) then ResetDrift(o.success).(cooldown := p.cooldownSamples)
            else Drifted(post.drift, o.success, p).0
  {
    hide Updated, Drifted, Detected, RecentProbability, Valid, Good;
  }

  lemma ResetIsGood(p: ChangePolicy, success: bool)
    requires Valid(p)
    ensures Good(ResetRunLength(success), p)
  {
    SumConstant([1.0], 1.0);
  }

  /** The posterior after a run. */
  ghost function RunFrom(post: Posterior, os: seq<Outcome>, p: ChangePolicy): (r: Posterior)
    requires Valid(p) && Sound(post, p)
    ensures Sound(r, p)
    decreases |os|
  {
    if os == [] then post
    else
      SoundStep(post, os[0], p);
      RunFrom(Applied(post, os[0], p), os[1..], p)
  }

  /** The `i`-th outcome of the run is one that commits a reset. */
  ghost predicate TriggersAt(post: Posterior, os: seq<Outcome>, p: ChangePolicy, i: nat)
    requires Valid(p) && Sound(post, p) && i < |os|
    decreases |os|
  {
    if i == 0 then Triggers(post, os[0], p)
    else
      SoundStep(post, os[0], p);
      TriggersAt(Applied(post, os[0], p), os[1..], p, i - 1)
  }

  /** While the cooldown outlasts the run, nothing triggers in it. */
  lemma {:induction false} CooldownBlocks(post: Posterior, os: seq<Outcome>, p: ChangePolicy, i: nat)
    requires Valid(p) && Sound(post, p) && i < |os|
    requires post.drift.samples > 0 && post.drift.cooldown > i
    requires p.fastRate != 0.0
    ensures !TriggersAt(post, os, p, i)
    decreases |os|
  {
    if i > 0 {
      SoundStep(post, os[0], p);
      CreditKeepsDetectors(post, os[0], p);
      DriftCools(post.drift, os[0].success, p);
      CooldownBlocks(Applied(post, os[0], p), os[1..], p, i - 1);
    }
  }

  lemma DriftCools(s: DriftState, success: bool, p: ChangePolicy)
    requires p.fastRate != 0.0 && s.samples > 0 && s.cooldown > 0
    ensures Drifted(s, success, p).0.cooldown == s.cooldown - 1 && Drifted(s, success, p).0.samples == s.samples + 1
  {
  }

  /** COOLDOWN. Between two outcomes that commit a reset lie at least `cooldownSamples` others, in every run. */
  lemma {:induction false} ResetsAreApart(post: Posterior, os: seq<Outcome>, p: ChangePolicy, i: nat, j: nat)
    requires Valid(p) && Sound(post, p) && i < j < |os|
    requires TriggersAt(post, os, p, i) && TriggersAt(post, os, p, j)
    ensures j - i - 1 >= p.cooldownSamples
    decreases |os|
  {
    hide *;
    var next := Applied(post, os[0], p);
    SoundStep(post, os[0], p);
    if i > 0 {
      TriggersLater(post, os, p, i);
      TriggersLater(post, os, p, j);
      ResetsAreApart(next, os[1..], p, i - 1, j - 1);
    } else if j - 1 < p.cooldownSamples {
      CooldownNeedsDrift(p);
      ResetStartsCooldown(post, os, p);
      TriggersLater(post, os, p, j);
      CooldownBlocks(next, os[1..], p, j - 1);
    }
  }

  lemma TriggersLater(post: Posterior, os: seq<Outcome>, p: ChangePolicy, i: nat)
    requires Valid(p) && Sound(post, p) && 0 < i < |os|
    ensures Sound(Applied(post, os[0], p), p)
    ensures TriggersAt(post, os, p, i) <==> TriggersAt(Applied(post, os[0], p), os[1..], p, i - 1)
  {
    SoundStep(post, os[0], p);
    hide Applied, Triggers, Sound, Valid;
  }

  lemma ResetStartsCooldown(post: Posterior, os: seq<Outcome>, p: ChangePolicy)
    requires Valid(p) && Sound(post, p) && os != [] && TriggersAt(post, os, p, 0)
    ensures var drift := Applied(post, os[0], p).drift; drift.samples > 0 && drift.cooldown == p.cooldownSamples
  {
    CreditKeepsDetectors(post, os[0], p);
    hide Applied, Triggers, Sound, Valid, Drifted;
  }

  lemma CooldownNeedsDrift(p: ChangePolicy)
    requires Valid(p)
    ensures p.cooldownSamples > 0 ==> p.fastRate != 0.0
  {
  }

  function SuccessWeight(os: seq<Outcome>): real
  {
    if os == [] then 0.0 else (if os[0].success then os[0].weight else 0.0) + SuccessWeight(os[1..])
  }

  function FailureWeight(os: seq<Outcome>): real
  {
    if os == [] then 0.0 else (if os[0].success then 0.0 else os[0].weight) + FailureWeight(os[1..])
  }

  ghost predicate NoReset(post: Posterior, os: seq<Outcome>, p: ChangePolicy)
    requires Valid(p) && Sound(post, p)
  {
    forall i :: 0 <= i < |os| ==> !TriggersAt(post, os, p, i)
  }

  lemma NoResetTail(post: Posterior, os: seq<Outcome>, p: ChangePolicy)
    requires Valid(p) && Sound(post, p) && os != [] && NoReset(post, os, p)
    ensures var next := Applied(post, os[0], p);
      && !Triggers(post, os[0], p) && Sound(next, p) && NoReset(next, os[1..], p)
      && RunFrom(post, os, p) == RunFrom(next, os[1..], p)
  {
    hide Triggers, Applied;
    SoundStep(post, os[0], p);
    assert !TriggersAt(post, os, p, 0);
    var next := Applied(post, os[0], p);
    forall i | 0 <= i < |os[1..]| ensures !TriggersAt(next, os[1..], p, i) {
      assert !TriggersAt(post, os, p, i + 1);
    }
  }

  /** Between resets the Beta evidence is exactly the weights delivered, on the right side, and the support their sum. */
  lemma {:induction false} EvidenceAccumulates(post: Posterior, os: seq<Outcome>, p: ChangePolicy)
    requires Valid(p) && Sound(post, p)
    requires NoReset(post, os, p)
    ensures var r := RunFrom(post, os, p);
      && r.alpha == post.alpha + SuccessWeight(os) && r.beta == post.beta + FailureWeight(os)
      && r.effectiveSupport == post.effectiveSupport + SuccessWeight(os) + FailureWeight(os)
    decreases |os|
  {
    if os != [] {
      NoResetTail(post, os, p);
      EvidenceAccumulates(Applied(post, os[0], p), os[1..], p);
    }
  }

  /** A committed reset leaves one outcome's worth of evidence and the run continues from there. */
  lemma ResetKeepsOnlyTheTrigger(post: Posterior, o: Outcome, p: ChangePolicy)
    requires Valid(p) && Sound(post, p) && Triggers(post, o, p)
    ensures var r := Applied(post, o, p);
      && r.alpha == 1.0 + SuccessWeight([o]) && r.beta == 1.0 + FailureWeight([o]) && r.effectiveSupport == o.weight
      && (p.fastRate != 0.0 ==> r.drift.(cooldown := 0) == Followed(p, [o.success]))
  {
    hide Updated, Advanced, Detected, RecentProbability, Valid;
    assert [o][1..] == [] && [o.success][..0] == [];
  }

  /** Equal but for the remaining cooldown. */
  ghost predicate SameDetector(s: DriftState, t: DriftState) { s.(cooldown := 0) == t.(cooldown := 0) }

  lemma DriftIgnoresCooldown(s: DriftState, t: DriftState, success: bool, p: ChangePolicy)
    requires SameDetector(s, t)
    ensures SameDetector(Drifted(s, success, p).0, Drifted(t, success, p).0)
    ensures Drifted(s, success, p).1 == Drifted(t, success, p).1
  {
    hide Toward, NextMean;
  }

  function Successful(os: seq<Outcome>): seq<bool>
  {
    if os == [] then [] else [os[0].success] + Successful(os[1..])
  }

  /** Within a regime the live detector is the one `Followed` describes, so `CusumIsBestSuffix` speaks about it:
      after a reset with the triggering outcome as `xs`, from the start with none. */
  lemma {:induction false} RegimeIsFollowed(post: Posterior, os: seq<Outcome>, p: ChangePolicy, xs: seq<bool>)
    requires Valid(p) && Sound(post, p) && SameDetector(post.drift, Followed(p, xs))
    requires NoReset(post, os, p)
    ensures SameDetector(RunFrom(post, os, p).drift, Followed(p, xs + Successful(os)))
    decreases |os|
  {
    hide *;
    if os == [] {
      NoOutcomes(post, p, xs);
    } else {
      var o := os[0];
      NoResetTail(post, os, p);
      CreditKeepsDetectors(post, o, p);
      DriftIgnoresCooldown(post.drift, Followed(p, xs), o.success, p);
      FollowedUnfolds(p, xs + [o.success]);
      assert (xs + [o.success])[..|xs|] == xs;
      RegimeIsFollowed(Applied(post, o, p), os[1..], p, xs + [o.success]);
      SuccessfulUnfolds(xs, os);
    }
  }

  lemma NoOutcomes(post: Posterior, p: ChangePolicy, xs: seq<bool>)
    requires Valid(p) && Sound(post, p)
    ensures RunFrom(post, [], p) == post && xs + Successful([]) == xs
  {
  }

  lemma SuccessfulUnfolds(xs: seq<bool>, os: seq<Outcome>)
    requires os != []
    ensures xs + [os[0].success] + Successful(os[1..]) == xs + Successful(os)
  {
  }
}

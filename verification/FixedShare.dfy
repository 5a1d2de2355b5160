/** The fixed-share forecaster behind both the four-expert mixture and the 21-state grid.

    One law `pi` over states is the starting law and the law every step shares a mass `share` back to.
    After each outcome the filter keeps a posterior; before the next one it mixes in the share.
    `Posterior` and `Evidence` are that recursive filter. The independent reference is the sum, over every
    sequence of states, of the joint probability of the sequence and of the outcomes. */
module FixedShare {
  import opened Prelude
  import opened RealSums

  /** Starting law, share, and per outcome the probability each state gave to what happened. */
  ghost predicate Model(pi: seq<real>, share: real, ls: seq<seq<real>>)
  {
    && |pi| > 0 && IsLaw(pi) && 0.0 <= share <= 1.0
    && forall t :: 0 <= t < |ls| ==> |ls[t]| == |pi| && Positive(ls[t])
  }

  // ---- the recursive filter ----

  /** The share step: keep `1 - share` of the posterior and move `share` back to `pi`. */
  function Shared(pi: seq<real>, share: real, w: seq<real>): (p: seq<real>)
    requires |w| == |pi|
    ensures |p| == |pi|
  {
    seq(|pi|, j requires 0 <= j < |pi| => (1.0 - share) * w[j] + share * pi[j])
  }

  /** Bayes' rule for one outcome. */
  function Updated(p: seq<real>, l: seq<real>, m: real): (w: seq<real>)
    requires |p| == |l| && m > 0.0
    ensures |w| == |p|
  {
    seq(|p|, j requires 0 <= j < |p| => p[j] * l[j] / m)
  }

  lemma {:induction false} SharedIsLaw(pi: seq<real>, share: real, w: seq<real>)
    requires IsLaw(pi) && IsLaw(w) && |w| == |pi| && 0.0 <= share <= 1.0
    ensures IsLaw(Shared(pi, share, w))
  {
    var p := Shared(pi, share, w);
    forall j | 0 <= j < |pi| ensures p[j] >= 0.0 && p[j] == (1.0 - share) * w[j] + share * pi[j] {
      MixNonNegative(1.0 - share, w[j], share, pi[j]);
    }
    SumLinear(1.0 - share, w, share, pi, p);
  }

  lemma MixNonNegative(a: real, x: real, b: real, y: real)
    requires a >= 0.0 && x >= 0.0 && b >= 0.0 && y >= 0.0
    ensures a * x + b * y >= 0.0
  {
  }

  lemma {:induction false} UpdatedIsLaw(p: seq<real>, l: seq<real>)
    requires |p| == |l| && IsLaw(p) && Positive(l)
    ensures Dot(p, l) > 0.0 && IsLaw(Updated(p, l, Dot(p, l)))
  {
    DotPositive(p, l);
    UpdatedSum(p, l, Dot(p, l));
    CancelFactor(Dot(p, l), Sum(Updated(p, l, Dot(p, l))), Dot(p, l));
  }

  lemma UpdatedSum(p: seq<real>, l: seq<real>, m: real)
    requires |p| == |l| && NonNegative(p) && Positive(l) && m > 0.0
    ensures NonNegative(Updated(p, l, m)) && m * Sum(Updated(p, l, m)) == Dot(p, l)
  {
    hide Dot, Sum, Updated;
    var q := seq(|p|, j requires 0 <= j < |p| => Times(p[j], l[j]));
    DotIsSum(p, l, q);
    forall j | 0 <= j < |p| ensures Updated(p, l, m)[j] >= 0.0 && m * Updated(p, l, m)[j] == q[j] {
      UpdatedAt(p, l, m, j);
    }
    SumScaled(m, Updated(p, l, m), q);
  }

  lemma UpdatedAt(p: seq<real>, l: seq<real>, m: real, j: nat)
    requires |p| == |l| && j < |p| && p[j] >= 0.0 && l[j] > 0.0 && m > 0.0
    ensures Updated(p, l, m)[j] >= 0.0 && m * Updated(p, l, m)[j] == p[j] * l[j]
  {
    MixNonNegative(p[j], l[j], 0.0, 0.0);
    QuotientTimes(p[j] * l[j], m);
  }

  /** The law used to forecast the outcome that follows `ls`. */
  ghost function Predictive(pi: seq<real>, share: real, ls: seq<seq<real>>): (p: seq<real>)
    requires Model(pi, share, ls)
    ensures |p| == |pi| && IsLaw(p)
    decreases |ls|, 1
  {
    if ls == [] then pi
    else
      SharedIsLaw(pi, share, Posterior(pi, share, ls));
      Shared(pi, share, Posterior(pi, share, ls))
  }

  /** The stored weights after the outcomes `ls`, at least one. */
  ghost function Posterior(pi: seq<real>, share: real, ls: seq<seq<real>>): (w: seq<real>)
    requires Model(pi, share, ls) && ls != []
    ensures |w| == |pi| && IsLaw(w)
    decreases |ls|, 0
  {
    var p := Predictive(pi, share, ls[..|ls| - 1]);
    UpdatedIsLaw(p, ls[|ls| - 1]);
    Updated(p, ls[|ls| - 1], Dot(p, ls[|ls| - 1]))
  }

  /** The product of the forecaster's own likelihoods, one factor per outcome. */
  ghost function Evidence(pi: seq<real>, share: real, ls: seq<seq<real>>): real
    requires Model(pi, share, ls)
  {
    if ls == [] then 1.0
    else Times(Evidence(pi, share, ls[..|ls| - 1]), Dot(Predictive(pi, share, ls[..|ls| - 1]), ls[|ls| - 1]))
  }

  // ---- the reference: every sequence of states ----

  /** `path` names one of `n` states per outcome. */
  ghost predicate IsPath(n: nat, length: nat, path: seq<nat>)
  {
    |path| == length && forall t :: 0 <= t < |path| ==> path[t] < n
  }

  /** The reset model: stay with probability `1 - share`, otherwise draw a state from `pi`. */
  function Transition(pi: seq<real>, share: real, i: nat, j: nat): real
    requires j < |pi|
  {
    (if i == j then 1.0 - share else 0.0) + share * pi[j]
  }

  /** The joint probability of a state sequence and of the outcomes. */
  ghost function PathMass(pi: seq<real>, share: real, ls: seq<seq<real>>, path: seq<nat>): real
    requires Model(pi, share, ls) && IsPath(|pi|, |ls|, path)
  {
    if path == [] then 1.0
    else
      var t := |path| - 1;
      Joint(PathMass(pi, share, ls[..t], path[..t]),
            if t == 0 then pi[path[0]] else Transition(pi, share, path[t - 1], path[t]),
            ls[t][path[t]])
  }

  /** Every path of the list, prolonged by state `j`. */
  function Prolonged(ps: seq<seq<nat>>, j: nat): (qs: seq<seq<nat>>)
    ensures |qs| == |ps|
  {
    if ps == [] then [] else Prolonged(ps[..|ps| - 1], j) + [ps[|ps| - 1] + [j]]
  }

  /** Every path of the list, prolonged by each state below `n`. */
  function ProlongedBelow(ps: seq<seq<nat>>, n: nat): seq<seq<nat>>
  {
    if n == 0 then [] else ProlongedBelow(ps, n - 1) + Prolonged(ps, n - 1)
  }

  /** Every state sequence of the given length. */
  function AllPaths(n: nat, length: nat): seq<seq<nat>>
  {
    if length == 0 then [[]] else ProlongedBelow(AllPaths(n, length - 1), n)
  }

  lemma {:induction false} ProlongedMember(ps: seq<seq<nat>>, j: nat, path: seq<nat>)
    ensures path in Prolonged(ps, j) <==> path != [] && path[|path| - 1] == j && path[..|path| - 1] in ps
  {
    if ps != [] {
      var last := ps[|ps| - 1];
      ProlongedMember(ps[..|ps| - 1], j, path);
      assert ps == ps[..|ps| - 1] + [last];
      if path != [] && path[|path| - 1] == j && path[..|path| - 1] == last {
        assert path == last + [j];
      }
      assert (last + [j])[..|last|] == last;
    }
  }

  lemma {:induction false} ProlongedBelowMember(ps: seq<seq<nat>>, n: nat, path: seq<nat>)
    ensures path in ProlongedBelow(ps, n) <==> path != [] && path[|path| - 1] < n && path[..|path| - 1] in ps
  {
    if n > 0 {
      ProlongedBelowMember(ps, n - 1, path);
      ProlongedMember(ps, n - 1, path);
    }
  }

  /** The enumeration contains exactly the state sequences of that length. */
  lemma {:induction false} AllPathsComplete(n: nat, length: nat, path: seq<nat>)
    ensures path in AllPaths(n, length) <==> IsPath(n, length, path)
  {
    if length > 0 {
      ProlongedBelowMember(AllPaths(n, length - 1), n, path);
      if path != [] {
        AllPathsComplete(n, length - 1, path[..|path| - 1]);
        assert path == path[..|path| - 1] + [path[|path| - 1]];
      }
    }
  }

  lemma DistinctConcat(ps: seq<seq<nat>>, qs: seq<seq<nat>>)
    requires Distinct(ps) && Distinct(qs)
    requires forall k :: 0 <= k < |ps| ==> ps[k] !in qs
    ensures Distinct(ps + qs)
  {
    forall a, b | 0 <= a < b < |ps + qs| ensures (ps + qs)[a] != (ps + qs)[b] {
      if a < |ps| <= b {
        assert qs[b - |ps|] in qs;
      }
    }
  }

  lemma {:induction false} ProlongedDistinct(ps: seq<seq<nat>>, j: nat)
    requires Distinct(ps)
    ensures Distinct(Prolonged(ps, j))
  {
    if ps != [] {
      var init, last := ps[..|ps| - 1], ps[|ps| - 1];
      ProlongedDistinct(init, j);
      ProlongedMember(init, j, last + [j]);
      assert (last + [j])[..|last|] == last;
      DistinctConcat(Prolonged(init, j), [last + [j]]);
    }
  }

  lemma {:induction false} ProlongedBelowDistinct(ps: seq<seq<nat>>, n: nat)
    requires Distinct(ps)
    ensures Distinct(ProlongedBelow(ps, n))
  {
    if n > 0 {
      ProlongedBelowDistinct(ps, n - 1);
      ProlongedDistinct(ps, n - 1);
      var qs, rs := ProlongedBelow(ps, n - 1), Prolonged(ps, n - 1);
      forall k | 0 <= k < |qs| ensures qs[k] !in rs {
        ProlongedBelowMember(ps, n - 1, qs[k]);
        ProlongedMember(ps, n - 1, qs[k]);
      }
      DistinctConcat(qs, rs);
    }
  }

  /** ... and each of them once. */
  lemma {:induction false} AllPathsDistinct(n: nat, length: nat)
    ensures Distinct(AllPaths(n, length))
  {
    if length > 0 {
      AllPathsDistinct(n, length - 1);
      ProlongedBelowDistinct(AllPaths(n, length - 1), n);
    }
  }

  ghost predicate ArePaths(n: nat, length: nat, ps: seq<seq<nat>>)
  {
    forall k :: 0 <= k < |ps| ==> IsPath(n, length, ps[k])
  }

  /** Sum of the joint probabilities of the listed paths. */
  ghost function TotalMass(pi: seq<real>, share: real, ls: seq<seq<real>>, ps: seq<seq<nat>>): real
    requires Model(pi, share, ls) && ArePaths(|pi|, |ls|, ps)
    decreases |ps|
  {
    if ps == [] then 0.0
    else TotalMass(pi, share, ls, ps[..|ps| - 1]) + PathMass(pi, share, ls, ps[|ps| - 1])
  }

  /** The same, over the listed paths that end in state `j`. */
  ghost function EndMass(pi: seq<real>, share: real, ls: seq<seq<real>>, ps: seq<seq<nat>>, j: nat): real
    requires Model(pi, share, ls) && ArePaths(|pi|, |ls|, ps) && ls != []
    decreases |ps|
  {
    if ps == [] then 0.0
    else
      var last := ps[|ps| - 1];
      EndMass(pi, share, ls, ps[..|ps| - 1], j)
        + (if last[|last| - 1] == j then PathMass(pi, share, ls, last) else 0.0)
  }

  lemma AllPathsArePaths(n: nat, length: nat)
    ensures ArePaths(n, length, AllPaths(n, length))
  {
    forall k | 0 <= k < |AllPaths(n, length)| ensures IsPath(n, length, AllPaths(n, length)[k]) {
      AllPathsComplete(n, length, AllPaths(n, length)[k]);
    }
  }

  lemma {:induction false} MassOfConcat(pi: seq<real>, share: real, ls: seq<seq<real>>,
                                        ps: seq<seq<nat>>, qs: seq<seq<nat>>, j: nat)
    requires Model(pi, share, ls) && ls != []
    requires ArePaths(|pi|, |ls|, ps) && ArePaths(|pi|, |ls|, qs)
    ensures ArePaths(|pi|, |ls|, ps + qs)
    ensures TotalMass(pi, share, ls, ps + qs) == TotalMass(pi, share, ls, ps) + TotalMass(pi, share, ls, qs)
    ensures EndMass(pi, share, ls, ps + qs, j) == EndMass(pi, share, ls, ps, j) + EndMass(pi, share, ls, qs, j)
    decreases |qs|
  {
    if qs == [] {
      assert ps + qs == ps;
    } else {
      var init := qs[..|qs| - 1];
      MassOfConcat(pi, share, ls, ps, init, j);
      assert (ps + qs)[..|ps + qs| - 1] == ps + init;
    }
  }

  /** The share step on masses: what reaches state `j` from paths of mass `total`, `end` of it already in `j`,
      and survives an outcome of likelihood `l`. */
  function Arriving(share: real, q: real, first: bool, end: real, total: real, l: real): real
  {
    l * (if first then q * total else (1.0 - share) * end + share * q * total)
  }

  lemma ArrivingAdds(share: real, q: real, first: bool, x: real, y: real, dx: real, dy: real, l: real)
    ensures Arriving(share, q, first, 0.0, 0.0, l) == 0.0
    ensures Arriving(share, q, first, x, y, l) + Arriving(share, q, first, dx, dy, l)
         == Arriving(share, q, first, x + dx, y + dy, l)
  {
    if first {
      assert l * (q * y) + l * (q * dy) == l * (q * (y + dy));
    } else {
      Distribute(l, 1.0 - share, x, dx, share * q, y, dy);
    }
  }

  ghost predicate EndsIn(path: seq<nat>, j: nat) { path != [] && path[|path| - 1] == j }

  lemma PathMassProlonged(pi: seq<real>, share: real, ls: seq<seq<real>>, l: seq<real>, path: seq<nat>, j: nat)
    requires Model(pi, share, ls) && Model(pi, share, ls + [l]) && j < |pi| == |l|
    requires IsPath(|pi|, |ls|, path)
    ensures IsPath(|pi|, |ls + [l]|, path + [j])
    ensures var m := PathMass(pi, share, ls, path);
      PathMass(pi, share, ls + [l], path + [j])
        == Arriving(share, pi[j], ls == [], if EndsIn(path, j) then m else 0.0, m, l[j])
  {
    hide Joint, Arriving, Transition;
    assert (path + [j])[..|path|] == path && (ls + [l])[..|ls|] == ls;
    var m := PathMass(pi, share, ls, path);
    if ls == [] {
      FirstJoint(share, pi[j], m, l[j]);
    } else {
      assert (path + [j])[|path| - 1] == path[|path| - 1];
      NextJoint(pi, share, path[|path| - 1], j, m, l[j]);
    }
  }

  lemma FirstJoint(share: real, q: real, m: real, l: real)
    requires m == 1.0
    ensures forall end :: Joint(m, q, l) == Arriving(share, q, true, end, m, l)
  {
  }

  lemma NextJoint(pi: seq<real>, share: real, i: nat, j: nat, m: real, l: real)
    requires j < |pi|
    ensures Joint(m, Transition(pi, share, i, j), l)
         == Arriving(share, pi[j], false, if i == j then m else 0.0, m, l)
  {
    var a, b := 1.0 - share, share * pi[j];
    assert m * ((if i == j then a else 0.0) + b) * l == l * (a * (if i == j then m else 0.0) + b * m);
  }

  /** The end mass, also meaningful before the first outcome. */
  ghost function EndMassOr0(pi: seq<real>, share: real, ls: seq<seq<real>>, ps: seq<seq<nat>>, j: nat): real
    requires Model(pi, share, ls) && ArePaths(|pi|, |ls|, ps)
  {
    if ls == [] then 0.0 else EndMass(pi, share, ls, ps, j)
  }

  /** What prolonging by state `j` does to the mass: exactly one share step and one likelihood factor. */
  lemma {:induction false} MassOfProlonged(pi: seq<real>, share: real, ls: seq<seq<real>>, l: seq<real>,
                                           ps: seq<seq<nat>>, j: nat)
    requires Model(pi, share, ls) && Model(pi, share, ls + [l]) && j < |pi| == |l|
    requires ArePaths(|pi|, |ls|, ps)
    ensures ArePaths(|pi|, |ls + [l]|, Prolonged(ps, j))
    ensures TotalMass(pi, share, ls + [l], Prolonged(ps, j))
         == Arriving(share, pi[j], ls == [], EndMassOr0(pi, share, ls, ps, j), TotalMass(pi, share, ls, ps), l[j])
    decreases |ps|
  {
    hide Arriving, PathMass, Model;
    ArrivingAdds(share, pi[j], ls == [], 0.0, 0.0, 0.0, 0.0, l[j]);
    if ps != [] {
      var init, last := ps[..|ps| - 1], ps[|ps| - 1];
      MassOfProlonged(pi, share, ls, l, init, j);
      PathMassProlonged(pi, share, ls, l, last, j);
      var qs := Prolonged(ps, j);
      assert qs[..|qs| - 1] == Prolonged(init, j) && qs[|qs| - 1] == last + [j];
      var m := PathMass(pi, share, ls, last);
      ArrivingAdds(share, pi[j], ls == [], EndMassOr0(pi, share, ls, init, j), TotalMass(pi, share, ls, init),
                   if EndsIn(last, j) then m else 0.0, m, l[j]);
    }
  }

  lemma {:induction false} EndMassOfProlonged(pi: seq<real>, share: real, ls: seq<seq<real>>, ps: seq<seq<nat>>, j: nat, k: nat)
    requires Model(pi, share, ls) && ls != [] && ArePaths(|pi|, |ls|, Prolonged(ps, j))
    ensures EndMass(pi, share, ls, Prolonged(ps, j), k)
         == if k == j then TotalMass(pi, share, ls, Prolonged(ps, j)) else 0.0
    decreases |ps|
  {
    if ps != [] {
      var qs := Prolonged(ps, j);
      var init := ps[..|ps| - 1];
      assert qs[..|qs| - 1] == Prolonged(init, j) && qs[|qs| - 1] == ps[|ps| - 1] + [j];
      assert ArePaths(|pi|, |ls|, Prolonged(init, j)) by {
        forall i | 0 <= i < |init| ensures IsPath(|pi|, |ls|, Prolonged(init, j)[i]) {
          assert qs[i] == Prolonged(init, j)[i];
        }
      }
      EndMassOfProlonged(pi, share, ls, init, j, k);
    }
  }

  lemma Distribute(l: real, a: real, x: real, dx: real, b: real, y: real, dy: real)
    ensures l * (a * x + b * y) + l * (a * dx + b * dy) == l * (a * (x + dx) + b * (y + dy))
  {
  }

  /** `e * p` is what arrives in each state before the outcome is weighed. */
  ghost predicate Arrives(pi: seq<real>, share: real, ls: seq<seq<real>>, ps: seq<seq<nat>>, p: seq<real>, e: real)
    requires Model(pi, share, ls) && ArePaths(|pi|, |ls|, ps) && |p| == |pi|
  {
    forall j, l: real :: 0 <= j < |pi| ==>
      Joint(e, p[j], l) == Arriving(share, pi[j], ls == [], EndMassOr0(pi, share, ls, ps, j), TotalMass(pi, share, ls, ps), l)
  }

  /** Prolonging by every state below `n`: the partial sums of the next filter step. */
  lemma {:induction false} MassBelow(pi: seq<real>, share: real, ls: seq<seq<real>>, l: seq<real>,
                                     ps: seq<seq<nat>>, n: nat, p: seq<real>, e: real)
    requires Model(pi, share, ls) && Model(pi, share, ls + [l]) && n <= |pi| == |p| == |l|
    requires ArePaths(|pi|, |ls|, ps) && Arrives(pi, share, ls, ps, p, e)
    ensures ArePaths(|pi|, |ls + [l]|, ProlongedBelow(ps, n))
    ensures TotalMass(pi, share, ls + [l], ProlongedBelow(ps, n)) == Times(e, Dot(p[..n], l[..n]))
  {
    hide PathMass, Arriving, TotalMass, EndMassOr0, Dot, Joint, Times;
    if n == 0 {
      MassOfNothing(pi, share, ls + [l], 0);
      DotOfNothing(p[..0], l[..0], e);
    } else {
      MassBelow(pi, share, ls, l, ps, n - 1, p, e);
      MassOfProlonged(pi, share, ls, l, ps, n - 1);
      DotStepScaled(p, l, n, e);
      MassOfConcat(pi, share, ls + [l], ProlongedBelow(ps, n - 1), Prolonged(ps, n - 1), 0);
    }
  }

  lemma MassOfNothing(pi: seq<real>, share: real, ls: seq<seq<real>>, k: nat)
    requires Model(pi, share, ls) && ls != []
    ensures TotalMass(pi, share, ls, []) == 0.0 && EndMass(pi, share, ls, [], k) == 0.0
  {
  }

  lemma DotOfNothing(u: seq<real>, v: seq<real>, e: real)
    requires u == v == []
    ensures Times(e, Dot(u, v)) == 0.0
  {
  }

  lemma DotStepScaled(p: seq<real>, l: seq<real>, k: nat, e: real)
    requires |p| == |l| && 0 < k <= |p|
    ensures Times(e, Dot(p[..k], l[..k])) == Times(e, Dot(p[..k - 1], l[..k - 1])) + Joint(e, p[k - 1], l[k - 1])
  {
    hide Dot;
    assert k - 1 + 1 == k;
    DotStep(p, l, k - 1);
    Rearrange(e, p[k - 1], l[k - 1], Dot(p[..k - 1], l[..k - 1]));
  }

  lemma {:induction false} EndMassBelow(pi: seq<real>, share: real, ls: seq<seq<real>>, l: seq<real>,
                                        ps: seq<seq<nat>>, n: nat, p: seq<real>, e: real, k: nat)
    requires Model(pi, share, ls) && Model(pi, share, ls + [l]) && n <= |pi| == |p| == |l|
    requires ArePaths(|pi|, |ls|, ps) && Arrives(pi, share, ls, ps, p, e)
    ensures ArePaths(|pi|, |ls + [l]|, ProlongedBelow(ps, n))
    ensures EndMass(pi, share, ls + [l], ProlongedBelow(ps, n), k) == if k < n then Joint(e, p[k], l[k]) else 0.0
  {
    hide PathMass, Arriving, TotalMass, EndMassOr0, EndMass, Joint;
    if n == 0 {
      MassOfNothing(pi, share, ls + [l], k);
    } else {
      EndMassBelow(pi, share, ls, l, ps, n - 1, p, e, k);
      MassOfProlonged(pi, share, ls, l, ps, n - 1);
      EndMassOfProlonged(pi, share, ls + [l], ps, n - 1, k);
      MassOfConcat(pi, share, ls + [l], ProlongedBelow(ps, n - 1), Prolonged(ps, n - 1), k);
    }
  }

  lemma Rearrange(e: real, p: real, l: real, d: real)
    ensures e * (d + p * l) == e * d + e * p * l
  {
  }

  ghost predicate Exact(pi: seq<real>, share: real, ls: seq<seq<real>>)
    requires Model(pi, share, ls) && ArePaths(|pi|, |ls|, AllPaths(|pi|, |ls|))
  {
    var ps := AllPaths(|pi|, |ls|);
    && Evidence(pi, share, ls) == TotalMass(pi, share, ls, ps) > 0.0
    && (ls != [] ==> forall j :: 0 <= j < |pi| ==>
          Times(Evidence(pi, share, ls), Posterior(pi, share, ls)[j]) == EndMass(pi, share, ls, ps, j))
  }

  lemma PredictiveArrives(pi: seq<real>, share: real, ls: seq<seq<real>>)
    requires Model(pi, share, ls) && ArePaths(|pi|, |ls|, AllPaths(|pi|, |ls|)) && Exact(pi, share, ls)
    ensures Arrives(pi, share, ls, AllPaths(|pi|, |ls|), Predictive(pi, share, ls), Evidence(pi, share, ls))
  {
    hide Evidence, TotalMass, EndMass, Sum, Joint, Arriving;
    var e, ps := Evidence(pi, share, ls), AllPaths(|pi|, |ls|);
    forall j, l: real | 0 <= j < |pi|
      ensures Joint(e, Predictive(pi, share, ls)[j], l)
           == Arriving(share, pi[j], ls == [], EndMassOr0(pi, share, ls, ps, j), TotalMass(pi, share, ls, ps), l)
    {
      if ls == [] {
        FirstShare(e, share, pi[j], l);
      } else {
        NextShare(e, share, Posterior(pi, share, ls)[j], pi[j], l, Predictive(pi, share, ls)[j], EndMass(pi, share, ls, ps, j));
      }
    }
  }

  lemma FirstShare(e: real, share: real, q: real, l: real)
    ensures Joint(e, q, l) == Arriving(share, q, true, 0.0, e, l)
  {
  }

  lemma NextShare(e: real, share: real, w: real, q: real, l: real, p: real, end: real)
    requires p == (1.0 - share) * w + share * q && Times(e, w) == end
    ensures Joint(e, p, l) == Arriving(share, q, false, end, e, l)
  {
    assert e * ((1.0 - share) * w + share * q) == (1.0 - share) * (e * w) + share * q * e;
  }

  /** MAIN THEOREM. The recursive filter is exact Bayesian inference in the reset model: its evidence is the
      total probability of the outcomes over all state sequences, and the stored weights are the posterior
      law of the current state. */
  lemma {:induction false} FilterIsExact(pi: seq<real>, share: real, ls: seq<seq<real>>)
    requires Model(pi, share, ls)
    ensures ArePaths(|pi|, |ls|, AllPaths(|pi|, |ls|))
    ensures Exact(pi, share, ls)
    decreases |ls|
  {
    AllPathsArePaths(|pi|, |ls|);
    if ls == [] {
      var ps := AllPaths(|pi|, 0);
      assert ps[..0] == [] && ps[0] == [];
    } else {
      var prior, l := ls[..|ls| - 1], ls[|ls| - 1];
      assert ls == prior + [l];
      FilterIsExact(pi, share, prior);
      PredictiveArrives(pi, share, prior);
      FilterStepExact(pi, share, prior, l);
    }
  }

  lemma FilterStepExact(pi: seq<real>, share: real, ls: seq<seq<real>>, l: seq<real>)
    requires Model(pi, share, ls) && Model(pi, share, ls + [l]) && |l| == |pi| && Positive(l)
    requires ArePaths(|pi|, |ls|, AllPaths(|pi|, |ls|)) && Exact(pi, share, ls)
    requires Arrives(pi, share, ls, AllPaths(|pi|, |ls|), Predictive(pi, share, ls), Evidence(pi, share, ls))
    ensures ArePaths(|pi|, |ls + [l]|, AllPaths(|pi|, |ls + [l]|))
    ensures Exact(pi, share, ls + [l])
  {
    var ps := AllPaths(|pi|, |ls|);
    var p, e := Predictive(pi, share, ls), Evidence(pi, share, ls);
    UpdatedIsLaw(p, l);
    NextFilter(pi, share, ls, l);
    hide Dot, TotalMass, EndMass, Sum, Updated, Joint, Arriving, Predictive, Posterior, Evidence, PathMass, Arrives, Times;
    MassBelow(pi, share, ls, l, ps, |pi|, p, e);
    assert p[..|pi|] == p && l[..|pi|] == l;
    PositiveProduct(e, Dot(p, l));
    forall j | 0 <= j < |pi|
      ensures Times(Evidence(pi, share, ls + [l]), Posterior(pi, share, ls + [l])[j])
           == EndMass(pi, share, ls + [l], AllPaths(|pi|, |ls + [l]|), j)
    {
      EndMassBelow(pi, share, ls, l, ps, |pi|, p, e, j);
      UpdatedJoint(e, p, l, Dot(p, l), j);
    }
  }

  lemma NextFilter(pi: seq<real>, share: real, ls: seq<seq<real>>, l: seq<real>)
    requires Model(pi, share, ls) && Model(pi, share, ls + [l]) && |l| == |pi| && Positive(l)
    ensures var p := Predictive(pi, share, ls);
      && Evidence(pi, share, ls + [l]) == Times(Evidence(pi, share, ls), Dot(p, l))
      && Dot(p, l) > 0.0 && Posterior(pi, share, ls + [l]) == Updated(p, l, Dot(p, l))
  {
    hide Dot, Sum, Updated, Times, Shared;
    UpdatedIsLaw(Predictive(pi, share, ls), l);
    assert (ls + [l])[..|ls|] == ls;
  }

  lemma UpdatedJoint(e: real, p: seq<real>, l: seq<real>, m: real, j: nat)
    requires |p| == |l| && j < |p| && p[j] >= 0.0 && l[j] > 0.0 && m > 0.0
    ensures Times(Times(e, m), Updated(p, l, m)[j]) == Joint(e, p[j], l[j])
  {
    UpdatedAt(p, l, m, j);
    assert e * m * Updated(p, l, m)[j] == e * (m * Updated(p, l, m)[j]);
  }

  lemma PositiveProduct(x: real, y: real)
    requires x > 0.0 && y > 0.0
    ensures Times(x, y) > 0.0
  {
  }

  // ---- tracking regret ----

  lemma {:induction false} PathMassNonNegative(pi: seq<real>, share: real, ls: seq<seq<real>>, path: seq<nat>)
    requires Model(pi, share, ls) && IsPath(|pi|, |ls|, path)
    ensures PathMass(pi, share, ls, path) >= 0.0
  {
    if path != [] {
      var t := |path| - 1;
      PathMassNonNegative(pi, share, ls[..t], path[..t]);
      hide Joint, Transition;
      if t > 0 { TransitionNonNegative(pi, share, path[t - 1], path[t]); }
      JointNonNegative(PathMass(pi, share, ls[..t], path[..t]),
                       if t == 0 then pi[path[0]] else Transition(pi, share, path[t - 1], path[t]), ls[t][path[t]]);
    }
  }

  lemma TransitionNonNegative(pi: seq<real>, share: real, i: nat, j: nat)
    requires j < |pi| && pi[j] >= 0.0 && 0.0 <= share <= 1.0
    ensures Transition(pi, share, i, j) >= 0.0
  {
    MixNonNegative(share, pi[j], 0.0, 0.0);
  }

  lemma JointNonNegative(m: real, step: real, l: real)
    requires m >= 0.0 && step >= 0.0 && l >= 0.0
    ensures Joint(m, step, l) >= 0.0
  {
    MixNonNegative(m, step, 0.0, 0.0);
    MixNonNegative(m * step, l, 0.0, 0.0);
  }

  lemma {:induction false} OnePathBelowTotal(pi: seq<real>, share: real, ls: seq<seq<real>>, ps: seq<seq<nat>>, path: seq<nat>)
    requires Model(pi, share, ls) && ArePaths(|pi|, |ls|, ps)
    ensures TotalMass(pi, share, ls, ps) >= 0.0
    ensures path in ps ==> PathMass(pi, share, ls, path) <= TotalMass(pi, share, ls, ps)
    decreases |ps|
  {
    if ps != [] {
      OnePathBelowTotal(pi, share, ls, ps[..|ps| - 1], path);
      PathMassNonNegative(pi, share, ls, ps[|ps| - 1]);
      assert ps == ps[..|ps| - 1] + [ps[|ps| - 1]];
    }
  }

  /** How often the path changes state. */
  function Switches(path: seq<nat>): (k: nat)
    ensures path != [] ==> k <= |path| - 1
  {
    if |path| <= 1 then 0
    else Switches(path[..|path| - 1]) + (if path[|path| - 1] != path[|path| - 2] then 1 else 0)
  }

  /** The product of the likelihoods of the states a path follows. */
  ghost function FollowedLikelihood(ls: seq<seq<real>>, path: seq<nat>): real
    requires |path| == |ls| && forall t :: 0 <= t < |ls| ==> path[t] < |ls[t]|
  {
    if path == [] then 1.0
    else Times(FollowedLikelihood(ls[..|ls| - 1], path[..|path| - 1]), ls[|ls| - 1][path[|path| - 1]])
  }

  /** The price of a path of length `length` with `k` switches when every state's share is at least `floor`. */
  function PathPrice(floor: real, share: real, length: nat, k: nat): real
    requires length > 0 && k <= length - 1
  {
    floor * Power(1.0 - share, length - 1 - k) * Power(share * floor, k)
  }

  lemma {:induction false} FollowedPositive(pi: seq<real>, share: real, ls: seq<seq<real>>, path: seq<nat>)
    requires Model(pi, share, ls) && IsPath(|pi|, |ls|, path)
    ensures FollowedLikelihood(ls, path) > 0.0
  {
    if path != [] {
      FollowedPositive(pi, share, ls[..|ls| - 1], path[..|path| - 1]);
    }
  }

  lemma {:induction false} PathMassAtLeastPrice(pi: seq<real>, share: real, floor: real, ls: seq<seq<real>>, path: seq<nat>)
    requires Model(pi, share, ls) && IsPath(|pi|, |ls|, path) && path != []
    requires 0.0 < floor && 0.0 < share < 1.0 && forall j :: 0 <= j < |pi| ==> pi[j] >= floor
    ensures PathMass(pi, share, ls, path)
         >= Times(PathPrice(floor, share, |path|, Switches(path)), FollowedLikelihood(ls, path))
    decreases |path|
  {
    hide PathPrice, Transition, LeastStep, Switches, Times, Joint;
    var t := |path| - 1;
    var l := ls[t][path[t]];
    var before, init := ls[..t], path[..t];
    if t == 0 {
      FirstPrice(floor, share, path, pi[path[0]], l);
    } else {
      PathMassAtLeastPrice(pi, share, floor, before, init);
      FollowedPositive(pi, share, before, init);
      TransitionAtLeast(pi, share, floor, path[t - 1], path[t]);
      PriceGrows(floor, share, path);
      GrowBound(PathMass(pi, share, before, init), PathPrice(floor, share, t, Switches(init)), FollowedLikelihood(before, init),
                Transition(pi, share, path[t - 1], path[t]), LeastStep(floor, share, path[t - 1] == path[t]), l);
    }
  }

  lemma FirstPrice(floor: real, share: real, path: seq<nat>, q: real, l: real)
    requires |path| == 1 && q >= floor && l > 0.0
    ensures Joint(1.0, q, l) >= Times(PathPrice(floor, share, 1, Switches(path)), Times(1.0, l))
  {
    assert q * l >= floor * l;
  }

  /** The least probability of one step of a path. */
  function LeastStep(floor: real, share: real, stay: bool): real
  {
    if stay then 1.0 - share else share * floor
  }

  lemma TransitionAtLeast(pi: seq<real>, share: real, floor: real, i: nat, j: nat)
    requires j < |pi| && 0.0 < floor <= pi[j] && 0.0 < share < 1.0
    ensures Transition(pi, share, i, j) >= LeastStep(floor, share, i == j) > 0.0
  {
    assert share * (pi[j] - floor) >= 0.0;
    PositiveProduct(share, floor);
  }

  lemma PriceGrows(floor: real, share: real, path: seq<nat>)
    requires |path| > 1 && 0.0 < floor && 0.0 < share < 1.0
    ensures var init := path[..|path| - 1];
      && PathPrice(floor, share, |init|, Switches(init)) >= 0.0
      && PathPrice(floor, share, |path|, Switches(path))
         == Times(PathPrice(floor, share, |init|, Switches(init)), LeastStep(floor, share, path[|path| - 2] == path[|path| - 1]))
  {
    var init := path[..|path| - 1];
    var t, k := |init|, Switches(init);
    PositiveProduct(share, floor);
    PowerPositive(1.0 - share, t - 1 - k);
    PowerPositive(share * floor, k);
    var x, y := Power(1.0 - share, t - 1 - k), Power(share * floor, k);
    PositiveProduct(floor, x);
    PositiveProduct(floor * x, y);
    PriceStep(floor, x, y, LeastStep(floor, share, path[|path| - 2] == path[|path| - 1]));
  }

  lemma PriceStep(floor: real, x: real, y: real, least: real)
    ensures floor * (least * x) * y == floor * x * y * least
    ensures floor * x * (least * y) == floor * x * y * least
  {
  }

  lemma GrowBound(m: real, price: real, f: real, a: real, least: real, l: real)
    requires m >= Times(price, f) && price >= 0.0 && f > 0.0 && a >= least > 0.0 && l > 0.0
    ensures Joint(m, a, l) >= Times(Times(price, least), Times(f, l))
  {
    assert price * f >= 0.0;
    assert m * a >= price * f * least by {
      assert m * a >= m * least >= price * f * least;
    }
    assert m * a * l >= price * f * least * l;
    assert price * f * least * l == price * least * (f * l);
  }

  /** TRACKING REGRET. Against any sequence of states with `k` switches, the forecaster's cumulative
      likelihood loses at most the price of the switches. No logarithms are involved. */
  lemma TrackingBound(pi: seq<real>, share: real, floor: real, ls: seq<seq<real>>, path: seq<nat>)
    requires Model(pi, share, ls) && IsPath(|pi|, |ls|, path) && path != []
    requires 0.0 < floor && 0.0 < share < 1.0 && forall j :: 0 <= j < |pi| ==> pi[j] >= floor
    ensures Evidence(pi, share, ls)
         >= Times(PathPrice(floor, share, |path|, Switches(path)), FollowedLikelihood(ls, path))
  {
    FilterIsExact(pi, share, ls);
    AllPathsComplete(|pi|, |ls|, path);
    OnePathBelowTotal(pi, share, ls, AllPaths(|pi|, |ls|), path);
    PathMassAtLeastPrice(pi, share, floor, ls, path);
  }
}

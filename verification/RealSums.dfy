/** Finite sums and powers of reals, as the numeric loops of the repository accumulate them. */
module RealSums {

  /** How far the total of a stored or predicted law may be from one. */
  const TOLERANCE: real := 0.000_000_001

  /** Left-to-right accumulation, the order every summing loop uses. */
  function Sum(s: seq<real>): real
  {
    if s == [] then 0.0 else Sum(s[..|s| - 1]) + s[|s| - 1]
  }

  function Abs(x: real): (a: real)
    ensures a >= 0.0 && (a == x || a == -x)
  {
    if x < 0.0 then -x else x
  }

  function Max(x: real, y: real): real { if x < y then y else x }

  function Min(x: real, y: real): real { if y < x then y else x }

  function Power(x: real, n: nat): real
  {
    if n == 0 then 1.0 else x * Power(x, n - 1)
  }

  /** Inner product of two equally long vectors. */
  function Dot(u: seq<real>, v: seq<real>): real
    requires |u| == |v|
  {
    if u == [] then 0.0 else Dot(u[..|u| - 1], v[..|v| - 1]) + Times(u[|u| - 1], v[|v| - 1])
  }

  /** A product, named so that proofs can keep it folded. */
  function Times(x: real, y: real): real { x * y }

  /** Mass so far, times the probability of the step, times the likelihood of the outcome. */
  function Joint(m: real, step: real, l: real): real { m * step * l }

  ghost predicate NonNegative(s: seq<real>) { forall i :: 0 <= i < |s| ==> s[i] >= 0.0 }

  ghost predicate Positive(s: seq<real>) { forall i :: 0 <= i < |s| ==> s[i] > 0.0 }

  /** A finite probability law. */
  ghost predicate IsLaw(s: seq<real>) { NonNegative(s) && Sum(s) == 1.0 }

  lemma SumStep(s: seq<real>, k: nat)
    requires k < |s|
    ensures Sum(s[..k + 1]) == Sum(s[..k]) + s[k]
  {
    assert s[..k + 1][..k] == s[..k];
  }

  lemma DotStep(u: seq<real>, v: seq<real>, k: nat)
    requires |u| == |v| && k < |u|
    ensures Dot(u[..k + 1], v[..k + 1]) == Dot(u[..k], v[..k]) + Times(u[k], v[k])
  {
    hide Times;
    assert u[..k + 1][..k] == u[..k];
    assert v[..k + 1][..k] == v[..k];
  }

  lemma {:induction false} SumNonNegative(s: seq<real>)
    requires NonNegative(s)
    ensures Sum(s) >= 0.0
    ensures forall i :: 0 <= i < |s| ==> s[i] <= Sum(s)
  {
    if s != [] {
      SumNonNegative(s[..|s| - 1]);
      forall i | 0 <= i < |s| ensures s[i] <= Sum(s) {
        if i < |s| - 1 { assert s[..|s| - 1][i] == s[i]; }
      }
    }
  }

  lemma {:induction false} SumLinear(a: real, s: seq<real>, b: real, t: seq<real>, u: seq<real>)
    requires |s| == |t| == |u|
    requires forall i :: 0 <= i < |s| ==> u[i] == a * s[i] + b * t[i]
    ensures Sum(u) == a * Sum(s) + b * Sum(t)
  {
    if s != [] {
      var k := |s| - 1;
      SumLinear(a, s[..k], b, t[..k], u[..k]);
      assert u[k] == a * s[k] + b * t[k];
    }
  }

  lemma {:induction false} SumScaled(a: real, s: seq<real>, u: seq<real>)
    requires |s| == |u|
    requires forall i :: 0 <= i < |s| ==> u[i] == a * s[i]
    ensures Sum(u) == a * Sum(s)
  {
    SumLinear(a, s, 0.0, s, u);
  }

  lemma {:induction false} SumSet(s: seq<real>, i: nat, d: real)
    requires i < |s|
    ensures Sum(s[i := s[i] + d]) == Sum(s) + d
  {
    var k, t := |s| - 1, s[i := s[i] + d];
    if i < k {
      SumSet(s[..k], i, d);
      assert t[..k] == s[..k][i := s[i] + d];
    } else {
      assert t[..k] == s[..k];
    }
  }

  lemma {:induction false} SumConstant(s: seq<real>, c: real)
    requires forall i :: 0 <= i < |s| ==> s[i] == c
    ensures Sum(s) == |s| as real * c
  {
    if s != [] { SumConstant(s[..|s| - 1], c); }
  }

  lemma {:induction false} SumMonotone(s: seq<real>, t: seq<real>)
    requires |s| == |t|
    requires forall i :: 0 <= i < |s| ==> s[i] <= t[i]
    ensures Sum(s) <= Sum(t)
  {
    if s != [] {
      SumMonotone(s[..|s| - 1], t[..|s| - 1]);
    }
  }

  lemma {:induction false} DotIsSum(u: seq<real>, v: seq<real>, p: seq<real>)
    requires |u| == |v| == |p|
    requires forall i :: 0 <= i < |u| ==> p[i] == Times(u[i], v[i])
    ensures Dot(u, v) == Sum(p)
  {
    hide Times;
    if u != [] {
      var k := |u| - 1;
      DotIsSum(u[..k], v[..k], p[..k]);
    }
  }

  /** A law's average of values between `lo` and `hi` stays between them. */
  lemma {:induction false} DotBetween(u: seq<real>, v: seq<real>, lo: real, hi: real)
    requires |u| == |v| && NonNegative(u)
    requires forall i :: 0 <= i < |v| ==> lo <= v[i] <= hi
    ensures lo * Sum(u) <= Dot(u, v) <= hi * Sum(u)
  {
    hide Sum, Dot, Times;
    Unfold(u, v);
    if u != [] {
      var k := |u| - 1;
      DotBetween(u[..k], v[..k], lo, hi);
      BetweenStep(lo, hi, Sum(u[..k]), Dot(u[..k], v[..k]), u[k], v[k]);
    }
  }

  lemma Unfold(u: seq<real>, v: seq<real>)
    requires |u| == |v|
    ensures u == [] ==> Sum(u) == 0.0 && Dot(u, v) == 0.0
    ensures u != [] ==> var k := |u| - 1;
      Sum(u) == Sum(u[..k]) + u[k] && Dot(u, v) == Dot(u[..k], v[..k]) + Times(u[k], v[k])
  {
    hide Times;
  }

  lemma BetweenStep(lo: real, hi: real, s: real, d: real, x: real, y: real)
    requires lo * s <= d <= hi * s && x >= 0.0 && lo <= y <= hi
    ensures lo * (s + x) <= d + Times(x, y) <= hi * (s + x)
  {
    assert x * (y - lo) >= 0.0 && x * (hi - y) >= 0.0;
  }

  /** The average of a positive quantity under a law is positive. */
  lemma {:induction false} DotPositive(u: seq<real>, v: seq<real>)
    requires |u| == |v| && NonNegative(u) && Positive(v)
    ensures Dot(u, v) >= 0.0
    ensures Sum(u) > 0.0 ==> Dot(u, v) > 0.0
  {
    if u != [] {
      var k := |u| - 1;
      DotPositive(u[..k], v[..k]);
      assert u[k] * v[k] >= 0.0;
      if Sum(u) > 0.0 && u[k] > 0.0 {
        assert u[k] * v[k] > 0.0;
      }
    }
  }

  lemma {:induction false} DotComplement(u: seq<real>, v: seq<real>, w: seq<real>)
    requires |u| == |v| == |w|
    requires forall i :: 0 <= i < |v| ==> w[i] == 1.0 - v[i]
    ensures Dot(u, w) == Sum(u) - Dot(u, v)
  {
    if u != [] {
      var k := |u| - 1;
      DotComplement(u[..k], v[..k], w[..k]);
      assert u[k] * w[k] == u[k] - u[k] * v[k];
    }
  }

  lemma ProductNonNegative(x: real, y: real)
    requires x >= 0.0 && y >= 0.0
    ensures x * y >= 0.0
  {
  }

  lemma {:induction false} PowerPositive(x: real, n: nat)
    requires x > 0.0
    ensures Power(x, n) > 0.0
  {
    if n > 0 { PowerPositive(x, n - 1); }
  }

  /** Dividing every entry by `s`. */
  ghost function Normalised(w: seq<real>, s: real): (n: seq<real>)
    requires s > 0.0
    ensures |n| == |w|
  {
    seq(|w|, j requires 0 <= j < |w| => w[j] / s)
  }

  /** Dividing non-negative entries by their positive sum gives a law. */
  lemma NormalisedIsLaw(w: seq<real>, s: real)
    requires NonNegative(w) && s == Sum(w) > 0.0
    ensures IsLaw(Normalised(w, s))
  {
    hide Normalised;
    var n := Normalised(w, s);
    forall j | 0 <= j < |w| ensures n[j] >= 0.0 && w[j] == s * n[j] {
      NormalisedAt(w, s, j);
    }
    SumScaled(s, n, w);
    CancelFactor(s, Sum(n), Sum(w));
  }

  lemma NormalisedAt(w: seq<real>, s: real, j: nat)
    requires s > 0.0 && j < |w| && w[j] >= 0.0
    ensures Normalised(w, s)[j] >= 0.0 && w[j] == s * Normalised(w, s)[j]
  {
    QuotientTimes(w[j], s);
  }

  lemma CancelFactor(m: real, s: real, p: real)
    requires m > 0.0 && p == m * s && p == m
    ensures s == 1.0
  {
  }

  lemma QuotientTimes(x: real, m: real)
    requires m > 0.0
    ensures m * (x / m) == x
    ensures x >= 0.0 ==> x / m >= 0.0
  {
  }
}

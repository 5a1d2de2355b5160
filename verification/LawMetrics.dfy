/** Distances between finite laws, as the sensitivity and translation audits compute them
    (internal/fuzzing/fuzzing.go, internal/translation/evaluate.go). */
module LawMetrics {
  import opened RealSums

  predicate UnitValues(law: seq<real>) { forall i :: 0 <= i < |law| ==> 0.0 <= law[i] <= 1.0 }

  /** Probabilities whose mass is 1 to within the tolerance. */
  predicate NearLaw(law: seq<real>, size: nat) {
    |law| == size && UnitValues(law) && Abs(Sum(law) - 1.0) <= TOLERANCE
  }

  method ValidateLaw(law: seq<real>, size: nat) returns (ok: bool)
    ensures ok <==> NearLaw(law, size) && law != []
  {
    if |law| != size || |law| == 0 { return false; }
    var total := 0.0;
    for i := 0 to |law|
      invariant total == Sum(law[..i]) && UnitValues(law[..i])
    {
      if law[i] < 0.0 || law[i] > 1.0 { return false; }
      SumStep(law, i);
      assert law[..i + 1] == law[..i] + [law[i]];
      total := total + law[i];
    }
    assert law[..|law|] == law;
    ok := Abs(total - 1.0) <= TOLERANCE;
  }

  /** Half the total of the absolute differences. */
  function Variation(a: seq<real>, b: seq<real>): real
    requires |a| == |b|
  {
    if a == [] then 0.0
    else Variation(a[..|a| - 1], b[..|b| - 1]) + Abs(a[|a| - 1] - b[|b| - 1]) / 2.0
  }

  lemma VariationStep(a: seq<real>, b: seq<real>, i: nat)
    requires |a| == |b| && i < |a|
    ensures Variation(a[..i + 1], b[..i + 1]) == Variation(a[..i], b[..i]) + Abs(a[i] - b[i]) / 2.0
  {
    assert a[..i + 1][..i] == a[..i] && b[..i + 1][..i] == b[..i];
  }

  method LawDistance(left: seq<real>, right: seq<real>)
    returns (totalVariation: real, maxMovement: real, maxIndex: nat)
    requires |left| == |right|
    ensures totalVariation == Variation(left, right)
    ensures left == [] ==> maxMovement == 0.0 && maxIndex == 0
    ensures left != [] ==> maxIndex < |left| && maxMovement == Abs(left[maxIndex] - right[maxIndex])
    ensures forall j :: 0 <= j < |left| ==> Abs(left[j] - right[j]) <= maxMovement
    ensures forall j :: 0 <= j < maxIndex ==> Abs(left[j] - right[j]) < maxMovement
  {
    totalVariation, maxMovement, maxIndex := 0.0, 0.0, 0;
    for i := 0 to |left|
      invariant totalVariation == Variation(left[..i], right[..i])
      invariant maxIndex == 0 || maxIndex < i
      invariant i == 0 ==> maxMovement == 0.0
      invariant i > 0 ==> maxMovement == Abs(left[maxIndex] - right[maxIndex])
      invariant forall j :: 0 <= j < i ==> Abs(left[j] - right[j]) <= maxMovement
      invariant forall j :: 0 <= j < maxIndex ==> Abs(left[j] - right[j]) < maxMovement
    {
      VariationStep(left, right, i);
      var movement := Abs(left[i] - right[i]);
      totalVariation := totalVariation + movement / 2.0;
      if movement > maxMovement { maxMovement, maxIndex := movement, i; }
    }
    assert left[..|left|] == left && right[..|right|] == right;
  }

  // ---- what the distance means ----

  /** How much more likely the event `chosen` is under `a` than under `b`. */
  function Gap(a: seq<real>, b: seq<real>, chosen: seq<bool>): real
    requires |a| == |b| == |chosen|
  {
    if a == [] then 0.0
    else
      var n := |a| - 1;
      Gap(a[..n], b[..n], chosen[..n]) + (if chosen[n] then a[n] - b[n] else 0.0)
  }

  /** No event's probability differs by more than the distance, give or take half the difference in mass. */
  lemma {:induction false} GapBound(a: seq<real>, b: seq<real>, chosen: seq<bool>)
    requires |a| == |b| == |chosen|
    ensures Abs(2.0 * Gap(a, b, chosen) - (Sum(a) - Sum(b))) <= 2.0 * Variation(a, b)
  {
    if a != [] {
      var n := |a| - 1;
      GapBound(a[..n], b[..n], chosen[..n]);
    }
  }

  /** Where `a` is the larger. */
  function Larger(a: seq<real>, b: seq<real>): (chosen: seq<bool>)
    requires |a| == |b|
    ensures |chosen| == |a| && forall i :: 0 <= i < |a| ==> chosen[i] == (a[i] > b[i])
  {
    seq(|a|, i requires 0 <= i < |a| => a[i] > b[i])
  }

  /** TOTAL VARIATION. The distance is attained, at the event where `a` is the larger. */
  lemma {:induction false} GapAttained(a: seq<real>, b: seq<real>)
    requires |a| == |b|
    ensures 2.0 * Gap(a, b, Larger(a, b)) - (Sum(a) - Sum(b)) == 2.0 * Variation(a, b)
  {
    if a != [] {
      var n := |a| - 1;
      GapAttained(a[..n], b[..n]);
      assert Larger(a, b)[..n] == Larger(a[..n], b[..n]);
    }
  }

  function Only(n: nat, k: nat): (chosen: seq<bool>)
    ensures |chosen| == n && forall i :: 0 <= i < n ==> chosen[i] == (i == k)
  {
    seq(n, i => i == k)
  }

  lemma {:induction false} GapOfOne(a: seq<real>, b: seq<real>, k: nat)
    requires |a| == |b|
    ensures Gap(a, b, Only(|a|, k)) == if k < |a| then a[k] - b[k] else 0.0
  {
    if a != [] {
      var n := |a| - 1;
      GapOfOne(a[..n], b[..n], k);
      assert Only(|a|, k)[..n] == Only(n, k);
    }
  }

  /** A single coordinate moves at most by the distance plus half the difference in mass. */
  lemma CoordinateBound(a: seq<real>, b: seq<real>, k: nat)
    requires |a| == |b| && k < |a|
    ensures Abs(a[k] - b[k]) <= Variation(a, b) + Abs(Sum(a) - Sum(b)) / 2.0
  {
    GapBound(a, b, Only(|a|, k));
    GapOfOne(a, b, k);
  }

  lemma {:induction false} VariationLaw(a: seq<real>, b: seq<real>)
    requires |a| == |b|
    ensures Variation(a, b) == Variation(b, a) >= 0.0
    ensures Variation(a, b) == 0.0 <==> a == b
  {
    if a != [] {
      var n := |a| - 1;
      VariationLaw(a[..n], b[..n]);
      assert a == a[..n] + [a[n]] && b == b[..n] + [b[n]];
    }
  }

  lemma {:induction false} VariationByMass(a: seq<real>, b: seq<real>)
    requires |a| == |b| && UnitValues(a) && UnitValues(b)
    ensures Variation(a, b) <= (Sum(a) + Sum(b)) / 2.0
  {
    if a != [] { VariationByMass(a[..|a| - 1], b[..|b| - 1]); }
  }

  /** For validated laws the largest movement is at most the distance and the distance at most 1, up to the mass
      tolerance; for laws of mass exactly 1, without it. */
  lemma MovementBelowVariation(a: seq<real>, b: seq<real>, k: nat)
    requires |a| == |b| && k < |a| && NearLaw(a, |a|) && NearLaw(b, |b|)
    ensures Abs(a[k] - b[k]) <= Variation(a, b) + TOLERANCE && Variation(a, b) <= 1.0 + TOLERANCE
    ensures Sum(a) == Sum(b) == 1.0 ==> Abs(a[k] - b[k]) <= Variation(a, b) <= 1.0
  {
    CoordinateBound(a, b, k);
    VariationByMass(a, b);
    hide Sum, Variation;
  }

  // ---- comparing two movements ----

  function Effect(before: seq<real>, after: seq<real>): (e: seq<real>)
    requires |before| == |after|
    ensures |e| == |before| && forall i :: 0 <= i < |e| ==> e[i] == after[i] - before[i]
  {
    seq(|before|, i requires 0 <= i < |before| => after[i] - before[i])
  }

  method PredictionMetrics(a0: seq<real>, a1: seq<real>, b0: seq<real>, b1: seq<real>)
    returns (aMovement: real, bMovement: real, defect: real)
    requires |a0| == |a1| == |b0| == |b1|
    ensures aMovement == Variation(a0, a1) && bMovement == Variation(b0, b1)
    ensures defect == Variation(Effect(a0, a1), Effect(b0, b1))
  {
    aMovement, bMovement, defect := 0.0, 0.0, 0.0;
    ghost var ea, eb := Effect(a0, a1), Effect(b0, b1);
    for i := 0 to |a0|
      invariant aMovement == Variation(a0[..i], a1[..i]) && bMovement == Variation(b0[..i], b1[..i])
      invariant defect == Variation(ea[..i], eb[..i])
    {
      VariationStep(a0, a1, i);
      VariationStep(b0, b1, i);
      VariationStep(ea, eb, i);
      var aEffect := a1[i] - a0[i];
      var bEffect := b1[i] - b0[i];
      aMovement := aMovement + Abs(aEffect) / 2.0;
      bMovement := bMovement + Abs(bEffect) / 2.0;
      defect := defect + Abs(aEffect - bEffect) / 2.0;
    }
    assert a0[..|a0|] == a0 && a1[..|a0|] == a1 && b0[..|a0|] == b0 && b1[..|a0|] == b1;
    assert ea[..|a0|] == ea && eb[..|a0|] == eb;
  }

  lemma DefectTerm(a: real, b: real, d: real, x0: real, x1: real, y0: real, y1: real)
    requires Abs(a - b) <= d <= a + b
    ensures Abs((a + Abs(x0 - x1) / 2.0) - (b + Abs(y0 - y1) / 2.0))
         <= d + Abs((x1 - x0) - (y1 - y0)) / 2.0
         <= (a + Abs(x0 - x1) / 2.0) + (b + Abs(y0 - y1) / 2.0)
  {
  }

  /** The defect is at least the difference of the two movements and at most their sum. */
  lemma {:induction false} DefectBounds(a0: seq<real>, a1: seq<real>, b0: seq<real>, b1: seq<real>)
    requires |a0| == |a1| == |b0| == |b1|
    ensures var defect := Variation(Effect(a0, a1), Effect(b0, b1));
      Abs(Variation(a0, a1) - Variation(b0, b1)) <= defect <= Variation(a0, a1) + Variation(b0, b1)
  {
    if a0 == [] {
      assert Effect(a0, a1) == [] == Effect(b0, b1);
    } else {
      hide *;
      var n := |a0| - 1;
      DefectBounds(a0[..n], a1[..n], b0[..n], b1[..n]);
      EffectInit(a0, a1);
      EffectInit(b0, b1);
      VariationLast(a0, a1);
      VariationLast(b0, b1);
      VariationLast(Effect(a0, a1), Effect(b0, b1));
      DefectTerm(Variation(a0[..n], a1[..n]), Variation(b0[..n], b1[..n]),
                 Variation(Effect(a0[..n], a1[..n]), Effect(b0[..n], b1[..n])), a0[n], a1[n], b0[n], b1[n]);
    }
  }

  lemma VariationLast(a: seq<real>, b: seq<real>)
    requires |a| == |b| && a != []
    ensures var n := |a| - 1; Variation(a, b) == Variation(a[..n], b[..n]) + Abs(a[n] - b[n]) / 2.0
  {
  }

  lemma EffectInit(before: seq<real>, after: seq<real>)
    requires |before| == |after| && before != []
    ensures var n := |before| - 1; Effect(before, after)[..n] == Effect(before[..n], after[..n])
  {
  }

  lemma {:induction false} EffectMass(before: seq<real>, after: seq<real>)
    requires |before| == |after|
    ensures Sum(Effect(before, after)) == Sum(after) - Sum(before)
  {
    if before != [] {
      var n := |before| - 1;
      EffectMass(before[..n], after[..n]);
      assert Effect(before, after)[..n] == Effect(before[..n], after[..n]);
    }
  }

  lemma NearMass(law: seq<real>)
    requires NearLaw(law, |law|)
    ensures -TOLERANCE <= Sum(law) - 1.0 <= TOLERANCE
  {
    hide Sum;
  }

  lemma Drift(x0: real, x1: real, y0: real, y1: real, t: real)
    requires -t <= x0 - 1.0 <= t && -t <= x1 - 1.0 <= t && -t <= y0 - 1.0 <= t && -t <= y1 - 1.0 <= t
    ensures Abs((x1 - x0) - (y1 - y0)) <= 4.0 * t
    ensures x0 == x1 == y0 == y1 ==> Abs((x1 - x0) - (y1 - y0)) == 0.0
  {
  }

  /** How much total mass the first movement adds beyond the second. */
  ghost function Drifted(a0: seq<real>, a1: seq<real>, b0: seq<real>, b1: seq<real>): real
    requires |a0| == |a1| == |b0| == |b1|
  {
    (Sum(a1) - Sum(a0)) - (Sum(b1) - Sum(b0))
  }

  lemma DriftOfLaws(a0: seq<real>, a1: seq<real>, b0: seq<real>, b1: seq<real>)
    requires |a0| == |a1| == |b0| == |b1|
    requires NearLaw(a0, |a0|) && NearLaw(a1, |a0|) && NearLaw(b0, |a0|) && NearLaw(b1, |a0|)
    ensures Abs(Drifted(a0, a1, b0, b1)) <= 4.0 * TOLERANCE
    ensures Sum(a0) == Sum(a1) == Sum(b0) == Sum(b1) ==> Abs(Drifted(a0, a1, b0, b1)) == 0.0
  {
    hide Sum, NearLaw, Abs;
    NearMass(a0);
    NearMass(a1);
    NearMass(b0);
    NearMass(b1);
    Drift(Sum(a0), Sum(a1), Sum(b0), Sum(b1), TOLERANCE);
  }

  function Mismatch(a0: seq<real>, a1: seq<real>, b0: seq<real>, b1: seq<real>, k: nat): real
    requires k < |a0| == |a1| == |b0| == |b1|
  {
    Abs((a1[k] - a0[k]) - (b1[k] - b0[k]))
  }

  /** At any one stage the two effects differ by no more than the defect plus half the difference in mass drift. */
  lemma MismatchBelowDefect(a0: seq<real>, a1: seq<real>, b0: seq<real>, b1: seq<real>, k: nat)
    requires k < |a0| == |a1| == |b0| == |b1|
    ensures Mismatch(a0, a1, b0, b1, k)
         <= Variation(Effect(a0, a1), Effect(b0, b1)) + Abs(Drifted(a0, a1, b0, b1)) / 2.0
  {
    var ea, eb := Effect(a0, a1), Effect(b0, b1);
    EffectMass(a0, a1);
    EffectMass(b0, b1);
    CoordinateBound(ea, eb, k);
    hide Sum, Variation, Abs, Effect;
    assert ea[k] - eb[k] == (a1[k] - a0[k]) - (b1[k] - b0[k]);
  }
}

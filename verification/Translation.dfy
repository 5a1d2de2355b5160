/** The chain translation audit (internal/translation/evaluate.go): does a declared upstream change carry through two
    aligned chains of events, and does it move the two predictions alike? */
module Translation {
  import opened Prelude
  import opened RealSums
  import opened LawMetrics

  const MAX_STAGES := 32

  datatype Field = Who | What | Where | When | Why | How | Unknown

  /** `valid` is the event's own validation; times are nanoseconds since the zero time. */
  datatype Event = Event(
    id: string, tenant: string, occurredAt: int, availableAt: int, valid: bool,
    who: string, what: string, whereabouts: string, moment: string, why: string, how: string)

  type Chain = seq<Event>

  datatype StageMap = StageMap(
    stage: int, aField: Field, bField: Field, aBefore: string, aAfter: string, bBefore: string, bAfter: string,
    correspondence: string, evidence: string)

  /** The identities requested for the four chains, then the audit itself. */
  datatype Request = Request(
    tenant: string, query: string, asOf: int, a0: seq<string>, a1: seq<string>, b0: seq<string>, b1: seq<string>,
    invariantThreshold: real, translationThreshold: real, maps: seq<StageMap>)

  datatype Chains = Chains(a0: Chain, a1: Chain, b0: Chain, b1: Chain)

  /** What the predictor answered for each chain; `None` where it failed. */
  datatype Answers = Answers(a0: Option<seq<real>>, a1: Option<seq<real>>, b0: Option<seq<real>>, b1: Option<seq<real>>)

  datatype Class = Divergence | HigherOrderInvariant | PredictiveTranslation

  datatype Response =
    | BadRequest
    | PredictionFailed
    | Audit(verdict: Class, evaluated: bool, aMovement: real, bMovement: real, defect: real, terminalAgreement: bool)

  function FieldValue(e: Event, f: Field): string {
    match f
    case Who => e.who
    case What => e.what
    case Where => e.whereabouts
    case When => e.moment
    case Why => e.why
    case How => e.how
    case Unknown => ""
  }

  // ---- one stage ----

  /** Nothing but the allowed field changes, and that one changes as expected. */
  ghost predicate Local(before: Event, after: Event, allowed: Field, expectedChange: bool) {
    && (forall f :: f != allowed ==> FieldValue(before, f) == FieldValue(after, f))
    && (FieldValue(before, allowed) != FieldValue(after, allowed)) == expectedChange
  }

  const FIELDS := [Who, What, Where, When, Why, How]

  method LocalTransition(before: Event, after: Event, allowed: Field, expectedChange: bool) returns (ok: bool)
    ensures ok <==> Local(before, after, allowed, expectedChange)
  {
    var changed := false;
    for i := 0 to 6
      invariant forall k :: 0 <= k < i && FIELDS[k] != allowed ==>
        FieldValue(before, FIELDS[k]) == FieldValue(after, FIELDS[k])
      invariant changed <==> exists k :: 0 <= k < i && FIELDS[k] == allowed
                                         && FieldValue(before, allowed) != FieldValue(after, allowed)
    {
      var equal := FieldValue(before, FIELDS[i]) == FieldValue(after, FIELDS[i]);
      if FIELDS[i] == allowed {
        changed := !equal;
      } else if !equal {
        return false;
      }
    }
    AllFields(allowed);
    forall f | f != allowed ensures FieldValue(before, f) == FieldValue(after, f) { AllFields(f); }
    ok := changed == expectedChange;
  }

  lemma AllFields(f: Field)
    ensures f == Unknown || exists k :: 0 <= k < 6 && FIELDS[k] == f
  {
    match f
    case Who => assert FIELDS[0] == f;
    case What => assert FIELDS[1] == f;
    case Where => assert FIELDS[2] == f;
    case When => assert FIELDS[3] == f;
    case Why => assert FIELDS[4] == f;
    case How => assert FIELDS[5] == f;
    case Unknown =>
  }

  /** The event pair carries exactly the declared change of its mapped field. */
  ghost predicate Carries(before: Event, after: Event, f: Field, from: string, into: string) {
    && FieldValue(before, f) == from && FieldValue(after, f) == into
    && forall g :: g != f ==> FieldValue(before, g) == FieldValue(after, g)
  }

  datatype StageResult = StageResult(aChanged: bool, bChanged: bool, aLocal: bool, bLocal: bool, commuting: bool)

  method EvaluateStage(m: StageMap, a0: Event, a1: Event, b0: Event, b1: Event) returns (r: StageResult)
    ensures r.aChanged == (m.aBefore != m.aAfter) && r.bChanged == (m.bBefore != m.bAfter)
    ensures r.commuting <==>
      Carries(a0, a1, m.aField, m.aBefore, m.aAfter) && Carries(b0, b1, m.bField, m.bBefore, m.bAfter)
    ensures r.commuting ==> r.aLocal && r.bLocal
    ensures r.aLocal <==> Local(a0, a1, m.aField, r.aChanged)
    ensures r.bLocal <==> Local(b0, b1, m.bField, r.bChanged)
  {
    hide FieldValue;
    var aChanged, bChanged := m.aBefore != m.aAfter, m.bBefore != m.bAfter;
    var aLocal := LocalTransition(a0, a1, m.aField, aChanged);
    var bLocal := LocalTransition(b0, b1, m.bField, bChanged);
    var before := FieldValue(a0, m.aField) == m.aBefore && FieldValue(b0, m.bField) == m.bBefore;
    var after := FieldValue(a1, m.aField) == m.aAfter && FieldValue(b1, m.bField) == m.bAfter;
    r := StageResult(aChanged, bChanged, aLocal, bLocal, aLocal && bLocal && before && after);
  }

  // ---- the request ----

  const WHITE_SPACE: set<char> := {' ', '\t', '\n', '\r', '\U{000B}', '\U{000C}'}

  predicate Blank(s: string) { forall i :: 0 <= i < |s| ==> s[i] in WHITE_SPACE }

  /** The event is the one requested, sound, of this tenant, and was available. */
  predicate EventOk(e: Event, requested: string, tenant: string, asOf: int) {
    e.id == requested && e.valid && e.tenant == tenant && e.availableAt <= asOf
  }

  /** Events of one chain happen one after another and become available in that order. */
  ghost predicate ChainOk(chain: Chain, requested: seq<string>, tenant: string, asOf: int) {
    && |chain| == |requested|
    && (forall i :: 0 <= i < |chain| ==> EventOk(chain[i], requested[i], tenant, asOf))
    && (forall i, j :: 0 <= i < j < |chain| ==>
          chain[i].occurredAt < chain[j].occurredAt && chain[i].availableAt <= chain[j].availableAt)
  }

  function IdsOf(chain: Chain): (ids: seq<string>)
    ensures |ids| == |chain| && forall i :: 0 <= i < |chain| ==> ids[i] == chain[i].id
  {
    seq(|chain|, i requires 0 <= i < |chain| => chain[i].id)
  }

  ghost predicate WellStated(r: Request, c: Chains) {
    var n := |r.maps|;
    && !Blank(r.tenant) && !Blank(r.query) && r.asOf != 0
    && 2 <= n <= MAX_STAGES && |c.a0| == n && |c.a1| == n && |c.b0| == n && |c.b1| == n
    && 0.0 < r.invariantThreshold <= 1.0 && 0.0 < r.translationThreshold <= 1.0
    && ChainOk(c.a0, r.a0, r.tenant, r.asOf) && ChainOk(c.a1, r.a1, r.tenant, r.asOf)
    && ChainOk(c.b0, r.b0, r.tenant, r.asOf) && ChainOk(c.b1, r.b1, r.tenant, r.asOf)
    && Distinct(IdsOf(c.a0 + c.a1 + c.b0 + c.b1))
    && MapsOk(r.maps)
  }

  ghost predicate MapsOk(maps: seq<StageMap>) {
    && (forall i :: 0 <= i < |maps| ==> MapOk(maps[i], i))
    && (forall i, j :: 0 <= i < j < |maps| ==> maps[i].correspondence != maps[j].correspondence)
  }

  predicate MapOk(m: StageMap, i: nat) {
    && m.stage == i && m.aField != Unknown && m.bField != Unknown && !Blank(m.correspondence) && !Blank(m.evidence)
    && ((m.aBefore != m.aAfter) == (m.bBefore != m.bAfter))
    && (i == 0 ==> m.aBefore != m.aAfter)
  }

  /** The first `n` events are fine, one after another, new and different. */
  ghost predicate ChainSoFar(chain: Chain, requested: seq<string>, tenant: string, asOf: int, seen: set<string>, n: nat)
    requires n <= |chain| == |requested|
  {
    && (forall i :: 0 <= i < n ==> EventOk(chain[i], requested[i], tenant, asOf) && chain[i].id !in seen)
    && (forall i, j :: 0 <= i < j < n ==> Follows(chain[i], chain[j]))
  }

  predicate Follows(earlier: Event, later: Event) {
    earlier.id != later.id && earlier.occurredAt < later.occurredAt && earlier.availableAt <= later.availableAt
  }

  lemma ChainComplete(chain: Chain, requested: seq<string>, tenant: string, asOf: int, seen: set<string>)
    requires |chain| == |requested|
    ensures ChainSoFar(chain, requested, tenant, asOf, seen, |chain|)
       <==> ChainOk(chain, requested, tenant, asOf) && Distinct(IdsOf(chain)) && (forall i :: 0 <= i < |chain| ==> chain[i].id !in seen)
  {
    hide EventOk;
  }

  /** One more event is fine when it is so itself, is new, and follows the last one. */
  lemma ChainContinues(chain: Chain, requested: seq<string>, tenant: string, asOf: int, seen: set<string>, n: nat)
    requires n < |chain| == |requested| && ChainSoFar(chain, requested, tenant, asOf, seen, n)
    ensures ChainSoFar(chain, requested, tenant, asOf, seen, n + 1)
       <==> && EventOk(chain[n], requested[n], tenant, asOf) && chain[n].id !in seen
            && (forall i :: 0 <= i < n ==> chain[i].id != chain[n].id)
            && (n > 0 ==> chain[n - 1].occurredAt < chain[n].occurredAt && chain[n - 1].availableAt <= chain[n].availableAt)
    ensures ChainSoFar(chain, requested, tenant, asOf, seen, |chain|) ==> ChainSoFar(chain, requested, tenant, asOf, seen, n + 1)
  {
    hide EventOk;
    if n > 0 { assert forall i :: 0 <= i < n - 1 ==> Follows(chain[i], chain[n - 1]); }
  }

  /** Checks the events of one chain, none of which may be among those already `seen`. */
  method ValidateChain(chain: Chain, requested: seq<string>, tenant: string, asOf: int, seen: set<string>)
    returns (ok: bool, all: set<string>)
    requires |chain| == |requested|
    ensures ok <==>
      ChainOk(chain, requested, tenant, asOf) && Distinct(IdsOf(chain)) && forall i :: 0 <= i < |chain| ==> chain[i].id !in seen
    ensures ok ==> forall id :: id in all <==> id in seen || exists i :: 0 <= i < |chain| && chain[i].id == id
  {
    hide EventOk, ChainSoFar, ChainOk, Distinct, IdsOf, Follows;
    all := seen;
    ChainStarts(chain, requested, tenant, asOf, seen);
    ChainComplete(chain, requested, tenant, asOf, seen);
    for i := 0 to |chain|
      invariant ChainSoFar(chain, requested, tenant, asOf, seen, i)
      invariant forall id :: id in all <==> id in seen || exists k :: 0 <= k < i && chain[k].id == id
    {
      ChainContinues(chain, requested, tenant, asOf, seen, i);
      var e := chain[i];
      if !EventOk(e, requested[i], tenant, asOf) || e.id in all { return false, all; }
      all := all + {e.id};
      if i > 0 && (e.occurredAt <= chain[i - 1].occurredAt || e.availableAt < chain[i - 1].availableAt) { return false, all; }
    }
    ok := true;
  }

  lemma ChainStarts(chain: Chain, requested: seq<string>, tenant: string, asOf: int, seen: set<string>)
    requires |chain| == |requested|
    ensures ChainSoFar(chain, requested, tenant, asOf, seen, 0)
  {
  }

  method ValidateMaps(maps: seq<StageMap>) returns (ok: bool)
    ensures ok <==> MapsOk(maps)
  {
    hide Blank;
    var correspondences: set<string> := {};
    for i := 0 to |maps|
      invariant forall k :: 0 <= k < i ==> MapOk(maps[k], k) && maps[k].correspondence in correspondences
      invariant forall x :: x in correspondences ==> exists k :: 0 <= k < i && maps[k].correspondence == x
      invariant forall j, k :: 0 <= j < k < i ==> maps[j].correspondence != maps[k].correspondence
    {
      var m := maps[i];
      if m.stage != i || m.aField == Unknown || m.bField == Unknown { return false; }
      if Blank(m.correspondence) || Blank(m.evidence) { return false; }
      if m.correspondence in correspondences { return false; }
      correspondences := correspondences + {m.correspondence};
      var aChanged, bChanged := m.aBefore != m.aAfter, m.bBefore != m.bAfter;
      if aChanged != bChanged || (i == 0 && !aChanged) { return false; }
    }
    ok := true;
  }

  method Validate(r: Request, c: Chains) returns (ok: bool)
    ensures ok <==> WellStated(r, c)
  {
    hide Blank, ChainOk, MapsOk, Distinct, IdsOf;
    if Blank(r.tenant) || Blank(r.query) || r.asOf == 0 { return false; }
    var n := |r.maps|;
    if n < 2 || n > MAX_STAGES { return false; }
    if |r.a0| != n || |r.a1| != n || |r.b0| != n || |r.b1| != n {
      LengthsDiffer(r, c);
      return false;
    }
    if |c.a0| != n || |c.a1| != n || |c.b0| != n || |c.b1| != n { return false; }
    if !(0.0 < r.invariantThreshold <= 1.0) || !(0.0 < r.translationThreshold <= 1.0) { return false; }
    var seen: set<string> := {};
    var chained := true;
    DistinctInTurn(c.a0, c.a1, c.b0, c.b1);
    chained, seen := ValidateChain(c.a0, r.a0, r.tenant, r.asOf, seen);
    if !chained { return false; }
    chained, seen := ValidateChain(c.a1, r.a1, r.tenant, r.asOf, seen);
    if !chained { return false; }
    chained, seen := ValidateChain(c.b0, r.b0, r.tenant, r.asOf, seen);
    if !chained { return false; }
    chained, seen := ValidateChain(c.b1, r.b1, r.tenant, r.asOf, seen);
    if !chained { return false; }
    ok := ValidateMaps(r.maps);
  }

  lemma LengthsDiffer(r: Request, c: Chains)
    ensures WellStated(r, c) ==> |r.a0| == |r.a1| == |r.b0| == |r.b1| == |r.maps|
  {
    hide Blank, MapsOk, Distinct, IdsOf;
  }

  ghost predicate Apart(x: Chain, y: Chain) { forall i, j :: 0 <= i < |x| && 0 <= j < |y| ==> x[i].id != y[j].id }

  lemma DistinctPair(x: Chain, y: Chain)
    ensures Distinct(IdsOf(x + y)) <==> Distinct(IdsOf(x)) && Distinct(IdsOf(y)) && Apart(x, y)
  {
    var ids := IdsOf(x + y);
    assert forall i :: 0 <= i < |x| ==> ids[i] == IdsOf(x)[i] == x[i].id;
    assert forall j :: 0 <= j < |y| ==> ids[|x| + j] == IdsOf(y)[j] == y[j].id;
    if Distinct(ids) {
      forall i, j | 0 <= i < |x| && 0 <= j < |y| ensures x[i].id != y[j].id { assert ids[i] != ids[|x| + j]; }
      forall i, j | 0 <= i < j < |y| ensures IdsOf(y)[i] != IdsOf(y)[j] { assert ids[|x| + i] != ids[|x| + j]; }
    }
  }

  lemma ApartConcat(x: Chain, y: Chain, z: Chain)
    ensures Apart(x + y, z) <==> Apart(x, z) && Apart(y, z)
  {
    assert forall i :: 0 <= i < |x| ==> (x + y)[i] == x[i];
    assert forall i :: 0 <= i < |y| ==> (x + y)[|x| + i] == y[i];
  }

  lemma DistinctInTurn(a: Chain, b: Chain, c: Chain, d: Chain)
    ensures Distinct(IdsOf(a + b + c + d))
       <==> && Distinct(IdsOf(a)) && Distinct(IdsOf(b)) && Distinct(IdsOf(c)) && Distinct(IdsOf(d))
            && Apart(a, b) && Apart(a, c) && Apart(b, c) && Apart(a, d) && Apart(b, d) && Apart(c, d)
  {
    hide Distinct, IdsOf, Apart;
    DistinctPair(a + b + c, d);
    DistinctPair(a + b, c);
    DistinctPair(a, b);
    ApartConcat(a + b, c, d);
    ApartConcat(a, b, d);
    ApartConcat(a, b, c);
  }

  // ---- the audit ----

  ghost predicate StageCarried(m: StageMap, c: Chains, i: nat)
    requires i < |c.a0| && i < |c.a1| && i < |c.b0| && i < |c.b1|
  {
    Carries(c.a0[i], c.a1[i], m.aField, m.aBefore, m.aAfter) && Carries(c.b0[i], c.b1[i], m.bField, m.bBefore, m.bAfter)
  }

  /** Every stage carries its declared change, in both domains. */
  ghost predicate Carried(r: Request, c: Chains)
    requires WellStated(r, c)
  {
    forall i :: 0 <= i < |r.maps| ==> StageCarried(r.maps[i], c, i)
  }

  ghost predicate Propagated(r: Request) { forall i :: 0 <= i < |r.maps| ==> r.maps[i].aBefore != r.maps[i].aAfter }

  ghost predicate Erased(r: Request)
    requires r.maps != []
  {
    r.maps[|r.maps| - 1].aBefore == r.maps[|r.maps| - 1].aAfter
  }

  ghost predicate Answered(p: Answers, n: nat) {
    && p.a0.Some? && p.a1.Some? && p.b0.Some? && p.b1.Some?
    && NearLaw(p.a0.value, n) && NearLaw(p.a1.value, n) && NearLaw(p.b0.value, n) && NearLaw(p.b1.value, n)
  }

  ghost function Defect(p: Answers, n: nat): real
    requires Answered(p, n)
  {
    Variation(Effect(p.a0.value, p.a1.value), Effect(p.b0.value, p.b1.value))
  }

  /** How far the two effects differ at the last stage. */
  function LastMismatch(a0: seq<real>, a1: seq<real>, b0: seq<real>, b1: seq<real>): real
    requires |a0| == |a1| == |b0| == |b1| && a0 != []
  {
    Mismatch(a0, a1, b0, b1, |a0| - 1)
  }

  /** A translation: the change is carried and reaches every stage, and both predictions move alike. */
  ghost predicate IsTranslation(r: Request, c: Chains, p: Answers)
    requires WellStated(r, c) && Answered(p, |r.maps|)
  {
    && Carried(r, c) && Propagated(r) && Defect(p, |r.maps|) <= r.translationThreshold
    && LastMismatch(p.a0.value, p.a1.value, p.b0.value, p.b1.value) <= r.translationThreshold
  }

  /** An invariant: the change is carried but gone by the last stage, and neither prediction moves much. */
  ghost predicate IsInvariant(r: Request, c: Chains, p: Answers)
    requires WellStated(r, c) && Answered(p, |r.maps|)
  {
    && Carried(r, c) && Erased(r)
    && Variation(p.a0.value, p.a1.value) <= r.invariantThreshold
    && Variation(p.b0.value, p.b1.value) <= r.invariantThreshold
  }

  /** The predictor is asked only when its answer can matter. */
  ghost predicate NeedsPrediction(r: Request, c: Chains)
    requires WellStated(r, c)
  {
    Carried(r, c) && (Erased(r) || Propagated(r))
  }

  method Predict(answer: Option<seq<real>>, n: nat) returns (law: Option<seq<real>>)
    requires n > 0
    ensures law == if answer.Some? && NearLaw(answer.value, n) then answer else None
  {
    if answer.None? { return None; }
    var ok := ValidateLaw(answer.value, n);
    law := if ok then answer else None;
  }

  method EvaluateStages(r: Request, c: Chains) returns (locality: bool, commuting: bool, propagated: bool)
    requires WellStated(r, c)
    ensures commuting <==> Carried(r, c)
    ensures commuting ==> locality
    ensures propagated <==> Propagated(r)
  {
    locality, commuting, propagated := true, true, true;
    for i := 0 to |r.maps|
      invariant commuting <==> forall k :: 0 <= k < i ==> StageCarried(r.maps[k], c, k)
      invariant commuting ==> locality
      invariant propagated <==> forall k :: 0 <= k < i ==> r.maps[k].aBefore != r.maps[k].aAfter
    {
      hide Carries, Local;
      var m := r.maps[i];
      assert MapOk(m, i);
      var stage := EvaluateStage(m, c.a0[i], c.a1[i], c.b0[i], c.b1[i]);
      locality := locality && stage.aLocal && stage.bLocal;
      commuting := commuting && stage.commuting;
      propagated := propagated && stage.aChanged && stage.bChanged;
    }
  }

  method Evaluate(r: Request, c: Chains, p: Answers) returns (response: Response)
    ensures response.BadRequest? <==> !WellStated(r, c)
    ensures WellStated(r, c) ==>
      (response.PredictionFailed? <==> NeedsPrediction(r, c) && !Answered(p, |r.maps|))
    ensures response.Audit? && !NeedsPrediction(r, c) ==> response.verdict == Divergence && !response.evaluated
    ensures response.Audit? && NeedsPrediction(r, c) ==>
      && response.evaluated && response.defect == Defect(p, |r.maps|)
      && (response.verdict == HigherOrderInvariant <==> IsInvariant(r, c, p))
      && (response.verdict == PredictiveTranslation <==> IsTranslation(r, c, p))
  {
    hide Carried, MapOk, Variation, NearLaw;
    var ok := Validate(r, c);
    if !ok { return BadRequest; }
    var n := |r.maps|;
    var locality, commuting, propagated := EvaluateStages(r, c);
    var last := r.maps[n - 1];
    assert MapOk(last, n - 1);
    SameChange(last, n - 1);
    var erased := !(last.aBefore != last.aAfter) && !(last.bBefore != last.bAfter);
    if !locality || !commuting || (!erased && !propagated) {
      return Audit(Divergence, false, 0.0, 0.0, 0.0, false);
    }
    var a0 := Predict(p.a0, n);
    if a0.None? { return PredictionFailed; }
    var a1 := Predict(p.a1, n);
    if a1.None? { return PredictionFailed; }
    var b0 := Predict(p.b0, n);
    if b0.None? { return PredictionFailed; }
    var b1 := Predict(p.b1, n);
    if b1.None? { return PredictionFailed; }
    NearLawSize(a0.value, n);
    NearLawSize(a1.value, n);
    NearLawSize(b0.value, n);
    NearLawSize(b1.value, n);
    var aMovement, bMovement, defect := PredictionMetrics(a0.value, a1.value, b0.value, b1.value);
    var agreement := LastMismatch(a0.value, a1.value, b0.value, b1.value) <= r.translationThreshold;
    var verdict := Divergence;
    if erased && aMovement <= r.invariantThreshold && bMovement <= r.invariantThreshold {
      verdict := HigherOrderInvariant;
    } else if propagated && agreement && defect <= r.translationThreshold {
      verdict := PredictiveTranslation;
    }
    response := Audit(verdict, true, aMovement, bMovement, defect, agreement);
  }

  lemma NearLawSize(law: seq<real>, n: nat)
    requires NearLaw(law, n)
    ensures |law| == n
  {
  }

  lemma SameChange(m: StageMap, i: nat)
    requires MapOk(m, i)
    ensures (m.aBefore != m.aAfter) == (m.bBefore != m.bAfter)
  {
  }

  // ---- what the separate terminal check adds ----

  /** With laws of mass exactly 1 the terminal check never decides anything: a defect within the threshold already
      bounds the last stage. With validated laws it can decide only within twice the mass tolerance. */
  lemma TerminalCheckIsImplied(r: Request, c: Chains, p: Answers)
    requires WellStated(r, c) && Answered(p, |r.maps|) && Defect(p, |r.maps|) <= r.translationThreshold
    ensures LastMismatch(p.a0.value, p.a1.value, p.b0.value, p.b1.value) <= r.translationThreshold + 2.0 * TOLERANCE
    ensures Sum(p.a0.value) == Sum(p.a1.value) == Sum(p.b0.value) == Sum(p.b1.value) ==>
      LastMismatch(p.a0.value, p.a1.value, p.b0.value, p.b1.value) <= r.translationThreshold
  {
    hide Variation, Sum, Abs;
    MismatchBelowDefect(p.a0.value, p.a1.value, p.b0.value, p.b1.value, |r.maps| - 1);
    DriftOfLaws(p.a0.value, p.a1.value, p.b0.value, p.b1.value);
  }

  /** A law-like list with everything in the first and the last place. */
  function Ends(x: real, y: real, n: nat): (law: seq<real>)
    requires n >= 2
    ensures |law| == n && law[0] == x && law[n - 1] == y
  {
    if n == 2 then [x, y] else [x] + seq(n - 2, _ => 0.0) + [y]
  }

  lemma {:induction false} EndsSum(xs: seq<real>, x: real, n: nat)
    requires 0 < n == |xs| && xs[0] == x && forall i :: 0 < i < n ==> xs[i] == 0.0
    ensures Sum(xs) == x
    decreases n
  {
    if n > 1 { EndsSum(xs[..n - 1], x, n - 1); }
  }

  lemma {:induction false} EndsVariation(xs: seq<real>, ys: seq<real>, x: real, y: real, n: nat)
    requires 0 < n == |xs| == |ys| && xs[0] == x && ys[0] == y
    requires forall i :: 0 < i < n ==> xs[i] == 0.0 == ys[i]
    ensures Variation(xs, ys) == Abs(x - y) / 2.0
    decreases n
  {
    if n > 1 {
      EndsVariation(xs[..n - 1], ys[..n - 1], x, y, n - 1);
    } else {
      assert xs[..0] == [] == ys[..0];
    }
  }

  lemma EndsMass(x: real, y: real, n: nat)
    requires n >= 2
    ensures Sum(Ends(x, y, n)) == x + y
  {
    EndsSum(Ends(x, y, n)[..n - 1], x, n - 1);
  }

  lemma EndsDistance(x: real, y: real, u: real, v: real, n: nat)
    requires n >= 2
    ensures Variation(Ends(x, y, n), Ends(u, v, n)) == Abs(x - u) / 2.0 + Abs(y - v) / 2.0
  {
    hide Abs, Sum;
    var a, b := Ends(x, y, n), Ends(u, v, n);
    EndsVariation(a[..n - 1], b[..n - 1], x, u, n - 1);
    VariationLast(a, b);
    hide Variation;
  }

  lemma EndsEffect(x: real, y: real, u: real, v: real, n: nat)
    requires n >= 2
    ensures Effect(Ends(x, y, n), Ends(u, v, n)) == Ends(u - x, v - y, n)
  {
    assert Effect(Ends(x, y, n), Ends(u, v, n)) == Ends(u - x, v - y, n);
  }

  /** Two laws within the mass tolerance, told apart by their first and last place. */
  lemma EndsLaw(x: real, y: real, n: nat)
    requires n >= 2 && 0.0 <= x <= 1.0 && 0.0 <= y <= 1.0 && -TOLERANCE <= x + y - 1.0 <= TOLERANCE
    ensures NearLaw(Ends(x, y, n), n)
  {
    EndsMass(x, y, n);
    hide Sum;
  }

  lemma OppositeEffects(e: real, f: real, n: nat)
    requires n >= 2
    ensures Variation(Ends(e, f, n), Ends(0.0 - e, 0.0 - f, n)) == Abs(e) + Abs(f)
  {
    hide *;
    EndsDistance(e, f, 0.0 - e, 0.0 - f, n);
    HalfOfDouble(e);
    HalfOfDouble(f);
  }

  lemma HalfOfDouble(e: real)
    ensures Abs(e - (0.0 - e)) / 2.0 == Abs(e)
  {
  }

  lemma OppositeEnds(a: seq<real>, b: seq<real>)
    requires |a| == |b| > 0
    ensures LastMismatch(a, b, b, a) == 2.0 * Abs(b[|b| - 1] - a[|a| - 1])
  {
  }

  lemma Opposite(x: real, y: real, u: real, v: real, n: nat)
    requires n >= 2
    ensures var a, b := Ends(x, y, n), Ends(u, v, n);
      && Variation(Effect(a, b), Effect(b, a)) == Abs(u - x) + Abs(v - y)
      && LastMismatch(a, b, b, a) == 2.0 * Abs(v - y)
  {
    hide *;
    EndsEffect(x, y, u, v, n);
    EndsEffect(u, v, x, y, n);
    OppositeEffects(u - x, v - y, n);
    assert x - u == 0.0 - (u - x) && y - v == 0.0 - (v - y);
    OppositeEnds(Ends(x, y, n), Ends(u, v, n));
  }

  /** Opposite moves between two such laws: the defect is `t`, the last stages differ by `t + d`. */
  lemma OppositeMoves(n: nat, t: real, d: real) returns (low: seq<real>, high: seq<real>)
    requires n >= 2 && 0.0 < d <= t <= 1.0 && d <= 2.0 * TOLERANCE
    ensures NearLaw(low, n) && NearLaw(high, n)
    ensures Variation(Effect(low, high), Effect(high, low)) == t && LastMismatch(low, high, high, low) == t + d
  {
    hide Ends, Sum, Variation, NearLaw, Effect, LastMismatch;
    var x, y := 0.5 + (t - d) / 4.0, 0.5 - (t + d) / 4.0;
    low, high := Ends(x, y, n), Ends(1.0 - x, 1.0 - y, n);
    EndsLaw(x, y, n);
    EndsLaw(1.0 - x, 1.0 - y, n);
    Opposite(x, y, 1.0 - x, 1.0 - y, n);
  }

  /** THE TERMINAL CHECK MATTERS. Whatever the request and its threshold, once its change is carried and reaches every
      stage there are answers whose defect is within the threshold and that the terminal check alone refuses. */
  lemma TerminalCheckCanDecide(r: Request, c: Chains) returns (p: Answers)
    requires WellStated(r, c) && Carried(r, c) && Propagated(r)
    ensures Answered(p, |r.maps|) && Defect(p, |r.maps|) <= r.translationThreshold
    ensures LastMismatch(p.a0.value, p.a1.value, p.b0.value, p.b1.value) > r.translationThreshold
    ensures !IsTranslation(r, c, p) && !IsInvariant(r, c, p)
  {
    var t := r.translationThreshold;
    assert MapOk(r.maps[|r.maps| - 1], |r.maps| - 1);
    hide Carried, MapOk, Sum, Variation, NearLaw, Effect, Mismatch;
    var low, high := OppositeMoves(|r.maps|, t, if t < 2.0 * TOLERANCE then t else 2.0 * TOLERANCE);
    NearLawSize(low, |r.maps|);
    NearLawSize(high, |r.maps|);
    p := Answers(Some(low), Some(high), Some(high), Some(low));
  }

  /** Two chains of two stages that carry one change throughout. */
  lemma CarriedRequest(threshold: real) returns (r: Request, c: Chains)
    requires 0.0 < threshold <= 1.0
    ensures WellStated(r, c) && Carried(r, c) && Propagated(r) && r.translationThreshold == threshold
  {
    hide Blank, ChainOk, IdsOf, Distinct, MapsOk, Pair, Carries;
    SampleWords();
    r := Request("t", "q", 1, ["1", "2"], ["3", "4"], ["5", "6"], ["7", "8"], threshold, threshold, SAMPLE_MAPS);
    c := Chains(Pair("1", "2", "a"), Pair("3", "4", "b"), Pair("5", "6", "a"), Pair("7", "8", "b"));
    PairIsOk("1", "2", "a");
    PairIsOk("3", "4", "b");
    PairIsOk("5", "6", "a");
    PairIsOk("7", "8", "b");
    SampleDistinct();
    forall i | 0 <= i < 2 ensures StageCarried(SAMPLE_MAPS[i], c, i) {
      PairCarries("1", "2", "3", "4", i);
      PairCarries("5", "6", "7", "8", i);
    }
  }

  const SAMPLE_MAPS := [
    StageMap(0, Who, Who, "a", "b", "a", "b", "x", "v"), StageMap(1, Who, Who, "a", "b", "a", "b", "y", "v")]

  function Pair(first: string, second: string, who: string): (chain: Chain)
    ensures |chain| == 2 && IdsOf(chain) == [first, second]
  {
    [Event(first, "t", 0, 0, true, who, "", "", "", "", ""), Event(second, "t", 1, 0, true, who, "", "", "", "", "")]
  }

  lemma PairIsOk(first: string, second: string, who: string)
    ensures ChainOk(Pair(first, second, who), [first, second], "t", 1)
  {
  }

  lemma PairCarries(u: string, v: string, x: string, y: string, i: nat)
    requires i < 2
    ensures Carries(Pair(u, v, "a")[i], Pair(x, y, "b")[i], Who, "a", "b")
  {
  }

  lemma SampleWords()
    ensures !Blank("t") && !Blank("q") && MapsOk(SAMPLE_MAPS)
  {
    assert !Blank("t") by { assert "t"[0] !in WHITE_SPACE; }
    assert !Blank("q") by { assert "q"[0] !in WHITE_SPACE; }
    assert !Blank("x") by { assert "x"[0] !in WHITE_SPACE; }
    assert !Blank("y") by { assert "y"[0] !in WHITE_SPACE; }
    assert !Blank("v") by { assert "v"[0] !in WHITE_SPACE; }
    hide Blank;
    assert SAMPLE_MAPS[0].correspondence[0] != SAMPLE_MAPS[1].correspondence[0];
  }

  lemma SampleDistinct()
    ensures Distinct(IdsOf(Pair("1", "2", "a") + Pair("3", "4", "b") + Pair("5", "6", "a") + Pair("7", "8", "b")))
  {
    hide Distinct, IdsOf, Pair, Apart;
    DistinctInTurn(Pair("1", "2", "a"), Pair("3", "4", "b"), Pair("5", "6", "a"), Pair("7", "8", "b"));
    PairsApart("1", "2", "a", "3", "4", "b");
    PairsApart("1", "2", "a", "5", "6", "a");
    PairsApart("3", "4", "b", "5", "6", "a");
    PairsApart("1", "2", "a", "7", "8", "b");
    PairsApart("3", "4", "b", "7", "8", "b");
    PairsApart("5", "6", "a", "7", "8", "b");
  }

  lemma PairsApart(u: string, v: string, who: string, x: string, y: string, whom: string)
    requires u != x && u != y && v != x && v != y
    ensures Apart(Pair(u, v, who), Pair(x, y, whom))
    ensures u != v ==> Distinct(IdsOf(Pair(u, v, who)))
    ensures x != y ==> Distinct(IdsOf(Pair(x, y, whom)))
  {
  }
}

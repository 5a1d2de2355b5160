/** What an audit accepts and what its verdicts mean (internal/translation/evaluate.go), word by word and stage by stage. */
module TranslationRules {
  import opened Prelude
  import opened RealSums
  import opened LawMetrics
  import opened Translation

  // ---- one stage ----

  /** What an event says: who, what, where, when, why and how. */
  function Words(e: Event): seq<string> { [e.who, e.what, e.whereabouts, e.moment, e.why, e.how] }

  /** The same event with one field said otherwise. */
  function Rewritten(e: Event, f: Field, word: string): Event {
    match f
    case Who => e.(who := word)
    case What => e.(what := word)
    case Where => e.(whereabouts := word)
    case When => e.(moment := word)
    case Why => e.(why := word)
    case How => e.(how := word)
    case Unknown => e
  }

  /** REVEALED BY REWRITING. A pair carries a declared change exactly when the first event says the old word in the mapped
      field and the second says what the first does with that field rewritten, and nothing else. */
  lemma CarriesIsRewriting(before: Event, after: Event, f: Field, from: string, into: string)
    requires f != Unknown
    ensures Carries(before, after, f, from, into)
       <==> Words(before) == Words(Rewritten(before, f, from)) && Words(after) == Words(Rewritten(before, f, into))
  {
    SaysAll(before, after);
    match f
    case Who => OtherFields(before, after, f);
    case What => OtherFields(before, after, f);
    case Where => OtherFields(before, after, f);
    case When => OtherFields(before, after, f);
    case Why => OtherFields(before, after, f);
    case How => OtherFields(before, after, f);
  }

  /** A pair is local when the second says what the first does but for one rewritten word, and differs if it should. */
  lemma LocalIsRewriting(before: Event, after: Event, f: Field, change: bool)
    requires f != Unknown
    ensures Local(before, after, f, change)
       <==> && (exists word :: Words(after) == Words(Rewritten(before, f, word)))
            && (Words(before) != Words(after) <==> change)
  {
    var was, word := FieldValue(before, f), FieldValue(after, f);
    CarriesIsRewriting(before, after, f, was, word);
    OtherFields(before, after, f);
    SaysAll(before, after);
    Rewriting(before, f);
    if w :| Words(after) == Words(Rewritten(before, f, w)) {
      SaysAll(after, Rewritten(before, f, w));
      assert w == word;
    }
  }

  lemma Rewriting(e: Event, f: Field)
    requires f != Unknown
    ensures Rewritten(e, f, FieldValue(e, f)) == e && forall word :: FieldValue(Rewritten(e, f, word), f) == word
  {
  }

  lemma OtherFields(x: Event, y: Event, f: Field)
    ensures (forall g :: g != f ==> FieldValue(x, g) == FieldValue(y, g))
       <==> && (f != Who ==> x.who == y.who) && (f != What ==> x.what == y.what)
            && (f != Where ==> x.whereabouts == y.whereabouts) && (f != When ==> x.moment == y.moment)
            && (f != Why ==> x.why == y.why) && (f != How ==> x.how == y.how)
  {
    if forall g :: g != f ==> FieldValue(x, g) == FieldValue(y, g) {
      assert FieldValue(x, Who) == x.who && FieldValue(x, What) == x.what && FieldValue(x, Where) == x.whereabouts;
      assert FieldValue(x, When) == x.moment && FieldValue(x, Why) == x.why && FieldValue(x, How) == x.how;
    }
  }

  lemma SaysAll(x: Event, y: Event)
    ensures Words(x) == Words(y)
       <==> && x.who == y.who && x.what == y.what && x.whereabouts == y.whereabouts && x.moment == y.moment
            && x.why == y.why && x.how == y.how
  {
    if Words(x) == Words(y) { assert forall i :: 0 <= i < 6 ==> Words(x)[i] == Words(y)[i]; }
  }

  // ---- the request ----

  predicate White(c: char) {
    c == ' ' || c == '\t' || c == '\n' || c == '\r' || c == '\U{000B}' || c == '\U{000C}'
  }

  /** Says something besides white space. */
  ghost predicate Worded(s: string) { exists i :: 0 <= i < |s| && !White(s[i]) }

  lemma WordedIs(s: string)
    ensures Worded(s) <==> !Blank(s)
  {
    forall c: char ensures White(c) <==> c in WHITE_SPACE { }
  }

  /** The events asked for, each sound, of the tenant and known by then; each after the one before it, and known no earlier. */
  ghost predicate Told(chain: Chain, ids: seq<string>, tenant: string, asOf: int) {
    && |chain| == |ids|
    && (forall i :: 0 <= i < |chain| ==>
          chain[i].id == ids[i] && chain[i].tenant == tenant && chain[i].valid && !(asOf < chain[i].availableAt))
    && forall i :: 0 < i < |chain| ==> After(chain[i - 1], chain[i])
  }

  predicate After(earlier: Event, later: Event) {
    earlier.occurredAt < later.occurredAt && earlier.availableAt <= later.availableAt
  }

  lemma ToldIs(chain: Chain, ids: seq<string>, tenant: string, asOf: int)
    ensures Told(chain, ids, tenant, asOf) <==> ChainOk(chain, ids, tenant, asOf)
  {
    if Told(chain, ids, tenant, asOf) {
      forall i, j | 0 <= i < j < |chain|
        ensures chain[i].occurredAt < chain[j].occurredAt && chain[i].availableAt <= chain[j].availableAt
      {
        InTurn(chain, i, j);
      }
    }
    if ChainOk(chain, ids, tenant, asOf) {
      forall i | 0 <= i < |chain|
        ensures chain[i].id == ids[i] && chain[i].tenant == tenant && chain[i].valid && !(asOf < chain[i].availableAt)
      {
        assert EventOk(chain[i], ids[i], tenant, asOf);
      }
    }
  }

  lemma {:induction false} InTurn(chain: Chain, i: nat, j: nat)
    requires i < j < |chain| && forall k :: 0 < k < |chain| ==> After(chain[k - 1], chain[k])
    ensures After(chain[i], chain[j])
    decreases j
  {
    assert After(chain[j - 1], chain[j]);
    if i < j - 1 { InTurn(chain, i, j - 1); }
  }

  /** A correspondence that is numbered, names two of the six fields, gives its evidence, and changes both words or neither. */
  ghost predicate Corresponds(m: StageMap, i: nat) {
    && m.stage == i && m.aField in {Who, What, Where, When, Why, How} && m.bField in {Who, What, Where, When, Why, How}
    && Worded(m.correspondence) && Worded(m.evidence)
    && (m.aBefore == m.aAfter <==> m.bBefore == m.bAfter)
  }

  lemma CorrespondsIs(m: StageMap, i: nat)
    ensures Corresponds(m, i) && (i == 0 ==> m.aBefore != m.aAfter) <==> MapOk(m, i)
  {
    hide Worded, Blank;
    WordedIs(m.correspondence);
    WordedIs(m.evidence);
  }

  ghost predicate Corresponding(maps: seq<StageMap>) {
    && (forall i :: 0 <= i < |maps| ==> Corresponds(maps[i], i))
    && (|maps| > 0 ==> maps[0].aBefore != maps[0].aAfter)
    && forall i, j :: 0 <= i < |maps| && 0 <= j < |maps| && maps[i].correspondence == maps[j].correspondence ==> i == j
  }

  lemma CorrespondingIs(maps: seq<StageMap>)
    ensures Corresponding(maps) <==> MapsOk(maps)
  {
    hide Corresponds, MapOk;
    forall i: nat | i < |maps| ensures Corresponds(maps[i], i) && (i == 0 ==> maps[i].aBefore != maps[i].aAfter) <==> MapOk(maps[i], i) {
      CorrespondsIs(maps[i], i);
    }
    if MapsOk(maps) && |maps| > 0 { assert MapOk(maps[0], 0); }
  }

  /** EXACTLY WHAT IS AUDITED: two to thirty-two stages, everything of one length, thresholds above zero and at most one,
      four chains told in order whose events are all different, and maps that correspond. */
  lemma AuditedIff(r: Request, c: Chains)
    ensures WellStated(r, c)
       <==> && Worded(r.tenant) && Worded(r.query) && r.asOf != 0
            && 2 <= |r.maps| <= 32 && |c.a0| == |c.a1| == |c.b0| == |c.b1| == |r.maps|
            && !(r.invariantThreshold <= 0.0) && !(1.0 < r.invariantThreshold)
            && !(r.translationThreshold <= 0.0) && !(1.0 < r.translationThreshold)
            && Told(c.a0, r.a0, r.tenant, r.asOf) && Told(c.a1, r.a1, r.tenant, r.asOf)
            && Told(c.b0, r.b0, r.tenant, r.asOf) && Told(c.b1, r.b1, r.tenant, r.asOf)
            && AllDifferent(c.a0 + c.a1 + c.b0 + c.b1)
            && Corresponding(r.maps)
  {
    hide Worded, Blank, Told, ChainOk, Distinct, AllDifferent, Corresponding, MapsOk;
    WordedIs(r.tenant);
    WordedIs(r.query);
    ToldIs(c.a0, r.a0, r.tenant, r.asOf);
    ToldIs(c.a1, r.a1, r.tenant, r.asOf);
    ToldIs(c.b0, r.b0, r.tenant, r.asOf);
    ToldIs(c.b1, r.b1, r.tenant, r.asOf);
    DifferentIs(c.a0 + c.a1 + c.b0 + c.b1);
    CorrespondingIs(r.maps);
  }

  ghost predicate AllDifferent(events: Chain) {
    forall i, j :: 0 <= i < |events| && 0 <= j < |events| && events[i].id == events[j].id ==> i == j
  }

  lemma DifferentIs(events: Chain)
    ensures AllDifferent(events) <==> Distinct(IdsOf(events))
  {
    var ids := IdsOf(events);
    if Distinct(ids) {
      forall i, j | 0 <= i < |events| && 0 <= j < |events| && events[i].id == events[j].id ensures i == j {
        assert ids[i] == ids[j];
      }
    }
  }

  // ---- the verdicts ----

  /** No set of stages is forecast further apart by the two than `t`, give or take half the difference in mass. */
  ghost predicate Close(a: seq<real>, b: seq<real>, t: real)
    requires |a| == |b|
  {
    forall chosen: seq<bool> | |chosen| == |a| :: 2.0 * Gap(a, b, chosen) - (Sum(a) - Sum(b)) <= 2.0 * t
  }

  /** AN ANSWER COUNTS when it gives every stage a probability and one to all of them, to a billionth. */
  lemma AnswerCounts(law: seq<real>, n: nat)
    ensures NearLaw(law, n)
       <==> && |law| == n && (forall i :: 0 <= i < n ==> !(law[i] < 0.0) && !(1.0 < law[i]))
            && Sum(law) <= 1.000_000_001 && Sum(law) >= 0.999_999_999
  {
    hide Sum;
  }

  lemma CloseIs(a: seq<real>, b: seq<real>, t: real)
    requires |a| == |b|
    ensures Close(a, b, t) <==> Variation(a, b) <= t
  {
    hide Variation, Gap, Sum;
    GapAttained(a, b);
    forall chosen: seq<bool> | |chosen| == |a| ensures 2.0 * Gap(a, b, chosen) - (Sum(a) - Sum(b)) <= 2.0 * Variation(a, b) {
      GapBound(a, b, chosen);
    }
  }

  /** Every stage of both domains is revealed by rewriting the mapped field as declared. */
  ghost predicate Commutes(r: Request, c: Chains)
    requires |r.maps| == |c.a0| == |c.a1| == |c.b0| == |c.b1|
  {
    forall i :: 0 <= i < |r.maps| ==>
      RewrittenAt(r.maps[i], c.a0[i], c.a1[i], c.b0[i], c.b1[i])
  }

  predicate RewrittenAt(m: StageMap, a0: Event, a1: Event, b0: Event, b1: Event) {
    && Words(a0) == Words(Rewritten(a0, m.aField, m.aBefore)) && Words(a1) == Words(Rewritten(a0, m.aField, m.aAfter))
    && Words(b0) == Words(Rewritten(b0, m.bField, m.bBefore)) && Words(b1) == Words(Rewritten(b0, m.bField, m.bAfter))
  }

  lemma CommutesIs(r: Request, c: Chains)
    requires WellStated(r, c)
    ensures Commutes(r, c) <==> Carried(r, c)
  {
    hide Carries, Words, Rewritten, Blank, ChainOk, Distinct;
    forall i: nat | i < |r.maps|
      ensures RewrittenAt(r.maps[i], c.a0[i], c.a1[i], c.b0[i], c.b1[i]) <==> StageCarried(r.maps[i], c, i)
    {
      var m := r.maps[i];
      assert MapOk(m, i);
      CarriesIsRewriting(c.a0[i], c.a1[i], m.aField, m.aBefore, m.aAfter);
      CarriesIsRewriting(c.b0[i], c.b1[i], m.bField, m.bBefore, m.bAfter);
    }
  }

  /** A TRANSLATION: rewritten throughout, changed at every stage, and the two forecasts moved alike, over any set of
      stages and at the last one. */
  lemma TranslationIs(r: Request, c: Chains, p: Answers)
    requires WellStated(r, c) && Answered(p, |r.maps|)
    ensures IsTranslation(r, c, p)
       <==> && Commutes(r, c)
            && (forall i :: 0 <= i < |r.maps| ==> r.maps[i].aBefore != r.maps[i].aAfter && r.maps[i].bBefore != r.maps[i].bAfter)
            && Close(Effect(p.a0.value, p.a1.value), Effect(p.b0.value, p.b1.value), r.translationThreshold)
            && var n := |r.maps| - 1;
               var a, b := p.a1.value[n] - p.a0.value[n], p.b1.value[n] - p.b0.value[n];
               a - b <= r.translationThreshold && b - a <= r.translationThreshold
  {
    hide Carried, Commutes, Close, Blank, ChainOk, Distinct, Variation, NearLaw, Effect;
    CommutesIs(r, c);
    SizesOf(p, |r.maps|);
    CloseIs(Effect(p.a0.value, p.a1.value), Effect(p.b0.value, p.b1.value), r.translationThreshold);
    assert forall i :: 0 <= i < |r.maps| ==> MapOk(r.maps[i], i);
  }

  lemma SizesOf(p: Answers, n: nat)
    requires Answered(p, n)
    ensures |p.a0.value| == |p.a1.value| == |p.b0.value| == |p.b1.value| == n
  {
    hide Sum;
  }

  /** AN INVARIANT: rewritten throughout, gone by the last stage, and neither forecast moved over any set of stages. */
  lemma InvariantIs(r: Request, c: Chains, p: Answers)
    requires WellStated(r, c) && Answered(p, |r.maps|)
    ensures IsInvariant(r, c, p)
       <==> && Commutes(r, c)
            && r.maps[|r.maps| - 1].aBefore == r.maps[|r.maps| - 1].aAfter
            && Close(p.a0.value, p.a1.value, r.invariantThreshold) && Close(p.b0.value, p.b1.value, r.invariantThreshold)
    ensures IsInvariant(r, c, p) ==> !IsTranslation(r, c, p) && r.maps[|r.maps| - 1].bBefore == r.maps[|r.maps| - 1].bAfter
  {
    hide Carried, Commutes, Close, Blank, ChainOk, Distinct, Variation, NearLaw, Effect, LastMismatch;
    CommutesIs(r, c);
    SizesOf(p, |r.maps|);
    CloseIs(p.a0.value, p.a1.value, r.invariantThreshold);
    CloseIs(p.b0.value, p.b1.value, r.invariantThreshold);
    assert forall i :: 0 <= i < |r.maps| ==> MapOk(r.maps[i], i);
  }

  /** THE PREDICTOR IS SPARED exactly when its answer could not matter: no answers whatever make the request more than a
      divergence. */
  lemma SparedIff(r: Request, c: Chains)
    requires WellStated(r, c)
    ensures !NeedsPrediction(r, c)
       <==> forall p: Answers | Answered(p, |r.maps|) :: !IsTranslation(r, c, p) && !IsInvariant(r, c, p)
  {
    hide Carried, Propagated, Erased, Blank, ChainOk, Distinct, MapsOk, Variation, NearLaw, Effect, LastMismatch;
    if NeedsPrediction(r, c) {
      var p := Still(|r.maps|);
      StillIsAnswer(|r.maps|);
      assert Answered(p, |r.maps|) && (IsTranslation(r, c, p) || IsInvariant(r, c, p));
    }
  }

  /** The same certain forecast four times. */
  ghost function Still(n: nat): Answers
    requires n >= 2
  {
    var law := Some(Ends(1.0, 0.0, n));
    Answers(law, law, law, law)
  }

  lemma StillIsAnswer(n: nat)
    requires n >= 2
    ensures var p := Still(n);
      && Answered(p, n) && Defect(p, n) == 0.0 && Variation(p.a0.value, p.a1.value) == 0.0 && Variation(p.b0.value, p.b1.value) == 0.0
      && LastMismatch(p.a0.value, p.a1.value, p.b0.value, p.b1.value) == 0.0
  {
    hide Sum, Variation, Ends, NearLaw;
    var law := Ends(1.0, 0.0, n);
    EndsLaw(1.0, 0.0, n);
    VariationLaw(law, law);
    VariationLaw(Effect(law, law), Effect(law, law));
  }
}

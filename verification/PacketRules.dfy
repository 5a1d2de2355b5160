/** What the packet's rules come to (internal/packing/packing.go, internal/epistemic/evidence.go), said without the
    functions that compute them. */
module PacketRules {
  import opened Prelude
  import opened RealSums
  import opened Packing

  // ---- the same evidence ----

  predicate Bucketed(key: string) { |key| >= 3 && key[0] == 'a' && key[1] == 'p' && key[2] == ':' }

  /** Both events have certified buckets, and different ones. */
  predicate CertifiedApart(a: Candidate, b: Candidate, ctx: Context) {
    && a.id in ctx.keys && b.id in ctx.keys && Bucketed(ctx.keys[a.id]) && Bucketed(ctx.keys[b.id])
    && ctx.keys[a.id] != ctx.keys[b.id]
  }

  /** Of all words of the two the share `minimum` is common to both. */
  predicate ShareWords(u: set<string>, v: set<string>, minimum: real) {
    if u * v == {} then minimum <= 0.0 else |u * v| as real >= minimum * |u + v| as real
  }

  /** The same group; or, of one lineage and neither declared a distinct occurrence, worded alike. */
  predicate SameClaim(a: Descriptor, b: Descriptor, minimum: real) {
    || a.group == b.group
    || (a.lineage == b.lineage && !a.distinctOccurrence && !b.distinctOccurrence && ShareWords(a.terms, b.terms, minimum))
  }

  predicate SameEvidence(a: Candidate, b: Candidate, ctx: Context, minimum: real) {
    && !CertifiedApart(a, b, ctx)
    && (|| (a.declaredGroup == b.declaredGroup && a.declaredGroup != "")
        || SameClaim(ctx.describe(a.id), ctx.describe(b.id), minimum))
  }

  lemma UnionSize(u: set<string>, v: set<string>)
    ensures |u + v| == |u| + |v| - |u * v|
  {
  }

  /** Similarity is the common words' share of all words. */
  lemma SimilarityIsShare(u: set<string>, v: set<string>, minimum: real)
    ensures Jaccard(u, v) * |u + v| as real == |u * v| as real
    ensures Jaccard(u, v) >= minimum <==> ShareWords(u, v, minimum)
  {
    UnionSize(u, v);
    if u != {} && v != {} {
      IntersectionSize(u, v);
      ShareOrder(Jaccard(u, v), minimum, |u + v| as real);
      if u * v == {} { assert Jaccard(u, v) == 0.0; }
    } else {
      assert u * v == {};
    }
  }

  lemma ShareOrder(x: real, y: real, all: real)
    requires all > 0.0
    ensures x >= y <==> x * all >= y * all
  {
    if x >= y { assert x * all >= y * all; } else { assert x * all < y * all; }
  }

  lemma PrefixIs(key: string)
    ensures Certified(key) <==> Bucketed(key)
  {
    if Bucketed(key) { assert key[..3] == "ap:"; }
  }

  lemma ApartIs(a: Candidate, b: Candidate, ctx: Context)
    ensures DistinctCertifiedBuckets(a, b, ctx.keys) <==> CertifiedApart(a, b, ctx)
  {
    PrefixIs(KeyOf(ctx.keys, a.id));
    PrefixIs(KeyOf(ctx.keys, b.id));
    hide Certified;
  }

  /** What the packing counts against a candidate is exactly the same evidence. */
  lemma ConflictIsSameEvidence(a: Candidate, b: Candidate, ctx: Context, minimum: real)
    ensures Conflict(a, b, ctx, minimum) <==> SameEvidence(a, b, ctx, minimum)
    ensures Correlated(ctx.describe(a.id), ctx.describe(b.id), minimum)
       <==> SameClaim(ctx.describe(a.id), ctx.describe(b.id), minimum)
  {
    ApartIs(a, b, ctx);
    SimilarityIsShare(ctx.describe(a.id).terms, ctx.describe(b.id).terms, minimum);
    hide Jaccard, DistinctCertifiedBuckets, CertifiedApart, ShareWords;
  }

  // ---- what is packed ----

  /** The places of a packet that hold the same evidence as the candidate. */
  ghost function Repeats(c: Candidate, packed: seq<Candidate>, ctx: Context, minimum: real): set<int> {
    set k | 0 <= k < |packed| && SameEvidence(c, packed[k], ctx, minimum)
  }

  lemma CrowdedIs(c: Candidate, packed: seq<Candidate>, ctx: Context, l: Limits)
    ensures Crowded(c, packed, ctx, l) <==> 0 < l.occupancy <= |Repeats(c, packed, ctx, l.similarity)|
  {
    hide Conflict, SameEvidence, Conflicts;
    ConflictsCount(c, packed, ctx, l.similarity);
    forall k | 0 <= k < |packed|
      ensures Conflict(c, packed[k], ctx, l.similarity) <==> SameEvidence(c, packed[k], ctx, l.similarity)
    {
      ConflictIsSameEvidence(c, packed[k], ctx, l.similarity);
    }
    assert Repeats(c, packed, ctx, l.similarity) == set k | 0 <= k < |packed| && Conflict(c, packed[k], ctx, l.similarity);
  }

  /** PACKED, EXACTLY. In turn, a candidate is packed if and only if the packet so far is not full, its tokens still fit,
      and, where there is an occupancy limit, fewer than that many of those packed before are the same evidence. */
  lemma PackedExactly(ordered: seq<Candidate>, i: nat, ctx: Context, limit: int, budget: int, policy: Policy)
    requires i < |ordered| && limit >= 0
    ensures var l := LimitsOf(limit, budget, policy);
      var at, so := Packed(ordered, |ordered|, ctx, l).at, Packed(ordered, i, ctx, l).at;
      var before := Pick(ordered, so);
      && (forall k :: k in so <==> k in at && k < i)
      && (i in at <==>
            && |before| < limit && Tokens(before) + ordered[i].tokens <= budget
            && (policy.occupancyLimit <= 0 || |Repeats(ordered[i], before, ctx, policy.similarity)| < policy.occupancyLimit))
  {
    hide Crowded, Packed, Repeats, GoodPacket, Tokens;
    var l := LimitsOf(limit, budget, policy);
    PackedDecision(ordered, i, ctx, l);
    TokensUsed(ordered, i, ctx, l);
    CrowdedIs(ordered[i], Pick(ordered, Packed(ordered, i, ctx, l).at), ctx, l);
  }

  /** SUPPRESSED, EXACTLY: counted are those for which there was room and only the same evidence stood in the way. */
  lemma SuppressedExactly(ordered: seq<Candidate>, ctx: Context, limit: int, budget: int, policy: Policy)
    requires limit >= 0
    ensures var l := LimitsOf(limit, budget, policy);
      Packed(ordered, |ordered|, ctx, l).suppressed == |set i | 0 <= i < |ordered| && OnlyRepeated(ordered, i, ctx, l)|
  {
    hide PassedOver, OnlyRepeated, Packed;
    var l := LimitsOf(limit, budget, policy);
    SuppressedCount(ordered, |ordered|, ctx, l);
    forall i | 0 <= i < |ordered| ensures PassedOver(ordered, i, ctx, l) <==> OnlyRepeated(ordered, i, ctx, l) {
      PassedOverIs(ordered, i, ctx, l);
    }
    assert PassedOverBefore(ordered, |ordered|, ctx, l) == set i | 0 <= i < |ordered| && OnlyRepeated(ordered, i, ctx, l);
  }

  ghost predicate OnlyRepeated(ordered: seq<Candidate>, i: nat, ctx: Context, l: Limits)
    requires i < |ordered|
  {
    var before := Pick(ordered, Packed(ordered, i, ctx, l).at);
    && |before| < l.count && Tokens(before) + ordered[i].tokens <= l.budget
    && 0 < l.occupancy <= |Repeats(ordered[i], before, ctx, l.similarity)|
  }

  lemma PassedOverIs(ordered: seq<Candidate>, i: nat, ctx: Context, l: Limits)
    requires i < |ordered| && l.count >= 0
    ensures PassedOver(ordered, i, ctx, l) <==> OnlyRepeated(ordered, i, ctx, l)
  {
    hide Crowded, Packed, Repeats, Tokens;
    TokensUsed(ordered, i, ctx, l);
    CrowdedIs(ordered[i], Pick(ordered, Packed(ordered, i, ctx, l).at), ctx, l);
  }

  lemma TokensUsed(ordered: seq<Candidate>, n: nat, ctx: Context, l: Limits)
    requires n <= |ordered| && l.count >= 0
    ensures Packed(ordered, n, ctx, l).used == Tokens(Pick(ordered, Packed(ordered, n, ctx, l).at))
  {
    PackedIsGood(ordered, n, ctx, l);
    hide Packed, Tokens, Uncrowded;
  }

  // ---- how many ----

  /** The last that fits and the first that does not are nearly tied, or uncertain, or the latter is pressing. */
  predicate Tempting(cs: seq<Candidate>, packK: int, policy: Policy, entropy: real -> real) {
    0 < packK < |cs| &&
    var last, next := cs[packK - 1], cs[packK];
    || (last.useful < next.useful + policy.marginThreshold && next.useful < last.useful + policy.marginThreshold)
    || 2.0 * policy.entropyThreshold < entropy(last.useful) + entropy(next.useful)
    || policy.priorityFloor <= next.priority
  }

  predicate LeastOf(x: int, xs: seq<int>) { x in xs && forall y :: y in xs ==> x <= y }

  /** The size of the packet: as many as asked for and there are; where expansion tempts, at most twice as many, bounded by
      recall, cap and candidates. */
  lemma LimitIsLeast(cs: seq<Candidate>, packK: int, recallK: int, policy: Policy, entropy: real -> real)
    ensures LeastOf(PackLimit(cs, packK, recallK, policy, entropy),
                    if policy.adaptive && Tempting(cs, packK, policy, entropy)
                    then [2 * packK, recallK, policy.maxPack, |cs|] else [packK, |cs|])
    ensures ShouldExpand(cs, packK, policy, entropy) <==> Tempting(cs, packK, policy, entropy)
  {
    HalfOf(if 0 < packK < |cs| then entropy(cs[packK - 1].useful) + entropy(cs[packK].useful) else 0.0);
    assert ShouldExpand(cs, packK, policy, entropy) <==> Tempting(cs, packK, policy, entropy);
    hide ShouldExpand, Tempting;
  }

  lemma HalfOf(x: real)
    ensures x / 2.0 * 2.0 == x
  {
  }

  // ---- in what order ----

  /** `w` is the largest share of common words with any prior candidate that is not certified apart. */
  ghost predicate WorstOverlap(c: Candidate, prior: seq<Candidate>, ctx: Context, w: real) {
    && w >= 0.0
    && (forall i :: 0 <= i < |prior| && !CertifiedApart(c, prior[i], ctx) ==> Common(c, prior[i], ctx) <= w * Either(c, prior[i], ctx))
    && (w > 0.0 ==> exists i :: 0 <= i < |prior| && !CertifiedApart(c, prior[i], ctx) && Either(c, prior[i], ctx) > 0.0
                                && Common(c, prior[i], ctx) == w * Either(c, prior[i], ctx))
  }

  function Common(a: Candidate, b: Candidate, ctx: Context): real { |ctx.frame(a.id) * ctx.frame(b.id)| as real }

  function Either(a: Candidate, b: Candidate, ctx: Context): real { |ctx.frame(a.id) + ctx.frame(b.id)| as real }

  lemma OverlapIsWorst(c: Candidate, prior: seq<Candidate>, ctx: Context, w: real)
    requires WorstOverlap(c, prior, ctx, w)
    ensures Overlap(c, prior, ctx) == w
  {
    hide Overlap, WorstOverlap;
    OverlapAtMost(c, prior, ctx, w);
    OverlapAtLeast(c, prior, ctx, w);
  }

  lemma OverlapAtMost(c: Candidate, prior: seq<Candidate>, ctx: Context, w: real)
    requires WorstOverlap(c, prior, ctx, w)
    ensures Overlap(c, prior, ctx) <= w
  {
    hide Jaccard, CertifiedApart, DistinctCertifiedBuckets, Overlap, Common, Either;
    OverlapBounds(c, prior, ctx);
    var o := Overlap(c, prior, ctx);
    if o > 0.0 {
      var i :| 0 <= i < |prior| && o == PairOverlap(c, prior[i], ctx);
      ApartIs(c, prior[i], ctx);
      PairShare(c, prior[i], ctx);
      if Either(c, prior[i], ctx) > 0.0 { ShareOrder(w, o, Either(c, prior[i], ctx)); }
    }
  }

  lemma OverlapAtLeast(c: Candidate, prior: seq<Candidate>, ctx: Context, w: real)
    requires WorstOverlap(c, prior, ctx, w)
    ensures Overlap(c, prior, ctx) >= w
  {
    hide Jaccard, CertifiedApart, DistinctCertifiedBuckets, Overlap, Common, Either;
    OverlapBounds(c, prior, ctx);
    if w > 0.0 {
      var i :| 0 <= i < |prior| && !CertifiedApart(c, prior[i], ctx) && Either(c, prior[i], ctx) > 0.0
               && Common(c, prior[i], ctx) == w * Either(c, prior[i], ctx);
      ApartIs(c, prior[i], ctx);
      PairShare(c, prior[i], ctx);
      ShareOrder(PairOverlap(c, prior[i], ctx), w, Either(c, prior[i], ctx));
    }
  }

  lemma PairShare(c: Candidate, d: Candidate, ctx: Context)
    ensures Jaccard(ctx.frame(c.id), ctx.frame(d.id)) * Either(c, d, ctx) == Common(c, d, ctx)
    ensures Either(c, d, ctx) >= 0.0
    ensures Either(c, d, ctx) == 0.0 ==> Jaccard(ctx.frame(c.id), ctx.frame(d.id)) == 0.0
  {
    SimilarityIsShare(ctx.frame(c.id), ctx.frame(d.id), 0.0);
  }

  /** What full overlap costs: the diversity penalty, for pressing candidates at most the priority penalty. */
  function Rate(c: Candidate, policy: Policy): real {
    if c.priority < policy.priorityFloor || policy.diversityPenalty < policy.priorityPenalty then policy.diversityPenalty
    else policy.priorityPenalty
  }

  /** PREFERENCE. At each selected place the score less the rate times the worst overlap with those before is the
      greatest of all that come after; of equals the earlier candidate is taken. */
  lemma ReorderedPrefers(cs: seq<Candidate>, limit: int, ctx: Context, policy: Policy, k: nat, j: nat, w: real, v: real)
    requires k < j < |Positions(cs, limit, ctx, policy)| && k < limit
    requires var at := Positions(cs, limit, ctx, policy);
      && WorstOverlap(cs[at[k]], Pick(cs, at[..k]), ctx, w) && WorstOverlap(cs[at[j]], Pick(cs, at[..k]), ctx, v)
    ensures var at := Positions(cs, limit, ctx, policy);
      var c, d := cs[at[k]], cs[at[j]];
      || c.score - Rate(c, policy) * w > d.score - Rate(d, policy) * v
      || (c.score - Rate(c, policy) * w == d.score - Rate(d, policy) * v && at[k] < at[j])
  {
    hide Overlap, WorstOverlap, Positions;
    ReorderedIsGreedy(cs, limit, ctx, policy);
    var at := Positions(cs, limit, ctx, policy);
    assert Beats(cs, at, k, j, ctx, policy);
    OverlapIsWorst(cs[at[k]], Pick(cs, at[..k]), ctx, w);
    OverlapIsWorst(cs[at[j]], Pick(cs, at[..k]), ctx, v);
  }

  /** Without diversity the candidates are packed as they come; with it, as reordered. */
  lemma PackingOrder(cs: seq<Candidate>, limit: int, ctx: Context, policy: Policy)
    ensures !policy.diversity ==> OrderedFor(cs, limit, ctx, policy) == cs
    ensures policy.diversity ==>
      OrderedFor(cs, limit, ctx, policy) == Pick(cs, Positions(cs, limit, ctx, policy))
  {
  }
}

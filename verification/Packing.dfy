/** Greedy packing of recalled records into a packet (internal/packing/packing.go), with the evidence correlation of
    internal/epistemic/evidence.go. */
module Packing {
  import opened Prelude
  import opened RealSums

  // ---- what is packed ----

  /** What is derived from an event's text: keys are opaque digests. */
  datatype Descriptor = Descriptor(group: string, lineage: string, distinctOccurrence: bool, terms: set<string>)

  datatype Candidate = Candidate(
    id: string, score: real, useful: real, priority: real, tokens: int, declaredGroup: string)

  datatype Policy = Policy(
    adaptive: bool, diversity: bool, maxPack: int, marginThreshold: real, entropyThreshold: real,
    diversityPenalty: real, priorityFloor: real, priorityPenalty: real, occupancyLimit: int, similarity: real)

  /** The event texts behind the candidates, by event ID, and the certified bucket keys. */
  datatype Context = Context(describe: string -> Descriptor, frame: string -> set<string>, keys: map<string, string>)

  function KeyOf(keys: map<string, string>, id: string): string { if id in keys then keys[id] else "" }

  predicate Certified(key: string) { "ap:" <= key }

  predicate DistinctCertifiedBuckets(a: Candidate, b: Candidate, keys: map<string, string>) {
    Certified(KeyOf(keys, a.id)) && Certified(KeyOf(keys, b.id)) && KeyOf(keys, a.id) != KeyOf(keys, b.id)
  }

  function Jaccard(a: set<string>, b: set<string>): real {
    if a == {} || b == {} then 0.0
    else
      assert |a * b| < |a| + |b| by { IntersectionSize(a, b); }
      |a * b| as real / (|a| + |b| - |a * b|) as real
  }

  predicate Correlated(a: Descriptor, b: Descriptor, minimum: real) {
    if a.group == b.group then true
    else if a.distinctOccurrence || b.distinctOccurrence || a.lineage != b.lineage then false
    else Jaccard(a.terms, b.terms) >= minimum
  }

  lemma IntersectionSize(a: set<string>, b: set<string>)
    ensures |a * b| <= |a| && |a * b| <= |b|
    ensures |a * b| == |a| <==> a <= b
  {
    SubsetSize(a * b, a);
    SubsetSize(a * b, b);
    if a <= b { assert a * b == a; }
  }

  /** Similarity is symmetric, lies in [0, 1], and is 1 exactly for equal non-empty word sets. */
  lemma JaccardLaw(a: set<string>, b: set<string>)
    ensures Jaccard(a, b) == Jaccard(b, a) && 0.0 <= Jaccard(a, b) <= 1.0
    ensures Jaccard(a, b) == 1.0 <==> a == b && a != {}
  {
    assert a * b == b * a;
    IntersectionSize(a, b);
    IntersectionSize(b, a);
    if a != {} && b != {} {
      var shared, all := |a * b| as real, (|a| + |b| - |a * b|) as real;
      Ratio(shared, all);
      if shared == all { assert |a * b| == |a| == |b|; }
      if a == b { assert a * b == a; }
    }
  }

  lemma Ratio(x: real, y: real)
    requires 0.0 <= x <= y && y > 0.0
    ensures 0.0 <= x / y <= 1.0 && (x / y == 1.0 <==> x == y)
  {
    var q := x / y;
    assert q * y == x;
  }

  lemma CorrelatedSymmetric(a: Descriptor, b: Descriptor, minimum: real)
    ensures Correlated(a, b, minimum) == Correlated(b, a, minimum)
  {
    JaccardLaw(a.terms, b.terms);
    hide Jaccard;
  }

  /** Two records that may not share a packet beyond the occupancy limit. */
  predicate Conflict(a: Candidate, b: Candidate, ctx: Context, similarity: real) {
    && !DistinctCertifiedBuckets(a, b, ctx.keys)
    && ((a.declaredGroup != "" && a.declaredGroup == b.declaredGroup)
        || Correlated(ctx.describe(a.id), ctx.describe(b.id), similarity))
  }

  lemma ConflictSymmetric(a: Candidate, b: Candidate, ctx: Context, similarity: real)
    ensures Conflict(a, b, ctx, similarity) == Conflict(b, a, ctx, similarity)
  {
    CorrelatedSymmetric(ctx.describe(a.id), ctx.describe(b.id), similarity);
    hide Correlated;
  }

  // ---- how many to pack ----

  predicate ShouldExpand(cs: seq<Candidate>, packK: int, policy: Policy, entropy: real -> real) {
    if packK <= 0 || |cs| <= packK then false
    else
      var inside, outside := cs[packK - 1], cs[packK];
      || Abs(inside.useful - outside.useful) < policy.marginThreshold
      || (entropy(inside.useful) + entropy(outside.useful)) / 2.0 > policy.entropyThreshold
      || outside.priority >= policy.priorityFloor
  }

  function PackLimit(cs: seq<Candidate>, packK: int, recallK: int, policy: Policy, entropy: real -> real): int {
    if policy.adaptive && ShouldExpand(cs, packK, policy, entropy)
    then MinInt(MinInt(MinInt(2 * packK, recallK), policy.maxPack), |cs|)
    else MinInt(packK, |cs|)
  }

  /** Adaptive packing never more than doubles the packet, and an "expansion" makes it smaller than plain packing
      exactly when the recall count or the hard cap is below the requested size. */
  lemma ExpansionBounds(cs: seq<Candidate>, packK: int, recallK: int, policy: Policy, entropy: real -> real)
    requires packK >= 0
    ensures var limit, plain := PackLimit(cs, packK, recallK, policy, entropy), MinInt(packK, |cs|);
      && limit <= 2 * plain && limit <= |cs|
      && (limit < plain <==> policy.adaptive && ShouldExpand(cs, packK, policy, entropy)
                             && MinInt(recallK, policy.maxPack) < packK)
  {
  }

  // ---- positions ----

  function Pick(cs: seq<Candidate>, at: seq<nat>): (r: seq<Candidate>)
    requires forall i :: 0 <= i < |at| ==> at[i] < |cs|
    ensures |r| == |at| && forall i :: 0 <= i < |at| ==> r[i] == cs[at[i]]
  {
    seq(|at|, i requires 0 <= i < |at| => cs[at[i]])
  }

  ghost predicate Within(at: seq<nat>, n: nat) { forall i :: 0 <= i < |at| ==> at[i] < n }

  ghost predicate Increasing(at: seq<nat>) { forall i, j :: 0 <= i < j < |at| ==> at[i] < at[j] }

  // ---- diversity reordering ----

  /** Word overlap, except that distinct certified buckets never count as overlapping. */
  function PairOverlap(c: Candidate, prior: Candidate, ctx: Context): real {
    if DistinctCertifiedBuckets(c, prior, ctx.keys) then 0.0 else Jaccard(ctx.frame(c.id), ctx.frame(prior.id))
  }

  /** The worst word overlap with what is already selected. */
  function Overlap(c: Candidate, selected: seq<Candidate>, ctx: Context): real {
    if selected == [] then 0.0
    else
      var n := |selected| - 1;
      var rest := Overlap(c, selected[..n], ctx);
      if DistinctCertifiedBuckets(c, selected[n], ctx.keys) then rest
      else Max(rest, Jaccard(ctx.frame(c.id), ctx.frame(selected[n].id)))
  }

  function MaxPenalty(c: Candidate, policy: Policy): real {
    if c.priority >= policy.priorityFloor then
      if policy.priorityPenalty <= policy.diversityPenalty then policy.priorityPenalty else policy.diversityPenalty
    else policy.diversityPenalty
  }

  function Adjusted(c: Candidate, selected: seq<Candidate>, ctx: Context, policy: Policy): real {
    c.score - MaxPenalty(c, policy) * Overlap(c, selected, ctx)
  }

  lemma {:induction false} OverlapBounds(c: Candidate, selected: seq<Candidate>, ctx: Context)
    ensures 0.0 <= Overlap(c, selected, ctx) <= 1.0
    ensures Overlap(c, selected, ctx) > 0.0 ==>
      exists i :: 0 <= i < |selected| && Overlap(c, selected, ctx) == PairOverlap(c, selected[i], ctx)
    ensures forall i :: 0 <= i < |selected| ==> PairOverlap(c, selected[i], ctx) <= Overlap(c, selected, ctx)
    decreases |selected|
  {
    hide Jaccard, DistinctCertifiedBuckets;
    if selected != [] {
      var n := |selected| - 1;
      OverlapBounds(c, selected[..n], ctx);
      JaccardLaw(ctx.frame(c.id), ctx.frame(selected[n].id));
      assert forall i :: 0 <= i < n ==> selected[..n][i] == selected[i];
    }
  }

  /** `b` is the first of the best scores. */
  ghost predicate FirstBest(scores: seq<real>, b: nat) {
    b < |scores| && forall j :: 0 <= j < |scores| ==> scores[j] <= scores[b] && (j < b ==> scores[j] < scores[b])
  }

  function BestIndex(scores: seq<real>): (b: nat)
    requires scores != []
    ensures FirstBest(scores, b)
  {
    var n := |scores| - 1;
    if n == 0 then 0
    else
      var b := BestIndex(scores[..n]);
      assert forall j :: 0 <= j < n ==> scores[..n][j] == scores[j];
      if scores[n] > scores[b] then n else b
  }

  function Scores(cs: seq<Candidate>, selected: seq<nat>, remaining: seq<nat>, ctx: Context, policy: Policy)
    : (r: seq<real>)
    requires (forall i :: 0 <= i < |selected| ==> selected[i] < |cs|)
    requires (forall i :: 0 <= i < |remaining| ==> remaining[i] < |cs|)
    ensures |r| == |remaining|
    ensures forall i :: 0 <= i < |r| ==> r[i] == Adjusted(cs[remaining[i]], Pick(cs, selected), ctx, policy)
  {
    seq(|remaining|, i requires 0 <= i < |remaining| => Adjusted(cs[remaining[i]], Pick(cs, selected), ctx, policy))
  }

  function Removed<T>(xs: seq<T>, i: nat): seq<T>
    requires i < |xs|
  {
    xs[..i] + xs[i + 1..]
  }

  /** Positions in the order the reordering puts them, from a point where some are selected and some remain. */
  ghost function Diversified(cs: seq<Candidate>, selected: seq<nat>, remaining: seq<nat>, limit: int, ctx: Context,
                             policy: Policy): (r: seq<nat>)
    requires Within(selected, |cs|) && Within(remaining, |cs|)
    ensures Within(r, |cs|)
    decreases |remaining|
  {
    if remaining == [] || |selected| >= limit then selected + remaining
    else
      var b := BestIndex(Scores(cs, selected, remaining, ctx, policy));
      Diversified(cs, selected + [remaining[b]], Removed(remaining, b), limit, ctx, policy)
  }

  /** At every selected place the best adjusted score of all that come after, the earlier candidate winning a tie; past
      the limit, the original order. */
  ghost predicate Greedy(cs: seq<Candidate>, order: seq<nat>, from: nat, limit: int, ctx: Context, policy: Policy)
    requires Within(order, |cs|)
  {
    && (forall k, j :: from <= k < j < |order| && k < limit ==> Beats(cs, order, k, j, ctx, policy))
    && (forall k, j :: from <= k < j < |order| && limit <= k ==> order[k] < order[j])
  }

  ghost predicate Beats(cs: seq<Candidate>, order: seq<nat>, k: nat, j: nat, ctx: Context, policy: Policy)
    requires Within(order, |cs|) && k < |order| && j < |order|
  {
    var prior := Pick(cs, order[..k]);
    var winner, loser := Adjusted(cs[order[k]], prior, ctx, policy), Adjusted(cs[order[j]], prior, ctx, policy);
    winner > loser || (winner == loser && order[k] < order[j])
  }

  lemma RemovedFacts(xs: seq<nat>, i: nat)
    requires i < |xs| && Increasing(xs)
    ensures Increasing(Removed(xs, i)) && multiset(Removed(xs, i)) + multiset{xs[i]} == multiset(xs)
    ensures forall x :: x in Removed(xs, i) ==> x in xs && x != xs[i]
  {
    assert xs == xs[..i] + [xs[i]] + xs[i + 1..];
  }

  /** One turn of the reordering. */
  lemma DiversifiedStep(cs: seq<Candidate>, selected: seq<nat>, remaining: seq<nat>, limit: int, ctx: Context,
                        policy: Policy) returns (b: nat)
    requires Within(selected, |cs|) && Within(remaining, |cs|) && Increasing(remaining)
    requires remaining != [] && |selected| < limit
    ensures b < |remaining| && FirstBest(Scores(cs, selected, remaining, ctx, policy), b)
    ensures |Removed(remaining, b)| == |remaining| - 1 && Increasing(Removed(remaining, b))
    ensures multiset(Removed(remaining, b)) + multiset{remaining[b]} == multiset(remaining)
    ensures Within(selected + [remaining[b]], |cs|) && Within(Removed(remaining, b), |cs|)
    ensures Diversified(cs, selected, remaining, limit, ctx, policy)
         == Diversified(cs, selected + [remaining[b]], Removed(remaining, b), limit, ctx, policy)
  {
    b := BestIndex(Scores(cs, selected, remaining, ctx, policy));
    RemovedFacts(remaining, b);
    hide Scores, FirstBest, Increasing;
  }

  lemma {:induction false} DiversifiedShape(cs: seq<Candidate>, selected: seq<nat>, remaining: seq<nat>, limit: int,
                                            ctx: Context, policy: Policy)
    requires Within(selected, |cs|) && Within(remaining, |cs|) && Increasing(remaining)
    ensures var r := Diversified(cs, selected, remaining, limit, ctx, policy);
      && |r| == |selected| + |remaining| && selected <= r
      && multiset(r[|selected|..]) == multiset(remaining)
    decreases |remaining|
  {
    if remaining == [] || |selected| >= limit {
      assert (selected + remaining)[|selected|..] == remaining;
    } else {
      hide *;
      var b := DiversifiedStep(cs, selected, remaining, limit, ctx, policy);
      var more, rest := selected + [remaining[b]], Removed(remaining, b);
      DiversifiedShape(cs, more, rest, limit, ctx, policy);
      ShapeStep(Diversified(cs, more, rest, limit, ctx, policy), selected, remaining[b], multiset(rest));
    }
  }

  lemma ShapeStep(r: seq<nat>, selected: seq<nat>, next: nat, rest: multiset<nat>)
    requires selected + [next] <= r && multiset(r[|selected| + 1..]) == rest
    ensures selected <= r && multiset(r[|selected|..]) == rest + multiset{next}
  {
    var s := |selected|;
    assert r[s] == next;
    assert r[s..] == [next] + r[s + 1..];
  }

  /** One selection: the chosen position beats everything that was left. */
  lemma ChosenBeats(cs: seq<Candidate>, selected: seq<nat>, remaining: seq<nat>, b: nat, m: nat, ctx: Context,
                    policy: Policy)
    requires Within(selected, |cs|) && Within(remaining, |cs|) && Increasing(remaining) && m < |remaining| && m != b
    requires FirstBest(Scores(cs, selected, remaining, ctx, policy), b)
    ensures var prior := Pick(cs, selected);
      var winner, loser := Adjusted(cs[remaining[b]], prior, ctx, policy),
                           Adjusted(cs[remaining[m]], prior, ctx, policy);
      winner > loser || (winner == loser && remaining[b] < remaining[m])
  {
    hide Adjusted;
    var scores := Scores(cs, selected, remaining, ctx, policy);
    assert scores[m] <= scores[b] && (m < b ==> scores[m] < scores[b]);
  }

  lemma GreedyFrom(cs: seq<Candidate>, order: seq<nat>, from: nat, limit: int, ctx: Context, policy: Policy)
    requires Within(order, |cs|) && from < limit && Greedy(cs, order, from + 1, limit, ctx, policy)
    requires forall j :: from < j < |order| ==> Beats(cs, order, from, j, ctx, policy)
    ensures Greedy(cs, order, from, limit, ctx, policy)
  {
    hide Beats;
  }

  lemma GreedyDone(cs: seq<Candidate>, selected: seq<nat>, remaining: seq<nat>, limit: int, ctx: Context,
                   policy: Policy)
    requires Within(selected, |cs|) && Within(remaining, |cs|) && Increasing(remaining)
    requires remaining == [] || |selected| >= limit
    ensures Greedy(cs, selected + remaining, |selected|, limit, ctx, policy)
  {
    hide Beats;
  }

  lemma {:induction false} DiversifiedGreedy(cs: seq<Candidate>, selected: seq<nat>, remaining: seq<nat>, limit: int,
                                             ctx: Context, policy: Policy)
    requires Within(selected, |cs|) && Within(remaining, |cs|) && Increasing(remaining)
    ensures Greedy(cs, Diversified(cs, selected, remaining, limit, ctx, policy), |selected|, limit, ctx, policy)
    decreases |remaining|
  {
    if remaining == [] || |selected| >= limit {
      GreedyDone(cs, selected, remaining, limit, ctx, policy);
      hide Greedy, Beats, Increasing;
    } else {
      hide *;
      var b := DiversifiedStep(cs, selected, remaining, limit, ctx, policy);
      var more, rest := selected + [remaining[b]], Removed(remaining, b);
      DiversifiedShape(cs, more, rest, limit, ctx, policy);
      DiversifiedGreedy(cs, more, rest, limit, ctx, policy);
      var r := Diversified(cs, more, rest, limit, ctx, policy);
      ChosenFirst(cs, r, selected, remaining, b, ctx, policy);
      GreedyFrom(cs, r, |selected|, limit, ctx, policy);
    }
  }

  lemma ChosenFirst(cs: seq<Candidate>, r: seq<nat>, selected: seq<nat>, remaining: seq<nat>, b: nat, ctx: Context,
                    policy: Policy)
    requires Within(r, |cs|) && Within(selected, |cs|) && Within(remaining, |cs|) && Increasing(remaining)
    requires FirstBest(Scores(cs, selected, remaining, ctx, policy), b)
    requires selected + [remaining[b]] <= r && multiset(r[|selected| + 1..]) == multiset(Removed(remaining, b))
    ensures forall j :: |selected| < j < |r| ==> Beats(cs, r, |selected|, j, ctx, policy)
  {
    RemovedFacts(remaining, b);
    hide Scores, FirstBest, Removed, Adjusted;
    var s := |selected|;
    assert r[..s] == selected && r[s] == remaining[b];
    forall j | s < j < |r| ensures Beats(cs, r, s, j, ctx, policy) {
      assert r[j] == r[s + 1..][j - s - 1] && r[j] in multiset(r[s + 1..]);
      assert r[j] in Removed(remaining, b);
      var m :| 0 <= m < |remaining| && remaining[m] == r[j];
      ChosenBeats(cs, selected, remaining, b, m, ctx, policy);
    }
  }

  function Range(n: nat): (r: seq<nat>)
    ensures |r| == n && forall i :: 0 <= i < n ==> r[i] == i
  {
    seq(n, i => i)
  }

  lemma PickSplit(cs: seq<Candidate>, at: seq<nat>, i: nat)
    requires Within(at, |cs|) && i < |at|
    ensures Within(Removed(at, i), |cs|)
    ensures multiset(Pick(cs, at)) == multiset(Pick(cs, Removed(at, i))) + multiset{cs[at[i]]}
  {
    var p := Pick(cs, at);
    assert Pick(cs, Removed(at, i)) == p[..i] + p[i + 1..];
    assert p == p[..i] + [p[i]] + p[i + 1..];
  }

  lemma {:induction false} PickMultiset(cs: seq<Candidate>, a: seq<nat>, b: seq<nat>)
    requires Within(a, |cs|) && Within(b, |cs|) && multiset(a) == multiset(b)
    ensures multiset(Pick(cs, a)) == multiset(Pick(cs, b))
    decreases |a|
  {
    hide Pick, Removed, Within;
    if a == [] {
      assert |multiset(b)| == |multiset(a)| == 0;
    } else {
      assert a[0] in multiset(b);
      var i :| 0 <= i < |b| && b[i] == a[0];
      PickSplit(cs, a, 0);
      PickSplit(cs, b, i);
      RemovedOnce(a, 0);
      RemovedOnce(b, i);
      PickMultiset(cs, Removed(a, 0), Removed(b, i));
    }
  }

  lemma RemovedOnce(xs: seq<nat>, i: nat)
    requires i < |xs|
    ensures |Removed(xs, i)| == |xs| - 1 && multiset(Removed(xs, i)) == multiset(xs) - multiset{xs[i]}
  {
    assert xs == xs[..i] + [xs[i]] + xs[i + 1..];
  }

  ghost function Positions(cs: seq<Candidate>, limit: int, ctx: Context, policy: Policy): (r: seq<nat>)
    ensures Within(r, |cs|)
  {
    Diversified(cs, [], Range(|cs|), limit, ctx, policy)
  }

  ghost function Reordered(cs: seq<Candidate>, limit: int, ctx: Context, policy: Policy): seq<Candidate> {
    Pick(cs, Positions(cs, limit, ctx, policy))
  }

  /** The reordering is a permutation; each of its first `limit` places holds the candidate with the best score after
      its overlap penalty against those before it, earlier candidates winning ties; the rest keep their order. */
  lemma ReorderedIsGreedy(cs: seq<Candidate>, limit: int, ctx: Context, policy: Policy)
    ensures var at := Positions(cs, limit, ctx, policy);
      && multiset(Reordered(cs, limit, ctx, policy)) == multiset(cs)
      && multiset(at) == multiset(Range(|cs|)) && Greedy(cs, at, 0, limit, ctx, policy)
  {
    var n := |cs|;
    var at := Positions(cs, limit, ctx, policy);
    DiversifiedShape(cs, [], Range(n), limit, ctx, policy);
    DiversifiedGreedy(cs, [], Range(n), limit, ctx, policy);
    assert at[0..] == at;
    PickMultiset(cs, at, Range(n));
    assert Pick(cs, Range(n)) == cs;
  }

  method Penalty(c: Candidate, selected: seq<Candidate>, tokenSets: map<string, set<string>>, ctx: Context)
    returns (penalty: real)
    requires c.id in tokenSets && tokenSets[c.id] == ctx.frame(c.id)
    requires forall i :: 0 <= i < |selected| ==>
      selected[i].id in tokenSets && tokenSets[selected[i].id] == ctx.frame(selected[i].id)
    ensures penalty == Overlap(c, selected, ctx)
  {
    hide Jaccard, DistinctCertifiedBuckets;
    penalty := 0.0;
    for i := 0 to |selected|
      invariant penalty == Overlap(c, selected[..i], ctx)
    {
      assert selected[..i + 1][..i] == selected[..i];
      var prior := selected[i];
      if DistinctCertifiedBuckets(c, prior, ctx.keys) { continue; }
      penalty := Max(penalty, Jaccard(tokenSets[c.id], tokenSets[prior.id]));
    }
    assert selected[..|selected|] == selected;
  }

  method Best(remaining: seq<Candidate>, selected: seq<Candidate>, tokenSets: map<string, set<string>>, ctx: Context,
              policy: Policy) returns (bestIndex: nat)
    requires remaining != []
    requires forall c :: c in remaining || c in selected ==> c.id in tokenSets && tokenSets[c.id] == ctx.frame(c.id)
    ensures bestIndex < |remaining|
    ensures forall j :: 0 <= j < |remaining| ==>
      var here, best := Adjusted(remaining[j], selected, ctx, policy),
                        Adjusted(remaining[bestIndex], selected, ctx, policy);
      here <= best && (j < bestIndex ==> here < best)
  {
    hide Overlap;
    bestIndex := 0;
    var bestScore := 0.0;
    for index := 0 to |remaining|
      invariant 0 < index ==> bestIndex < index && bestScore == Adjusted(remaining[bestIndex], selected, ctx, policy)
      invariant forall j :: 0 <= j < index ==>
        var here := Adjusted(remaining[j], selected, ctx, policy);
        here <= bestScore && (j < bestIndex ==> here < bestScore)
    {
      var c := remaining[index];
      var penalty := Penalty(c, selected, tokenSets, ctx);
      var maxPenalty := policy.diversityPenalty;
      if c.priority >= policy.priorityFloor {
        maxPenalty := if policy.priorityPenalty <= maxPenalty then policy.priorityPenalty else maxPenalty;
      }
      var score := c.score - maxPenalty * penalty;
      assert score == Adjusted(c, selected, ctx, policy);
      if index == 0 || score > bestScore { bestIndex, bestScore := index, score; }
    }
  }

  method Diversify(cs: seq<Candidate>, limit: int, ctx: Context, policy: Policy) returns (selected: seq<Candidate>)
    ensures selected == Reordered(cs, limit, ctx, policy)
  {
    hide Adjusted, Diversified;
    var tokenSets: map<string, set<string>> := map[];
    for i := 0 to |cs|
      invariant forall c :: c in cs[..i] ==> c.id in tokenSets
      invariant forall id :: id in tokenSets ==> tokenSets[id] == ctx.frame(id)
    {
      assert cs[..i + 1] == cs[..i] + [cs[i]];
      tokenSets := tokenSets[cs[i].id := ctx.frame(cs[i].id)];
    }
    assert cs[..|cs|] == cs;
    var remaining := cs;
    selected := [];
    ghost var chosen: seq<nat>, left: seq<nat> := [], Range(|cs|);
    while |remaining| > 0 && |selected| < limit
      invariant Within(chosen, |cs|) && Within(left, |cs|) && Increasing(left)
      invariant selected == Pick(cs, chosen) && remaining == Pick(cs, left)
      invariant Positions(cs, limit, ctx, policy) == Diversified(cs, chosen, left, limit, ctx, policy)
      decreases |remaining|
    {
      var bestIndex := Best(remaining, selected, tokenSets, ctx, policy);
      Chosen(cs, chosen, left, bestIndex, limit, ctx, policy);
      selected := selected + [remaining[bestIndex]];
      remaining := remaining[..bestIndex] + remaining[bestIndex + 1..];
      chosen, left := chosen + [left[bestIndex]], Removed(left, bestIndex);
    }
    DiversifiedEnds(cs, chosen, left, limit, ctx, policy);
    selected := selected + remaining;
  }

  lemma DiversifiedEnds(cs: seq<Candidate>, selected: seq<nat>, remaining: seq<nat>, limit: int, ctx: Context,
                        policy: Policy)
    requires Within(selected, |cs|) && Within(remaining, |cs|) && (remaining == [] || |selected| >= limit)
    ensures Diversified(cs, selected, remaining, limit, ctx, policy) == selected + remaining
    ensures Pick(cs, selected + remaining) == Pick(cs, selected) + Pick(cs, remaining)
  {
  }

  /** The first best candidate is the one the specification takes. */
  lemma Chosen(cs: seq<Candidate>, selected: seq<nat>, remaining: seq<nat>, i: nat, limit: int, ctx: Context,
               policy: Policy)
    requires Within(selected, |cs|) && Within(remaining, |cs|) && Increasing(remaining)
    requires i < |remaining| && |selected| < limit
    requires var rest, prior := Pick(cs, remaining), Pick(cs, selected);
      forall j :: 0 <= j < |rest| ==>
        var here, best := Adjusted(rest[j], prior, ctx, policy), Adjusted(rest[i], prior, ctx, policy);
        here <= best && (j < i ==> here < best)
    ensures var more, fewer := selected + [remaining[i]], Removed(remaining, i);
      && Within(more, |cs|) && Within(fewer, |cs|) && Increasing(fewer) && |fewer| == |remaining| - 1
      && Pick(cs, more) == Pick(cs, selected) + [Pick(cs, remaining)[i]]
      && Pick(cs, fewer) == Removed(Pick(cs, remaining), i)
      && Diversified(cs, selected, remaining, limit, ctx, policy) == Diversified(cs, more, fewer, limit, ctx, policy)
  {
    hide Adjusted, Diversified;
    var b := DiversifiedStep(cs, selected, remaining, limit, ctx, policy);
    var scores, rest, prior := Scores(cs, selected, remaining, ctx, policy), Pick(cs, remaining), Pick(cs, selected);
    assert scores[b] == Adjusted(rest[b], prior, ctx, policy) && scores[i] == Adjusted(rest[i], prior, ctx, policy);
    assert b == i;
  }

  // ---- selection ----

  function Conflicts(c: Candidate, packed: seq<Candidate>, ctx: Context, similarity: real): nat {
    if packed == [] then 0
    else
      var n := |packed| - 1;
      Conflicts(c, packed[..n], ctx, similarity) + (if Conflict(c, packed[n], ctx, similarity) then 1 else 0)
  }

  /** The limits of one packing: how many, how many tokens, how many correlated (none or fewer means no cap). */
  datatype Limits = Limits(count: int, budget: int, occupancy: int, similarity: real)

  /** Positions packed so far, the tokens they use, and how many were passed over as correlated. */
  datatype Packet = Packet(at: seq<nat>, used: int, suppressed: nat)

  predicate Crowded(c: Candidate, packed: seq<Candidate>, ctx: Context, l: Limits) {
    l.occupancy > 0 && Conflicts(c, packed, ctx, l.similarity) >= l.occupancy
  }

  function Considered(p: Packet, ordered: seq<Candidate>, i: nat, ctx: Context, l: Limits): Packet
    requires i < |ordered| && forall k :: 0 <= k < |p.at| ==> p.at[k] < |ordered|
  {
    if |p.at| >= l.count || p.used + ordered[i].tokens > l.budget then p
    else if Crowded(ordered[i], Pick(ordered, p.at), ctx, l) then p.(suppressed := p.suppressed + 1)
    else Packet(p.at + [i], p.used + ordered[i].tokens, p.suppressed)
  }

  function Packed(ordered: seq<Candidate>, n: nat, ctx: Context, l: Limits): (p: Packet)
    requires n <= |ordered|
    ensures forall k :: 0 <= k < |p.at| ==> p.at[k] < n
  {
    if n == 0 then Packet([], 0, 0) else Considered(Packed(ordered, n - 1, ctx, l), ordered, n - 1, ctx, l)
  }

  function Tokens(cs: seq<Candidate>): int {
    if cs == [] then 0 else Tokens(cs[..|cs| - 1]) + cs[|cs| - 1].tokens
  }

  /** Counting, said without the loop: the conflicting places of the packet. */
  lemma {:induction false} ConflictsCount(c: Candidate, packed: seq<Candidate>, ctx: Context, similarity: real)
    ensures Conflicts(c, packed, ctx, similarity)
         == |set k | 0 <= k < |packed| && Conflict(c, packed[k], ctx, similarity)|
    decreases |packed|
  {
    hide Conflict;
    var places := set k | 0 <= k < |packed| && Conflict(c, packed[k], ctx, similarity);
    if packed == [] {
      assert places == {};
    } else {
      var n := |packed| - 1;
      ConflictsCount(c, packed[..n], ctx, similarity);
      var fewer := set k | 0 <= k < n && Conflict(c, packed[..n][k], ctx, similarity);
      assert fewer == set k | 0 <= k < n && Conflict(c, packed[k], ctx, similarity);
      assert places == if Conflict(c, packed[n], ctx, similarity) then fewer + {n} else fewer;
    }
  }

  lemma {:induction false} ConflictsGrow(c: Candidate, packed: seq<Candidate>, n: nat, ctx: Context, similarity: real)
    requires n <= |packed|
    ensures Conflicts(c, packed[..n], ctx, similarity) <= Conflicts(c, packed, ctx, similarity)
    decreases |packed|
  {
    if n == |packed| {
      assert packed[..n] == packed;
    } else {
      var m := |packed| - 1;
      assert packed[..m][..n] == packed[..n];
      ConflictsGrow(c, packed[..m], n, ctx, similarity);
    }
  }

  lemma {:induction false} NoConflictNone(c: Candidate, packed: seq<Candidate>, ctx: Context, similarity: real)
    ensures Conflicts(c, packed, ctx, similarity) == 0
       <==> forall k :: 0 <= k < |packed| ==> !Conflict(c, packed[k], ctx, similarity)
    decreases |packed|
  {
    hide Conflict;
    if packed != [] {
      var n := |packed| - 1;
      NoConflictNone(c, packed[..n], ctx, similarity);
      assert forall k :: 0 <= k < n ==> packed[..n][k] == packed[k];
    }
  }

  /** What every packet satisfies. */
  ghost predicate GoodPacket(p: Packet, ordered: seq<Candidate>, ctx: Context, l: Limits)
    requires Within(p.at, |ordered|)
  {
    var packed := Pick(ordered, p.at);
    && Increasing(p.at) && |p.at| <= l.count && p.used == Tokens(packed) && (p.at != [] ==> p.used <= l.budget)
    && Uncrowded(packed, ctx, l)
  }

  /** Nothing in the packet was crowded out by what was packed before it. */
  ghost predicate Uncrowded(packed: seq<Candidate>, ctx: Context, l: Limits) {
    forall k :: 0 <= k < |packed| ==> !Crowded(packed[k], packed[..k], ctx, l)
  }

  lemma UncrowdedNext(packed: seq<Candidate>, c: Candidate, ctx: Context, l: Limits)
    requires Uncrowded(packed, ctx, l) && !Crowded(c, packed, ctx, l)
    ensures Uncrowded(packed + [c], ctx, l) && Tokens(packed + [c]) == Tokens(packed) + c.tokens
  {
    hide Crowded;
    var more := packed + [c];
    assert more[..|packed|] == packed;
    forall k | 0 <= k < |more| ensures !Crowded(more[k], more[..k], ctx, l) {
      if k < |packed| { assert more[..k] == packed[..k]; }
    }
  }

  lemma {:induction false} PackedIsGood(ordered: seq<Candidate>, n: nat, ctx: Context, l: Limits)
    requires n <= |ordered| && l.count >= 0
    ensures GoodPacket(Packed(ordered, n, ctx, l), ordered, ctx, l)
  {
    hide Crowded;
    if n > 0 {
      PackedIsGood(ordered, n - 1, ctx, l);
      GoodStep(Packed(ordered, n - 1, ctx, l), ordered, n - 1, ctx, l);
    }
  }

  lemma GoodStep(p: Packet, ordered: seq<Candidate>, i: nat, ctx: Context, l: Limits)
    requires i < |ordered| && Within(p.at, i) && GoodPacket(p, ordered, ctx, l)
    ensures GoodPacket(Considered(p, ordered, i, ctx, l), ordered, ctx, l)
  {
    hide Crowded, Uncrowded, Tokens;
    var packed := Pick(ordered, p.at);
    if |p.at| < l.count && p.used + ordered[i].tokens <= l.budget && !Crowded(ordered[i], packed, ctx, l) {
      UncrowdedNext(packed, ordered[i], ctx, l);
      PickNext(ordered, p.at, i);
      hide Pick;
    }
  }

  lemma PickNext(cs: seq<Candidate>, at: seq<nat>, i: nat)
    requires Within(at, |cs|) && i < |cs|
    ensures Pick(cs, at + [i]) == Pick(cs, at) + [cs[i]]
  {
  }

  /** What is packed stays packed, and everything packed later comes later. */
  lemma {:induction false} PackedGrows(ordered: seq<Candidate>, i: nat, n: nat, ctx: Context, l: Limits)
    requires i <= n <= |ordered|
    ensures var early, late := Packed(ordered, i, ctx, l), Packed(ordered, n, ctx, l);
      early.at <= late.at && forall k :: |early.at| <= k < |late.at| ==> i <= late.at[k]
    decreases n
  {
    hide Crowded;
    if i < n { PackedGrows(ordered, i, n - 1, ctx, l); }
  }

  /** THE PACKET, characterised: a candidate is packed exactly when, given those packed before it, the count and token
      limits leave room for it and it is not crowded out by correlated evidence. */
  lemma PackedDecision(ordered: seq<Candidate>, i: nat, ctx: Context, l: Limits)
    requires i < |ordered|
    ensures var final, before := Packed(ordered, |ordered|, ctx, l), Packed(ordered, i, ctx, l);
      && (forall k :: k in before.at <==> k in final.at && k < i)
      && (i in final.at <==> |before.at| < l.count && before.used + ordered[i].tokens <= l.budget
                             && !Crowded(ordered[i], Pick(ordered, before.at), ctx, l))
  {
    hide Crowded;
    var final, before, next := Packed(ordered, |ordered|, ctx, l), Packed(ordered, i, ctx, l),
                               Packed(ordered, i + 1, ctx, l);
    PackedGrows(ordered, i, |ordered|, ctx, l);
    PackedGrows(ordered, i + 1, |ordered|, ctx, l);
    PrefixMembers(before.at, final.at, i);
    PrefixMembers(next.at, final.at, i + 1);
  }

  lemma PrefixMembers(small: seq<nat>, large: seq<nat>, bound: nat)
    requires small <= large && Within(small, bound) && forall k :: |small| <= k < |large| ==> bound <= large[k]
    ensures forall x :: x in small <==> x in large && x < bound
  {
    assert large == small + large[|small|..];
  }

  /** This candidate came while there was room and would have fitted, but was crowded out. */
  predicate PassedOver(ordered: seq<Candidate>, i: nat, ctx: Context, l: Limits)
    requires i < |ordered|
  {
    var p := Packed(ordered, i, ctx, l);
    |p.at| < l.count && p.used + ordered[i].tokens <= l.budget && Crowded(ordered[i], Pick(ordered, p.at), ctx, l)
  }

  ghost function PassedOverBefore(ordered: seq<Candidate>, n: nat, ctx: Context, l: Limits): set<nat>
    requires n <= |ordered|
  {
    set i | 0 <= i < n && PassedOver(ordered, i, ctx, l)
  }

  lemma PassedOverNext(ordered: seq<Candidate>, n: nat, ctx: Context, l: Limits)
    requires n < |ordered|
    ensures var before := PassedOverBefore(ordered, n, ctx, l);
      n !in before
      && PassedOverBefore(ordered, n + 1, ctx, l) == if PassedOver(ordered, n, ctx, l) then before + {n} else before
  {
    hide PassedOver;
  }

  /** The suppression count is exactly the number of candidates that only correlation kept out. */
  lemma {:induction false} SuppressedCount(ordered: seq<Candidate>, n: nat, ctx: Context, l: Limits)
    requires n <= |ordered|
    ensures Packed(ordered, n, ctx, l).suppressed == |PassedOverBefore(ordered, n, ctx, l)|
  {
    if n == 0 {
      assert PassedOverBefore(ordered, 0, ctx, l) == {};
    } else {
      hide *;
      SuppressedCount(ordered, n - 1, ctx, l);
      SuppressedStep(ordered, n - 1, ctx, l);
      PassedOverNext(ordered, n - 1, ctx, l);
    }
  }

  lemma SuppressedStep(ordered: seq<Candidate>, i: nat, ctx: Context, l: Limits)
    requires i < |ordered|
    ensures Packed(ordered, i + 1, ctx, l).suppressed
         == Packed(ordered, i, ctx, l).suppressed + (if PassedOver(ordered, i, ctx, l) then 1 else 0)
  {
    hide Crowded;
  }

  ghost predicate NonNegative(cs: seq<Candidate>) { forall i :: 0 <= i < |cs| ==> cs[i].tokens >= 0 }

  lemma {:induction false} UsedGrows(ordered: seq<Candidate>, i: nat, n: nat, ctx: Context, l: Limits)
    requires i <= n <= |ordered| && NonNegative(ordered)
    ensures Packed(ordered, i, ctx, l).used <= Packed(ordered, n, ctx, l).used
    decreases n
  {
    hide Crowded;
    if i < n { UsedGrows(ordered, i, n - 1, ctx, l); }
  }

  /** MAXIMAL. When the packet is not full, a candidate left out could still be added only if what was packed after it
      gave tokens back; with the non-negative estimates there are, never. */
  lemma PackedIsMaximal(ordered: seq<Candidate>, i: nat, ctx: Context, l: Limits)
    requires i < |ordered|
    ensures var p, before := Packed(ordered, |ordered|, ctx, l), Packed(ordered, i, ctx, l);
      && (NonNegative(ordered) ==> before.used <= p.used)
      && (|p.at| < l.count && i !in p.at && before.used <= p.used ==>
            p.used + ordered[i].tokens > l.budget || Crowded(ordered[i], Pick(ordered, p.at), ctx, l))
  {
    var p, before := Packed(ordered, |ordered|, ctx, l), Packed(ordered, i, ctx, l);
    PackedDecision(ordered, i, ctx, l);
    PackedGrows(ordered, i, |ordered|, ctx, l);
    if NonNegative(ordered) { UsedGrows(ordered, i, |ordered|, ctx, l); }
    var packed := Pick(ordered, p.at);
    assert packed[..|before.at|] == Pick(ordered, before.at);
    ConflictsGrow(ordered[i], packed, |before.at|, ctx, l.similarity);
    hide Conflicts, Packed, Pick;
  }

  /** With a negative estimate it would be false: the second candidate makes the room the first one lacked. */
  lemma NegativeEstimateMakesRoom(a: Candidate, b: Candidate, ctx: Context, l: Limits)
    requires a.tokens == 5 && b.tokens == -5 && l.count == 2 && l.budget == 3 && l.occupancy == 0
    ensures var p := Packed([a, b], 2, ctx, l); p.at == [1] && p.used + a.tokens <= l.budget && |p.at| < l.count
  {
    assert Packed([a, b], 0, ctx, l).at == [];
    assert Packed([a, b], 1, ctx, l) == Packet([], 0, 0);
    hide Conflicts, Pick;
  }

  /** With an occupancy limit of one, no two packed records are correlated unless their buckets are certified distinct. */
  lemma OnePerClaim(ordered: seq<Candidate>, ctx: Context, l: Limits, j: nat, k: nat)
    requires l.count >= 0 && l.occupancy == 1
    requires var p := Packed(ordered, |ordered|, ctx, l); j < |p.at| && k < |p.at| && j != k
    ensures var packed := Pick(ordered, Packed(ordered, |ordered|, ctx, l).at);
      Correlated(ctx.describe(packed[j].id), ctx.describe(packed[k].id), l.similarity) ==>
        DistinctCertifiedBuckets(packed[j], packed[k], ctx.keys)
  {
    var p := Packed(ordered, |ordered|, ctx, l);
    PackedIsGood(ordered, |ordered|, ctx, l);
    var packed := Pick(ordered, p.at);
    var early, late := if j < k then j else k, if j < k then k else j;
    assert !Crowded(packed[late], packed[..late], ctx, l);
    NoConflictNone(packed[late], packed[..late], ctx, l.similarity);
    assert packed[..late][early] == packed[early];
    ConflictSymmetric(packed[early], packed[late], ctx, l.similarity);
    hide Correlated, Packed, Conflicts;
  }

  /** Once the count is reached nothing changes. */
  lemma {:induction false} FullStays(ordered: seq<Candidate>, i: nat, n: nat, ctx: Context, l: Limits)
    requires i <= n <= |ordered| && |Packed(ordered, i, ctx, l).at| >= l.count
    ensures Packed(ordered, n, ctx, l) == Packed(ordered, i, ctx, l)
    decreases n
  {
    hide Crowded;
    if i < n { FullStays(ordered, i, n - 1, ctx, l); }
  }

  // ---- the selection as it runs ----

  datatype Result = Result(candidates: seq<Candidate>, usedTokens: int, expanded: bool, suppressed: nat)

  ghost predicate Described(descriptors: map<string, Descriptor>, ctx: Context) {
    forall id :: id in descriptors ==> descriptors[id] == ctx.describe(id)
  }

  method Describe(descriptors: map<string, Descriptor>, id: string, ctx: Context)
    returns (d: Descriptor, after: map<string, Descriptor>)
    requires Described(descriptors, ctx)
    ensures d == ctx.describe(id) && Described(after, ctx)
  {
    after := descriptors;
    if id in descriptors { return descriptors[id], after; }
    d := ctx.describe(id);
    after := after[id := d];
  }

  method CountConflicts(c: Candidate, packed: seq<Candidate>, known: map<string, Descriptor>, ctx: Context,
                        similarity: real) returns (correlated: nat, descriptors: map<string, Descriptor>)
    requires Described(known, ctx)
    ensures correlated == Conflicts(c, packed, ctx, similarity) && Described(descriptors, ctx)
  {
    hide Correlated, DistinctCertifiedBuckets, Described;
    correlated, descriptors := 0, known;
    for i := 0 to |packed|
      invariant Described(descriptors, ctx) && correlated == Conflicts(c, packed[..i], ctx, similarity)
    {
      assert packed[..i + 1][..i] == packed[..i];
      var prior := packed[i];
      if DistinctCertifiedBuckets(c, prior, ctx.keys) { continue; }
      if c.declaredGroup != "" && c.declaredGroup == prior.declaredGroup {
        correlated := correlated + 1;
      } else {
        var left, right;
        left, descriptors := Describe(descriptors, c.id, ctx);
        right, descriptors := Describe(descriptors, prior.id, ctx);
        if Correlated(left, right, similarity) { correlated := correlated + 1; }
      }
    }
    assert packed[..|packed|] == packed;
  }

  function LimitsOf(limit: int, budget: int, policy: Policy): Limits {
    Limits(limit, budget, policy.occupancyLimit, policy.similarity)
  }

  ghost function OrderedFor(cs: seq<Candidate>, limit: int, ctx: Context, policy: Policy): seq<Candidate> {
    if policy.diversity then Reordered(cs, limit, ctx, policy) else cs
  }

  /** A negative limit makes the source panic, so callers must not ask for one. */
  method Select(cs: seq<Candidate>, packK: int, recallK: int, tokenBudget: int, ctx: Context, policy: Policy,
                entropy: real -> real) returns (r: Result)
    requires PackLimit(cs, packK, recallK, policy, entropy) >= 0
    ensures var limit := PackLimit(cs, packK, recallK, policy, entropy);
      var ordered := OrderedFor(cs, limit, ctx, policy);
      var p := Packed(ordered, |ordered|, ctx, LimitsOf(limit, tokenBudget, policy));
      && r.candidates == Pick(ordered, p.at) && r.usedTokens == p.used && r.suppressed == p.suppressed
      && (r.expanded <==> policy.adaptive && ShouldExpand(cs, packK, policy, entropy) && limit > packK)
  {
    hide Reordered, Conflicts, ShouldExpand, Described;
    var limit, expanded := MinInt(packK, |cs|), false;
    if policy.adaptive && ShouldExpand(cs, packK, policy, entropy) {
      var hardCap := MinInt(MinInt(2 * packK, recallK), policy.maxPack);
      limit := MinInt(hardCap, |cs|);
      expanded := limit > packK;
    }
    var ordered := cs;
    if policy.diversity { ordered := Diversify(cs, limit, ctx, policy); }
    var l := LimitsOf(limit, tokenBudget, policy);
    var packed: seq<Candidate>, usedTokens, suppressed := [], 0, 0;
    var descriptors: map<string, Descriptor> := map[];
    assert Described(descriptors, ctx) by { NoneDescribed(ctx); }
    for i := 0 to |ordered|
      invariant Described(descriptors, ctx)
      invariant var p := Packed(ordered, i, ctx, l);
        packed == Pick(ordered, p.at) && usedTokens == p.used && suppressed == p.suppressed
    {
      ghost var p := Packed(ordered, i, ctx, l);
      if |packed| >= limit {
        FullStays(ordered, i, |ordered|, ctx, l);
        break;
      }
      var c := ordered[i];
      if usedTokens + c.tokens > tokenBudget { continue; }
      var correlated;
      correlated, descriptors := CountConflicts(c, packed, descriptors, ctx, policy.similarity);
      if policy.occupancyLimit > 0 && correlated >= policy.occupancyLimit {
        suppressed := suppressed + 1;
        continue;
      }
      PickNext(ordered, p.at, i);
      packed := packed + [c];
      usedTokens := usedTokens + c.tokens;
    }
    r := Result(packed, usedTokens, expanded, suppressed);
  }

  lemma NoneDescribed(ctx: Context)
    ensures Described(map[], ctx)
  {
  }
}

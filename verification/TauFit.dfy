/** The Dirichlet(1,...,1) histogram forecaster (internal/agency/tau.go, FitTau). */
module TauFit {
  import opened Prelude
  import opened RealSums
  import opened QuietHours
  import Tau

  const MAX_EPISODES: nat := 15
  const NO_EVENT_KIND: string := "tau_no_event"

  datatype Event = Event(session: string, occurredAt: int, availableAt: int, kind: string)

  datatype Episode = Episode(anchor: string, outcome: string, noEvent: bool)

  datatype FitResult = Fitted(forecast: Tau.TauForecast) | Rejected

  // ---- what the evidence must satisfy ----

  function Delay(ep: Episode, events: map<string, Event>): int
    requires ep.anchor in events && ep.outcome in events
  {
    events[ep.outcome].occurredAt - events[ep.anchor].occurredAt
  }

  ghost predicate BinsOk(bins: seq<int>, horizon: int)
  {
    && 1 <= |bins| && (forall i :: 0 <= i < |bins| ==> 0 < bins[i] <= horizon)
    && (forall i, j :: 0 <= i < j < |bins| ==> bins[i] < bins[j])
    && bins[|bins| - 1] == horizon
  }

  ghost predicate EpisodeOk(ep: Episode, events: map<string, Event>, now: int, horizon: int, target: string)
  {
    && ep.anchor in events && ep.outcome in events
    && (var a, o := events[ep.anchor], events[ep.outcome];
        && a.availableAt <= now && o.availableAt <= now && a.session == o.session && a.occurredAt < o.occurredAt
        && (if ep.noEvent then o.kind == NO_EVENT_KIND && Delay(ep, events) >= horizon * MS
            else o.kind == target && Delay(ep, events) <= horizon * MS))
  }

  /** `later` follows `earlier`: a later session, or the same one and no overlap in time. */
  ghost predicate Follows(earlier: Episode, later: Episode, events: map<string, Event>)
    requires earlier.anchor in events && earlier.outcome in events && later.anchor in events
  {
    var s, t := events[earlier.anchor].session, events[later.anchor].session;
    Less(s, t) || (s == t && events[earlier.outcome].occurredAt < events[later.anchor].occurredAt)
  }

  function Identities(eps: seq<Episode>): set<string>
  {
    if eps == [] then {} else Identities(eps[..|eps| - 1]) + {eps[|eps| - 1].anchor, eps[|eps| - 1].outcome}
  }

  /** Every piece of evidence is used once. */
  ghost predicate EvidenceDistinct(eps: seq<Episode>)
  {
    eps == [] ||
    var last, init := eps[|eps| - 1], eps[..|eps| - 1];
    EvidenceDistinct(init) && last.anchor != last.outcome && last.anchor !in Identities(init) && last.outcome !in Identities(init)
  }

  ghost predicate EpisodesOk(eps: seq<Episode>, events: map<string, Event>, now: int, horizon: int, target: string)
  {
    && (forall k :: 0 <= k < |eps| ==> EpisodeOk(eps[k], events, now, horizon, target))
    && EvidenceDistinct(eps)
    && (forall k :: 0 < k < |eps| ==> Follows(eps[k - 1], eps[k], events))
  }

  ghost predicate FitOk(now: int, horizon: int, bins: seq<int>, eps: seq<Episode>, events: map<string, Event>, target: string)
  {
    && 1 <= |eps| <= MAX_EPISODES && |bins| <= Tau.MAX_POINTS && 1 <= horizon <= Tau.MAX_HORIZON_MS
    && BinsOk(bins, horizon) && EpisodesOk(eps, events, now, horizon, target)
  }

  /** Accepted episodes are pairwise disjoint within a session, not only neighbours. */
  lemma {:induction false} EpisodesDisjoint(eps: seq<Episode>, events: map<string, Event>, now: int, horizon: int, target: string, i: nat, j: nat)
    requires EpisodesOk(eps, events, now, horizon, target) && i < j < |eps|
    ensures Follows(eps[i], eps[j], events)
    ensures events[eps[i].anchor].session == events[eps[j].anchor].session ==>
      events[eps[i].outcome].occurredAt < events[eps[j].anchor].occurredAt
    decreases j
  {
    assert Follows(eps[j - 1], eps[j], events);
    if i < j - 1 {
      EpisodesDisjoint(eps, events, now, horizon, target, i, j - 1);
      var s, t, u := events[eps[i].anchor].session, events[eps[j - 1].anchor].session, events[eps[j].anchor].session;
      if Less(s, t) && Less(t, u) { LessIsTransitive(s, t, u); }
      assert EpisodeOk(eps[j - 1], events, now, horizon, target);
    }
    LessIsTotal(events[eps[i].anchor].session, events[eps[i].anchor].session);
  }

  // ---- the histogram ----

  /** `i` is the first bin whose edge is at least the delay. */
  ghost predicate IsFirstBin(bins: seq<int>, delay: int, i: int)
  {
    0 <= i < |bins| && delay <= bins[i] * MS && forall j :: 0 <= j < i ==> delay > bins[j] * MS
  }

  /** Class `|bins|` collects the no-event episodes. */
  ghost predicate InClass(ep: Episode, events: map<string, Event>, bins: seq<int>, i: int)
    requires ep.anchor in events && ep.outcome in events
  {
    if ep.noEvent then i == |bins| else IsFirstBin(bins, Delay(ep, events), i)
  }

  ghost predicate Known(eps: seq<Episode>, events: map<string, Event>)
  {
    forall k :: 0 <= k < |eps| ==> eps[k].anchor in events && eps[k].outcome in events
  }

  ghost function Tally(eps: seq<Episode>, events: map<string, Event>, bins: seq<int>, i: int): nat
    requires Known(eps, events)
  {
    if eps == [] then 0
    else Tally(eps[..|eps| - 1], events, bins, i) + (if InClass(eps[|eps| - 1], events, bins, i) then 1 else 0)
  }

  /** One pseudo-count per class plus the episodes observed in it. */
  ghost function Counts(eps: seq<Episode>, events: map<string, Event>, bins: seq<int>): (c: seq<real>)
    requires Known(eps, events)
    ensures |c| == |bins| + 1
  {
    seq(|bins| + 1, i requires 0 <= i < |bins| + 1 => 1.0 + Tally(eps, events, bins, i) as real)
  }

  /** Every episode is counted exactly once. */
  lemma {:induction false} CountsTotal(eps: seq<Episode>, events: map<string, Event>, now: int, horizon: int, bins: seq<int>, target: string)
    requires BinsOk(bins, horizon) && Known(eps, events)
    requires forall k :: 0 <= k < |eps| ==> EpisodeOk(eps[k], events, now, horizon, target)
    ensures Sum(Counts(eps, events, bins)) == (|eps| + |bins| + 1) as real
  {
    hide EpisodeOk, BinsOk, InClass, Sum;
    if eps == [] {
      SumConstant(Counts(eps, events, bins), 1.0);
    } else {
      var init, ep := eps[..|eps| - 1], eps[|eps| - 1];
      CountsTotal(init, events, now, horizon, bins, target);
      var c := ClassExists(ep, events, now, horizon, bins, target);
      var before, after := Counts(init, events, bins), Counts(eps, events, bins);
      assert after == before[c := before[c] + 1.0];
      SumSet(before, c, 1.0);
    }
  }

  lemma ClassExists(ep: Episode, events: map<string, Event>, now: int, horizon: int, bins: seq<int>, target: string) returns (c: nat)
    requires BinsOk(bins, horizon) && EpisodeOk(ep, events, now, horizon, target)
    ensures c <= |bins| && InClass(ep, events, bins, c)
    ensures forall i: int :: InClass(ep, events, bins, i) ==> i == c
  {
    if ep.noEvent { return |bins|; }
    c := 0;
    while Delay(ep, events) > bins[c] * MS
      invariant c < |bins| && forall j :: 0 <= j < c ==> Delay(ep, events) > bins[j] * MS
      decreases |bins| - c
    {
      c := c + 1;
    }
  }

  /** The forecast the histogram stands for. */
  ghost predicate IsHistogram(f: Tau.TauForecast, id: string, origin: int, now: int, horizon: int, bins: seq<int>,
                              eps: seq<Episode>, events: map<string, Event>, target: string)
    requires Known(eps, events)
  {
    var total := (|eps| + |bins| + 1) as real;
    var counts := Counts(eps, events, bins);
    && f.id == id && f.origin == origin && f.issuedAt == now && f.validUntil == origin + horizon * MS
    && f.horizonMS == horizon && f.tvRadius == 0.0 && f.noEvent == counts[|bins|] / total
    && |f.points| == |bins|
    && forall i :: 0 <= i < |bins| ==> f.points[i] == Tau.TauPoint(target, bins[i], counts[i] / total)
  }

  method FitTau(id: string, origin: int, now: int, horizon: int, bins: seq<int>, eps: seq<Episode>,
                events: map<string, Event>, target: string) returns (r: FitResult)
    ensures r.Fitted? <==> FitOk(now, horizon, bins, eps, events, target)
    ensures r.Fitted? ==> IsHistogram(r.forecast, id, origin, now, horizon, bins, eps, events, target)
  {
    hide EpisodesOk, Counts;
    if |eps| < 1 || |eps| > MAX_EPISODES || |bins| < 1 || |bins| > Tau.MAX_POINTS || horizon < 1 || horizon > Tau.MAX_HORIZON_MS {
      return Rejected;
    }
    var counts := new real[|bins| + 1](_ => 0.0);
    var last := 0;
    for i := 0 to |bins|
      invariant last == if i == 0 then 0 else bins[i - 1]
      invariant forall k :: 0 <= k < i ==> 0 < bins[k] <= horizon && counts[k] == 1.0
      invariant forall j, k :: 0 <= j < k < i ==> bins[j] < bins[k]
    {
      if bins[i] <= last || bins[i] > horizon { return Rejected; }
      last := bins[i];
      counts[i] := 1.0;
    }
    if last != horizon { return Rejected; }
    counts[|bins|] := 1.0;
    var ok := CountEpisodes(counts, now, horizon, bins, eps, events, target);
    if !ok { return Rejected; }
    var total := (|eps| + counts.Length) as real;
    var f := Tau.TauForecast(id, origin, now, origin + horizon * MS, horizon, [], counts[|bins|] / total, 0.0);
    var points: seq<Tau.TauPoint> := [];
    for i := 0 to |bins|
      invariant |points| == i
      invariant forall k :: 0 <= k < i ==> points[k] == Tau.TauPoint(target, bins[k], counts[k] / total)
    {
      points := points + [Tau.TauPoint(target, bins[i], counts[i] / total)];
    }
    r := Fitted(f.(points := points));
  }

  /** The loop over episodes: checks each one against its predecessor and adds it to its class. */
  method CountEpisodes(counts: array<real>, now: int, horizon: int, bins: seq<int>, eps: seq<Episode>,
                       events: map<string, Event>, target: string) returns (ok: bool)
    requires BinsOk(bins, horizon) && counts.Length == |bins| + 1
    requires forall i :: 0 <= i < counts.Length ==> counts[i] == 1.0
    modifies counts
    ensures ok <==> EpisodesOk(eps, events, now, horizon, target)
    ensures ok ==> Known(eps, events) && counts[..] == Counts(eps, events, bins)
  {
    hide EpisodesOk, EpisodeOk, Identities, InClass, Counts, BinsOk;
    NoEpisodes(events, now, horizon, bins, target);
    assert eps[..0] == [];
    var used: set<string> := {};
    for k := 0 to |eps|
      invariant used == Identities(eps[..k])
      invariant EpisodesOk(eps[..k], events, now, horizon, target)
      invariant Known(eps[..k], events)
      invariant counts[..] == Counts(eps[..k], events, bins)
    {
      EpisodesOkStep(eps, k, events, now, horizon, target);
      var accepted, bin := CheckEpisode(eps, k, used, now, horizon, bins, events, target);
      if !accepted { return false; }
      CountsStep(eps, k, events, now, horizon, bins, target, bin);
      used := used + {eps[k].anchor, eps[k].outcome};
      counts[bin] := counts[bin] + 1.0;
    }
    assert eps[..|eps|] == eps;
    ok := true;
  }

  lemma NoEpisodes(events: map<string, Event>, now: int, horizon: int, bins: seq<int>, target: string)
    ensures EpisodesOk([], events, now, horizon, target) && Identities([]) == {}
    ensures |Counts([], events, bins)| == |bins| + 1
    ensures forall i :: 0 <= i <= |bins| ==> Counts([], events, bins)[i] == 1.0
  {
  }

  /** One pass of the loop: is episode `k` acceptable after the earlier ones, and in which class does it fall? */
  method CheckEpisode(eps: seq<Episode>, k: nat, used: set<string>, now: int, horizon: int, bins: seq<int>,
                      events: map<string, Event>, target: string) returns (ok: bool, bin: nat)
    requires k < |eps| && BinsOk(bins, horizon) && used == Identities(eps[..k])
    requires EpisodesOk(eps[..k], events, now, horizon, target)
    ensures ok <==> EpisodesOk(eps[..k + 1], events, now, horizon, target)
    ensures ok ==> EpisodeOk(eps[k], events, now, horizon, target) && bin <= |bins| && InClass(eps[k], events, bins, bin)
  {
    EpisodesOkStep(eps, k, events, now, horizon, target);
    hide EpisodesOk, Identities;
    var ep := eps[k];
    bin := |bins|;
    if ep.anchor !in events || ep.outcome !in events { return false, bin; }
    var a, o := events[ep.anchor], events[ep.outcome];
    if ep.anchor == ep.outcome || ep.anchor in used || ep.outcome in used || a.availableAt > now || o.availableAt > now
       || a.session != o.session || o.occurredAt <= a.occurredAt {
      return false, bin;
    }
    if k > 0 {
      var prior := eps[k - 1];
      PriorKnown(eps, k, events, now, horizon, target);
      var s := events[prior.anchor].session;
      LessIsTotal(a.session, s);
      if Less(a.session, s) || (a.session == s && a.occurredAt <= events[prior.outcome].occurredAt) {
        return false, bin;
      }
    }
    var delay := o.occurredAt - a.occurredAt;
    if ep.noEvent { return o.kind == NO_EVENT_KIND && delay >= horizon * MS, bin; }
    if o.kind != target || delay > horizon * MS { return false, bin; }
    bin := 0;
    while delay > bins[bin] * MS
      invariant 0 <= bin < |bins| && forall j :: 0 <= j < bin ==> delay > bins[j] * MS
      decreases |bins| - bin
    {
      bin := bin + 1;
    }
    ok := true;
  }

  lemma PriorKnown(eps: seq<Episode>, k: nat, events: map<string, Event>, now: int, horizon: int, target: string)
    requires 0 < k < |eps| && EpisodesOk(eps[..k], events, now, horizon, target)
    ensures eps[k - 1].anchor in events && eps[k - 1].outcome in events
  {
    assert EpisodeOk(eps[..k][k - 1], events, now, horizon, target);
  }

  lemma EpisodesOkStep(eps: seq<Episode>, k: nat, events: map<string, Event>, now: int, horizon: int, target: string)
    requires k < |eps| && EpisodesOk(eps[..k], events, now, horizon, target)
    ensures EpisodesOk(eps, events, now, horizon, target) ==> EpisodesOk(eps[..k + 1], events, now, horizon, target)
    ensures EpisodesOk(eps[..k + 1], events, now, horizon, target)
      <==> && EpisodeOk(eps[k], events, now, horizon, target)
           && eps[k].anchor != eps[k].outcome && eps[k].anchor !in Identities(eps[..k]) && eps[k].outcome !in Identities(eps[..k])
           && (k > 0 ==> eps[k - 1].anchor in events && eps[k - 1].outcome in events && Follows(eps[k - 1], eps[k], events))
    ensures Identities(eps[..k + 1]) == Identities(eps[..k]) + {eps[k].anchor, eps[k].outcome}
  {
    hide Follows, Delay;
    var before, after := eps[..k], eps[..k + 1];
    assert after[..k] == before && after[k] == eps[k];
    assert forall j :: 0 <= j < k ==> after[j] == before[j] == eps[j];
    if k > 0 { assert after[k - 1] == before[k - 1] && EpisodeOk(before[k - 1], events, now, horizon, target); }
    if EpisodesOk(eps, events, now, horizon, target) { EvidenceDistinctPrefix(eps, k + 1); }
  }

  lemma {:induction false} EvidenceDistinctPrefix(eps: seq<Episode>, k: nat)
    requires EvidenceDistinct(eps) && k <= |eps|
    ensures EvidenceDistinct(eps[..k])
  {
    if k < |eps| {
      EvidenceDistinctPrefix(eps[..|eps| - 1], k);
      assert eps[..|eps| - 1][..k] == eps[..k];
    } else {
      assert eps[..k] == eps;
    }
  }

  lemma CountsStep(eps: seq<Episode>, k: nat, events: map<string, Event>, now: int, horizon: int, bins: seq<int>, target: string, c: nat)
    requires k < |eps| && BinsOk(bins, horizon) && Known(eps[..k], events)
    requires EpisodeOk(eps[k], events, now, horizon, target) && c <= |bins| && InClass(eps[k], events, bins, c)
    ensures Known(eps[..k + 1], events)
    ensures var before := Counts(eps[..k], events, bins);
      Counts(eps[..k + 1], events, bins) == before[c := before[c] + 1.0]
  {
    var only := ClassExists(eps[k], events, now, horizon, bins, target);
    assert eps[..k + 1][..k] == eps[..k];
    var before, after := eps[..k], eps[..k + 1];
    assert forall j :: 0 <= j < k ==> after[j] == before[j];
  }

  // ---- the result is a valid forecast ----

  lemma {:induction false} HistogramMass(points: seq<Tau.TauPoint>, counts: seq<real>, total: real)
    requires |points| == |counts| && total > 0.0
    requires forall i :: 0 <= i < |points| ==> points[i].probability == counts[i] / total
    ensures Tau.TotalMass(points) == Sum(counts) / total
  {
    if points != [] {
      var k := |points| - 1;
      HistogramMass(points[..k], counts[..k], total);
      AddQuotients(Sum(counts[..k]), counts[k], total);
    }
  }

  lemma AddQuotients(x: real, y: real, t: real)
    requires t > 0.0
    ensures x / t + y / t == (x + y) / t
  {
  }

  /** MAIN RESULT. The law including no-event sums to exactly one and passes every support check of the planner;
      atoms are acceptable precisely when the target's name is bounded, and identity precisely when the caller
      issues it inside its own horizon. */
  lemma FittedLawIsValid(f: Tau.TauForecast, id: string, origin: int, now: int, horizon: int, bins: seq<int>,
                         eps: seq<Episode>, events: map<string, Event>, target: string, at: int)
    requires FitOk(now, horizon, bins, eps, events, target)
    requires IsHistogram(f, id, origin, now, horizon, bins, eps, events, target)
    ensures f.noEvent + Tau.TotalMass(f.points) == 1.0
    ensures Tau.SupportOk(f) && Tau.MassOk(f)
    ensures Tau.AtomsOk(f.points, f.horizonMS) <==> Tau.BoundedString(target, 256)
    ensures Tau.IdentityOk(f, at)
      <==> Tau.BoundedString(id, 256) && origin != 0 && origin <= now <= at < origin + horizon * MS
  {
    FittedMass(f, id, origin, now, horizon, bins, eps, events, target);
    FittedAtoms(f, id, origin, now, horizon, bins, eps, events, target);
  }

  lemma FittedMass(f: Tau.TauForecast, id: string, origin: int, now: int, horizon: int, bins: seq<int>,
                   eps: seq<Episode>, events: map<string, Event>, target: string)
    requires FitOk(now, horizon, bins, eps, events, target)
    requires IsHistogram(f, id, origin, now, horizon, bins, eps, events, target)
    ensures f.noEvent + Tau.TotalMass(f.points) == 1.0
    ensures Tau.Probability(f.noEvent)
    ensures forall i :: 0 <= i < |f.points| ==> Tau.Probability(f.points[i].probability)
  {
    CountsTotal(eps, events, now, horizon, bins, target);
    HistogramIsLaw(f.noEvent, f.points, Counts(eps, events, bins), (|eps| + |bins| + 1) as real);
  }

  /** Normalising non-negative counts by their sum gives a law. */
  lemma HistogramIsLaw(noEvent: real, points: seq<Tau.TauPoint>, counts: seq<real>, total: real)
    requires |counts| == |points| + 1 && NonNegative(counts) && Sum(counts) == total && total > 0.0
    requires noEvent == counts[|points|] / total
    requires forall i :: 0 <= i < |points| ==> points[i].probability == counts[i] / total
    ensures noEvent + Tau.TotalMass(points) == 1.0
    ensures Tau.Probability(noEvent)
    ensures forall i :: 0 <= i < |points| ==> Tau.Probability(points[i].probability)
  {
    var n := |points|;
    SumNonNegative(counts);
    hide Sum, Tau.TotalMass;
    forall i | 0 <= i <= n ensures Tau.Probability(counts[i] / total) { Share(counts[i], total); }
    HistogramMass(points, counts[..n], total);
    assert counts[..n + 1] == counts;
    SumStep(counts, n);
    WholeQuotient(Sum(counts[..n]), counts[n], total);
  }

  lemma WholeQuotient(x: real, y: real, t: real)
    requires t > 0.0 && x + y == t
    ensures y / t + x / t == 1.0
  {
    AddQuotients(x, y, t);
  }

  lemma FittedAtoms(f: Tau.TauForecast, id: string, origin: int, now: int, horizon: int, bins: seq<int>,
                    eps: seq<Episode>, events: map<string, Event>, target: string)
    requires FitOk(now, horizon, bins, eps, events, target)
    requires IsHistogram(f, id, origin, now, horizon, bins, eps, events, target)
    ensures Tau.AtomsOk(f.points, f.horizonMS) <==> Tau.BoundedString(target, 256)
  {
    FittedMass(f, id, origin, now, horizon, bins, eps, events, target);
    assert forall i :: 0 <= i < |bins| ==> f.points[i].mark == target && f.points[i].delayMS == bins[i];
    hide IsHistogram, EpisodesOk, Tau.Probability, Tau.TotalMass;
    forall i, j | 0 <= i < j < |bins| ensures Tau.AtomOf(f.points[i]) != Tau.AtomOf(f.points[j]) {
      assert bins[i] < bins[j];
    }
    assert f.points[0].mark == target;
  }

  lemma Share(x: real, t: real)
    requires 0.0 <= x <= t && t > 0.0
    ensures 0.0 <= x / t <= 1.0
  {
  }
}

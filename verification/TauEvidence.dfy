/** Which evidence a fitted forecast rests on and what it makes of it (internal/agency/tau.go, FitTau), in plain numbers. */
module TauEvidence {
  import opened Prelude
  import opened TauFit
  import Tau

  // ---- what is accepted ----

  /** Edges that increase from above zero to the horizon. */
  ghost predicate Edges(bins: seq<int>, horizon: int) {
    && |bins| > 0 && 0 < bins[0] && bins[|bins| - 1] == horizon
    && forall i :: 0 < i < |bins| ==> bins[i - 1] < bins[i]
  }

  lemma EdgesAre(bins: seq<int>, horizon: int)
    ensures Edges(bins, horizon) <==> BinsOk(bins, horizon)
  {
    if Edges(bins, horizon) {
      forall i, j | 0 <= i < j < |bins| ensures bins[i] < bins[j] { EdgesRise(bins, i, j); }
      forall i | 0 <= i < |bins| ensures 0 < bins[i] <= horizon {
        if i > 0 { EdgesRise(bins, 0, i); }
        if i < |bins| - 1 { EdgesRise(bins, i, |bins| - 1); }
      }
    }
  }

  lemma {:induction false} EdgesRise(bins: seq<int>, i: nat, j: nat)
    requires i < j < |bins| && forall k :: 0 < k < |bins| ==> bins[k - 1] < bins[k]
    ensures bins[i] < bins[j]
    decreases j
  {
    if i < j - 1 { EdgesRise(bins, i, j - 1); }
  }

  /** Both events are there, were known, belong to one session and come one after the other; the outcome either is the
      target, within the horizon, or says outright that the whole horizon passed without one. */
  predicate Closed(ep: Episode, events: map<string, Event>, now: int, horizon: int, target: string) {
    && ep.anchor in events && ep.outcome in events
    && var a, o := events[ep.anchor], events[ep.outcome];
       && !(now < a.availableAt) && !(now < o.availableAt) && a.session == o.session && a.occurredAt < o.occurredAt
       && if ep.noEvent then o.kind == "tau_no_event" && a.occurredAt + horizon * 1_000_000 <= o.occurredAt
          else o.kind == target && o.occurredAt <= a.occurredAt + horizon * 1_000_000
  }

  lemma ClosedIs(ep: Episode, events: map<string, Event>, now: int, horizon: int, target: string)
    ensures Closed(ep, events, now, horizon, target) <==> EpisodeOk(ep, events, now, horizon, target)
  {
  }

  /** No event serves twice, in one episode or in two. */
  ghost predicate UsedOnce(eps: seq<Episode>) {
    && (forall i, j :: 0 <= i < |eps| && 0 <= j < |eps| ==> eps[i].anchor != eps[j].outcome)
    && forall i, j :: 0 <= i < j < |eps| ==> eps[i].anchor != eps[j].anchor && eps[i].outcome != eps[j].outcome
  }

  lemma {:induction false} IdentitiesAre(eps: seq<Episode>, x: string)
    ensures x in Identities(eps) <==> exists i :: 0 <= i < |eps| && (eps[i].anchor == x || eps[i].outcome == x)
    decreases |eps|
  {
    if eps != [] {
      var n := |eps| - 1;
      IdentitiesAre(eps[..n], x);
      assert forall i :: 0 <= i < n ==> eps[..n][i] == eps[i];
    }
  }

  lemma {:induction false} UsedOnceIs(eps: seq<Episode>)
    ensures UsedOnce(eps) <==> EvidenceDistinct(eps)
    decreases |eps|
  {
    if eps != [] {
      var n := |eps| - 1;
      UsedOnceIs(eps[..n]);
      IdentitiesAre(eps[..n], eps[n].anchor);
      IdentitiesAre(eps[..n], eps[n].outcome);
      UsedOnceStep(eps, n);
    }
  }

  lemma UsedOnceStep(eps: seq<Episode>, n: nat)
    requires n + 1 == |eps|
    ensures UsedOnce(eps)
       <==> && UsedOnce(eps[..n]) && eps[n].anchor != eps[n].outcome
            && (forall i :: 0 <= i < n ==> eps[..n][i].anchor != eps[n].anchor && eps[..n][i].outcome != eps[n].anchor)
            && (forall i :: 0 <= i < n ==> eps[..n][i].anchor != eps[n].outcome && eps[..n][i].outcome != eps[n].outcome)
  {
    assert forall i :: 0 <= i < n ==> eps[..n][i] == eps[i];
  }

  /** Sessions come in order, and within one no episode begins before the one listed before it is over. */
  ghost predicate InTurn(eps: seq<Episode>, events: map<string, Event>) {
    forall k :: 0 < k < |eps| ==> NextInTurn(eps[k - 1], eps[k], events)
  }

  predicate NextInTurn(earlier: Episode, later: Episode, events: map<string, Event>) {
    && earlier.anchor in events && earlier.outcome in events && later.anchor in events
    && !Less(events[later.anchor].session, events[earlier.anchor].session)
    && (events[later.anchor].session == events[earlier.anchor].session ==>
          events[earlier.outcome].occurredAt < events[later.anchor].occurredAt)
  }

  /** EXACTLY WHAT IS FITTED: one to fifteen closed episodes in turn, no event used twice, and up to thirty-two edges that
      rise to a horizon of at most a week. */
  lemma FittedIff(now: int, horizon: int, bins: seq<int>, eps: seq<Episode>, events: map<string, Event>, target: string)
    ensures FitOk(now, horizon, bins, eps, events, target)
       <==> && 0 < |eps| && |eps| < 16 && |bins| < 33 && 0 < horizon && horizon <= 7 * 24 * 3600 * 1000
            && Edges(bins, horizon) && (forall ep :: ep in eps ==> Closed(ep, events, now, horizon, target))
            && UsedOnce(eps) && InTurn(eps, events)
  {
    hide Edges, BinsOk, Closed, EpisodeOk, UsedOnce, EvidenceDistinct, Less, Delay;
    EdgesAre(bins, horizon);
    UsedOnceIs(eps);
    forall ep: Episode ensures Closed(ep, events, now, horizon, target) <==> EpisodeOk(ep, events, now, horizon, target) {
      ClosedIs(ep, events, now, horizon, target);
    }
    forall ep: Episode | EpisodeOk(ep, events, now, horizon, target) ensures ep.anchor in events && ep.outcome in events {
      BothKnown(ep, events, now, horizon, target);
    }
    TurnsAre(eps, events);
  }

  lemma BothKnown(ep: Episode, events: map<string, Event>, now: int, horizon: int, target: string)
    requires EpisodeOk(ep, events, now, horizon, target)
    ensures ep.anchor in events && ep.outcome in events
  {
  }

  lemma TurnsAre(eps: seq<Episode>, events: map<string, Event>)
    ensures Known(eps, events) ==>
      (InTurn(eps, events) <==> forall k :: 0 < k < |eps| ==> Follows(eps[k - 1], eps[k], events))
  {
    hide Less;
    if Known(eps, events) {
      forall k | 0 < k < |eps| ensures NextInTurn(eps[k - 1], eps[k], events) <==> Follows(eps[k - 1], eps[k], events) {
        LessIsTotal(events[eps[k].anchor].session, events[eps[k - 1].anchor].session);
      }
    }
  }

  // ---- what is made of it ----

  /** The episodes that took longer than one delay and no longer than another, in milliseconds. */
  ghost function Between(eps: seq<Episode>, events: map<string, Event>, over: int, upTo: int): set<int>
    requires Known(eps, events)
  {
    set k | 0 <= k < |eps| && !eps[k].noEvent
      && events[eps[k].anchor].occurredAt + over * 1_000_000 < events[eps[k].outcome].occurredAt
      && events[eps[k].outcome].occurredAt <= events[eps[k].anchor].occurredAt + upTo * 1_000_000
  }

  ghost function Uneventful(eps: seq<Episode>): set<int> { set k | 0 <= k < |eps| && eps[k].noEvent }

  ghost function InClassSet(eps: seq<Episode>, events: map<string, Event>, bins: seq<int>, i: int): set<int>
    requires Known(eps, events)
  {
    set k | 0 <= k < |eps| && InClass(eps[k], events, bins, i)
  }

  lemma {:induction false} TallyIsSize(eps: seq<Episode>, events: map<string, Event>, bins: seq<int>, i: int)
    requires Known(eps, events)
    ensures Tally(eps, events, bins, i) == |InClassSet(eps, events, bins, i)|
    decreases |eps|
  {
    hide InClass;
    if eps == [] {
      assert InClassSet(eps, events, bins, i) == {};
    } else {
      var n := |eps| - 1;
      TallyIsSize(eps[..n], events, bins, i);
      assert forall k :: 0 <= k < n ==> eps[..n][k] == eps[k];
      var before := InClassSet(eps[..n], events, bins, i);
      assert InClassSet(eps, events, bins, i) == before + if InClass(eps[n], events, bins, i) then {n} else {};
    }
  }

  lemma ClassIsBand(eps: seq<Episode>, events: map<string, Event>, bins: seq<int>, horizon: int, i: nat)
    requires Known(eps, events) && Edges(bins, horizon) && i < |bins|
    requires forall k :: 0 <= k < |eps| ==> events[eps[k].anchor].occurredAt < events[eps[k].outcome].occurredAt
    ensures InClassSet(eps, events, bins, i) == Between(eps, events, if i == 0 then 0 else bins[i - 1], bins[i])
  {
    EdgesAre(bins, horizon);
    var over := if i == 0 then 0 else bins[i - 1];
    forall k | 0 <= k < |eps|
      ensures InClass(eps[k], events, bins, i)
        <==> !eps[k].noEvent && over * MS < Delay(eps[k], events) && Delay(eps[k], events) <= bins[i] * MS
    {
      FirstBinIs(bins, horizon, Delay(eps[k], events), i);
    }
    hide InClass, IsFirstBin;
    var band, those := Between(eps, events, over, bins[i]), InClassSet(eps, events, bins, i);
    forall k: int ensures k in those <==> k in band {
      if 0 <= k < |eps| {
        assert Delay(eps[k], events) == events[eps[k].outcome].occurredAt - events[eps[k].anchor].occurredAt;
      }
    }
  }

  lemma FirstBinIs(bins: seq<int>, horizon: int, delay: int, i: nat)
    requires BinsOk(bins, horizon) && i < |bins| && delay > 0
    ensures IsFirstBin(bins, delay, i) <==> (if i == 0 then 0 else bins[i - 1]) * MS < delay && delay <= bins[i] * MS
  {
    if i > 0 && bins[i - 1] * MS < delay {
      forall j | 0 <= j < i ensures delay > bins[j] * MS { assert bins[j] <= bins[i - 1]; }
    }
  }

  /** THE FORECAST, in counts. Each bin gets one and the episodes that ended within it, no event gets one and the episodes
      without, and all together as many as there are episodes, bins and one. */
  lemma ForecastInCounts(f: Tau.TauForecast, id: string, origin: int, now: int, horizon: int, bins: seq<int>,
                         eps: seq<Episode>, events: map<string, Event>, target: string, i: nat)
    requires FitOk(now, horizon, bins, eps, events, target) && i < |bins|
    requires IsHistogram(f, id, origin, now, horizon, bins, eps, events, target)
    ensures var total := (|eps| + |bins| + 1) as real;
      && f.noEvent * total == (1 + |Uneventful(eps)|) as real
      && |f.points| == |bins| && f.points[i].mark == target && f.points[i].delayMS == bins[i]
      && f.points[i].probability * total
         == (1 + |Between(eps, events, if i == 0 then 0 else bins[i - 1], bins[i])|) as real
      && f.origin == origin && f.issuedAt == now && f.validUntil == origin + horizon * 1_000_000 && f.tvRadius == 0.0
  {
    hide Counts, Between, Uneventful, FitOk;
    CountsAre(now, horizon, bins, eps, events, target, i);
    var total := (|eps| + |bins| + 1) as real;
    Quotient(Counts(eps, events, bins)[i], total);
    Quotient(Counts(eps, events, bins)[|bins|], total);
  }

  lemma CountsAre(now: int, horizon: int, bins: seq<int>, eps: seq<Episode>, events: map<string, Event>, target: string, i: nat)
    requires FitOk(now, horizon, bins, eps, events, target) && i < |bins|
    ensures Known(eps, events)
    ensures var counts := Counts(eps, events, bins);
      && counts[i] == (1 + |Between(eps, events, if i == 0 then 0 else bins[i - 1], bins[i])|) as real
      && counts[|bins|] == (1 + |Uneventful(eps)|) as real
  {
    hide BinsOk, EpisodesOk, Between, Uneventful, InClassSet, Tally, Edges, UsedOnce, InTurn, Closed;
    EdgesAre(bins, horizon);
    Started(eps, events, now, horizon, target);
    ClassIsBand(eps, events, bins, horizon, i);
    TallyIsSize(eps, events, bins, i);
    TallyIsSize(eps, events, bins, |bins|);
    UneventfulIs(eps, events, bins);
  }

  lemma Quotient(x: real, t: real)
    requires t > 0.0
    ensures x / t * t == x
  {
  }

  lemma Started(eps: seq<Episode>, events: map<string, Event>, now: int, horizon: int, target: string)
    requires EpisodesOk(eps, events, now, horizon, target)
    ensures Known(eps, events)
    ensures forall k :: 0 <= k < |eps| ==> events[eps[k].anchor].occurredAt < events[eps[k].outcome].occurredAt
  {
    assert forall k :: 0 <= k < |eps| ==> EpisodeOk(eps[k], events, now, horizon, target);
  }

  lemma UneventfulIs(eps: seq<Episode>, events: map<string, Event>, bins: seq<int>)
    requires Known(eps, events)
    ensures InClassSet(eps, events, bins, |bins|) == Uneventful(eps)
  {
  }
}

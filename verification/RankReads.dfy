/** What rank-delta writes and reads come to (internal/rankdelta/store.go), field by field. */
module RankReads {
  import opened Prelude
  import opened Lru
  import opened RankDelta

  /** Complete and in range. */
  predicate Sensible(r: Record) {
    && |r.tenant| > 0 && |r.key| > 0 && |r.event| > 0
    && !(r.delta < -1.0) && !(r.delta > 1.0) && !(r.reliability < 0.0) && !(r.reliability > 1.0)
  }

  /** Written for this very snapshot of the runtime. */
  predicate OfSnapshot(r: Record, s: Snapshot) {
    && r.versions.policy == s.policy && r.versions.evidence == s.evidence && r.versions.graph == s.graph
    && r.versions.posterior == s.posterior && r.versions.residual == s.residual && r.versions.abstraction == s.abstraction
  }

  /** Neither from the future nor expired; an expiry of zero is none. */
  predicate InForce(r: Record, now: Time) { !(now < r.updatedAt) && (r.expiresAt != 0 ==> now < r.expiresAt) }

  lemma ValidIs(r: Record, snapshot: Snapshot, now: Time)
    ensures ValidFor(r, snapshot, now) <==> Sensible(r) && OfSnapshot(r, snapshot) && InForce(r, now)
  {
  }

  /** A batch is refused, with nothing written, if and only if some record is not sensible or has no time. */
  lemma RefusedIff(table: Table, cache: Cached, records: seq<Record>, capacity: nat, commits: bool)
    requires WellFormed(cache, capacity) && capacity > 0
    ensures var w := PutTried(table, cache, records, capacity, commits);
      && ((exists r :: r in records && (!Sensible(r) || r.updatedAt == 0)) ==> !w.ok && w.table == table)
      && ((forall r :: r in records ==> Sensible(r) && r.updatedAt != 0) ==> (commits ==> w.ok))
  {
    PutBatchEffect(table, cache, records, capacity);
    PutTriedIs(State(table, cache), records, capacity, commits);
    forall r: Record ensures Acceptable(r) <==> Sensible(r) && r.updatedAt != 0 { AcceptableIs(r); }
    hide WellFormed, PutTried, PutBatched, Acceptable, Sensible, Fresh, Upserts;
  }

  lemma AcceptableIs(r: Record)
    ensures Acceptable(r) <==> Sensible(r) && r.updatedAt != 0
  {
  }

  /** Whatever a read by non-clashing tenants returns is the tenant's own, asked for, and fit for use; and whatever row is
      so, it returns. */
  lemma ReadReturns(table: Table, calls: seq<Call>, tenants: set<string>, capacity: nat, tenant: string,
                    keys: seq<string>, snapshot: Snapshot, now: Time, rows: seq<string>, key: string)
    requires capacity > 0 && forall i :: 0 <= i < |calls| ==> Orderly(calls[i], tenants)
    requires Delivers(rows, Run(table, calls, capacity), tenant, keys, snapshot, now)
    requires Owned(table, tenants) && tenant in tenants && forall s, t :: s in tenants && t in tenants ==> !Clash(s, t)
    ensures var s := Run(table, calls, capacity);
      var found := GotBatch(s.table, s.cache, tenant, keys, snapshot, now, capacity, rows).found;
      && (key in found <==>
            && key in keys && (tenant, key) in s.table
            && Sensible(Decode(tenant, key, s.table[(tenant, key)])) && OfSnapshot(Decode(tenant, key, s.table[(tenant, key)]), snapshot)
            && InForce(Decode(tenant, key, s.table[(tenant, key)]), now))
      && (key in found ==> found[key] == Decode(tenant, key, s.table[(tenant, key)]))
  {
    ReadsSeeTheTable(table, calls, tenants, capacity, tenant, keys, snapshot, now, rows);
    var s := Run(table, calls, capacity);
    if (tenant, key) in s.table { ValidIs(Decode(tenant, key, s.table[(tenant, key)]), snapshot, now); }
    hide Run, GotBatch, Delivers, Owned, Orderly, Clash, ValidFor;
  }

  /** WRITTEN, THEN READ. A new record that a committed batch writes is what its tenant then reads, field for field, while
      it is in force and the snapshot is its own; otherwise the read returns nothing. */
  lemma WrittenIsRead(s: State, r: Record, snapshot: Snapshot, now: Time, capacity: nat, rows: seq<string>)
    requires WellFormed(s.cache, capacity) && capacity > 0 && Coherent(s.table, s.cache)
    requires Sensible(r) && r.updatedAt != 0 && Storable(r) && !Matched(s.cache, r)
    ensures var w := PutTried(s.table, s.cache, [r], capacity, true);
      var t := State(w.table, w.cache);
      Delivers(rows, t, r.tenant, [r.key], snapshot, now) && Unmistaken(w.cache, r.tenant, [r.key], snapshot, now) ==>
        GotBatch(w.table, w.cache, r.tenant, [r.key], snapshot, now, capacity, rows).found
          == if OfSnapshot(r, snapshot) && InForce(r, now) then map[r.key := r] else map[]
  {
    hide WellFormed, Coherent, PutBatched, GotBatch, Delivers, Unmistaken, ValidFor, Decode, Encode, Storable, Find, Matched,
      Wanted, Sensible, OfSnapshot, InForce, Upserts, Acceptable;
    AcceptableIs(r);
    PutOne(s.table, s.cache, r, capacity);
    PutBatchEffect(s.table, s.cache, [r], capacity);
    PutBatchKeepsCoherence(s.table, s.cache, [r], capacity);
    var w := PutBatched(s.table, s.cache, [r], capacity);
    RowIsLast(w.table, s.table, r);
    WantedOne(w.table, r, snapshot, now);
    GetBatchIsExact(w.table, w.cache, r.tenant, [r.key], snapshot, now, capacity, rows);
  }

  /** A row written from a storable record is wanted by its own key exactly when the record is fit for use. */
  lemma WantedOne(table: Table, r: Record, snapshot: Snapshot, now: Time)
    requires Sensible(r) && Storable(r) && (r.tenant, r.key) in table && table[(r.tenant, r.key)] == Encode(r)
    ensures Wanted(table, r.tenant, [r.key], snapshot, now)
      == if OfSnapshot(r, snapshot) && InForce(r, now) then map[r.key := r] else map[]
  {
    hide OfSnapshot, InForce, Storable, Encode, Decode, ValidFor;
    RoundTripsIffStorable(r);
    ValidIs(r, snapshot, now);
    assert Asked([r.key]) == {r.key};
  }

  /** What counts as already written: the cached record, but for its time. */
  lemma MatchedIs(cache: Cached, r: Record)
    ensures Matched(cache, r)
       <==> var hit := Find(cache, CacheKey(r.tenant, r.key));
            hit.Some? && r == hit.value.(updatedAt := r.updatedAt)
  {
    hide Find, CacheKey;
  }

  /** REFRESHED FOR NOTHING. A record that differs from the cached one by its time alone is accepted and not written: the
      table stays, and so does the cached record with its own time. */
  lemma RefreshWritesNothing(s: State, r: Record, t: Time, capacity: nat)
    requires WellFormed(s.cache, capacity) && capacity > 0 && Sensible(r) && t != 0
    requires Find(s.cache, CacheKey(r.tenant, r.key)) == Some(r)
    ensures var w := PutTried(s.table, s.cache, [r.(updatedAt := t)], capacity, true);
      w.ok && w.table == s.table && Find(w.cache, CacheKey(r.tenant, r.key)) == Some(r)
  {
    hide Find, CacheKey, WellFormed, Screened, Rescreened, StoredAll, Stored, Matched, Acceptable, Sensible;
    var again := r.(updatedAt := t);
    AgainAcceptable(r, t);
    MatchedIs(s.cache, again);
    ScreenedFacts(s.cache, [again], capacity);
    NothingFresh(s.cache, again);
    var first := Screened(s.cache, [again]);
    RescreenedFacts(first.cache, [], capacity);
    NothingFreshLeft(first.cache);
    NothingStored(Rescreened(first.cache, []).cache, s.table, capacity);
    assert AllAcceptable([again]);
  }

  lemma AgainAcceptable(r: Record, t: Time)
    requires Sensible(r) && t != 0
    ensures Acceptable(r.(updatedAt := t))
  {
  }

  lemma NothingStored(cache: Cached, table: Table, capacity: nat)
    requires capacity > 0
    ensures StoredAll(cache, [], capacity) == cache && Upserts(table, []) == table
  {
  }

  lemma NothingFresh(cache: Cached, r: Record)
    requires Matched(cache, r)
    ensures Fresh(cache, [r]) == []
  {
    hide Matched;
    assert [r][..0] == [];
  }

  lemma NothingFreshLeft(cache: Cached)
    ensures Fresh(cache, []) == []
  {
  }

  lemma RowIsLast(after: Table, before: Table, r: Record)
    requires after == Upserts(before, [r])
    ensures (r.tenant, r.key) in after && after[(r.tenant, r.key)] == Encode(r)
  {
    assert [r][..0] == [];
    hide Encode;
  }
}

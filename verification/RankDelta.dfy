/** The write-through rank-delta store (internal/rankdelta/store.go): an LRU cache in front of a table. */
module RankDelta {
  import opened Prelude
  import opened Lru

  // ---- records and rows ----

  /** Times are nanoseconds since the zero time of Go, so 0 is the time IsZero reports. */
  type Time = int

  const UNIX_EPOCH: Time := 62_135_596_800_000_000_000
  const HALF: int := 0x8000_0000_0000_0000

  type int64 = x: int | -HALF <= x < HALF

  datatype Snapshot = Snapshot(policy: nat, evidence: nat, graph: nat, posterior: nat, residual: nat, abstraction: nat)

  datatype Record = Record(
    tenant: string, key: string, event: string, delta: real, reliability: real, versions: Snapshot,
    updatedAt: Time, expiresAt: Time)

  /** The columns beside the primary key. */
  datatype Row = Row(
    event: string, delta: real, reliability: real, versions: Snapshot, updatedNs: int64, expiresNs: int64)

  type Table = map<(string, string), Row>

  predicate ValidFor(r: Record, snapshot: Snapshot, now: Time) {
    && r.tenant != "" && r.key != "" && r.event != ""
    && -1.0 <= r.delta <= 1.0 && 0.0 <= r.reliability <= 1.0
    && r.versions == snapshot
    && r.updatedAt <= now && (r.expiresAt == 0 || now < r.expiresAt)
  }

  /** What a batch must satisfy to be written at all. */
  predicate Acceptable(r: Record) {
    && r.tenant != "" && r.key != "" && r.event != "" && r.updatedAt != 0
    && -1.0 <= r.delta <= 1.0 && 0.0 <= r.reliability <= 1.0
  }

  predicate MateriallyEqual(a: Record, b: Record) { a.(updatedAt := 0) == b.(updatedAt := 0) }

  function Wrap64(x: int): int64 { (x + HALF) % (2 * HALF) - HALF }

  function UnixNano(t: Time): int64 { Wrap64(t - UNIX_EPOCH) }

  function ExpiryNano(t: Time): int64 { if t == 0 then 0 else UnixNano(t) }

  function Encode(r: Record): Row {
    Row(r.event, r.delta, r.reliability, r.versions, UnixNano(r.updatedAt), ExpiryNano(r.expiresAt))
  }

  function Decode(tenant: string, key: string, row: Row): Record {
    Record(tenant, key, row.event, row.delta, row.reliability, row.versions, UNIX_EPOCH + row.updatedNs,
           if row.expiresNs != 0 then UNIX_EPOCH + row.expiresNs else 0)
  }

  /** A 64-bit nanosecond count can name this instant. */
  predicate Nameable(t: Time) { -HALF <= t - UNIX_EPOCH < HALF }

  predicate Storable(r: Record) {
    Nameable(r.updatedAt) && (r.expiresAt == 0 || (Nameable(r.expiresAt) && r.expiresAt != UNIX_EPOCH))
  }

  lemma NanoRoundTrip(t: Time)
    ensures UNIX_EPOCH + UnixNano(t) == t <==> Nameable(t)
  {
    var x := t - UNIX_EPOCH;
    if Nameable(t) { assert (x + HALF) % (2 * HALF) == x + HALF; }
  }

  /** A record comes back from the table unchanged exactly when both instants fit the 64-bit columns and the record does
      not expire at the Unix epoch, which the table cannot tell from "never". */
  lemma RoundTripsIffStorable(r: Record)
    ensures Decode(r.tenant, r.key, Encode(r)) == r <==> Storable(r)
  {
    NanoRoundTrip(r.updatedAt);
    NanoRoundTrip(r.expiresAt);
  }

  // ---- cache keys ----

  function CacheKey(tenant: string, key: string): string { tenant + "\0" + key }

  /** One tenant name continues another across the separator. */
  predicate Clash(s: string, t: string) { s != t && (s + "\0" <= t + "\0" || t + "\0" <= s + "\0") }

  lemma SameKeyPrefix(s: string, k: string, t: string, l: string)
    requires CacheKey(s, k) == CacheKey(t, l) && |s| <= |t|
    ensures s + "\0" <= t + "\0" && (s == t ==> k == l)
  {
    var c := CacheKey(s, k);
    assert c[..|s| + 1] == s + "\0" && c[|s| + 1..] == k;
    assert c[..|t| + 1] == t + "\0" && c[|t| + 1..] == l;
    assert c[..|s| + 1] == (t + "\0")[..|s| + 1];
  }

  /** Among these tenants, different records always have different cache keys exactly when no name clashes with
      another. */
  lemma CacheKeysDistinctIff(tenants: set<string>)
    ensures (forall s, t, k, l :: s in tenants && t in tenants && k != "" && l != "" && CacheKey(s, k) == CacheKey(t, l)
               ==> s == t && k == l)
       <==> (forall s, t :: s in tenants && t in tenants ==> !Clash(s, t))
  {
    if forall s, t :: s in tenants && t in tenants ==> !Clash(s, t) {
      forall s, t, k, l | s in tenants && t in tenants && k != "" && l != "" && CacheKey(s, k) == CacheKey(t, l)
        ensures s == t && k == l
      {
        if |s| <= |t| { SameKeyPrefix(s, k, t, l); } else { SameKeyPrefix(t, l, s, k); }
        assert !Clash(s, t);
      }
    } else {
      var a, b :| a in tenants && b in tenants && Clash(a, b);
      var s, t := if a + "\0" <= b + "\0" then a else b, if a + "\0" <= b + "\0" then b else a;
      var k := ClashingKey(s, t);
      assert CacheKey(s, k) == CacheKey(t, "x");
    }
  }

  lemma ClashingKey(s: string, t: string) returns (k: string)
    requires s != t && s + "\0" <= t + "\0"
    ensures k != "" && CacheKey(s, k) == CacheKey(t, "x")
  {
    var whole := CacheKey(t, "x");
    k := whole[|s| + 1..];
    assert whole[..|t| + 1] == t + "\0";
    assert whole[..|s| + 1] == (t + "\0")[..|s| + 1] == s + "\0";
    assert whole == whole[..|s| + 1] + k;
  }

  // ---- reading a batch ----

  type Cached = seq<Entry<string, Record>>

  datatype Lookup = Lookup(found: map<string, Record>, missing: seq<string>, seen: set<string>, cache: Cached)

  function LookUp(l: Lookup, tenant: string, key: string, snapshot: Snapshot, now: Time): Lookup {
    if key == "" || key in l.seen then l
    else
      var hit := Find(l.cache, CacheKey(tenant, key));
      var looked := l.(seen := l.seen + {key}, cache := Touched(l.cache, CacheKey(tenant, key)));
      if hit.Some? && ValidFor(hit.value, snapshot, now) then looked.(found := l.found[key := hit.value])
      else looked.(missing := l.missing + [key])
  }

  /** The pass over the requested keys. */
  function LookedUp(cache: Cached, tenant: string, keys: seq<string>, snapshot: Snapshot, now: Time): Lookup {
    if keys == [] then Lookup(map[], [], {}, cache)
    else
      var n := |keys| - 1;
      LookUp(LookedUp(cache, tenant, keys[..n], snapshot, now), tenant, keys[n], snapshot, now)
  }

  datatype State = State(table: Table, cache: Cached)

  datatype Fetch = Fetch(found: map<string, Record>, cache: Cached)

  function FetchRow(f: Fetch, table: Table, tenant: string, key: string, snapshot: Snapshot, now: Time,
                    capacity: nat): Fetch
  {
    if (tenant, key) !in table then f
    else
      var r := Decode(tenant, key, table[(tenant, key)]);
      Fetch(if ValidFor(r, snapshot, now) then f.found[key := r] else f.found,
            Stored(f.cache, CacheKey(tenant, key), r, capacity))
  }

  /** The pass over the rows read for the keys the cache could not answer. */
  function Fetched(f: Fetch, table: Table, tenant: string, missing: seq<string>, snapshot: Snapshot, now: Time,
                   capacity: nat): Fetch
  {
    if missing == [] then f
    else
      var n := |missing| - 1;
      FetchRow(Fetched(f, table, tenant, missing[..n], snapshot, now, capacity), table, tenant, missing[n], snapshot,
               now, capacity)
  }

  /** `rows` are the keys of the rows the database answers with, in the order they arrive. */
  function GotBatch(table: Table, cache: Cached, tenant: string, keys: seq<string>, snapshot: Snapshot, now: Time,
                    capacity: nat, rows: seq<string>): Fetch
  {
    var l := LookedUp(cache, tenant, keys, snapshot, now);
    Fetched(Fetch(l.found, l.cache), table, tenant, if l.missing == [] then [] else rows, snapshot, now, capacity)
  }

  /** The database answers with the rows asked for and no others. */
  ghost predicate Delivers(rows: seq<string>, s: State, tenant: string, keys: seq<string>, snapshot: Snapshot, now: Time) {
    forall k :: (tenant, k) in s.table ==> (k in rows <==> k in LookedUp(s.cache, tenant, keys, snapshot, now).missing)
  }

  // ---- writing a batch ----

  predicate Matched(cache: Cached, r: Record) {
    var hit := Find(cache, CacheKey(r.tenant, r.key));
    hit.Some? && MateriallyEqual(hit.value, r)
  }

  datatype Screen = Screen(ok: bool, pending: seq<Record>, cache: Cached)

  function ScreenOne(s: Screen, r: Record): Screen {
    if !s.ok then s
    else if !Acceptable(r) then s.(ok := false)
    else
      s.(pending := if Matched(s.cache, r) then s.pending else s.pending + [r],
         cache := Touched(s.cache, CacheKey(r.tenant, r.key)))
  }

  /** The first pass: refuse a bad record, drop those the cache already holds. */
  function Screened(cache: Cached, records: seq<Record>): Screen {
    if records == [] then Screen(true, [], cache)
    else ScreenOne(Screened(cache, records[..|records| - 1]), records[|records| - 1])
  }

  /** The second pass, under the write lock. */
  function Rescreened(cache: Cached, pending: seq<Record>): Screen {
    if pending == [] then Screen(true, [], cache)
    else
      var s, r := Rescreened(cache, pending[..|pending| - 1]), pending[|pending| - 1];
      Screen(true, if Matched(s.cache, r) then s.pending else s.pending + [r],
             Touched(s.cache, CacheKey(r.tenant, r.key)))
  }

  /** Plain upserts, one record after another. */
  function Upserts(table: Table, records: seq<Record>): Table {
    if records == [] then table
    else
      var n := |records| - 1;
      Upserts(table, records[..n])[(records[n].tenant, records[n].key) := Encode(records[n])]
  }

  function StoredAll(cache: Cached, records: seq<Record>, capacity: nat): Cached {
    if records == [] then cache
    else
      var n := |records| - 1;
      Stored(StoredAll(cache, records[..n], capacity), CacheKey(records[n].tenant, records[n].key), records[n], capacity)
  }

  datatype Written = Written(ok: bool, table: Table, cache: Cached)

  function PutBatched(table: Table, cache: Cached, records: seq<Record>, capacity: nat): Written {
    var first := Screened(cache, records);
    if !first.ok then Written(false, table, first.cache)
    else
      var second := Rescreened(first.cache, first.pending);
      Written(true, Upserts(table, second.pending), StoredAll(second.cache, second.pending, capacity))
  }

  /** The same, told whether the transaction goes through. When it fails nothing is written or cached. */
  function PutTried(table: Table, cache: Cached, records: seq<Record>, capacity: nat, commits: bool): Written {
    var w := PutBatched(table, cache, records, capacity);
    if commits || !w.ok then w
    else
      var first := Screened(cache, records);
      var second := Rescreened(first.cache, first.pending);
      Written(second.pending == [], table, second.cache)
  }

  // ---- the cache agrees with the table ----

  /** Every cached record sits under its own key and is what its table row decodes to. */
  ghost predicate Coherent(table: Table, cache: Cached) {
    forall k :: Find(cache, k).Some? ==> IsRow(table, k, Find(cache, k).value)
  }

  ghost predicate IsRow(table: Table, cacheKey: string, r: Record) {
    && cacheKey == CacheKey(r.tenant, r.key)
    && (r.tenant, r.key) in table && Decode(r.tenant, r.key, table[(r.tenant, r.key)]) == r
  }

  ghost predicate Agrees(a: Cached, b: Cached) { forall k :: Find(a, k) == Find(b, k) }

  function Asked(keys: seq<string>): set<string> { set k | k in keys && k != "" }

  ghost predicate LookupOk(cache: Cached, l: Lookup, tenant: string, snapshot: Snapshot, now: Time, capacity: nat) {
    && WellFormed(l.cache, capacity) && Agrees(l.cache, cache)
    && (forall k :: k in l.missing ==> k in l.seen)
    && (forall k :: k in l.seen ==> k in l.missing || k in l.found)
    && (forall k :: k in l.missing && Find(cache, CacheKey(tenant, k)).Some? ==>
          !ValidFor(Find(cache, CacheKey(tenant, k)).value, snapshot, now))
    && (forall k :: k in l.found ==> k in l.seen && Find(cache, CacheKey(tenant, k)) == Some(l.found[k])
                                     && ValidFor(l.found[k], snapshot, now))
  }

  lemma LookUpOk(cache: Cached, l: Lookup, tenant: string, key: string, snapshot: Snapshot, now: Time, capacity: nat)
    requires LookupOk(cache, l, tenant, snapshot, now, capacity)
    ensures LookupOk(cache, LookUp(l, tenant, key, snapshot, now), tenant, snapshot, now, capacity)
  {
    TouchedKeepsContents(l.cache, CacheKey(tenant, key), capacity);
    hide WellFormed, Find, Touched, CacheKey, ValidFor;
  }

  lemma {:induction false} LookedUpOk(cache: Cached, tenant: string, keys: seq<string>, snapshot: Snapshot, now: Time,
                                      capacity: nat)
    requires WellFormed(cache, capacity)
    ensures var l := LookedUp(cache, tenant, keys, snapshot, now);
      LookupOk(cache, l, tenant, snapshot, now, capacity) && l.seen == Asked(keys)
    decreases |keys|
  {
    hide WellFormed, Find, Touched, CacheKey, ValidFor;
    if keys != [] {
      var n := |keys| - 1;
      assert keys == keys[..n] + [keys[n]];
      LookedUpOk(cache, tenant, keys[..n], snapshot, now, capacity);
      LookUpOk(cache, LookedUp(cache, tenant, keys[..n], snapshot, now), tenant, keys[n], snapshot, now, capacity);
    }
  }

  predicate RowValid(table: Table, tenant: string, key: string, snapshot: Snapshot, now: Time) {
    (tenant, key) in table && ValidFor(Decode(tenant, key, table[(tenant, key)]), snapshot, now)
  }

  function RowOf(table: Table, tenant: string, key: string): Record
    requires (tenant, key) in table
  {
    Decode(tenant, key, table[(tenant, key)])
  }

  lemma StoredCoherent(table: Table, cache: Cached, tenant: string, key: string, capacity: nat)
    requires WellFormed(cache, capacity) && capacity > 0 && Coherent(table, cache) && (tenant, key) in table
    ensures var after := Stored(cache, CacheKey(tenant, key), RowOf(table, tenant, key), capacity);
      WellFormed(after, capacity) && Coherent(table, after)
  {
    StoredContents(cache, CacheKey(tenant, key), RowOf(table, tenant, key), capacity);
    hide WellFormed, Find, Stored, CacheKey;
  }

  lemma {:induction false} FetchedFacts(f: Fetch, table: Table, tenant: string, missing: seq<string>,
                                        snapshot: Snapshot, now: Time, capacity: nat)
    requires WellFormed(f.cache, capacity) && capacity > 0 && Coherent(table, f.cache)
    ensures var g := Fetched(f, table, tenant, missing, snapshot, now, capacity);
      && WellFormed(g.cache, capacity) && Coherent(table, g.cache)
      && (forall k :: k in g.found <==> k in f.found || (k in missing && RowValid(table, tenant, k, snapshot, now)))
      && (forall k :: k in g.found && k in missing && RowValid(table, tenant, k, snapshot, now) ==>
            g.found[k] == RowOf(table, tenant, k))
      && (forall k :: k in g.found && !(k in missing && RowValid(table, tenant, k, snapshot, now)) ==>
            g.found[k] == f.found[k])
    decreases |missing|
  {
    hide WellFormed, Find, Stored, CacheKey, ValidFor, Decode, Coherent;
    if missing != [] {
      var n := |missing| - 1;
      assert missing == missing[..n] + [missing[n]];
      FetchedFacts(f, table, tenant, missing[..n], snapshot, now, capacity);
      if (tenant, missing[n]) in table {
        StoredCoherent(table, Fetched(f, table, tenant, missing[..n], snapshot, now, capacity).cache, tenant, missing[n],
                       capacity);
      }
    }
  }

  /** What a read must return: the requested non-empty keys whose row is valid now, with those rows. */
  function Wanted(table: Table, tenant: string, keys: seq<string>, snapshot: Snapshot, now: Time): map<string, Record> {
    map k | k in Asked(keys) && RowValid(table, tenant, k, snapshot, now) :: RowOf(table, tenant, k)
  }

  /** No usable cached record of another tenant answers to one of these keys. */
  ghost predicate Unmistaken(cache: Cached, tenant: string, keys: seq<string>, snapshot: Snapshot, now: Time) {
    forall k :: k in Asked(keys) && Find(cache, CacheKey(tenant, k)).Some? ==>
      var r := Find(cache, CacheKey(tenant, k)).value;
      ValidFor(r, snapshot, now) ==> r.tenant == tenant
  }

  /** What a read returns in terms of the lookups: a found key's cached record, and a missing key's row where valid. */
  lemma GetBatchFacts(table: Table, cache: Cached, tenant: string, keys: seq<string>, snapshot: Snapshot, now: Time,
                      capacity: nat, rows: seq<string>)
    requires WellFormed(cache, capacity) && capacity > 0 && Coherent(table, cache)
    ensures var g, l := GotBatch(table, cache, tenant, keys, snapshot, now, capacity, rows),
                        LookedUp(cache, tenant, keys, snapshot, now);
      && WellFormed(g.cache, capacity) && Coherent(table, g.cache)
      && (Delivers(rows, State(table, cache), tenant, keys, snapshot, now) ==>
            && (forall k :: k in g.found <==> k in l.found || (k in l.missing && RowValid(table, tenant, k, snapshot, now)))
            && (forall k :: k in g.found && k in l.missing && RowValid(table, tenant, k, snapshot, now) ==>
                  g.found[k] == RowOf(table, tenant, k))
            && (forall k :: k in g.found && !(k in l.missing && RowValid(table, tenant, k, snapshot, now)) ==>
                  k in l.found && g.found[k] == l.found[k]))
  {
    hide WellFormed, Coherent, Find, LookedUp, Fetched, ValidFor, Decode, CacheKey;
    var l := LookedUp(cache, tenant, keys, snapshot, now);
    LookedUpOk(cache, tenant, keys, snapshot, now, capacity);
    AgreesCoherent(table, cache, l.cache);
    FetchedFacts(Fetch(l.found, l.cache), table, tenant, if l.missing == [] then [] else rows, snapshot, now, capacity);
  }

  /** The cache never shows in what a read returns: it is exactly the valid rows, if and only if no usable cached record
      of another tenant answers to a requested key. Either way the cache stays coherent and within its capacity. */
  lemma GetBatchIsExact(table: Table, cache: Cached, tenant: string, keys: seq<string>, snapshot: Snapshot, now: Time,
                        capacity: nat, rows: seq<string>)
    requires WellFormed(cache, capacity) && capacity > 0 && Coherent(table, cache)
    ensures var g := GotBatch(table, cache, tenant, keys, snapshot, now, capacity, rows);
      && WellFormed(g.cache, capacity) && Coherent(table, g.cache)
      && (Delivers(rows, State(table, cache), tenant, keys, snapshot, now) ==>
            (g.found == Wanted(table, tenant, keys, snapshot, now) <==> Unmistaken(cache, tenant, keys, snapshot, now)))
  {
    hide WellFormed, Coherent, Find, LookedUp, GotBatch, ValidFor, Decode, CacheKey, Unmistaken, Delivers;
    GetBatchFacts(table, cache, tenant, keys, snapshot, now, capacity, rows);
    LookedUpOk(cache, tenant, keys, snapshot, now, capacity);
    if Delivers(rows, State(table, cache), tenant, keys, snapshot, now) {
      var g, wanted := GotBatch(table, cache, tenant, keys, snapshot, now, capacity, rows),
                       Wanted(table, tenant, keys, snapshot, now);
      if Unmistaken(cache, tenant, keys, snapshot, now) {
        CachedIsOwn(table, cache, tenant, keys, snapshot, now, capacity);
        assert g.found.Keys == wanted.Keys;
      } else {
        var k := MistakenKey(cache, tenant, keys, snapshot, now, capacity);
        assert k in wanted ==> wanted[k].tenant == tenant by { RowTenant(table, tenant, k); }
      }
    }
  }

  lemma RowTenant(table: Table, tenant: string, key: string)
    ensures (tenant, key) in table ==> RowOf(table, tenant, key).tenant == tenant
  {
  }

  lemma CachedIsOwn(table: Table, cache: Cached, tenant: string, keys: seq<string>, snapshot: Snapshot, now: Time,
                    capacity: nat)
    requires WellFormed(cache, capacity) && Coherent(table, cache) && Unmistaken(cache, tenant, keys, snapshot, now)
    ensures var l := LookedUp(cache, tenant, keys, snapshot, now);
      forall k :: k in l.found ==> RowValid(table, tenant, k, snapshot, now) && RowOf(table, tenant, k) == l.found[k]
  {
    LookedUpOk(cache, tenant, keys, snapshot, now, capacity);
    hide LookedUp, WellFormed;
    var l := LookedUp(cache, tenant, keys, snapshot, now);
    forall k | k in l.found ensures RowValid(table, tenant, k, snapshot, now) && RowOf(table, tenant, k) == l.found[k] {
      var r := Find(cache, CacheKey(tenant, k)).value;
      assert IsRow(table, CacheKey(tenant, k), r);
      SameKeyPrefix(tenant, k, r.tenant, r.key);
    }
  }

  lemma MistakenKey(cache: Cached, tenant: string, keys: seq<string>, snapshot: Snapshot, now: Time, capacity: nat)
    returns (k: string)
    requires WellFormed(cache, capacity) && !Unmistaken(cache, tenant, keys, snapshot, now)
    ensures var l := LookedUp(cache, tenant, keys, snapshot, now);
      k in l.found && k !in l.missing && l.found[k].tenant != tenant
  {
    hide WellFormed, LookedUp, Find, CacheKey, ValidFor;
    LookedUpOk(cache, tenant, keys, snapshot, now, capacity);
    k :| k in Asked(keys) && Find(cache, CacheKey(tenant, k)).Some?
      && ValidFor(Find(cache, CacheKey(tenant, k)).value, snapshot, now)
      && Find(cache, CacheKey(tenant, k)).value.tenant != tenant;
  }

  lemma AgreesCoherent(table: Table, cache: Cached, after: Cached)
    requires Coherent(table, cache) && Agrees(after, cache)
    ensures Coherent(table, after)
  {
  }

  /** Tenant names that do not clash are enough, whatever keys they use. */
  lemma NoClashNoMistake(table: Table, cache: Cached, tenants: set<string>, tenant: string, keys: seq<string>,
                         snapshot: Snapshot, now: Time)
    requires Coherent(table, cache) && forall s, t :: s in tenants && t in tenants ==> !Clash(s, t)
    requires tenant in tenants && forall tk :: tk in table ==> tk.0 in tenants
    ensures Unmistaken(cache, tenant, keys, snapshot, now)
  {
    forall k | k in Asked(keys) && Find(cache, CacheKey(tenant, k)).Some?
      ensures Find(cache, CacheKey(tenant, k)).value.tenant == tenant
    {
      var r := Find(cache, CacheKey(tenant, k)).value;
      assert IsRow(table, CacheKey(tenant, k), r);
      assert (r.tenant, r.key) in table;
      if |tenant| <= |r.tenant| { SameKeyPrefix(tenant, k, r.tenant, r.key); }
      else { SameKeyPrefix(r.tenant, r.key, tenant, k); }
      assert !Clash(tenant, r.tenant);
    }
  }

  // ---- what a batch write does ----

  /** The records a batch still has to write: those the cache does not already hold. */
  function Fresh(cache: Cached, records: seq<Record>): seq<Record> {
    if records == [] then []
    else
      var n := |records| - 1;
      Fresh(cache, records[..n]) + (if Matched(cache, records[n]) then [] else [records[n]])
  }

  /** The last word of a batch on one key. */
  function LastOf(records: seq<Record>, tenant: string, key: string): (r: Option<Record>)
    ensures r.Some? ==> r.value in records && r.value.tenant == tenant && r.value.key == key
    ensures r.None? ==> forall x :: x in records ==> !(x.tenant == tenant && x.key == key)
  {
    if records == [] then None
    else
      var n := |records| - 1;
      assert records == records[..n] + [records[n]];
      if records[n].tenant == tenant && records[n].key == key then Some(records[n]) else LastOf(records[..n], tenant, key)
  }

  ghost predicate AllAcceptable(records: seq<Record>) { forall r :: r in records ==> Acceptable(r) }

  lemma {:induction false} ScreenedFacts(cache: Cached, records: seq<Record>, capacity: nat)
    requires WellFormed(cache, capacity)
    ensures var s := Screened(cache, records);
      && WellFormed(s.cache, capacity) && Agrees(s.cache, cache)
      && (s.ok <==> AllAcceptable(records)) && (s.ok ==> s.pending == Fresh(cache, records))
    decreases |records|
  {
    hide WellFormed, Find, Touched, CacheKey, Acceptable, MateriallyEqual;
    if records != [] {
      var n := |records| - 1;
      assert records == records[..n] + [records[n]];
      ScreenedFacts(cache, records[..n], capacity);
      TouchedKeepsContents(Screened(cache, records[..n]).cache, CacheKey(records[n].tenant, records[n].key), capacity);
    }
  }

  lemma {:induction false} RescreenedFacts(cache: Cached, pending: seq<Record>, capacity: nat)
    requires WellFormed(cache, capacity)
    ensures var s := Rescreened(cache, pending);
      WellFormed(s.cache, capacity) && Agrees(s.cache, cache) && s.pending == Fresh(cache, pending)
    decreases |pending|
  {
    hide WellFormed, Find, Touched, CacheKey, MateriallyEqual;
    if pending != [] {
      var n := |pending| - 1;
      RescreenedFacts(cache, pending[..n], capacity);
      TouchedKeepsContents(Rescreened(cache, pending[..n]).cache, CacheKey(pending[n].tenant, pending[n].key), capacity);
    }
  }

  lemma {:induction false} FreshAgain(cache: Cached, other: Cached, records: seq<Record>)
    requires Agrees(other, cache)
    ensures Fresh(other, Fresh(cache, records)) == Fresh(cache, records)
    decreases |records|
  {
    hide Find, CacheKey, MateriallyEqual;
    if records != [] {
      var n := |records| - 1;
      FreshAgain(cache, other, records[..n]);
      var earlier := Fresh(cache, records[..n]);
      assert Matched(cache, records[n]) <==> Matched(other, records[n]);
      if Matched(cache, records[n]) {
        assert earlier + [] == earlier;
      } else {
        assert (earlier + [records[n]])[..|earlier|] == earlier;
      }
    }
  }

  lemma {:induction false} FreshMembers(cache: Cached, records: seq<Record>)
    ensures forall r :: r in Fresh(cache, records) <==> r in records && !Matched(cache, r)
    decreases |records|
  {
    hide Find, CacheKey, Matched;
    if records != [] {
      var n := |records| - 1;
      FreshMembers(cache, records[..n]);
      assert records == records[..n] + [records[n]];
    }
  }

  lemma {:induction false} UpsertsAt(table: Table, records: seq<Record>)
    ensures forall t, k :: (t, k) in Upserts(table, records) <==> LastOf(records, t, k).Some? || (t, k) in table
    ensures forall t, k :: (t, k) in Upserts(table, records) ==>
      Upserts(table, records)[(t, k)]
        == var last := LastOf(records, t, k); if last.Some? then Encode(last.value) else table[(t, k)]
    decreases |records|
  {
    hide Encode;
    if records != [] { UpsertsAt(table, records[..|records| - 1]); }
  }

  /** Anything cached after the batch is either the batch's last word on its key or was cached before and untouched. */
  lemma {:induction false} StoredAllFind(cache: Cached, records: seq<Record>, capacity: nat)
    requires WellFormed(cache, capacity) && capacity > 0
    ensures var after := StoredAll(cache, records, capacity);
      && WellFormed(after, capacity)
      && forall c :: Find(after, c).Some? ==> LastWord(cache, records, c, Find(after, c).value)
    decreases |records|
  {
    hide WellFormed, Find, Stored, CacheKey;
    if records != [] {
      var n := |records| - 1;
      StoredAllFind(cache, records[..n], capacity);
      var before, key := StoredAll(cache, records[..n], capacity), CacheKey(records[n].tenant, records[n].key);
      StoredContents(before, key, records[n], capacity);
      var after := StoredAll(cache, records, capacity);
      forall c | Find(after, c).Some? ensures LastWord(cache, records, c, Find(after, c).value) {
        if c == key {
          assert Find(after, c).value == records[n];
        } else {
          assert Find(after, c) == Find(before, c);
          LastWordExtends(cache, records, c, Find(after, c).value);
        }
      }
    }
  }

  ghost predicate LastWord(cache: Cached, records: seq<Record>, cacheKey: string, r: Record) {
    || (cacheKey == CacheKey(r.tenant, r.key) && LastOf(records, r.tenant, r.key) == Some(r))
    || (Find(cache, cacheKey) == Some(r) && forall x :: x in records ==> CacheKey(x.tenant, x.key) != cacheKey)
  }

  lemma LastWordExtends(cache: Cached, records: seq<Record>, cacheKey: string, r: Record)
    requires records != [] && LastWord(cache, records[..|records| - 1], cacheKey, r)
    requires var x := records[|records| - 1]; CacheKey(x.tenant, x.key) != cacheKey
    ensures LastWord(cache, records, cacheKey, r)
  {
    var n := |records| - 1;
    assert records == records[..n] + [records[n]];
    hide Find, CacheKey;
  }

  /** Everything a batch does to the table and to the cache. */
  lemma PutBatchEffect(table: Table, cache: Cached, records: seq<Record>, capacity: nat)
    requires WellFormed(cache, capacity) && capacity > 0
    ensures var w := PutBatched(table, cache, records, capacity);
      && WellFormed(w.cache, capacity) && (w.ok <==> AllAcceptable(records))
      && w.table == (if w.ok then Upserts(table, Fresh(cache, records)) else table)
      && forall c :: Find(w.cache, c).Some? ==>
           LastWord(cache, if w.ok then Fresh(cache, records) else [], c, Find(w.cache, c).value)
  {
    ScreenedFacts(cache, records, capacity);
    var first := Screened(cache, records);
    RescreenedFacts(first.cache, first.pending, capacity);
    var second := Rescreened(first.cache, first.pending);
    if first.ok {
      FreshAgain(cache, first.cache, records);
      StoredAllFind(second.cache, second.pending, capacity);
      hide WellFormed, Find, CacheKey, Fresh, Screened, Rescreened, LastOf, StoredAll, Upserts;
    } else {
      hide WellFormed, CacheKey, Fresh, Screened, Rescreened, LastOf, StoredAll, Upserts;
    }
  }

  ghost predicate AllStorable(records: seq<Record>) { forall r :: r in records ==> Storable(r) }

  /** WRITE-THROUGH. A batch, accepted or refused, leaves every cached record equal to its table row. */
  lemma PutBatchKeepsCoherence(table: Table, cache: Cached, records: seq<Record>, capacity: nat)
    requires WellFormed(cache, capacity) && capacity > 0 && Coherent(table, cache) && AllStorable(records)
    ensures var w := PutBatched(table, cache, records, capacity);
      WellFormed(w.cache, capacity) && Coherent(w.table, w.cache)
  {
    PutBatchEffect(table, cache, records, capacity);
    var w, written := PutBatched(table, cache, records, capacity), Fresh(cache, records);
    FreshMembers(cache, records);
    UpsertsAt(table, written);
    forall c | Find(w.cache, c).Some? ensures IsRow(w.table, c, Find(w.cache, c).value) {
      var r := Find(w.cache, c).value;
      LastWordIsRow(table, cache, if w.ok then written else [], c, r);
    }
  }

  lemma LastWordIsRow(table: Table, cache: Cached, records: seq<Record>, cacheKey: string, r: Record)
    requires Coherent(table, cache) && AllStorable(records) && LastWord(cache, records, cacheKey, r)
    ensures IsRow(Upserts(table, records), cacheKey, r)
  {
    UpsertsAt(table, records);
    RoundTripsIffStorable(r);
    if cacheKey == CacheKey(r.tenant, r.key) && LastOf(records, r.tenant, r.key) == Some(r) {
      assert r in records;
    } else {
      assert IsRow(table, cacheKey, r);
      assert LastOf(records, r.tenant, r.key).None?;
    }
    hide Decode, Encode, Find, CacheKey, LastOf, Upserts, Storable;
  }

  /** One record that the table cannot hold exactly breaks the agreement at once. */
  lemma UnstorableBreaksCoherence(table: Table, cache: Cached, r: Record, capacity: nat)
    requires WellFormed(cache, capacity) && capacity > 0 && Coherent(table, cache)
    requires Acceptable(r) && !Matched(cache, r)
    ensures var w := PutBatched(table, cache, [r], capacity); Coherent(w.table, w.cache) <==> Storable(r)
  {
    var w, c := PutBatched(table, cache, [r], capacity), CacheKey(r.tenant, r.key);
    if Storable(r) {
      PutBatchKeepsCoherence(table, cache, [r], capacity);
    } else {
      PutOne(table, cache, r, capacity);
      UpsertsAt(table, [r]);
      RoundTripsIffStorable(r);
      hide Find, CacheKey, WellFormed, Decode, Encode, Storable;
      assert LastOf([r], r.tenant, r.key) == Some(r);
    }
  }

  /** One new record is written and cached. */
  lemma PutOne(table: Table, cache: Cached, r: Record, capacity: nat)
    requires WellFormed(cache, capacity) && capacity > 0 && Acceptable(r) && !Matched(cache, r)
    ensures var w := PutBatched(table, cache, [r], capacity);
      w.table == Upserts(table, [r]) && Find(w.cache, CacheKey(r.tenant, r.key)) == Some(r)
  {
    ScreenedFacts(cache, [r], capacity);
    var first := Screened(cache, [r]);
    FreshOne(cache, r);
    RescreenedFacts(first.cache, [r], capacity);
    FreshAgain(cache, first.cache, [r]);
    var second := Rescreened(first.cache, first.pending);
    StoredAllOne(second.cache, r, capacity);
    StoredContents(second.cache, CacheKey(r.tenant, r.key), r, capacity);
    hide Find, CacheKey, WellFormed, Screened, Rescreened, StoredAll, Stored;
  }

  lemma FreshOne(cache: Cached, r: Record)
    ensures Fresh(cache, [r]) == if Matched(cache, r) then [] else [r]
  {
    assert [r][..0] == [];
  }

  lemma StoredAllOne(cache: Cached, r: Record, capacity: nat)
    ensures StoredAll(cache, [r], capacity) == Stored(cache, CacheKey(r.tenant, r.key), r, capacity)
  {
    assert [r][..0] == [];
  }

  // ---- the skips against plain upserts ----

  /** The table with every update time forgotten. */
  function Undated(table: Table): Table { map tk | tk in table :: table[tk].(updatedNs := 0) }

  /** This key's last word is not skipped as already cached after an earlier record of the key was written. */
  ghost predicate FaithfulAt(cache: Cached, records: seq<Record>, t: string, k: string) {
    LastOf(records, t, k).Some? && Matched(cache, LastOf(records, t, k).value) ==>
      LastOf(Fresh(cache, records), t, k).None?
  }

  ghost predicate Faithful(cache: Cached, records: seq<Record>) { forall t, k :: FaithfulAt(cache, records, t, k) }

  lemma {:induction false} LastFresh(cache: Cached, records: seq<Record>, t: string, k: string)
    ensures LastOf(records, t, k).None? ==> LastOf(Fresh(cache, records), t, k).None?
    ensures LastOf(records, t, k).Some? && !Matched(cache, LastOf(records, t, k).value) ==>
      LastOf(Fresh(cache, records), t, k) == LastOf(records, t, k)
    decreases |records|
  {
    hide Matched;
    if records != [] {
      var n := |records| - 1;
      LastFresh(cache, records[..n], t, k);
      var earlier := Fresh(cache, records[..n]);
      if Matched(cache, records[n]) { assert earlier + [] == earlier; }
      else { assert (earlier + [records[n]])[..|earlier|] == earlier; }
    }
  }

  /** Materially equal records fill equal rows, up to the update time, and only they do. */
  lemma UndatedRows(a: Record, b: Record)
    requires Storable(a) && Storable(b) && a.tenant == b.tenant && a.key == b.key
    ensures Encode(a).(updatedNs := 0) == Encode(b).(updatedNs := 0) <==> MateriallyEqual(a, b)
  {
    RoundTripsIffStorable(a);
    RoundTripsIffStorable(b);
  }

  lemma CachedRow(table: Table, cache: Cached, r: Record)
    requires Coherent(table, cache) && Storable(r) && Matched(cache, r)
    ensures (r.tenant, r.key) in table
    ensures table[(r.tenant, r.key)].(updatedNs := 0) == Encode(r).(updatedNs := 0)
  {
    var c := Find(cache, CacheKey(r.tenant, r.key)).value;
    assert IsRow(table, CacheKey(r.tenant, r.key), c);
    RoundTripsIffStorable(r);
    NanoRoundTrip(c.expiresAt);
  }

  function At(table: Table, t: string, k: string): Option<Row> {
    if (t, k) in table then Some(table[(t, k)]) else None
  }

  predicate Alike(a: Option<Row>, b: Option<Row>) {
    match (a, b)
    case (None, None) => true
    case (Some(x), Some(y)) => x.(updatedNs := 0) == y.(updatedNs := 0)
    case _ => false
  }

  lemma UpsertAt(table: Table, records: seq<Record>, t: string, k: string)
    ensures var last := LastOf(records, t, k);
      At(Upserts(table, records), t, k) == if last.Some? then Some(Encode(last.value)) else At(table, t, k)
  {
    UpsertsAt(table, records);
    hide Encode, Upserts, LastOf;
  }

  lemma UndatedEqual(a: Table, b: Table)
    ensures Undated(a) == Undated(b) <==> forall t, k :: Alike(At(a, t, k), At(b, t, k))
  {
    var u, v := Undated(a), Undated(b);
    assert u.Keys == a.Keys && v.Keys == b.Keys;
    if u == v {
      forall t, k ensures Alike(At(a, t, k), At(b, t, k)) {
        assert (t, k) in a.Keys <==> (t, k) in b.Keys;
        if (t, k) in a { assert u[(t, k)] == v[(t, k)]; }
      }
    }
    if forall t, k :: Alike(At(a, t, k), At(b, t, k)) {
      forall tk: (string, string) ensures (tk in u <==> tk in v) && (tk in u ==> u[tk] == v[tk]) {
        assert Alike(At(a, tk.0, tk.1), At(b, tk.0, tk.1));
      }
      assert u == v;
    }
  }

  lemma MatchedAlike(cache: Cached, a: Record, b: Record)
    requires a.tenant == b.tenant && a.key == b.key && Matched(cache, b) && !Matched(cache, a)
    ensures !MateriallyEqual(a, b)
  {
  }

  lemma FreshIsUnmatched(cache: Cached, records: seq<Record>, r: Record)
    requires r in Fresh(cache, records)
    ensures !Matched(cache, r) && r in records
  {
    FreshMembers(cache, records);
  }

  lemma AlikeIffFaithful(table: Table, cache: Cached, records: seq<Record>, t: string, k: string)
    requires Coherent(table, cache) && AllStorable(records)
    ensures Alike(At(Upserts(table, Fresh(cache, records)), t, k), At(Upserts(table, records), t, k))
       <==> FaithfulAt(cache, records, t, k)
  {
    hide Encode, Find, CacheKey, Storable, Upserts, LastOf, Fresh, Matched, Coherent, MateriallyEqual;
    var last, written := LastOf(records, t, k), LastOf(Fresh(cache, records), t, k);
    LastFresh(cache, records, t, k);
    UpsertAt(table, Fresh(cache, records), t, k);
    UpsertAt(table, records, t, k);
    if last.Some? && Matched(cache, last.value) {
      CachedRow(table, cache, last.value);
      if written.Some? {
        FreshIsUnmatched(cache, records, written.value);
        UndatedRows(written.value, last.value);
        MatchedAlike(cache, written.value, last.value);
      }
    }
  }

  /** SKIPPING IS INVISIBLE. Up to update times the table is what plain upserts would have made it, if and only if no
      key's last word was skipped after an earlier record of that key was written. */
  lemma PutBatchIsUpserts(table: Table, cache: Cached, records: seq<Record>, capacity: nat)
    requires WellFormed(cache, capacity) && capacity > 0 && Coherent(table, cache)
    requires AllAcceptable(records) && AllStorable(records)
    ensures var w := PutBatched(table, cache, records, capacity);
      w.ok && (Undated(w.table) == Undated(Upserts(table, records)) <==> Faithful(cache, records))
  {
    PutBatchEffect(table, cache, records, capacity);
    forall t, k
      ensures Alike(At(Upserts(table, Fresh(cache, records)), t, k), At(Upserts(table, records), t, k))
         <==> FaithfulAt(cache, records, t, k)
    {
      AlikeIffFaithful(table, cache, records, t, k);
    }
    UndatedEqual(Upserts(table, Fresh(cache, records)), Upserts(table, records));
    hide WellFormed, Find, CacheKey, FaithfulAt, Alike, At, Fresh, LastOf, Upserts, Coherent, PutBatched, Undated;
  }

  ghost predicate DistinctRecordKeys(records: seq<Record>) {
    forall i, j :: 0 <= i < j < |records| ==>
      records[i].tenant != records[j].tenant || records[i].key != records[j].key
  }

  lemma SameKeySameRecord(records: seq<Record>, a: Record, b: Record)
    requires DistinctRecordKeys(records) && a in records && b in records && a.tenant == b.tenant && a.key == b.key
    ensures a == b
  {
  }

  /** Naming each key once is enough. */
  lemma DistinctKeysAreFaithful(cache: Cached, records: seq<Record>)
    requires DistinctRecordKeys(records)
    ensures Faithful(cache, records)
  {
    hide Matched, LastOf, Fresh, DistinctRecordKeys;
    forall t, k ensures FaithfulAt(cache, records, t, k) {
      var last, written := LastOf(records, t, k), LastOf(Fresh(cache, records), t, k);
      if last.Some? && written.Some? {
        FreshIsUnmatched(cache, records, written.value);
        SameKeySameRecord(records, written.value, last.value);
      }
    }
  }

  // ---- whole runs ----

  /** A read and the rows the database answers it with, in order; a write and whether its transaction goes through. */
  datatype Call =
    | Get(tenant: string, keys: seq<string>, snapshot: Snapshot, now: Time, rows: seq<string>)
    | Put(records: seq<Record>, commits: bool)

  function After(s: State, call: Call, capacity: nat): State {
    match call
    case Get(tenant, keys, snapshot, now, rows) =>
      s.(cache := GotBatch(s.table, s.cache, tenant, keys, snapshot, now, capacity, rows).cache)
    case Put(records, commits) =>
      var w := PutTried(s.table, s.cache, records, capacity, commits);
      State(w.table, w.cache)
  }

  function Run(table: Table, calls: seq<Call>, capacity: nat): State {
    if calls == [] then State(table, [])
    else After(Run(table, calls[..|calls| - 1], capacity), calls[|calls| - 1], capacity)
  }

  /** The same calls on a table without any cache: a good batch is upserted if its transaction goes through, a bad one
      refused. */
  ghost function PlainAfter(table: Table, call: Call): Table {
    if call.Put? && call.commits && AllAcceptable(call.records) then Upserts(table, call.records) else table
  }

  ghost function PlainRun(table: Table, calls: seq<Call>): Table {
    if calls == [] then table else PlainAfter(PlainRun(table, calls[..|calls| - 1]), calls[|calls| - 1])
  }

  /** Calls by these tenants, with records the table can hold, each key once per batch. */
  ghost predicate Orderly(call: Call, tenants: set<string>) {
    match call
    case Get(tenant, _, _, _, _) => tenant in tenants
    case Put(records, _) =>
      AllStorable(records) && DistinctRecordKeys(records) && forall r :: r in records ==> r.tenant in tenants
  }

  ghost predicate Sound(s: State, table: Table, capacity: nat) {
    WellFormed(s.cache, capacity) && Coherent(s.table, s.cache) && Undated(s.table) == Undated(table)
  }

  lemma UpsertsAlike(a: Table, b: Table, records: seq<Record>)
    requires Undated(a) == Undated(b)
    ensures Undated(Upserts(a, records)) == Undated(Upserts(b, records))
  {
    UndatedEqual(a, b);
    forall t, k ensures Alike(At(Upserts(a, records), t, k), At(Upserts(b, records), t, k)) {
      UpsertAt(a, records, t, k);
      UpsertAt(b, records, t, k);
      assert Alike(At(a, t, k), At(b, t, k));
    }
    UndatedEqual(Upserts(a, records), Upserts(b, records));
    hide Undated, Upserts;
  }

  /** A transaction that fails leaves the table and every cached answer as they were. */
  lemma PutTriedIs(s: State, records: seq<Record>, capacity: nat, commits: bool)
    requires WellFormed(s.cache, capacity) && capacity > 0
    ensures var w, good := PutTried(s.table, s.cache, records, capacity, commits), PutBatched(s.table, s.cache, records, capacity);
      && (commits || !AllAcceptable(records) ==> w == good)
      && (!commits ==> w.table == s.table && WellFormed(w.cache, capacity) && Agrees(w.cache, s.cache))
      && (!commits && Coherent(s.table, s.cache) ==> Coherent(w.table, w.cache))
      && (!commits ==> (w.ok <==> AllAcceptable(records) && Fresh(s.cache, records) == []))
  {
    hide WellFormed, Find, CacheKey, Fresh, Screened, Rescreened, StoredAll, Upserts, Matched, Coherent;
    var first := Screened(s.cache, records);
    ScreenedFacts(s.cache, records, capacity);
    RescreenedFacts(first.cache, first.pending, capacity);
    FreshAgain(s.cache, first.cache, records);
    var second := Rescreened(first.cache, first.pending);
    AgreesTwice(second.cache, first.cache, s.cache);
    if Coherent(s.table, s.cache) {
      AgreesCoherent(s.table, s.cache, first.cache);
      AgreesCoherent(s.table, s.cache, second.cache);
    }
  }

  lemma AgreesTwice(a: Cached, b: Cached, c: Cached)
    requires Agrees(b, c)
    ensures Agrees(a, b) ==> Agrees(a, c)
  {
    hide Find;
  }

  lemma SoundStep(s: State, table: Table, call: Call, tenants: set<string>, capacity: nat)
    requires capacity > 0 && Sound(s, table, capacity) && Orderly(call, tenants)
    ensures Sound(After(s, call, capacity), PlainAfter(table, call), capacity)
  {
    hide WellFormed, Coherent, Undated, AllAcceptable, AllStorable, DistinctRecordKeys, GotBatch, PutTried, PutBatched;
    match call
    case Get(tenant, keys, snapshot, now, rows) =>
      GetBatchIsExact(s.table, s.cache, tenant, keys, snapshot, now, capacity, rows);
    case Put(records, commits) =>
      PutTriedIs(s, records, capacity, commits);
      PutBatchKeepsCoherence(s.table, s.cache, records, capacity);
      PutBatchEffect(s.table, s.cache, records, capacity);
      if commits && AllAcceptable(records) {
        PutBatchIsUpserts(s.table, s.cache, records, capacity);
        DistinctKeysAreFaithful(s.cache, records);
        UpsertsAlike(s.table, table, records);
      }
  }

  /** THE CACHE IS INVISIBLE. However calls are interleaved, from any table and an empty cache: every cached record
      equals its table row, the cache keeps its shape and capacity, and up to update times the table is what the same
      calls would have made of it with no cache at all. */
  lemma {:induction false} RunIsSound(table: Table, calls: seq<Call>, tenants: set<string>, capacity: nat)
    requires capacity > 0 && forall i :: 0 <= i < |calls| ==> Orderly(calls[i], tenants)
    ensures Sound(Run(table, calls, capacity), PlainRun(table, calls), capacity)
    decreases |calls|
  {
    if calls == [] {
      assert Coherent(table, []);
    } else {
      var n := |calls| - 1;
      RunIsSound(table, calls[..n], tenants, capacity);
      hide Sound, After, PlainAfter, Orderly;
      SoundStep(Run(table, calls[..n], capacity), PlainRun(table, calls[..n]), calls[n], tenants, capacity);
    }
  }

  // ---- the cache as a history of operations ----

  type CacheOp = Op<string, Record>

  /** The keys looked up for a read: the non-empty ones, once each. */
  function AskedOps(tenant: string, keys: seq<string>): seq<CacheOp> {
    if keys == [] then []
    else
      var n := |keys| - 1;
      AskedOps(tenant, keys[..n]) + if keys[n] == "" || keys[n] in keys[..n] then [] else [Look(CacheKey(tenant, keys[n]))]
  }

  /** The rows fetched for the keys the cache could not answer. */
  function FetchOps(table: Table, tenant: string, missing: seq<string>): seq<CacheOp> {
    if missing == [] then []
    else
      var n := |missing| - 1;
      FetchOps(table, tenant, missing[..n])
      + if (tenant, missing[n]) !in table then [] else [Write(CacheKey(tenant, missing[n]), RowOf(table, tenant, missing[n]))]
  }

  /** A batch is looked up record by record until the first one that is not acceptable. */
  ghost function ScreenOps(records: seq<Record>): seq<CacheOp> {
    if records == [] then []
    else
      var n := |records| - 1;
      ScreenOps(records[..n])
      + if AllAcceptable(records) then [Look(CacheKey(records[n].tenant, records[n].key))] else []
  }

  function LookOps(records: seq<Record>): seq<CacheOp> {
    if records == [] then []
    else
      var n := |records| - 1;
      LookOps(records[..n]) + [Look(CacheKey(records[n].tenant, records[n].key))]
  }

  function WriteOps(records: seq<Record>): seq<CacheOp> {
    if records == [] then []
    else
      var n := |records| - 1;
      WriteOps(records[..n]) + [Write(CacheKey(records[n].tenant, records[n].key), records[n])]
  }

  /** What one call does to the cache. */
  ghost function CallOps(s: State, call: Call): seq<CacheOp> {
    match call
    case Get(tenant, keys, snapshot, now, rows) =>
      var missing := LookedUp(s.cache, tenant, keys, snapshot, now).missing;
      AskedOps(tenant, keys) + FetchOps(s.table, tenant, if missing == [] then [] else rows)
    case Put(records, commits) =>
      var kept := if AllAcceptable(records) then Fresh(s.cache, records) else [];
      ScreenOps(records) + LookOps(kept) + if commits then WriteOps(kept) else []
  }

  ghost function History(table: Table, calls: seq<Call>, capacity: nat): seq<CacheOp> {
    if calls == [] then []
    else
      var n := |calls| - 1;
      History(table, calls[..n], capacity) + CallOps(Run(table, calls[..n], capacity), calls[n])
  }

  lemma {:induction false} AppliedInTurn(cache: Cached, ops: seq<CacheOp>, more: seq<CacheOp>, capacity: nat)
    ensures Applied(cache, ops + more, capacity) == Applied(Applied(cache, ops, capacity), more, capacity)
    decreases |more|
  {
    hide Touched, Stored;
    if more == [] {
      assert ops + more == ops;
    } else {
      var n := |more| - 1;
      AppliedInTurn(cache, ops, more[..n], capacity);
      assert (ops + more)[..|ops| + n] == ops + more[..n];
    }
  }

  lemma AppliedSingle(cache: Cached, op: CacheOp, capacity: nat)
    ensures Applied(cache, [op], capacity) == AppliedOne(cache, op, capacity)
  {
    hide AppliedOne;
    assert [op][..0] == [];
    assert Applied(cache, [op][..0], capacity) == cache;
  }

  lemma AppliedNone(cache: Cached, capacity: nat)
    ensures Applied(cache, [], capacity) == cache
  {
  }

  lemma {:induction false} AskedApplied(cache: Cached, tenant: string, keys: seq<string>, snapshot: Snapshot, now: Time,
                                        capacity: nat)
    ensures var l := LookedUp(cache, tenant, keys, snapshot, now);
      l.cache == Applied(cache, AskedOps(tenant, keys), capacity) && l.seen == Asked(keys)
    decreases |keys|
  {
    hide Touched, CacheKey, Applied, Find, ValidFor;
    if keys == [] {
      AppliedNone(cache, capacity);
    } else {
      var n := |keys| - 1;
      assert keys == keys[..n] + [keys[n]];
      AskedApplied(cache, tenant, keys[..n], snapshot, now, capacity);
      var look := Look(CacheKey(tenant, keys[n]));
      AppliedInTurn(cache, AskedOps(tenant, keys[..n]), [look], capacity);
      AppliedSingle(Applied(cache, AskedOps(tenant, keys[..n]), capacity), look, capacity);
      assert AskedOps(tenant, keys[..n]) + [] == AskedOps(tenant, keys[..n]);
    }
  }

  lemma {:induction false} FetchApplied(f: Fetch, table: Table, tenant: string, missing: seq<string>, snapshot: Snapshot,
                                        now: Time, capacity: nat)
    ensures Fetched(f, table, tenant, missing, snapshot, now, capacity).cache
         == Applied(f.cache, FetchOps(table, tenant, missing), capacity)
    decreases |missing|
  {
    hide Stored, CacheKey, Applied, ValidFor, Decode;
    if missing == [] {
      AppliedNone(f.cache, capacity);
    } else {
      var n := |missing| - 1;
      FetchApplied(f, table, tenant, missing[..n], snapshot, now, capacity);
      var earlier := FetchOps(table, tenant, missing[..n]);
      if (tenant, missing[n]) in table {
        var write := Write(CacheKey(tenant, missing[n]), RowOf(table, tenant, missing[n]));
        AppliedInTurn(f.cache, earlier, [write], capacity);
        AppliedSingle(Applied(f.cache, earlier, capacity), write, capacity);
      } else {
        assert earlier + [] == earlier;
      }
    }
  }

  lemma {:induction false} ScreenApplied(cache: Cached, records: seq<Record>, capacity: nat)
    ensures var s := Screened(cache, records);
      s.cache == Applied(cache, ScreenOps(records), capacity) && (s.ok <==> AllAcceptable(records))
    decreases |records|
  {
    hide Touched, CacheKey, Applied, Matched, Acceptable;
    if records == [] {
      AppliedNone(cache, capacity);
    } else {
      var n := |records| - 1;
      assert records == records[..n] + [records[n]];
      ScreenApplied(cache, records[..n], capacity);
      var earlier, look := ScreenOps(records[..n]), Look(CacheKey(records[n].tenant, records[n].key));
      AppliedInTurn(cache, earlier, [look], capacity);
      AppliedSingle(Applied(cache, earlier, capacity), look, capacity);
      assert earlier + [] == earlier;
    }
  }

  lemma {:induction false} RescreenApplied(cache: Cached, pending: seq<Record>, capacity: nat)
    ensures Rescreened(cache, pending).cache == Applied(cache, LookOps(pending), capacity)
    decreases |pending|
  {
    hide Touched, CacheKey, Applied, Matched;
    if pending == [] {
      AppliedNone(cache, capacity);
    } else {
      var n := |pending| - 1;
      RescreenApplied(cache, pending[..n], capacity);
      var look := Look(CacheKey(pending[n].tenant, pending[n].key));
      AppliedInTurn(cache, LookOps(pending[..n]), [look], capacity);
      AppliedSingle(Applied(cache, LookOps(pending[..n]), capacity), look, capacity);
    }
  }

  lemma {:induction false} WriteApplied(cache: Cached, records: seq<Record>, capacity: nat)
    ensures StoredAll(cache, records, capacity) == Applied(cache, WriteOps(records), capacity)
    decreases |records|
  {
    hide Stored, CacheKey, Applied;
    if records == [] {
      AppliedNone(cache, capacity);
    } else {
      var n := |records| - 1;
      WriteApplied(cache, records[..n], capacity);
      var write := Write(CacheKey(records[n].tenant, records[n].key), records[n]);
      AppliedInTurn(cache, WriteOps(records[..n]), [write], capacity);
      AppliedSingle(Applied(cache, WriteOps(records[..n]), capacity), write, capacity);
    }
  }

  lemma CallApplied(s: State, call: Call, capacity: nat)
    requires WellFormed(s.cache, capacity)
    ensures After(s, call, capacity).cache == Applied(s.cache, CallOps(s, call), capacity)
  {
    hide Applied, WellFormed, AskedOps, FetchOps, ScreenOps, LookOps, WriteOps, LookedUp, Fetched, Screened, Rescreened,
      StoredAll, Fresh, AllAcceptable, Upserts, Find;
    match call
    case Get(tenant, keys, snapshot, now, rows) =>
      var l := LookedUp(s.cache, tenant, keys, snapshot, now);
      var arrived := if l.missing == [] then [] else rows;
      AskedApplied(s.cache, tenant, keys, snapshot, now, capacity);
      FetchApplied(Fetch(l.found, l.cache), s.table, tenant, arrived, snapshot, now, capacity);
      AppliedInTurn(s.cache, AskedOps(tenant, keys), FetchOps(s.table, tenant, arrived), capacity);
    case Put(records, commits) =>
      var first := Screened(s.cache, records);
      ScreenApplied(s.cache, records, capacity);
      ScreenedFacts(s.cache, records, capacity);
      if first.ok {
        var kept := Fresh(s.cache, records);
        RescreenedFacts(first.cache, kept, capacity);
        FreshAgain(s.cache, first.cache, records);
        RescreenApplied(first.cache, kept, capacity);
        WriteApplied(Rescreened(first.cache, kept).cache, kept, capacity);
        AppliedInTurn(s.cache, ScreenOps(records), LookOps(kept), capacity);
        AppliedInTurn(s.cache, ScreenOps(records) + LookOps(kept), WriteOps(kept), capacity);
        assert ScreenOps(records) + LookOps(kept) + [] == ScreenOps(records) + LookOps(kept);
      } else {
        NoRecords();
        assert ScreenOps(records) + [] == ScreenOps(records);
      }
  }

  lemma NoRecords()
    ensures LookOps([]) == [] && WriteOps([]) == []
  {
  }

  /** The store's cache is always the least recently used one: whatever the calls, it holds exactly the cache keys used
      last, each with the record written last. */
  lemma {:induction false} RunHoldsLastUsed(table: Table, calls: seq<Call>, capacity: nat)
    requires capacity > 0
    ensures var ops, cache := History(table, calls, capacity), Run(table, calls, capacity).cache;
      && cache == Applied([], ops, capacity) && Answers(cache, ops, capacity)
      && HoldsRecent(cache, Uses(ops, capacity), capacity)
    decreases |calls|
  {
    hide Applied, After, CallOps, Answers, WellFormed, Keys, Recency, Prefix, Uses;
    if calls == [] {
      AppliedNone([], capacity);
    } else {
      var n := |calls| - 1;
      RunHoldsLastUsed(table, calls[..n], capacity);
      var s := Run(table, calls[..n], capacity);
      CallApplied(s, calls[n], capacity);
      AppliedInTurn([], History(table, calls[..n], capacity), CallOps(s, calls[n]), capacity);
    }
    Lru.RunHoldsRecent(History(table, calls, capacity), capacity);
  }

  ghost predicate Owned(table: Table, tenants: set<string>) { forall t, k :: (t, k) in table ==> t in tenants }

  lemma OwnedStep(s: State, call: Call, tenants: set<string>, capacity: nat)
    requires capacity > 0 && WellFormed(s.cache, capacity) && Owned(s.table, tenants) && Orderly(call, tenants)
    ensures Owned(After(s, call, capacity).table, tenants)
  {
    if call.Put? {
      PutTriedIs(s, call.records, capacity, call.commits);
      PutBatchEffect(s.table, s.cache, call.records, capacity);
      UpsertsAt(s.table, Fresh(s.cache, call.records));
      FreshMembers(s.cache, call.records);
      hide Fresh, LastOf, Upserts, PutTried, PutBatched, WellFormed, AllStorable, DistinctRecordKeys;
    }
  }

  lemma {:induction false} RunIsOwned(table: Table, calls: seq<Call>, tenants: set<string>, capacity: nat)
    requires capacity > 0 && Owned(table, tenants) && forall i :: 0 <= i < |calls| ==> Orderly(calls[i], tenants)
    ensures Owned(Run(table, calls, capacity).table, tenants)
    decreases |calls|
  {
    if calls != [] {
      var n := |calls| - 1;
      RunIsOwned(table, calls[..n], tenants, capacity);
      RunIsSound(table, calls[..n], tenants, capacity);
      hide After, Orderly, WellFormed;
      OwnedStep(Run(table, calls[..n], capacity), calls[n], tenants, capacity);
    }
  }

  /** Every read of such a run, by tenants whose names do not clash, returns exactly the valid rows of the table as it
      is then. */
  lemma ReadsSeeTheTable(table: Table, calls: seq<Call>, tenants: set<string>, capacity: nat, tenant: string,
                         keys: seq<string>, snapshot: Snapshot, now: Time, rows: seq<string>)
    requires capacity > 0 && forall i :: 0 <= i < |calls| ==> Orderly(calls[i], tenants)
    requires Delivers(rows, Run(table, calls, capacity), tenant, keys, snapshot, now)
    requires Owned(table, tenants) && tenant in tenants && forall s, t :: s in tenants && t in tenants ==> !Clash(s, t)
    ensures var s := Run(table, calls, capacity);
      GotBatch(s.table, s.cache, tenant, keys, snapshot, now, capacity, rows).found
        == Wanted(s.table, tenant, keys, snapshot, now)
  {
    RunIsSound(table, calls, tenants, capacity);
    RunIsOwned(table, calls, tenants, capacity);
    var s := Run(table, calls, capacity);
    NoClashNoMistake(s.table, s.cache, tenants, tenant, keys, snapshot, now);
    GetBatchIsExact(s.table, s.cache, tenant, keys, snapshot, now, capacity, rows);
    hide WellFormed, Coherent, Clash, Orderly, GotBatch, Wanted, Run, Unmistaken;
  }

  // ---- inputs that show each condition is needed ----

  /** Whatever calls these tenants make, every read returns exactly the valid rows. */
  ghost predicate ReadsAreExact(tenants: set<string>, capacity: nat) {
    forall table, calls, tenant, keys, snapshot, now |
      Owned(table, tenants) && tenant in tenants && forall i :: 0 <= i < |calls| ==> Orderly(calls[i], tenants) ::
      ReadIsExact(Run(table, calls, capacity), tenant, keys, snapshot, now, capacity)
  }

  /** In whatever order the rows arrive. */
  ghost predicate ReadIsExact(s: State, tenant: string, keys: seq<string>, snapshot: Snapshot, now: Time, capacity: nat) {
    forall rows | Delivers(rows, s, tenant, keys, snapshot, now) ::
      GotBatch(s.table, s.cache, tenant, keys, snapshot, now, capacity, rows).found == Wanted(s.table, tenant, keys, snapshot, now)
  }

  /** The tenants' reads are always exact if and only if no two of their names clash. */
  lemma ReadsAreExactIff(tenants: set<string>, capacity: nat)
    requires capacity > 0
    ensures ReadsAreExact(tenants, capacity) <==> forall s, t :: s in tenants && t in tenants ==> !Clash(s, t)
  {
    hide Owned, Orderly, Run, ReadIsExact, Clash;
    if forall s, t :: s in tenants && t in tenants ==> !Clash(s, t) {
      forall table, calls, tenant, keys, snapshot, now |
        Owned(table, tenants) && tenant in tenants && forall i :: 0 <= i < |calls| ==> Orderly(calls[i], tenants)
        ensures ReadIsExact(Run(table, calls, capacity), tenant, keys, snapshot, now, capacity)
      {
        ReadAlwaysExact(table, calls, tenants, capacity, tenant, keys, snapshot, now);
      }
    } else {
      var a, b :| a in tenants && b in tenants && Clash(a, b);
      ClashOrder(a, b);
      if a + "\0" <= b + "\0" { ClashMisleads(tenants, a, b, capacity); } else { ClashMisleads(tenants, b, a, capacity); }
    }
  }

  lemma ReadAlwaysExact(table: Table, calls: seq<Call>, tenants: set<string>, capacity: nat, tenant: string,
                        keys: seq<string>, snapshot: Snapshot, now: Time)
    requires capacity > 0 && forall i :: 0 <= i < |calls| ==> Orderly(calls[i], tenants)
    requires Owned(table, tenants) && tenant in tenants && forall s, t :: s in tenants && t in tenants ==> !Clash(s, t)
    ensures ReadIsExact(Run(table, calls, capacity), tenant, keys, snapshot, now, capacity)
  {
    hide Owned, Orderly, Run, Clash, GotBatch, Wanted, Delivers;
    forall rows | Delivers(rows, Run(table, calls, capacity), tenant, keys, snapshot, now)
      ensures var s := Run(table, calls, capacity);
        GotBatch(s.table, s.cache, tenant, keys, snapshot, now, capacity, rows).found
          == Wanted(s.table, tenant, keys, snapshot, now)
    {
      ReadsSeeTheTable(table, calls, tenants, capacity, tenant, keys, snapshot, now, rows);
    }
  }

  lemma ClashOrder(a: string, b: string)
    requires Clash(a, b)
    ensures a != b && (a + "\0" <= b + "\0" || b + "\0" <= a + "\0")
  {
  }

  const ANY_SNAPSHOT := Snapshot(1, 1, 1, 1, 1, 1)

  /** One write by the longer-named tenant is enough for the other to be answered with its record. */
  lemma ClashMisleads(tenants: set<string>, s: string, t: string, capacity: nat)
    requires capacity > 0 && s in tenants && t in tenants && s != t && s + "\0" <= t + "\0"
    ensures !ReadsAreExact(tenants, capacity)
  {
    var key := ClashingKey(s, t);
    ShorterName(s, t);
    var r := Record(t, "x", "e", 0.0, 1.0, ANY_SNAPSHOT, UNIX_EPOCH + 1, 0);
    var calls, table: Table := [Put([r], true)], map[];
    assert forall i :: 0 <= i < |calls| ==> Orderly(calls[i], tenants);
    hide Orderly, Run, Clash, ReadIsExact, Find, CacheKey, Acceptable, Storable;
    FirstWrite(table, r, capacity);
    var after := Run(table, calls, capacity);
    Mistaken(after, s, key, r, UNIX_EPOCH + 2, capacity);
    assert Owned(table, tenants);
  }

  lemma FirstWrite(table: Table, r: Record, capacity: nat)
    requires capacity > 0 && Acceptable(r) && Storable(r)
    ensures var after := Run(table, [Put([r], true)], capacity);
      && WellFormed(after.cache, capacity) && Coherent(after.table, after.cache)
      && Find(after.cache, CacheKey(r.tenant, r.key)) == Some(r)
  {
    FirstCall(table, Put([r], true), capacity);
    PutOne(table, [], r, capacity);
    assert Coherent(table, []);
    PutBatchKeepsCoherence(table, [], [r], capacity);
    hide PutBatched, Coherent, WellFormed, Find, CacheKey, Run;
  }

  /** A cached record that is usable answers for whoever's key it sits under. */
  lemma Mistaken(state: State, s: string, key: string, r: Record, now: Time, capacity: nat)
    requires capacity > 0 && WellFormed(state.cache, capacity) && Coherent(state.table, state.cache)
    requires key != "" && Find(state.cache, CacheKey(s, key)) == Some(r) && r.tenant != s && ValidFor(r, r.versions, now)
    ensures !ReadIsExact(state, s, [key], r.versions, now, capacity)
  {
    assert key in [key] && key in Asked([key]);
    hide GotBatch, Wanted, Coherent, WellFormed, Find, CacheKey, ValidFor, LookedUp;
    var rows := LookedUp(state.cache, s, [key], r.versions, now).missing;
    assert Delivers(rows, state, s, [key], r.versions, now);
    GetBatchIsExact(state.table, state.cache, s, [key], r.versions, now, capacity, rows);
  }

  lemma ShorterName(s: string, t: string)
    requires s != t && s + "\0" <= t + "\0"
    ensures |s| < |t|
  {
    assert |s + "\0"| <= |t + "\0"|;
    assert s == (s + "\0")[..|s|] == (t + "\0")[..|s|];
    assert t == (t + "\0")[..|t|];
  }

  lemma FirstCall(table: Table, call: Call, capacity: nat)
    ensures Run(table, [call], capacity) == After(State(table, []), call, capacity)
  {
    assert [call][..0] == [];
    assert Run(table, [call][..0], capacity) == State(table, []);
    hide After;
  }

  lemma OneEntry(table: Table, r: Record)
    requires Storable(r) && table == map[(r.tenant, r.key) := Encode(r)]
    ensures var cache := [Entry(CacheKey(r.tenant, r.key), r)];
      WellFormed(cache, 1) && Coherent(table, cache) && Find(cache, CacheKey(r.tenant, r.key)) == Some(r)
  {
    var cache := [Entry(CacheKey(r.tenant, r.key), r)];
    RoundTripsIffStorable(r);
    assert cache[1..] == [];
    assert forall k :: Find(cache[1..], k).None?;
  }

  /** A batch that first changes a key and then restores it leaves the change in the table. */
  lemma ChangeThenRestore(r: Record, changed: Record)
    requires Acceptable(r) && Storable(r) && Acceptable(changed) && Storable(changed)
    requires changed.tenant == r.tenant && changed.key == r.key && !MateriallyEqual(r, changed)
    ensures var table: Table := map[(r.tenant, r.key) := Encode(r)];
      var cache := [Entry(CacheKey(r.tenant, r.key), r)];
      Coherent(table, cache) && Undated(PutBatched(table, cache, [changed, r], 1).table) != Undated(table)
  {
    var table: Table := map[(r.tenant, r.key) := Encode(r)];
    var cache := [Entry(CacheKey(r.tenant, r.key), r)];
    OneEntry(table, r);
    PutBatchEffect(table, cache, [changed, r], 1);
    UndatedRows(r, changed);
    FreshPair(cache, changed, r);
    UpsertAt(table, [changed], r.tenant, r.key);
    UndatedEqual(Upserts(table, [changed]), table);
    assert Matched(cache, r) && !Matched(cache, changed);
    hide Find, CacheKey, Coherent, WellFormed, Fresh, Upserts, Encode, Undated, PutBatched;
    assert !Alike(At(Upserts(table, [changed]), r.tenant, r.key), At(table, r.tenant, r.key));
  }

  lemma FreshPair(cache: Cached, a: Record, b: Record)
    requires !Matched(cache, a) && Matched(cache, b)
    ensures Fresh(cache, [a, b]) == [a]
  {
    assert [a, b][..1] == [a];
    FreshOne(cache, a);
  }

  // ---- the store ----

  class SQLiteStore {
    var table: Table
    const cache: Cache<string, Record>

    ghost predicate Valid()
      reads this, cache, cache.order
    {
      cache.Valid() && this !in cache.Footprint()
    }

    /** Unset or non-positive sizes mean a hundred thousand entries. */
    constructor (table: Table, cacheEntries: int)
      ensures Valid() && fresh(cache) && this.table == table && cache.Entries() == []
      ensures cache.capacity == if cacheEntries <= 0 then 100_000 else cacheEntries
    {
      this.table := table;
      cache := new Cache<string, Record>(if cacheEntries <= 0 then 100_000 else cacheEntries);
    }

    /** `rows` are the keys of the rows the database answers with, in order, and `complete` whether it answered in full;
        where it did not, only the cache keeps what arrived. */
    method GetBatch(tenant: string, keys: seq<string>, snapshot: Snapshot, now: Time, rows: seq<string>, complete: bool)
      returns (answer: Option<map<string, Record>>)
      requires Valid()
      modifies cache.Footprint()
      ensures Valid() && table == old(table)
      ensures var g := GotBatch(table, old(cache.Entries()), tenant, keys, snapshot, now, cache.capacity, rows);
        && cache.Entries() == g.cache
        && (answer.Some? <==> complete || LookedUp(old(cache.Entries()), tenant, keys, snapshot, now).missing == [])
        && (answer.Some? ==> answer.value == g.found)
    {
      hide Find, Touched, Stored, ValidFor, CacheKey, Indexed;
      var result: map<string, Record> := map[];
      var missing, seen := [], {};
      ghost var start := cache.Entries();
      for i := 0 to |keys|
        invariant Valid() && table == old(table) && fresh(cache.Footprint() - old(cache.Footprint()))
        invariant Lookup(result, missing, seen, cache.Entries()) == LookedUp(start, tenant, keys[..i], snapshot, now)
      {
        assert keys[..i + 1][..i] == keys[..i];
        var key := keys[i];
        if key == "" || key in seen { continue; }
        seen := seen + {key};
        var hit := cache.Get(CacheKey(tenant, key));
        if hit.Some? && ValidFor(hit.value, snapshot, now) {
          result := result[key := hit.value];
          continue;
        }
        missing := missing + [key];
      }
      assert keys[..|keys|] == keys;
      if missing == [] { return Some(result); }
      ghost var answered := Fetch(result, cache.Entries());
      for i := 0 to |rows|
        invariant Valid() && table == old(table) && fresh(cache.Footprint() - old(cache.Footprint()))
        invariant Fetch(result, cache.Entries())
               == Fetched(answered, table, tenant, rows[..i], snapshot, now, cache.capacity)
      {
        assert rows[..i + 1][..i] == rows[..i];
        var key := rows[i];
        if (tenant, key) in table {
          var record := Decode(tenant, key, table[(tenant, key)]);
          cache.Put(CacheKey(tenant, key), record);
          if ValidFor(record, snapshot, now) { result := result[key := record]; }
        }
      }
      assert rows[..|rows|] == rows;
      answer := if complete then Some(result) else None;
    }

    /** One transaction of upserts. */
    method WriteRows(pending: seq<Record>)
      modifies this`table
      ensures table == Upserts(old(table), pending)
    {
      hide Encode;
      for i := 0 to |pending|
        invariant table == Upserts(old(table), pending[..i])
      {
        assert pending[..i + 1][..i] == pending[..i];
        table := table[(pending[i].tenant, pending[i].key) := Encode(pending[i])];
      }
      assert pending[..|pending|] == pending;
    }

    method CacheAll(pending: seq<Record>)
      requires Valid()
      modifies cache.Footprint()
      ensures Valid() && fresh(cache.Footprint() - old(cache.Footprint())) && table == old(table)
      ensures cache.Entries() == StoredAll(old(cache.Entries()), pending, cache.capacity)
    {
      hide Stored, CacheKey, Indexed;
      ghost var start := cache.Entries();
      for i := 0 to |pending|
        invariant Valid() && table == old(table) && fresh(cache.Footprint() - old(cache.Footprint()))
        invariant cache.Entries() == StoredAll(start, pending[..i], cache.capacity)
      {
        assert pending[..i + 1][..i] == pending[..i];
        cache.Put(CacheKey(pending[i].tenant, pending[i].key), pending[i]);
      }
      assert pending[..|pending|] == pending;
    }

    /** The rows, and only then the cache. */
    method Commit(pending: seq<Record>)
      requires Valid()
      modifies this`table, cache.Footprint()
      ensures Valid() && fresh(cache.Footprint() - old(cache.Footprint()))
      ensures table == Upserts(old(table), pending)
      ensures cache.Entries() == StoredAll(old(cache.Entries()), pending, cache.capacity)
    {
      hide Indexed;
      WriteRows(pending);
      CacheAll(pending);
    }

    /** Returns false, having written nothing, when a record is not acceptable or the transaction does not go through. */
    method PutBatch(records: seq<Record>, commits: bool) returns (ok: bool)
      requires Valid()
      modifies this`table, cache.Footprint()
      ensures Valid()
      ensures Written(ok, table, cache.Entries())
           == PutTried(old(table), old(cache.Entries()), records, cache.capacity, commits)
    {
      hide Find, Touched, Stored, Acceptable, CacheKey, Indexed, MateriallyEqual, Encode;
      ghost var start := cache.Entries();
      if records == [] { return true; }
      var pending: seq<Record> := [];
      for i := 0 to |records|
        invariant Valid() && table == old(table) && fresh(cache.Footprint() - old(cache.Footprint()))
        invariant Screen(true, pending, cache.Entries()) == Screened(start, records[..i])
      {
        assert records[..i + 1][..i] == records[..i];
        var record := records[i];
        if !Acceptable(record) {
          StaysRefused(start, records, i + 1);
          return false;
        }
        var hit := cache.Get(CacheKey(record.tenant, record.key));
        if hit.Some? && MateriallyEqual(hit.value, record) { continue; }
        pending := pending + [record];
      }
      assert records[..|records|] == records;
      ghost var screened := cache.Entries();
      if pending == [] { return true; }
      var ready: seq<Record> := [];
      for i := 0 to |pending|
        invariant Valid() && table == old(table) && fresh(cache.Footprint() - old(cache.Footprint()))
        invariant Screen(true, ready, cache.Entries()) == Rescreened(screened, pending[..i])
      {
        assert pending[..i + 1][..i] == pending[..i];
        var record := pending[i];
        var hit := cache.Get(CacheKey(record.tenant, record.key));
        if hit.Some? && MateriallyEqual(hit.value, record) { continue; }
        ready := ready + [record];
      }
      assert pending[..|pending|] == pending;
      if ready == [] { return true; }
      if !commits { return false; }
      Commit(ready);
      ok := true;
    }
  }

  lemma {:induction false} StaysRefused(cache: Cached, records: seq<Record>, n: nat)
    requires n <= |records| && !Screened(cache, records[..n]).ok
    ensures Screened(cache, records) == Screened(cache, records[..n])
    decreases |records| - n
  {
    if n == |records| {
      assert records[..n] == records;
    } else {
      assert records[..n + 1][..n] == records[..n];
      StaysRefused(cache, records, n + 1);
    }
  }
}

/** The least-recently-used cache in front of the rank-delta table (internal/rankdelta/store.go). */
module Lru {
  import opened Prelude

  datatype Entry<K, R> = Entry(key: K, record: R)

  // ---- the cache as a value: entries, most recently used first ----

  function Find<K(==), R>(es: seq<Entry<K, R>>, key: K): Option<R>
  {
    if es == [] then None else if es[0].key == key then Some(es[0].record) else Find(es[1..], key)
  }

  function Without<K(==), R>(es: seq<Entry<K, R>>, key: K): (r: seq<Entry<K, R>>)
    ensures |r| == |es| - (if Find(es, key).Some? then 1 else 0)
  {
    if es == [] then [] else if es[0].key == key then es[1..] else [es[0]] + Without(es[1..], key)
  }

  /** A hit moves the entry to the front. */
  function Touched<K(==), R>(es: seq<Entry<K, R>>, key: K): seq<Entry<K, R>>
  {
    if Find(es, key).Some? then [Entry(key, Find(es, key).value)] + Without(es, key) else es
  }

  /** Writing replaces in front, or adds in front and drops the back entry when there are too many. */
  function Stored<K(==), R>(es: seq<Entry<K, R>>, key: K, record: R, capacity: nat): seq<Entry<K, R>>
  {
    if Find(es, key).Some? then [Entry(key, record)] + Without(es, key)
    else
      var more := [Entry(key, record)] + es;
      if |more| > capacity then more[..|more| - 1] else more
  }

  function KeySet<K(==), R>(es: seq<Entry<K, R>>): set<K>
  {
    if es == [] then {} else {es[0].key} + KeySet(es[1..])
  }

  ghost predicate KeysOnce<K, R>(es: seq<Entry<K, R>>)
  {
    es == [] || (es[0].key !in KeySet(es[1..]) && KeysOnce(es[1..]))
  }

  ghost predicate WellFormed<K, R>(es: seq<Entry<K, R>>, capacity: nat) { KeysOnce(es) && |es| <= capacity }

  lemma {:induction false} FindKey<K, R>(es: seq<Entry<K, R>>, key: K)
    ensures Find(es, key).Some? <==> key in KeySet(es)
  {
    if es != [] { FindKey(es[1..], key); }
  }

  lemma {:induction false} WithoutFind<K, R>(es: seq<Entry<K, R>>, key: K)
    requires KeysOnce(es)
    ensures KeysOnce(Without(es, key)) && KeySet(Without(es, key)) == KeySet(es) - {key}
    ensures forall other :: Find(Without(es, key), other) == if other == key then None else Find(es, other)
  {
    if es != [] {
      WithoutFind(es[1..], key);
      FindKey(es[1..], key);
      var r := Without(es, key);
      if es[0].key != key { assert r[0] == es[0] && r[1..] == Without(es[1..], key); }
    }
  }

  lemma {:induction false} BackFind<K, R>(es: seq<Entry<K, R>>)
    requires KeysOnce(es) && es != []
    ensures var back := es[|es| - 1];
      && KeysOnce(es[..|es| - 1]) && KeySet(es[..|es| - 1]) == KeySet(es) - {back.key} && back.key in KeySet(es)
      && forall other :: Find(es[..|es| - 1], other) == if other == back.key then None else Find(es, other)
  {
    if |es| > 1 {
      var rest, r := es[1..], es[..|es| - 1];
      BackFind(rest);
      assert rest[|rest| - 1] == es[|es| - 1];
      assert r[0] == es[0] && r[1..] == rest[..|rest| - 1];
      forall other ensures Find(r, other) == if other == es[|es| - 1].key then None else Find(es, other) {
        assert Find(r, other) == if es[0].key == other then Some(es[0].record) else Find(r[1..], other);
        assert Find(es, other) == if es[0].key == other then Some(es[0].record) else Find(rest, other);
        assert es[0].key != es[|es| - 1].key;
        assert Find(r[1..], other) == if other == es[|es| - 1].key then None else Find(rest, other);
      }
    } else {
      assert es[1..] == [] && es[..|es| - 1] == [];
      assert forall other :: Find(es[1..], other) == Find(es[..|es| - 1], other) == None;
    }
  }

  /** A lookup never changes what any lookup returns. */
  lemma TouchedKeepsContents<K, R>(es: seq<Entry<K, R>>, key: K, capacity: nat)
    requires WellFormed(es, capacity)
    ensures WellFormed(Touched(es, key), capacity)
    ensures forall other :: Find(Touched(es, key), other) == Find(es, other)
  {
    WithoutFind(es, key);
    var r := Touched(es, key);
    if Find(es, key).Some? { assert r[1..] == Without(es, key); }
  }

  /** What a lookup finds after a write, said without the list operations. */
  function AfterStore<K(==), R>(es: seq<Entry<K, R>>, key: K, record: R, capacity: nat, other: K): Option<R> {
    if other == key then Some(record)
    else if Find(es, key).None? && |es| == capacity && es != [] && other == es[|es| - 1].key then None
    else Find(es, other)
  }

  /** A write makes its record current and keeps every other entry, except that a full cache given a new key loses its
      back entry, the least recently used one. */
  lemma StoredContents<K, R>(es: seq<Entry<K, R>>, key: K, record: R, capacity: nat)
    requires WellFormed(es, capacity) && capacity > 0
    ensures WellFormed(Stored(es, key, record, capacity), capacity)
    ensures forall other :: Find(Stored(es, key, record, capacity), other) == AfterStore(es, key, record, capacity, other)
  {
    FindKey(es, key);
    if Find(es, key).Some? {
      WithoutFind(es, key);
      assert Stored(es, key, record, capacity)[1..] == Without(es, key);
    } else {
      var more := [Entry(key, record)] + es;
      assert more[1..] == es;
      if |more| > capacity {
        var back := es[|es| - 1];
        assert more[|more| - 1] == back;
        BackFind(more);
        BackFind(es);
        forall other ensures Find(more[..|es|], other) == AfterStore(es, key, record, capacity, other) {
          assert Find(more, other) == if other == key then Some(record) else Find(es, other);
          assert back.key != key;
          assert Find(more[..|es|], other) == if other == back.key then None else Find(more, other);
        }
      }
    }
  }

  // ---- recency ----

  function Keys<K(==), R>(es: seq<Entry<K, R>>): (ks: seq<K>)
    ensures |ks| == |es| && forall i :: 0 <= i < |es| ==> ks[i] == es[i].key
  {
    seq(|es|, i requires 0 <= i < |es| => es[i].key)
  }

  function Dropped<K(==)>(ks: seq<K>, key: K): seq<K>
  {
    if ks == [] then [] else if ks[0] == key then Dropped(ks[1..], key) else [ks[0]] + Dropped(ks[1..], key)
  }

  /** The distinct keys of a history of uses, most recent first. */
  function Recency<K(==)>(uses: seq<K>): seq<K>
  {
    if uses == [] then []
    else [uses[|uses| - 1]] + Dropped(Recency(uses[..|uses| - 1]), uses[|uses| - 1])
  }

  function Prefix<K(==)>(ks: seq<K>, n: nat): seq<K> { if |ks| <= n then ks else ks[..n] }

  lemma {:induction false} DroppedAbsent<K>(ks: seq<K>, key: K)
    requires key !in ks
    ensures Dropped(ks, key) == ks
  {
    if ks != [] {
      assert ks == [ks[0]] + ks[1..];
      DroppedAbsent(ks[1..], key);
    }
  }

  /** Dropping a key that is not among the first `n` leaves the first `n` alone. */
  lemma {:induction false} DroppedBeyond<K>(ks: seq<K>, key: K, n: nat)
    requires key !in Prefix(ks, n)
    ensures Prefix(Dropped(ks, key), n) == Prefix(ks, n)
  {
    if ks != [] && n > 0 {
      assert Prefix(ks, n) == [ks[0]] + Prefix(ks[1..], n - 1);
      DroppedBeyond(ks[1..], key, n - 1);
      assert Prefix([ks[0]] + Dropped(ks[1..], key), n) == [ks[0]] + Prefix(Dropped(ks[1..], key), n - 1);
    }
  }

  lemma PrefixCons<K>(x: K, rest: seq<K>, n: nat)
    ensures Prefix([x] + rest, n + 1) == [x] + Prefix(rest, n)
  {
  }

  lemma DroppedCons<K>(x: K, rest: seq<K>, key: K)
    ensures Dropped([x] + rest, key) == if x == key then Dropped(rest, key) else [x] + Dropped(rest, key)
  {
    assert ([x] + rest)[1..] == rest;
  }

  /** Dropping a key that is among the first `n + 1`, once, leaves the other `n` of them. */
  lemma {:induction false} DroppedWithin<K>(ks: seq<K>, key: K, n: nat)
    requires Distinct(ks) && key in Prefix(ks, n + 1)
    ensures Prefix(Dropped(ks, key), n) == Dropped(Prefix(ks, n + 1), key)
    decreases n
  {
    hide *;
    PrefixNonEmpty(ks, n + 1, key);
    var x, rest := ks[0], ks[1..];
    assert ks == [x] + rest;
    DistinctTail(ks);
    PrefixCons(x, rest, n);
    DroppedCons(x, rest, key);
    DroppedCons(x, Prefix(rest, n), key);
    PrefixMembers(rest, n);
    if x == key {
      DroppedAbsent(rest, key);
      DroppedAbsent(Prefix(rest, n), key);
    } else {
      assert key in Prefix(rest, n);
      PrefixOfNone(rest);
      DroppedWithin(rest, key, n - 1);
      PrefixCons(x, Dropped(rest, key), n - 1);
    }
  }

  lemma PrefixNonEmpty<K>(ks: seq<K>, n: nat, key: K)
    requires key in Prefix(ks, n)
    ensures ks != []
  {
  }

  lemma PrefixOfNone<K>(ks: seq<K>)
    ensures Prefix(ks, 0) == []
  {
  }

  lemma DistinctTail<K>(ks: seq<K>)
    requires Distinct(ks) && ks != []
    ensures ks[0] !in ks[1..] && Distinct(ks[1..])
  {
  }

  lemma PrefixMembers<K>(ks: seq<K>, n: nat)
    ensures forall k :: k in Prefix(ks, n) ==> k in ks
  {
  }

  lemma {:induction false} DroppedMembers<K>(ks: seq<K>, key: K)
    requires Distinct(ks)
    ensures Distinct(Dropped(ks, key))
    ensures forall k :: k in Dropped(ks, key) <==> k in ks && k != key
  {
    if ks != [] {
      assert ks == [ks[0]] + ks[1..];
      DroppedMembers(ks[1..], key);
      if ks[0] != key {
        var rest := Dropped(ks[1..], key);
        forall j | 0 <= j < |rest| ensures rest[j] != ks[0] { assert rest[j] in rest; }
      }
    }
  }

  lemma {:induction false} RecencyDistinct<K>(uses: seq<K>)
    ensures Distinct(Recency(uses))
  {
    if uses != [] {
      var rest, last := Recency(uses[..|uses| - 1]), uses[|uses| - 1];
      RecencyDistinct(uses[..|uses| - 1]);
      DroppedMembers(rest, last);
      forall j | 0 <= j < |Dropped(rest, last)| ensures Dropped(rest, last)[j] != last {
        assert Dropped(rest, last)[j] in Dropped(rest, last);
      }
    }
  }

  /** One more use, seen through a window of the `n` most recent keys. */
  lemma RecencyNext<K>(uses: seq<K>, key: K, n: nat)
    requires n > 0
    ensures var window := Prefix(Recency(uses), n);
      Prefix(Recency(uses + [key]), n)
        == [key] + (if key in window then Dropped(window, key) else Prefix(window, n - 1))
  {
    var ks := Recency(uses);
    RecencyUnfolds(uses, key);
    RecencyDistinct(uses);
    PrefixShrinks(ks, n);
    hide Recency, Dropped, Prefix, Distinct;
    PrefixCons(key, Dropped(ks, key), n - 1);
    if key in Prefix(ks, n) {
      DroppedWithin(ks, key, n - 1);
    } else {
      DroppedBeyond(ks, key, n - 1);
    }
  }

  lemma RecencyUnfolds<K>(uses: seq<K>, key: K)
    ensures Recency(uses + [key]) == [key] + Dropped(Recency(uses), key)
  {
    assert (uses + [key])[..|uses|] == uses;
  }

  lemma PrefixShrinks<K>(ks: seq<K>, n: nat)
    requires n > 0
    ensures Prefix(Prefix(ks, n), n - 1) == Prefix(ks, n - 1)
    ensures forall k :: k in Prefix(ks, n - 1) ==> k in Prefix(ks, n)
  {
    var shorter, longer := Prefix(ks, n - 1), Prefix(ks, n);
    forall k | k in shorter ensures k in longer {
      var i :| 0 <= i < |shorter| && shorter[i] == k;
      assert longer[i] == k;
    }
  }

  lemma {:induction false} KeysWithout<K, R>(es: seq<Entry<K, R>>, key: K)
    requires KeysOnce(es)
    ensures Keys(Without(es, key)) == Dropped(Keys(es), key)
    ensures key in Keys(es) <==> Find(es, key).Some?
  {
    var ks := Keys(es);
    if es != [] {
      KeysWithout(es[1..], key);
      FindKey(es[1..], key);
      assert ks == [es[0].key] + Keys(es[1..]);
      if es[0].key == key {
        DroppedAbsent(ks[1..], key);
      } else {
        assert Keys([es[0]] + Without(es[1..], key)) == [es[0].key] + Keys(Without(es[1..], key));
      }
    }
  }

  /** What the cache holds is exactly the most recently used distinct keys of the history. */
  ghost predicate HoldsRecent<K, R>(es: seq<Entry<K, R>>, uses: seq<K>, capacity: nat)
  {
    WellFormed(es, capacity) && Keys(es) == Prefix(Recency(uses), capacity)
  }

  /** LEAST RECENTLY USED. A hit or a write is one more use, and after it the cache again holds exactly the most
      recently used keys; so eviction only ever takes the key unused for longest. A miss uses nothing. */
  lemma RecencyStep<K, R>(es: seq<Entry<K, R>>, uses: seq<K>, key: K, record: R, capacity: nat)
    requires HoldsRecent(es, uses, capacity) && capacity > 0
    ensures HoldsRecent(Stored(es, key, record, capacity), uses + [key], capacity)
    ensures Find(es, key).Some? ==> HoldsRecent(Touched(es, key), uses + [key], capacity)
    ensures Find(es, key).None? ==> Touched(es, key) == es
  {
    RecencyNext(uses, key, capacity);
    StoredContents(es, key, record, capacity);
    TouchedKeepsContents(es, key, capacity);
    KeysWithout(es, key);
    KeysStored(es, key, record, capacity);
    hide *;
  }

  lemma KeysStored<K, R>(es: seq<Entry<K, R>>, key: K, record: R, capacity: nat)
    requires |es| <= capacity && capacity > 0
    ensures Find(es, key).Some? ==> Keys(Stored(es, key, record, capacity)) == [key] + Keys(Without(es, key))
    ensures Find(es, key).Some? ==> Keys(Touched(es, key)) == [key] + Keys(Without(es, key))
    ensures Find(es, key).None? ==> Keys(Stored(es, key, record, capacity)) == [key] + Prefix(Keys(es), capacity - 1)
  {
    hide Find, Without, Keys;
    KeysCons(Entry(key, record), Without(es, key));
    KeysCons(Entry(key, record), es);
    if Find(es, key).Some? {
      KeysCons(Entry(key, Find(es, key).value), Without(es, key));
    } else {
      var more := [Entry(key, record)] + es;
      if |more| > capacity { KeysFront(more); }
      assert Keys(Stored(es, key, record, capacity)) == Prefix([key] + Keys(es), capacity);
      PrefixCons(key, Keys(es), capacity - 1);
    }
  }

  lemma KeysCons<K, R>(e: Entry<K, R>, rest: seq<Entry<K, R>>)
    ensures Keys([e] + rest) == [e.key] + Keys(rest)
  {
    hide Keys;
    var ks := Keys([e] + rest);
    forall i | 0 < i < |ks| ensures ks[i] == Keys(rest)[i - 1] { assert ([e] + rest)[i] == rest[i - 1]; }
  }

  lemma KeysFront<K, R>(es: seq<Entry<K, R>>)
    requires es != []
    ensures Keys(es[..|es| - 1]) == Keys(es)[..|es| - 1]
  {
    hide Keys;
  }

  /** One operation on a cache. */
  datatype Op<K, R> = Look(key: K) | Write(key: K, record: R)

  function AppliedOne<K(==), R>(es: seq<Entry<K, R>>, op: Op<K, R>, capacity: nat): seq<Entry<K, R>> {
    match op
    case Look(key) => Touched(es, key)
    case Write(key, record) => Stored(es, key, record, capacity)
  }

  function Applied<K(==), R>(es: seq<Entry<K, R>>, ops: seq<Op<K, R>>, capacity: nat): seq<Entry<K, R>> {
    if ops == [] then es else AppliedOne(Applied(es, ops[..|ops| - 1], capacity), ops[|ops| - 1], capacity)
  }

  /** The uses among the operations, told from the operations alone: every write, and every look for one of the
      `capacity` keys used last. */
  function Uses<K(==), R>(ops: seq<Op<K, R>>, capacity: nat): seq<K> {
    if ops == [] then []
    else
      var earlier, op := Uses(ops[..|ops| - 1], capacity), ops[|ops| - 1];
      if op.Look? && op.key !in Prefix(Recency(earlier), capacity) then earlier else earlier + [op.key]
  }

  function LastWritten<K(==), R>(ops: seq<Op<K, R>>, key: K): Option<R> {
    if ops == [] then None
    else if ops[|ops| - 1].Write? && ops[|ops| - 1].key == key then Some(ops[|ops| - 1].record)
    else LastWritten(ops[..|ops| - 1], key)
  }

  /** What a cache must answer: the record written last, for the `capacity` keys used last and no other. */
  function Expected<K(==), R>(ops: seq<Op<K, R>>, capacity: nat, key: K): Option<R> {
    if key in Prefix(Recency(Uses(ops, capacity)), capacity) then LastWritten(ops, key) else None
  }

  ghost predicate Answers<K(!new), R>(es: seq<Entry<K, R>>, ops: seq<Op<K, R>>, capacity: nat) {
    forall key :: Find(es, key) == Expected(ops, capacity, key)
  }

  /** ALWAYS LEAST RECENTLY USED. After any sequence of operations on an empty cache it holds exactly the keys used last,
      each with the record written last. */
  lemma {:induction false} RunHoldsRecent<K(!new), R>(ops: seq<Op<K, R>>, capacity: nat)
    requires capacity > 0
    ensures HoldsRecent(Applied([], ops, capacity), Uses(ops, capacity), capacity)
    ensures Answers(Applied([], ops, capacity), ops, capacity)
    decreases |ops|
  {
    hide *;
    if ops == [] {
      NoOperations<K, R>(ops, capacity);
    } else {
      var n := |ops| - 1;
      RunHoldsRecent(ops[..n], capacity);
      OneOperation(ops, capacity);
    }
  }

  lemma NoOperations<K(!new), R>(ops: seq<Op<K, R>>, capacity: nat)
    requires ops == []
    ensures HoldsRecent(Applied([], ops, capacity), Uses(ops, capacity), capacity)
    ensures Answers(Applied([], ops, capacity), ops, capacity)
  {
  }

  lemma OneOperation<K(!new), R>(ops: seq<Op<K, R>>, capacity: nat)
    requires capacity > 0 && ops != []
    requires HoldsRecent(Applied([], ops[..|ops| - 1], capacity), Uses(ops[..|ops| - 1], capacity), capacity)
    requires Answers(Applied([], ops[..|ops| - 1], capacity), ops[..|ops| - 1], capacity)
    ensures HoldsRecent(Applied([], ops, capacity), Uses(ops, capacity), capacity)
    ensures Answers(Applied([], ops, capacity), ops, capacity)
  {
    hide Find, Touched, Stored, Recency, Prefix, KeysOnce, Without;
    var init, op, key := ops[..|ops| - 1], ops[|ops| - 1], ops[|ops| - 1].key;
    var es, earlier := Applied([], init, capacity), Uses(init, capacity);
    var after := Applied([], ops, capacity);
    HeldIffFound(es, earlier, capacity, key);
    match op {
      case Look(_) =>
        if Find(es, key).Some? { RecencyStep(es, earlier, key, Find(es, key).value, capacity); }
        else { MissChangesNothing(es, key); }
        TouchedKeepsContents(es, key, capacity);
      case Write(_, record) =>
        RecencyStep(es, earlier, key, record, capacity);
        StoredContents(es, key, record, capacity);
    }
    forall k ensures Find(after, k) == Expected(ops, capacity, k) {
      HeldIffFound(es, earlier, capacity, k);
      HeldIffFound(after, Uses(ops, capacity), capacity, k);
    }
  }

  lemma MissChangesNothing<K, R>(es: seq<Entry<K, R>>, key: K)
    requires Find(es, key).None?
    ensures Touched(es, key) == es
  {
  }

  lemma HeldIffFound<K, R>(es: seq<Entry<K, R>>, uses: seq<K>, capacity: nat, key: K)
    requires HoldsRecent(es, uses, capacity)
    ensures key in Prefix(Recency(uses), capacity) <==> Find(es, key).Some?
  {
    KeysWithout(es, key);
  }

  // ---- the object ----

  class Element<K, R> {
    var key: K
    var record: R

    constructor (key: K, record: R)
      ensures this.key == key && this.record == record
    {
      this.key, this.record := key, record;
    }
  }

  ghost function EntriesOf<K, R>(order: seq<Element<K, R>>): (es: seq<Entry<K, R>>)
    reads order
    ensures |es| == |order|
    ensures forall i :: 0 <= i < |es| ==> es[i] == Entry(order[i].key, order[i].record)
  {
    if order == [] then [] else [Entry(order[0].key, order[0].record)] + EntriesOf(order[1..])
  }

  /** The list is duplicate-free and the index map points at exactly its elements, under their own keys. */
  ghost predicate Indexed<K, R>(order: seq<Element<K, R>>, items: map<K, Element<K, R>>)
    reads order`key
  {
    && Distinct(order)
    && (forall e :: e in order ==> e.key in items && items[e.key] == e)
    && (forall k :: k in items ==> items[k] in order && items[k].key == k)
  }

  ghost predicate DistinctKeys<K, R>(order: seq<Element<K, R>>)
    reads order`key
  {
    forall i, j :: 0 <= i < j < |order| ==> order[i].key != order[j].key
  }

  function ToFront<T>(xs: seq<T>, i: nat): seq<T>
    requires i < |xs|
  {
    [xs[i]] + (xs[..i] + xs[i + 1..])
  }

  lemma ToFrontMembers<T>(xs: seq<T>, i: nat)
    requires i < |xs| && Distinct(xs)
    ensures Distinct(ToFront(xs, i)) && |ToFront(xs, i)| == |xs|
    ensures forall x :: x in ToFront(xs, i) <==> x in xs
  {
    assert forall x :: x in xs ==> x == xs[i] || x in xs[..i] || x in xs[i + 1..];
  }

  lemma IndexedKeys<K, R>(order: seq<Element<K, R>>, items: map<K, Element<K, R>>)
    requires Indexed(order, items)
    ensures DistinctKeys(order)
  {
    forall i, j | 0 <= i < j < |order| ensures order[i].key != order[j].key {
      assert items[order[i].key] == order[i] && items[order[j].key] == order[j];
    }
  }

  lemma IndexedToFront<K, R>(order: seq<Element<K, R>>, items: map<K, Element<K, R>>, i: nat)
    requires i < |order| && Indexed(order, items)
    ensures Indexed(ToFront(order, i), items) && |ToFront(order, i)| == |order|
    ensures forall e :: e in ToFront(order, i) <==> e in order
  {
    ToFrontMembers(order, i);
    hide Distinct, ToFront;
  }

  lemma IndexedAt<K, R>(order: seq<Element<K, R>>, items: map<K, Element<K, R>>, key: K)
    requires Indexed(order, items) && key in items
    ensures items[key] in order && items[key].key == key
  {
  }

  lemma IndexedPushed<K, R>(order: seq<Element<K, R>>, items: map<K, Element<K, R>>, e: Element<K, R>)
    requires Indexed(order, items) && e.key !in items
    ensures Indexed([e] + order, items[e.key := e])
  {
    assert e !in order;
    var more := [e] + order;
    forall i, j | 0 <= i < j < |more| ensures more[i] != more[j] { assert more[j] == order[j - 1]; }
  }

  lemma IndexedPopped<K, R>(order: seq<Element<K, R>>, items: map<K, Element<K, R>>)
    requires Indexed(order, items) && order != []
    ensures Indexed(order[..|order| - 1], items - {order[|order| - 1].key})
    ensures forall e :: e in order[..|order| - 1] ==> e in order
  {
    var last, fewer := order[|order| - 1], order[..|order| - 1];
    assert order == fewer + [last];
    forall e | e in fewer ensures e.key != last.key {
      var i :| 0 <= i < |fewer| && fewer[i] == e;
      assert order[i] == e;
    }
  }

  /** The index map answers lookups in the list. */
  lemma IndexAgrees<K, R>(order: seq<Element<K, R>>, items: map<K, Element<K, R>>, key: K)
    requires Indexed(order, items)
    ensures KeysOnce(EntriesOf(order))
    ensures Find(EntriesOf(order), key) == if key in items then Some(items[key].record) else None
  {
    var es := EntriesOf(order);
    IndexedKeys(order, items);
    DistinctEntries(es);
    FindKey(es, key);
    KeySetIndex(es, key);
    if key in items {
      var i :| 0 <= i < |order| && order[i] == items[key];
      FindIndex(es, i);
    } else {
      forall i | 0 <= i < |order| ensures order[i].key != key { assert order[i] in order; }
    }
  }

  lemma EntriesToFront<K, R>(order: seq<Element<K, R>>, i: nat)
    requires i < |order| && DistinctKeys(order)
    ensures var es := EntriesOf(order);
      EntriesOf(ToFront(order, i)) == [es[i]] + Without(es, es[i].key) == Touched(es, es[i].key)
  {
    var es, front := EntriesOf(order), EntriesOf(ToFront(order, i));
    FindIndex(es, i);
    FrontEntries(order, i);
  }

  lemma FrontEntries<K, R>(order: seq<Element<K, R>>, i: nat)
    requires i < |order|
    ensures EntriesOf(ToFront(order, i)) == ToFront(EntriesOf(order), i)
  {
    hide EntriesOf, ToFront;
    var es := EntriesOf(order);
    ToFrontLength(order, i);
    ToFrontLength(es, i);
    var front, there := EntriesOf(ToFront(order, i)), ToFront(es, i);
    forall k | 0 <= k < |order| ensures front[k] == there[k] {
      ToFrontAt(order, i, k);
      ToFrontAt(es, i, k);
    }
  }

  lemma ToFrontLength<T>(xs: seq<T>, i: nat)
    requires i < |xs|
    ensures |ToFront(xs, i)| == |xs|
  {
  }

  lemma ToFrontAt<T>(xs: seq<T>, i: nat, k: nat)
    requires i < |xs| && k < |xs|
    ensures |ToFront(xs, i)| == |xs|
    ensures ToFront(xs, i)[k] == if k == 0 then xs[i] else if k <= i then xs[k - 1] else xs[k]
  {
  }

  lemma {:induction false} KeySetIndex<K, R>(es: seq<Entry<K, R>>, key: K)
    ensures key in KeySet(es) <==> exists i :: 0 <= i < |es| && es[i].key == key
  {
    if es != [] {
      KeySetIndex(es[1..], key);
      assert forall i :: 0 < i < |es| ==> es[i] == es[1..][i - 1];
    }
  }

  lemma {:induction false} DistinctEntries<K, R>(es: seq<Entry<K, R>>)
    requires forall i, j :: 0 <= i < j < |es| ==> es[i].key != es[j].key
    ensures KeysOnce(es)
  {
    if es != [] {
      DistinctEntries(es[1..]);
      KeySetIndex(es[1..], es[0].key);
    }
  }

  lemma {:induction false} FindIndex<K, R>(es: seq<Entry<K, R>>, i: nat)
    requires i < |es| && forall j :: 0 <= j < i ==> es[j].key != es[i].key
    ensures Find(es, es[i].key) == Some(es[i].record)
    ensures Without(es, es[i].key) == es[..i] + es[i + 1..]
  {
    if i > 0 {
      var rest := es[1..];
      assert rest[i - 1] == es[i];
      assert forall j :: 0 <= j < i - 1 ==> rest[j] == es[j + 1];
      FindIndex(rest, i - 1);
      assert es[..i] + es[i + 1..] == [es[0]] + (rest[..i - 1] + rest[i..]);
    } else {
      assert es[..i] + es[i + 1..] == es[1..];
    }
  }

  /** Overwriting one element's record changes no other entry. */
  lemma SameWithout<K, R>(was: seq<Entry<K, R>>, es: seq<Entry<K, R>>, i: nat)
    requires i < |was| == |es| && was[i].key == es[i].key
    requires forall j :: 0 <= j < |es| && j != i ==> was[j] == es[j] && es[j].key != es[i].key
    ensures Without(was, es[i].key) == Without(es, es[i].key)
  {
    FindIndex(was, i);
    FindIndex(es, i);
    hide *;
    assert was[..i] == es[..i] && was[i + 1..] == es[i + 1..];
  }

  class Cache<K(==), R> {
    const capacity: nat
    var items: map<K, Element<K, R>>
    /** The list, front first. */
    var order: seq<Element<K, R>>

    ghost function Footprint(): set<object>
      reads this
    {
      {this as object} + (set e: object | e in order)
    }

    ghost predicate Valid()
      reads this, order
    {
      capacity > 0 && |order| <= capacity && Indexed(order, items)
    }

    ghost function Entries(): (es: seq<Entry<K, R>>)
      reads this, order
    {
      EntriesOf(order)
    }

    constructor (capacity: nat)
      requires capacity > 0
      ensures Valid() && this.capacity == capacity && Entries() == [] && Footprint() == {this}
    {
      this.capacity, items, order := capacity, map[], [];
    }

    /** Where an element sits in the list. */
    method Position(e: Element<K, R>) returns (i: nat)
      requires e in order
      ensures i < |order| && order[i] == e
    {
      i := 0;
      while order[i] != e
        invariant i < |order| && e !in order[..i]
        decreases |order| - i
      {
        assert order[..i + 1] == order[..i] + [order[i]];
        i := i + 1;
        if i == |order| { assert order[..i] == order; }
      }
    }

    method MoveToFront(e: Element<K, R>)
      requires Indexed(order, items) && e in order
      modifies this`order
      ensures Indexed(order, items) && |order| == |old(order)|
      ensures forall d :: d in order <==> d in old(order)
      ensures Entries() == Touched(old(Entries()), e.key) == [Entry(e.key, e.record)] + Without(old(Entries()), e.key)
    {
      hide Indexed, EntriesOf, ToFront, Touched, Without, DistinctKeys;
      var i := Position(e);
      IndexedKeys(order, items);
      EntriesToFront(order, i);
      IndexedToFront(order, items, i);
      order := ToFront(order, i);
    }

    method Get(key: K) returns (hit: Option<R>)
      requires Valid()
      modifies this
      ensures Valid() && Footprint() == old(Footprint())
      ensures hit == Find(old(Entries()), key)
      ensures Entries() == Touched(old(Entries()), key)
    {
      hide Indexed, EntriesOf, Find, Without, DistinctKeys;
      IndexAgrees(order, items, key);
      if key !in items { return None; }
      var e := items[key];
      IndexedAt(order, items, key);
      MoveToFront(e);
      hit := Some(e.record);
    }

    method PushFront(key: K, record: R)
      requires Indexed(order, items) && key !in items
      modifies this
      ensures Indexed(order, items) && |order| == |old(order)| + 1 && fresh(order[0]) && order[1..] == old(order)
      ensures Entries() == [Entry(key, record)] + old(Entries())
    {
      var e := new Element(key, record);
      hide Indexed;
      IndexedPushed(order, items, e);
      order := [e] + order;
      items := items[key := e];
      assert order[1..] == old(order);
    }

    method RemoveBack()
      requires Indexed(order, items) && order != []
      modifies this
      ensures Indexed(order, items) && order == old(order)[..|old(order)| - 1]
      ensures Entries() == old(Entries())[..|old(order)| - 1]
    {
      hide Indexed, EntriesOf;
      IndexedPopped(order, items);
      var oldest := order[|order| - 1];
      items := items - {oldest.key};
      order := order[..|order| - 1];
    }

    /** Replaces the record in place; no other entry changes. */
    method Rewrite(key: K, record: R)
      requires Indexed(order, items) && key in items && items[key] in order && items[key].key == key
      modifies items[key]
      ensures Indexed(order, items) && items[key].key == key && items[key].record == record
      ensures Without(Entries(), key) == Without(old(Entries()), key)
    {
      hide EntriesOf, Without, Indexed;
      var e := items[key];
      ghost var was := Entries();
      ghost var i :| 0 <= i < |order| && order[i] == e;
      IndexedKeys(order, items);
      e.record := record;
      forall j | 0 <= j < |order| && j != i ensures was[j] == Entries()[j] && was[j].key != key {
        assert order[j].key != order[i].key;
      }
      SameWithout(was, Entries(), i);
    }

    method Overwrite(key: K, record: R)
      requires Indexed(order, items) && key in items && items[key] in order && items[key].key == key
      modifies this`order, items[key]
      ensures Indexed(order, items) && |order| == |old(order)|
      ensures forall d :: d in order <==> d in old(order)
      ensures Entries() == [Entry(key, record)] + Without(old(Entries()), key)
    {
      hide Indexed, EntriesOf, Without, Touched;
      Rewrite(key, record);
      MoveToFront(items[key]);
    }

    method Put(key: K, record: R)
      requires Valid()
      modifies Footprint()
      ensures Valid() && fresh(Footprint() - old(Footprint()))
      ensures Entries() == Stored(old(Entries()), key, record, capacity)
    {
      hide Indexed, EntriesOf, Without, Find;
      IndexAgrees(order, items, key);
      if key in items {
        IndexedAt(order, items, key);
        Overwrite(key, record);
      } else {
        PushFront(key, record);
        if |order| > capacity { RemoveBack(); }
      }
    }
  }
}

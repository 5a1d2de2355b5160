/** What several modules share and no part of the repository owns. */
module Prelude {

  datatype Option<T> = None | Some(value: T)

  /** No element twice. */
  ghost predicate Distinct<T>(xs: seq<T>) { forall i, j :: 0 <= i < j < |xs| ==> xs[i] != xs[j] }

  function MinInt(a: int, b: int): int { if a < b then a else b }

  function MaxInt(a: int, b: int): int { if a < b then b else a }

  /** Nanoseconds in a millisecond. */
  const MS: int := 1_000_000

  /** A subset is no larger, and as large only when it is the whole. */
  lemma {:induction false} SubsetSize<T>(small: set<T>, large: set<T>)
    requires small <= large
    ensures |small| <= |large| && (|small| == |large| ==> small == large)
    decreases |small|
  {
    if small != {} {
      var x :| x in small;
      SubsetSize(small - {x}, large - {x});
      assert small == (small - {x}) + {x} && large == (large - {x}) + {x};
    }
  }

  // ---- strings in order ----

  predicate Less(a: string, b: string) {
    b != "" && (a == "" || a[0] < b[0] || (a[0] == b[0] && Less(a[1..], b[1..])))
  }

  predicate Ascending(xs: seq<string>) { forall i, j :: 0 <= i < j < |xs| ==> Less(xs[i], xs[j]) }

  /** Alike up to a place where the one ends or has the smaller character. */
  ghost predicate FirstDifferenceAt(a: string, b: string, k: nat) {
    k <= |a| && k < |b| && a[..k] == b[..k] && (k == |a| || a[k] < b[k])
  }

  lemma {:induction false} LessIsByFirstDifference(a: string, b: string)
    ensures Less(a, b) <==> exists k: nat :: FirstDifferenceAt(a, b, k)
    decreases |a|
  {
    if a != "" && b != "" {
      LessIsByFirstDifference(a[1..], b[1..]);
      if a[0] == b[0] && Less(a[1..], b[1..]) {
        var k: nat :| FirstDifferenceAt(a[1..], b[1..], k);
        assert a[..k + 1] == [a[0]] + a[1..][..k] && b[..k + 1] == [b[0]] + b[1..][..k];
        assert FirstDifferenceAt(a, b, k + 1);
      }
      if k: nat :| FirstDifferenceAt(a, b, k) && k > 0 {
        assert a[0] == a[..k][0] == b[..k][0] == b[0];
        assert a[1..][..k - 1] == a[..k][1..] && b[1..][..k - 1] == b[..k][1..];
        assert FirstDifferenceAt(a[1..], b[1..], k - 1);
      }
    }
    if b != "" && (a == "" || a[0] < b[0]) { assert FirstDifferenceAt(a, b, 0); }
  }

  lemma {:induction false} LessIsTotal(a: string, b: string)
    ensures a == b || Less(a, b) || Less(b, a)
    ensures !(Less(a, b) && Less(b, a)) && !Less(a, a)
    decreases |a|
  {
    if a != "" && b != "" {
      LessIsTotal(a[1..], b[1..]);
      assert a == [a[0]] + a[1..] && b == [b[0]] + b[1..];
    }
    if a != "" { LessIsTotal(a[1..], a[1..]); }
  }

  lemma {:induction false} LessIsTransitive(a: string, b: string, c: string)
    requires Less(a, b) && Less(b, c)
    ensures Less(a, c)
    decreases |a|
  {
    if a != "" && a[0] == b[0] && b[0] == c[0] { LessIsTransitive(a[1..], b[1..], c[1..]); }
  }

  method Least(s: set<string>) returns (least: string)
    requires s != {}
    ensures least in s && forall x :: x in s ==> x == least || Less(least, x)
  {
    hide Less;
    var start :| start in s;
    least := start;
    var todo := s - {least};
    while todo != {}
      invariant todo <= s && least in s && forall x :: x in s && x !in todo ==> x == least || Less(least, x)
      decreases todo
    {
      var x :| x in todo;
      ghost var was := least;
      LessIsTotal(x, least);
      if Less(x, least) { least := x; }
      forall y | y in s && y !in todo && was != y && least != was ensures Less(least, y) {
        LessIsTransitive(least, was, y);
      }
      todo := todo - {x};
    }
  }

  /** The members of a set, once each and in order. */
  method SortedList(s: set<string>) returns (xs: seq<string>)
    ensures Ascending(xs) && forall x :: x in xs <==> x in s
  {
    xs := [];
    var todo := s;
    while todo != {}
      invariant todo <= s && Ascending(xs) && forall x :: x in xs <==> x in s && x !in todo
      invariant forall x, y :: x in xs && y in todo ==> Less(x, y)
      decreases todo
    {
      hide Less;
      var least := Least(todo);
      xs := xs + [least];
      todo := todo - {least};
    }
  }
}

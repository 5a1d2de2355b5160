/** Reconciling uncertain executions (internal/store/tau.go): which handles may still be running, and when an
    acknowledgment covers them all. */
module TauHandles {
  import opened Prelude

  const BOUND := 32

  datatype Status = Pending | Claimed | Approved | Rejected | Expired | Uncertain

  /** Times are nanoseconds since the zero time, so 0 is unset. */
  datatype Record = Record(
    status: Status, reason: string, executionRef: string, resolvedAt: int, claimedBy: string, leaseUntil: int,
    handles: seq<string>)

  /** What is reported, and when. */
  datatype Report = Report(reason: string, executionRef: string, now: int)

  datatype Outcome = Accepted(record: Record) | BoundReached(record: Record)

  /** The invariant of a record's handle list. */
  ghost predicate Sound(handles: seq<string>) { Distinct(handles) && |handles| <= BOUND }

  // ---- one report ----

  /** Keeping one handle; nothing when the list is full. */
  function Kept(handles: seq<string>, h: string): Option<seq<string>> {
    if h == "" || h in handles then Some(handles)
    else if |handles| >= BOUND then None
    else Some(handles + [h])
  }

  function BothKept(handles: seq<string>, first: string, second: string): Option<seq<string>> {
    match Kept(handles, first)
    case None => None
    case Some(more) => Kept(more, second)
  }

  /** A report keeps the handle the record still names and its own, or is refused without effect. */
  function Reported(record: Record, report: Report): Outcome {
    match BothKept(record.handles, record.executionRef, report.executionRef)
    case None => BoundReached(record)
    case Some(handles) => Accepted(Record(Uncertain, report.reason, report.executionRef, report.now, "", 0, handles))
  }

  method Holds(refs: seq<string>, h: string) returns (found: bool)
    ensures found <==> h in refs
  {
    found := false;
    for i := 0 to |refs|
      invariant h !in refs[..i]
    {
      assert refs[..i + 1] == refs[..i] + [refs[i]];
      if refs[i] == h { return true; }
    }
    assert refs[..|refs|] == refs;
  }

  method AgencyUncertainRecord(record: Record, report: Report) returns (o: Outcome)
    ensures o == Reported(record, report)
  {
    var refs := record.handles;
    var named := [record.executionRef, report.executionRef];
    for i := 0 to 2
      invariant Some(refs) == (if i == 0 then Some(record.handles)
                               else if i == 1 then Kept(record.handles, record.executionRef)
                               else BothKept(record.handles, record.executionRef, report.executionRef))
    {
      if named[i] == "" { continue; }
      var found := Holds(refs, named[i]);
      if !found {
        if |refs| >= BOUND { return BoundReached(record); }
        refs := refs + [named[i]];
      }
    }
    o := Accepted(Record(Uncertain, report.reason, report.executionRef, report.now, "", 0, refs));
  }

  function SetOf(xs: seq<string>): set<string> { set x | x in xs }

  function WithName(names: set<string>, h: string): set<string> { names + ({h} - {""}) }

  lemma TwoNames(names: set<string>, first: string, second: string)
    ensures names + ({first, second} - {""}) == WithName(WithName(names, first), second)
    ensures WithName(names, first) <= WithName(WithName(names, first), second)
    ensures first != "" ==> names + {first} == WithName(names, first)
    ensures second != "" ==> WithName(names, first) + {second} == WithName(WithName(names, first), second)
  {
  }

  lemma KeptFacts(handles: seq<string>, h: string)
    ensures var k := Kept(handles, h);
      && (k.None? <==> |handles| >= BOUND && h != "" && h !in handles)
      && (k.Some? ==> handles <= k.value && SetOf(k.value) == WithName(SetOf(handles), h))
      && (k.Some? && Sound(handles) ==> Sound(k.value))
  {
    var k := Kept(handles, h);
    if k.Some? && k.value != handles { assert k.value == handles + [h]; }
  }

  lemma {:induction false} DistinctSize(xs: seq<string>)
    requires Distinct(xs)
    ensures |SetOf(xs)| == |xs|
    decreases |xs|
  {
    if xs == [] {
      assert SetOf(xs) == {};
    } else {
      var n := |xs| - 1;
      DistinctSize(xs[..n]);
      assert xs == xs[..n] + [xs[n]];
      assert SetOf(xs) == SetOf(xs[..n]) + {xs[n]};
    }
  }

  ghost function Named(record: Record, report: Report): set<string> {
    {record.executionRef, report.executionRef} - {""}
  }

  /** A report is refused exactly when the handles it would leave are more than the bound; otherwise every old handle
      stays, in place, and exactly those named are added. */
  lemma ReportFacts(record: Record, report: Report)
    requires Sound(record.handles)
    ensures var o := Reported(record, report);
      && Sound(o.record.handles) && record.handles <= o.record.handles
      && (o.BoundReached? <==> |SetOf(record.handles) + Named(record, report)| > BOUND)
      && (o.Accepted? ==> SetOf(o.record.handles) == SetOf(record.handles) + Named(record, report))
      && (o.BoundReached? ==> o.record == record)
  {
    hide Kept, SetOf, Sound;
    BothKeptFacts(record.handles, record.executionRef, report.executionRef);
  }

  lemma BothKeptFacts(handles: seq<string>, first: string, second: string)
    requires Sound(handles)
    ensures var both, all := BothKept(handles, first, second), SetOf(handles) + ({first, second} - {""});
      && (both.None? <==> |all| > BOUND)
      && (both.Some? ==> Sound(both.value) && handles <= both.value && SetOf(both.value) == all)
  {
    hide Kept, SetOf, Distinct, WithName;
    var all := SetOf(handles) + ({first, second} - {""});
    TwoNames(SetOf(handles), first, second);
    KeptFacts(handles, first);
    var one := Kept(handles, first);
    if one.None? {
      Overfull(handles, first, all);
    } else {
      KeptFacts(one.value, second);
      var two := Kept(one.value, second);
      if two.None? { Overfull(one.value, second, all); } else { DistinctSize(two.value); }
    }
  }

  lemma Overfull(handles: seq<string>, h: string, all: set<string>)
    requires Distinct(handles) && |handles| >= BOUND && h !in handles && SetOf(handles) + {h} <= all
    ensures |all| > BOUND
  {
    DistinctSize(handles);
    var more := SetOf(handles) + {h};
    assert h !in SetOf(handles);
    assert |more| == |handles| + 1;
    SubsetSize(more, all);
  }

  // ---- runs of reports ----

  function RecordAfter(record: Record, reports: seq<Report>): Record {
    if reports == [] then record
    else Reported(RecordAfter(record, reports[..|reports| - 1]), reports[|reports| - 1]).record
  }

  /** Whether the last of these reports was accepted. */
  predicate LastAccepted(record: Record, reports: seq<Report>)
    requires reports != []
  {
    Reported(RecordAfter(record, reports[..|reports| - 1]), reports[|reports| - 1]).Accepted?
  }

  /** NO HANDLE IS LOST. After any run of reports the list is duplicate-free and within the bound, still begins with
      every list there ever was, and holds the handle of every report that was accepted. */
  lemma {:induction false} HandlesAreKept(record: Record, reports: seq<Report>, n: nat)
    requires Sound(record.handles) && n <= |reports|
    ensures var early, late := RecordAfter(record, reports[..n]), RecordAfter(record, reports);
      && Sound(late.handles) && early.handles <= late.handles
      && (n > 0 && LastAccepted(record, reports[..n]) && reports[n - 1].executionRef != "" ==>
            reports[n - 1].executionRef in late.handles)
    decreases |reports|
  {
    hide Sound, Reported;
    if n == |reports| {
      assert reports[..n] == reports;
      if n > 0 {
        HandlesAreKept(record, reports[..n - 1], n - 1);
        LastReport(record, reports);
      }
    } else {
      var m := |reports| - 1;
      assert reports[..m][..n] == reports[..n];
      HandlesAreKept(record, reports[..m], n);
      ReportFacts(RecordAfter(record, reports[..m]), reports[m]);
    }
  }

  lemma LastReport(record: Record, reports: seq<Report>)
    requires reports != [] && Sound(RecordAfter(record, reports[..|reports| - 1]).handles)
    ensures var r := RecordAfter(record, reports);
      && Sound(r.handles)
      && (LastAccepted(record, reports) && reports[|reports| - 1].executionRef != "" ==>
            reports[|reports| - 1].executionRef in r.handles)
  {
    var m := |reports| - 1;
    var before := RecordAfter(record, reports[..m]);
    ReportFacts(before, reports[m]);
    hide Sound, RecordAfter, Reported;
    if LastAccepted(record, reports) && reports[m].executionRef != "" {
      assert reports[m].executionRef in SetOf(Reported(before, reports[m]).record.handles);
    }
  }

  // ---- acknowledging cancellation ----

  ghost predicate Covers(handles: seq<string>, cancelled: seq<string>) {
    && handles != [] && |cancelled| == |handles| && |cancelled| <= BOUND
    && Distinct(cancelled) && SetOf(handles) <= SetOf(cancelled)
  }

  method TauCancellationMatches(handles: seq<string>, cancelled: seq<string>) returns (ok: bool)
    ensures ok <==> Covers(handles, cancelled)
  {
    if |handles| == 0 || |cancelled| != |handles| || |cancelled| > BOUND { return false; }
    var seen: set<string> := {};
    for i := 0 to |cancelled|
      invariant seen == SetOf(cancelled[..i]) && Distinct(cancelled[..i])
    {
      assert cancelled[..i + 1] == cancelled[..i] + [cancelled[i]];
      if cancelled[i] in seen {
        var j :| 0 <= j < i && cancelled[..i][j] == cancelled[i];
        assert cancelled[j] == cancelled[i];
        return false;
      }
      seen := seen + {cancelled[i]};
    }
    assert cancelled[..|cancelled|] == cancelled;
    for i := 0 to |handles|
      invariant forall k :: 0 <= k < i ==> handles[k] in seen
    {
      if handles[i] !in seen {
        assert handles[i] in SetOf(handles);
        return false;
      }
    }
    ok := true;
  }

  lemma {:induction false} DistinctCounts(xs: seq<string>)
    ensures Distinct(xs) <==> forall x :: multiset(xs)[x] <= 1
    decreases |xs|
  {
    if xs != [] {
      var n := |xs| - 1;
      DistinctCounts(xs[..n]);
      assert xs == xs[..n] + [xs[n]];
      if Distinct(xs) {
        assert xs[n] !in xs[..n];
      } else if Distinct(xs[..n]) {
        assert xs[n] in xs[..n];
        assert multiset(xs)[xs[n]] >= 2;
      } else {
        var x :| multiset(xs[..n])[x] > 1;
        assert multiset(xs)[x] > 1;
      }
    }
  }

  /** An acknowledgment is accepted exactly when it lists the current handles, all of them, each once, in any order. */
  lemma CoversIffPermutation(handles: seq<string>, cancelled: seq<string>)
    requires Sound(handles)
    ensures Covers(handles, cancelled) <==> handles != [] && multiset(cancelled) == multiset(handles)
  {
    DistinctCounts(handles);
    DistinctCounts(cancelled);
    if Covers(handles, cancelled) {
      DistinctSize(handles);
      DistinctSize(cancelled);
      SubsetSize(SetOf(handles), SetOf(cancelled));
      forall x ensures multiset(cancelled)[x] == multiset(handles)[x] {
        assert x in cancelled <==> x in SetOf(cancelled) <==> x in SetOf(handles) <==> x in handles;
        assert x in cancelled <==> multiset(cancelled)[x] > 0;
        assert x in handles <==> multiset(handles)[x] > 0;
      }
      assert multiset(cancelled) == multiset(handles);
    } else if multiset(cancelled) == multiset(handles) {
      assert |cancelled| == |multiset(cancelled)| == |handles|;
      forall x | x in SetOf(handles) ensures x in SetOf(cancelled) {
        assert x in multiset(handles);
      }
    }
  }

  /** FENCED. An acknowledgment computed before a new handle was reported is never accepted again. */
  lemma StaleAcknowledgmentRefused(record: Record, reports: seq<Report>, n: nat, cancelled: seq<string>)
    requires Sound(record.handles) && n <= |reports|
    requires Covers(RecordAfter(record, reports[..n]).handles, cancelled)
    requires RecordAfter(record, reports[..n]).handles != RecordAfter(record, reports).handles
    ensures !Covers(RecordAfter(record, reports).handles, cancelled)
  {
    HandlesAreKept(record, reports, n);
    hide Sound, RecordAfter, Distinct, SetOf;
  }
}

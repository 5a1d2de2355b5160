/** When a captured snapshot still stands for the current one (internal/store/tau.go, internal/store/store.go), over
    runs of the store (internal/store/memorystore/store.go). */
module Snapshots {
  import opened Prelude

  const TOP: nat := 0xFFFF_FFFF_FFFF_FFFF

  type uint64 = v: nat | v <= TOP

  type Time = int

  datatype Snapshot = Snapshot(
    runtime: nat, policy: nat, contract: nat, graph: nat, posterior: nat, residual: nat, abstraction: nat,
    agency: nat, epoch: nat)

  type Motion = map<nat, Time>

  // ---- the two tests ----

  /** `None` is a proposal without a forecast, which nothing can make stale. */
  predicate TauSnapshotCompatible(base: Option<Snapshot>, current: Snapshot) {
    base.None? ||
    var b := base.value;
    && current.runtime >= b.runtime && current.agency >= b.agency
    && current.runtime - b.runtime == current.agency - b.agency
    && b.policy == current.policy && b.contract == current.contract && b.graph == current.graph
    && b.posterior == current.posterior && b.residual == current.residual && b.abstraction == current.abstraction
    && b.epoch == current.epoch
  }

  predicate SameSemantics(a: Snapshot, b: Snapshot) {
    && a.policy == b.policy && a.contract == b.contract && a.graph == b.graph && a.posterior == b.posterior
    && a.residual == b.residual && a.abstraction == b.abstraction && a.agency == b.agency
  }

  /** Version `v` is an ingestion that became available only after `asOf`. */
  predicate Future(motion: Motion, v: nat, asOf: Time) { v in motion && motion[v] > asOf }

  /** What the walk over versions decides: every version after the captured one is a future ingestion, and the current
      version is not the last a 64-bit counter can hold. */
  ghost predicate JournalCompatible(captured: Snapshot, current: Snapshot, asOf: Time, motion: Motion) {
    && SameSemantics(captured, current) && captured.runtime <= current.runtime < TOP
    && forall v :: captured.runtime < v <= current.runtime ==> Future(motion, v, asOf)
  }

  /** A frozen forecast stands when nothing but the runtime and agency counters has moved, and those two as far as each other. */
  lemma TauCompatibleIs(base: Snapshot, current: Snapshot)
    ensures TauSnapshotCompatible(Some(base), current)
       <==> && base.runtime <= current.runtime
            && current == base.(runtime := current.runtime, agency := base.agency + (current.runtime - base.runtime))
  {
  }

  /** A captured snapshot stands when nothing but the runtime counter and the evidence epoch has moved, and every version
      since is on record as evidence not available by then. */
  lemma JournalCompatibleIs(captured: Snapshot, current: Snapshot, asOf: Time, motion: Motion)
    ensures JournalCompatible(captured, current, asOf, motion)
       <==> && current == captured.(runtime := current.runtime, epoch := current.epoch)
            && captured.runtime <= current.runtime && current.runtime < 18_446_744_073_709_551_615
            && forall v :: captured.runtime < v <= current.runtime ==> v in motion && asOf < motion[v]
  {
    if JournalCompatible(captured, current, asOf, motion) {
      forall v | captured.runtime < v <= current.runtime ensures v in motion && asOf < motion[v] {
        assert Future(motion, v, asOf);
      }
    }
  }

  function Increment(v: uint64): uint64 { if v == TOP then 0 else v + 1 }

  /** The `n`-th version the walk visits after `start`, wrapping as the counter does. */
  function Visited(start: uint64, n: nat): uint64 { (start + 1 + n) % (TOP + 1) }

  /** A map of ingestions cannot hold every 64-bit version. */
  method JournalSnapshotCompatible(captured: Snapshot, current: Snapshot, asOf: Time, motion: Motion)
    returns (ok: bool)
    requires captured.runtime <= TOP && current.runtime <= TOP && |motion| <= TOP
    ensures ok <==> JournalCompatible(captured, current, asOf, motion)
  {
    if !SameSemantics(captured, current) || current.runtime < captured.runtime { return false; }
    var version: uint64 := Increment(captured.runtime);
    ghost var steps: nat := 0;
    while version <= current.runtime
      invariant version == Visited(captured.runtime, steps)
      invariant forall k :: 0 <= k < steps ==> Future(motion, Visited(captured.runtime, k), asOf)
      invariant steps <= |motion|
      invariant current.runtime < TOP ==> version == captured.runtime + 1 + steps <= current.runtime + 1
      invariant current.runtime < TOP ==>
        forall v :: captured.runtime < v < version ==> Future(motion, v, asOf)
      decreases |motion| - steps
    {
      if !Future(motion, version, asOf) { return false; }
      WalkIsShort(captured.runtime, steps + 1, asOf, motion);
      NextVisited(captured.runtime, steps);
      version := Increment(version);
      steps := steps + 1;
    }
    ok := true;
  }

  lemma NextVisited(start: uint64, n: nat)
    requires n <= TOP
    ensures Visited(start, n + 1) == Increment(Visited(start, n))
  {
  }

  /** The walk never visits a version twice before it has visited all, so it is no longer than the map is large. */
  lemma WalkIsShort(start: uint64, n: nat, asOf: Time, motion: Motion)
    requires n <= TOP + 1 && forall k :: 0 <= k < n ==> Future(motion, Visited(start, k), asOf)
    ensures n <= |motion|
  {
    var versions := VisitedSet(start, n);
    SubsetSize(versions, motion.Keys);
  }

  ghost function VisitedSet(start: uint64, n: nat): (s: set<nat>)
    requires n <= TOP + 1
    ensures |s| == n && forall v :: v in s ==> exists k :: 0 <= k < n && v == Visited(start, k)
  {
    if n == 0 then {}
    else
      var rest := VisitedSet(start, n - 1);
      assert Visited(start, n - 1) !in rest by {
        if Visited(start, n - 1) in rest {
          var k :| 0 <= k < n - 1 && Visited(start, n - 1) == Visited(start, k);
          VisitedApart(start, k, n - 1);
        }
      }
      rest + {Visited(start, n - 1)}
  }

  lemma VisitedApart(start: uint64, j: nat, k: nat)
    requires j < k <= TOP
    ensures Visited(start, j) != Visited(start, k)
  {
  }

  /** At the last version a 64-bit counter can hold, not even the unchanged snapshot is compatible with itself. */
  lemma CompatibleWithItselfIff(s: Snapshot, asOf: Time, motion: Motion)
    ensures JournalCompatible(s, s, asOf, motion) <==> s.runtime < TOP
  {
  }

  /** Compatibility composes, and a compatible span is compatible piece by piece and for any earlier instant. */
  lemma JournalSplits(a: Snapshot, b: Snapshot, c: Snapshot, asOf: Time, earlier: Time, motion: Motion)
    requires a.runtime <= b.runtime <= c.runtime && SameSemantics(a, b) && earlier <= asOf
    ensures JournalCompatible(a, c, asOf, motion)
       <==> JournalCompatible(a, b, asOf, motion) && JournalCompatible(b, c, asOf, motion)
    ensures JournalCompatible(a, c, asOf, motion) ==> JournalCompatible(a, c, earlier, motion)
  {
    forall v | Future(motion, v, asOf) ensures Future(motion, v, earlier) {}
  }

  // ---- runs of the store ----

  const RETAINED := 4096

  /** One mutation: agency bookkeeping, an ingested event, a composed event, a deletion (which may also cancel agency
      proposals), or anything else, by how much it advances each version. */
  datatype Step =
    | Agency
    | Ingest(availableAt: Time)
    | Compose(availableAt: Time)
    | Delete(cancelled: bool)
    | Other(policy: nat, graph: nat, posterior: nat, residual: nat, abstraction: nat, epoch: nat)

  datatype State = State(snapshot: Snapshot, motion: Motion)

  function RecordIngestMotion(motion: Motion, version: nat, availableAt: Time): Motion {
    var recorded := motion[version := availableAt];
    if version > RETAINED then recorded - {version - RETAINED} else recorded
  }

  function After(s: State, step: Step): State {
    var v := s.snapshot.(runtime := s.snapshot.runtime + 1);
    match step
    case Agency => s.(snapshot := v.(agency := v.agency + 1))
    case Ingest(at) => State(v.(epoch := v.epoch + 1), RecordIngestMotion(s.motion, v.runtime, at))
    case Compose(at) => State(v.(abstraction := v.abstraction + 1), RecordIngestMotion(s.motion, v.runtime, at))
    case Delete(cancelled) =>
      s.(snapshot := v.(epoch := v.epoch + 1, graph := v.graph + 1, posterior := v.posterior + 1,
                        residual := v.residual + 1, abstraction := v.abstraction + 1,
                        agency := v.agency + if cancelled then 1 else 0))
    case Other(p, g, post, r, a, e) =>
      s.(snapshot := v.(policy := v.policy + p, graph := v.graph + g, posterior := v.posterior + post,
                        residual := v.residual + r, abstraction := v.abstraction + a, epoch := v.epoch + e))
  }

  /** WHICH COUNTERS MOVE, by how much, and that no other does. */
  lemma StepAdvances(s: State, step: Step)
    ensures var v, t := s.snapshot, After(s, step).snapshot;
      && (step.Agency? ==> t == v.(runtime := v.runtime + 1, agency := v.agency + 1))
      && (step.Ingest? ==> t == v.(runtime := v.runtime + 1, epoch := v.epoch + 1))
      && (step.Compose? ==> t == v.(runtime := v.runtime + 1, abstraction := v.abstraction + 1))
      && (step.Delete? ==>
            t == Snapshot(v.runtime + 1, v.policy, v.contract, v.graph + 1, v.posterior + 1, v.residual + 1, v.abstraction + 1,
                          if step.cancelled then v.agency + 1 else v.agency, v.epoch + 1))
    ensures step.Ingest? || step.Compose? ==>
      var motion := After(s, step).motion;
      s.snapshot.runtime + 1 in motion && motion[s.snapshot.runtime + 1] == step.availableAt
    ensures !step.Ingest? && !step.Compose? ==> After(s, step).motion == s.motion
  {
  }

  function Run(s: State, steps: seq<Step>): State {
    if steps == [] then s else After(Run(s, steps[..|steps| - 1]), steps[|steps| - 1])
  }

  predicate Behind(a: Snapshot, b: Snapshot) {
    && a.policy <= b.policy && a.contract == b.contract && a.graph <= b.graph && a.posterior <= b.posterior
    && a.residual <= b.residual && a.abstraction <= b.abstraction && a.agency <= b.agency && a.epoch <= b.epoch
  }

  lemma {:induction false} RunAdvances(s: State, steps: seq<Step>)
    ensures var t := Run(s, steps).snapshot;
      && Behind(s.snapshot, t) && t.runtime == s.snapshot.runtime + |steps|
      && t.agency <= s.snapshot.agency + |steps|
    decreases |steps|
  {
    if steps != [] { RunAdvances(s, steps[..|steps| - 1]); }
  }

  /** FROZEN FORECAST. A forecast's snapshot is still compatible exactly when every step since was agency bookkeeping:
      a deletion that also advances the agency version does not slip through. */
  lemma {:induction false} TauCompatibleIffOnlyAgency(s: State, steps: seq<Step>)
    ensures TauSnapshotCompatible(Some(s.snapshot), Run(s, steps).snapshot)
       <==> forall i :: 0 <= i < |steps| ==> steps[i].Agency?
    decreases |steps|
  {
    if steps != [] {
      var n := |steps| - 1;
      TauCompatibleIffOnlyAgency(s, steps[..n]);
      RunAdvances(s, steps[..n]);
      assert forall i :: 0 <= i < n ==> steps[..n][i] == steps[i];
      hide Run;
      TauStep(s.snapshot, Run(s, steps[..n]), n, steps[n]);
      assert Run(s, steps) == After(Run(s, steps[..n]), steps[n]) by { RunUnfolds(s, steps); }
    }
  }

  lemma RunUnfolds(s: State, steps: seq<Step>)
    requires steps != []
    ensures Run(s, steps) == After(Run(s, steps[..|steps| - 1]), steps[|steps| - 1])
  {
  }

  lemma TauStep(base: Snapshot, t: State, n: nat, step: Step)
    requires Behind(base, t.snapshot) && t.snapshot.runtime == base.runtime + n && t.snapshot.agency <= base.agency + n
    ensures TauSnapshotCompatible(Some(base), After(t, step).snapshot)
       <==> TauSnapshotCompatible(Some(base), t.snapshot) && step.Agency?
  {
  }

  /** Once stale, always stale. */
  lemma TauIncompatibilityIsPermanent(s: State, steps: seq<Step>, more: seq<Step>)
    requires !TauSnapshotCompatible(Some(s.snapshot), Run(s, steps).snapshot)
    ensures !TauSnapshotCompatible(Some(s.snapshot), Run(s, steps + more).snapshot)
  {
    TauCompatibleIffOnlyAgency(s, steps);
    TauCompatibleIffOnlyAgency(s, steps + more);
    var i :| 0 <= i < |steps| && !steps[i].Agency?;
    assert (steps + more)[i] == steps[i];
  }

  // ---- which ingestions are still accounted for ----

  predicate Records(step: Step) { step.Ingest? || step.Compose? }

  /** The step that made version `v` recorded an event's availability. */
  predicate WroteAt(base: nat, steps: seq<Step>, v: nat) {
    base < v <= base + |steps| && Records(steps[v - base - 1])
  }

  /** RETENTION. An ingestion is forgotten exactly when the step 4096 versions later is also one. */
  lemma {:induction false} RetainedExactly(s: State, steps: seq<Step>)
    requires s.motion == map[]
    ensures Retains(s.snapshot.runtime, Run(s, steps).motion, steps)
    decreases |steps|
  {
    hide *;
    var base := s.snapshot.runtime;
    if steps == [] {
      NothingRetained(s, steps);
    } else {
      var n := |steps| - 1;
      RetainedExactly(s, steps[..n]);
      RuntimeAfter(s, steps[..n]);
      RunUnfolds(s, steps);
      MotionAfter(Run(s, steps[..n]), steps[n]);
      RetainedStep(base, Run(s, steps[..n]).motion, steps);
    }
  }

  lemma NothingRetained(s: State, steps: seq<Step>)
    requires steps == [] && s.motion == map[]
    ensures Retains(s.snapshot.runtime, Run(s, steps).motion, steps)
  {
  }

  lemma RuntimeAfter(s: State, steps: seq<Step>)
    ensures Run(s, steps).snapshot.runtime == s.snapshot.runtime + |steps|
  {
    RunAdvances(s, steps);
    hide Run, Behind;
  }

  lemma MotionAfter(s: State, step: Step)
    ensures After(s, step).motion
         == if Records(step) then RecordIngestMotion(s.motion, s.snapshot.runtime + 1, step.availableAt) else s.motion
  {
  }

  ghost predicate Retains(base: nat, motion: Motion, steps: seq<Step>) {
    && (forall v: nat :: v in motion <==> WroteAt(base, steps, v) && !WroteAt(base, steps, v + RETAINED))
    && (forall v: nat :: v in motion ==> WroteAt(base, steps, v) && motion[v] == steps[v - base - 1].availableAt)
  }

  lemma RetainedStep(base: nat, motion: Motion, steps: seq<Step>)
    requires steps != [] && Retains(base, motion, steps[..|steps| - 1])
    ensures var last, v := steps[|steps| - 1], base + |steps|;
      Retains(base, if Records(last) then RecordIngestMotion(motion, v, last.availableAt) else motion, steps)
  {
    var n := |steps| - 1;
    forall v: nat
      ensures WroteAt(base, steps, v) <==> WroteAt(base, steps[..n], v) || (v == base + n + 1 && Records(steps[n]))
    {
    }
  }

  // ---- how large the map of ingestions grows ----

  /** The versions `start`, `start + gap`, `start + 2 * gap`, ..., `n` of them. */
  ghost function Spaced(start: nat, gap: nat, n: nat): (vs: set<nat>)
    requires gap > 0
    ensures |vs| == n
    ensures forall v :: v in vs ==> v < start + gap * n
  {
    if n == 0 then {}
    else
      assert gap * (n - 1) + gap == gap * n;
      Spaced(start, gap, n - 1) + {start + gap * (n - 1)}
  }

  lemma {:induction false} SpacedIs(start: nat, gap: nat, n: nat)
    requires gap > 0
    ensures forall v :: v in Spaced(start, gap, n) <==> exists j: nat :: j < n && v == start + gap * j
  {
    if n > 0 { SpacedIs(start, gap, n - 1); }
  }

  /** The map holds the last `RETAINED` versions, or all there are, each with what its step recorded. */
  ghost predicate HoldsLast(base: nat, motion: Motion, steps: seq<Step>) {
    && |motion| == MinInt(|steps|, RETAINED)
    && (forall v: nat :: v in motion <==> base < v <= base + |steps| < v + RETAINED)
    && (forall v: nat :: v in motion ==>
          base < v <= base + |steps| && Records(steps[v - base - 1]) && motion[v] == steps[v - base - 1].availableAt)
  }

  /** BOUNDED by ingestions alone: a run of nothing else keeps exactly the last 4096. */
  lemma SteadyIngestionIsBounded(s: State, steps: seq<Step>)
    requires s.motion == map[] && forall i :: 0 <= i < |steps| ==> Records(steps[i])
    ensures HoldsLast(s.snapshot.runtime, Run(s, steps).motion, steps)
  {
    hide Run, Retains, HoldsLast;
    RetainedExactly(s, steps);
    LastKept(s.snapshot.runtime, Run(s, steps).motion, steps);
  }

  lemma LastKept(base: nat, motion: Motion, steps: seq<Step>)
    requires Retains(base, motion, steps) && forall i :: 0 <= i < |steps| ==> Records(steps[i])
    ensures HoldsLast(base, motion, steps)
  {
    hide Spaced;
    var kept: nat := if |steps| < RETAINED then |steps| else RETAINED;
    var start := base + |steps| - kept + 1;
    var vs := Spaced(start, 1, kept);
    forall v: nat ensures v in motion.Keys <==> v in vs {
      assert v in motion <==> WroteAt(base, steps, v) && !WroteAt(base, steps, v + RETAINED);
      SpacedByOne(start, kept, v);
    }
    assert motion.Keys == vs;
    forall v: nat ensures v in motion <==> base < v <= base + |steps| < v + RETAINED { SpacedByOne(start, kept, v); }
  }

  lemma SpacedByOne(start: nat, n: nat, v: nat)
    ensures v in Spaced(start, 1, n) <==> start <= v < start + n
  {
    SpacedIs(start, 1, n);
    hide Spaced;
    if start <= v < start + n { assert v == start + 1 * (v - start); }
  }

  /** One ingestion, 4096 other mutations, one ingestion, and so on. */
  function Sparse(n: nat): (steps: seq<Step>)
    ensures |steps| == n
  {
    seq(n, i => if i % (RETAINED + 1) == 0 then Ingest(0) else Agency)
  }

  /** UNBOUNDED otherwise: where no ingestion comes 4096 versions after another none is forgotten, and the map outgrows
      every bound. */
  lemma SparseIngestionIsUnbounded(s: State, k: nat)
    requires s.motion == map[]
    ensures |Run(s, Sparse((RETAINED + 1) * k)).motion| >= k
  {
    hide Run, Retains, Spaced, Sparse, Records;
    var gap := RETAINED + 1;
    var base, steps := s.snapshot.runtime, Sparse(gap * k);
    RetainedExactly(s, steps);
    var motion, vs := Run(s, steps).motion, Spaced(base + 1, gap, k);
    SpacedIs(base + 1, gap, k);
    forall v | v in vs ensures v in motion {
      var j: nat :| j < k && v == base + 1 + gap * j;
      SparseAt(gap * k, j, k);
      StillRetained(base, motion, steps, gap * j);
    }
    SubsetSize(vs, motion.Keys);
  }

  lemma StillRetained(base: nat, motion: Motion, steps: seq<Step>, i: nat)
    requires Retains(base, motion, steps) && i < |steps| && Records(steps[i])
    requires i + RETAINED < |steps| ==> !Records(steps[i + RETAINED])
    ensures base + 1 + i in motion
  {
    assert WroteAt(base, steps, base + 1 + i) && !WroteAt(base, steps, base + 1 + i + RETAINED);
  }

  lemma SparseAt(n: nat, j: nat, k: nat)
    requires j < k && n == (RETAINED + 1) * k
    ensures var i, steps := (RETAINED + 1) * j, Sparse(n);
      i < n && Records(steps[i]) && (i + RETAINED < n ==> !Records(steps[i + RETAINED]))
  {
  }

  /** Every step of this stretch is an ingestion that became available only after `asOf`. */
  predicate AllFutureIngests(steps: seq<Step>, m: nat, asOf: Time) {
    forall i :: m <= i < |steps| ==> steps[i].Ingest? && steps[i].availableAt > asOf
  }

  /** A STANDING JOURNAL. Along any run, a snapshot captured after `m` steps still stands exactly when everything since
      was an ingestion available only after `asOf`, and there were no more of them than are retained. */
  lemma JournalCompatibleIff(s: State, steps: seq<Step>, m: nat, asOf: Time)
    requires s.motion == map[] && m <= |steps| && s.snapshot.runtime + |steps| < TOP
    ensures JournalCompatible(Run(s, steps[..m]).snapshot, Run(s, steps).snapshot, asOf, Run(s, steps).motion)
       <==> AllFutureIngests(steps, m, asOf) && |steps| - m <= RETAINED
  {
    var captured, current := Run(s, steps[..m]).snapshot, Run(s, steps);
    RunAdvances(s, steps[..m]);
    RunAdvances(s, steps);
    RetainedExactly(s, steps);
    SpanDecides(s.snapshot.runtime, current.motion, steps, m, asOf);
    hide Run, Retains, Future, SameSemantics, Behind;
    if AllFutureIngests(steps, m, asOf) {
      IngestsKeepSemantics(s, steps, m);
    } else if i :| m <= i < |steps| && steps[i].Compose? {
      ComposeShows(s, steps, m, i);
      AbstractionIsSemantic(captured, current.snapshot);
    }
  }

  /** What the retained ingestions say about every version made by the steps from `m` on. */
  lemma SpanDecides(base: nat, motion: Motion, steps: seq<Step>, m: nat, asOf: Time)
    requires Retains(base, motion, steps) && m <= |steps|
    ensures AllFutureIngests(steps, m, asOf) ==>
      ((forall v :: base + m < v <= base + |steps| ==> Future(motion, v, asOf)) <==> |steps| - m <= RETAINED)
    ensures (forall v :: base + m < v <= base + |steps| ==> Future(motion, v, asOf)) ==>
      AllFutureIngests(steps, m, asOf) || exists i :: m <= i < |steps| && steps[i].Compose?
  {
    if AllFutureIngests(steps, m, asOf) {
      forall v | base + m < v <= base + |steps| ensures WroteAt(base, steps, v) { assert steps[v - base - 1].Ingest?; }
      if |steps| - m <= RETAINED {
        forall v | base + m < v <= base + |steps| ensures Future(motion, v, asOf) {
          assert steps[v - base - 1].availableAt > asOf;
          assert WroteAt(base, steps, v) && !WroteAt(base, steps, v + RETAINED);
        }
      } else {
        assert WroteAt(base, steps, base + (m + RETAINED) + 1);
        assert !Future(motion, base + m + 1, asOf);
      }
    } else {
      var i :| m <= i < |steps| && !(steps[i].Ingest? && steps[i].availableAt > asOf);
      assert Future(motion, base + i + 1, asOf) ==> WroteAt(base, steps, base + i + 1);
    }
  }

  lemma AbstractionIsSemantic(a: Snapshot, b: Snapshot)
    ensures a.abstraction < b.abstraction ==> !SameSemantics(a, b)
  {
  }

  lemma {:induction false} IngestsKeepSemantics(s: State, steps: seq<Step>, m: nat)
    requires m <= |steps| && forall i :: m <= i < |steps| ==> steps[i].Ingest?
    ensures SameSemantics(Run(s, steps[..m]).snapshot, Run(s, steps).snapshot)
    decreases |steps|
  {
    if m == |steps| {
      assert steps[..m] == steps;
    } else {
      var n := |steps| - 1;
      assert steps[..n][..m] == steps[..m];
      IngestsKeepSemantics(s, steps[..n], m);
      RunUnfolds(s, steps);
      hide Run;
    }
  }

  lemma {:induction false} AbstractionAdvances(s: State, steps: seq<Step>, m: nat)
    requires m <= |steps|
    ensures Run(s, steps[..m]).snapshot.abstraction <= Run(s, steps).snapshot.abstraction
    decreases |steps|
  {
    if m == |steps| {
      assert steps[..m] == steps;
    } else {
      var n := |steps| - 1;
      assert steps[..n][..m] == steps[..m];
      AbstractionAdvances(s, steps[..n], m);
      RunUnfolds(s, steps);
      hide Run;
    }
  }

  lemma ComposeShows(s: State, steps: seq<Step>, m: nat, i: nat)
    requires m <= i < |steps| && steps[i].Compose?
    ensures Run(s, steps[..m]).snapshot.abstraction < Run(s, steps).snapshot.abstraction
  {
    AbstractionAdvances(s, steps, i + 1);
    AbstractionAdvances(s, steps[..i], m);
    assert steps[..i][..m] == steps[..m] && steps[..i + 1][..i] == steps[..i];
    RunUnfolds(s, steps[..i + 1]);
    hide Run;
  }
}

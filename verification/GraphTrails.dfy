/** What a dependency closure lists and which obligations are met (internal/graph/graph.go), by explicit trails of edges. */
module GraphTrails {
  import opened Prelude
  import opened Graph

  /** Each step of a trail is taken along some edge, whichever way the edge points. */
  ghost predicate Trail(edges: seq<Edge>, path: seq<Id>) {
    path != [] && forall i :: 0 < i < |path| ==> OneEdge(edges, path[i - 1], path[i])
  }

  ghost predicate OneEdge(edges: seq<Edge>, u: Id, v: Id) {
    exists k :: 0 <= k < |edges| && {edges[k].source, edges[k].target} == {u, v}
  }

  lemma OneEdgeIsAdjacent(edges: seq<Edge>, u: Id, v: Id)
    ensures OneEdge(edges, u, v) <==> Adjacent(edges, u, v)
  {
    forall e: Edge ensures {e.source, e.target} == {u, v} <==> Joins(e, u, v) { PairIsJoin(e, u, v); }
    if Adjacent(edges, u, v) {
      var k :| 0 <= k < |edges| && Joins(edges[k], u, v);
      assert {edges[k].source, edges[k].target} == {u, v};
    }
  }

  lemma PairIsJoin(e: Edge, u: Id, v: Id)
    ensures {e.source, e.target} == {u, v} <==> Joins(e, u, v)
  {
    if {e.source, e.target} == {u, v} {
      assert e.source in {u, v} && e.target in {u, v} && u in {e.source, e.target} && v in {e.source, e.target};
    }
  }

  lemma TrailIsWalk(edges: seq<Edge>, path: seq<Id>)
    ensures Trail(edges, path) <==> IsWalk(edges, path)
  {
    hide OneEdge, Adjacent;
    forall u: Id, v: Id ensures OneEdge(edges, u, v) <==> Adjacent(edges, u, v) { OneEdgeIsAdjacent(edges, u, v); }
    if Trail(edges, path) {
      forall i | 0 <= i < |path| - 1 ensures Adjacent(edges, path[i], path[i + 1]) {
        assert OneEdge(edges, path[i + 1 - 1], path[i + 1]);
      }
    }
    if IsWalk(edges, path) {
      forall i | 0 < i < |path| ensures OneEdge(edges, path[i - 1], path[i]) {
        assert Adjacent(edges, path[i - 1], path[i - 1 + 1]);
      }
    }
  }

  /** Whoever can be reached can reach back, in as many steps: the direction of an edge plays no part. */
  lemma {:induction false} WalksTurnRound(edges: seq<Edge>, u: Id, v: Id, n: nat)
    ensures Steps(edges, u, v, n) ==> Steps(edges, v, u, n)
  {
    if Steps(edges, u, v, n) {
      var path := WalkFromSteps(edges, u, v, n);
      var back := seq(n + 1, i requires 0 <= i <= n => path[n - i]);
      TrailIsWalk(edges, path);
      forall i | 0 < i < |back| ensures OneEdge(edges, back[i - 1], back[i]) { TurnEdge(edges, path[n - i], path[n - i + 1]); }
      TrailIsWalk(edges, back);
      StepsFromWalk(edges, v, u, back);
    }
  }

  lemma TurnEdge(edges: seq<Edge>, u: Id, v: Id)
    ensures OneEdge(edges, u, v) <==> OneEdge(edges, v, u)
  {
    assert {u, v} == {v, u};
  }

  // ---- what a graph holds ----

  /** The last node of this identity, read from the front. */
  function LastNode(nodes: seq<Node>, id: Id): Option<Node> {
    if nodes == [] then None
    else
      var later := LastNode(nodes[1..], id);
      if later.Some? then later else if nodes[0].id == id then Some(nodes[0]) else None
  }

  function LastEdge(edges: seq<Edge>, id: Id): Option<Edge> {
    if edges == [] then None
    else
      var later := LastEdge(edges[1..], id);
      if later.Some? then later else if edges[0].id == id then Some(edges[0]) else None
  }

  lemma {:induction false} NodeMapIsLast(nodes: seq<Node>, id: Id)
    ensures LastNode(nodes, id) == if id in NodeMap(nodes) then Some(NodeMap(nodes)[id]) else None
    decreases |nodes|
  {
    if nodes != [] {
      var n := |nodes| - 1;
      NodeMapIsLast(nodes[..n], id);
      LastNodeIsLast(nodes[..n], nodes[n], id);
      assert nodes[..n] + [nodes[n]] == nodes;
    }
  }

  lemma {:induction false} LastNodeIsLast(init: seq<Node>, last: Node, id: Id)
    ensures LastNode(init + [last], id) == if last.id == id then Some(last) else LastNode(init, id)
    decreases |init|
  {
    if init == [] {
      assert init + [last] == [last] && LastNode([last][1..], id).None?;
    } else {
      LastNodeIsLast(init[1..], last, id);
      assert (init + [last])[1..] == init[1..] + [last];
    }
  }

  lemma {:induction false} EdgeMapIsLast(edges: seq<Edge>, id: Id)
    ensures LastEdge(edges, id) == if id in EdgeMap(edges) then Some(EdgeMap(edges)[id]) else None
    decreases |edges|
  {
    if edges != [] {
      var n := |edges| - 1;
      EdgeMapIsLast(edges[..n], id);
      LastEdgeIsLast(edges[..n], edges[n], id);
      assert edges[..n] + [edges[n]] == edges;
    }
  }

  lemma {:induction false} LastEdgeIsLast(init: seq<Edge>, last: Edge, id: Id)
    ensures LastEdge(init + [last], id) == if last.id == id then Some(last) else LastEdge(init, id)
    decreases |init|
  {
    if init == [] {
      assert init + [last] == [last] && LastEdge([last][1..], id).None?;
    } else {
      LastEdgeIsLast(init[1..], last, id);
      assert (init + [last])[1..] == init[1..] + [last];
    }
  }

  // ---- what a closure lists ----

  /** Here the two graphs differ: the node stands otherwise in them, or some edge that does has it as an end. */
  ghost predicate Differs(g: PredictiveGraph, h: PredictiveGraph, v: Id) {
    || LastNode(g.nodes, v) != LastNode(h.nodes, v)
    || exists id: Id :: EdgeDiffersAt(LastEdge(g.edges, id), LastEdge(h.edges, id), v)
  }

  predicate EdgeDiffersAt(e: Option<Edge>, f: Option<Edge>, v: Id) {
    e != f && ((e.Some? && v in [e.value.source, e.value.target]) || (f.Some? && v in [f.value.source, f.value.target]))
  }

  lemma DiffersIsSeeded(g: PredictiveGraph, h: PredictiveGraph, v: Id)
    ensures Differs(g, h, v) <==> Seeded(g, h, v)
  {
    var a, b := EdgeMap(g.edges), EdgeMap(h.edges);
    NodeMapIsLast(g.nodes, v);
    NodeMapIsLast(h.nodes, v);
    forall id: Id
      ensures EdgeDiffersAt(LastEdge(g.edges, id), LastEdge(h.edges, id), v) <==> EndpointOfChanged(a, b, id, v)
    {
      EdgeMapIsLast(g.edges, id);
      EdgeMapIsLast(h.edges, id);
      hide EdgeMap, LastEdge;
    }
    hide EdgeMap, NodeMap, LastEdge, LastNode, EdgeDiffersAt, EndpointOfChanged;
  }

  /** A trail from where the graphs differ, of no more steps than the radius; or such a place itself. */
  ghost predicate LeadsTo(g: PredictiveGraph, h: PredictiveGraph, radius: int, path: seq<Id>, v: Id) {
    && Trail(g.edges + h.edges, path) && path[|path| - 1] == v && Differs(g, h, path[0])
    && (|path| == 1 || |path| - 1 <= radius)
  }

  lemma AffectedIff(g: PredictiveGraph, h: PredictiveGraph, radius: int, v: Id)
    ensures Affected(g, h, radius, v) <==> exists path :: LeadsTo(g, h, radius, path, v)
  {
    hide Trail, IsWalk, Steps, Seeded, Differs;
    var edges := g.edges + h.edges;
    if Affected(g, h, radius, v) {
      var s: Id, n: nat :| Seeded(g, h, s) && (n == 0 || n <= radius) && Steps(edges, s, v, n);
      var path := WalkFromSteps(edges, s, v, n);
      TrailIsWalk(edges, path);
      DiffersIsSeeded(g, h, s);
      assert LeadsTo(g, h, radius, path, v);
    }
    if path :| LeadsTo(g, h, radius, path, v) {
      TrailIsWalk(edges, path);
      TrailNotEmpty(edges, path);
      StepsFromWalk(edges, path[0], v, path);
      DiffersIsSeeded(g, h, path[0]);
    }
  }

  lemma TrailNotEmpty(edges: seq<Edge>, path: seq<Id>)
    requires Trail(edges, path)
    ensures path != []
  {
  }

  /** EXACTLY WHAT A CLOSURE LISTS: the nodes that a trail of at most the radius links to a difference; the edges with such
      an end; and what such nodes hold, in either graph. */
  lemma ListedIff(c: Closure, g: PredictiveGraph, h: PredictiveGraph, radius: int, id: Id)
    requires IsClosure(c, g, h, radius)
    ensures id in c.nodeIds <==> exists path :: LeadsTo(g, h, radius, path, id)
    ensures id in c.edgeIds
       <==> exists e :: (e in g.edges || e in h.edges) && e.id == id && (e.source in c.nodeIds || e.target in c.nodeIds)
    ensures id in c.eventIds
       <==> exists n :: (n in g.nodes || n in h.nodes) && n.id in c.nodeIds && n.members.Some? && id in n.members.value
    ensures id in c.posteriorKeys
       <==> exists n :: (n in g.nodes || n in h.nodes) && n.id in c.nodeIds && n.posteriorKeys.Some? && id in n.posteriorKeys.value
  {
    hide LeadsTo, Affected, Ascending;
    AffectedIff(g, h, radius, id);
    var edges, nodes := g.edges + h.edges, g.nodes + h.nodes;
    assert forall e :: e in edges <==> e in g.edges || e in h.edges;
    assert forall n :: n in nodes <==> n in g.nodes || n in h.nodes;
    EdgesListed(c, g, h, radius, id);
    EventsListed(c, g, h, radius, id);
    KeysListed(c, g, h, radius, id);
  }

  lemma EdgesListed(c: Closure, g: PredictiveGraph, h: PredictiveGraph, radius: int, id: Id)
    requires IsClosure(c, g, h, radius)
    ensures id in c.edgeIds <==> exists e :: e in g.edges + h.edges && e.id == id && (e.source in c.nodeIds || e.target in c.nodeIds)
  {
    hide Affected, Ascending;
    var edges := g.edges + h.edges;
    if id in c.edgeIds {
      var i :| 0 <= i < |edges| && edges[i].id == id && TouchedEdge(g, h, radius, edges[i]);
      assert edges[i] in edges;
    }
    if e :| e in edges && e.id == id && (e.source in c.nodeIds || e.target in c.nodeIds) {
      var i :| 0 <= i < |edges| && edges[i] == e;
      assert TouchedEdge(g, h, radius, edges[i]);
    }
  }

  lemma EventsListed(c: Closure, g: PredictiveGraph, h: PredictiveGraph, radius: int, id: Id)
    requires IsClosure(c, g, h, radius)
    ensures id in c.eventIds
       <==> exists n :: n in g.nodes + h.nodes && n.id in c.nodeIds && n.members.Some? && id in n.members.value
  {
    hide Affected, Ascending;
    var nodes := g.nodes + h.nodes;
    if id in c.eventIds {
      var i :| 0 <= i < |nodes| && Affected(g, h, radius, nodes[i].id) && id in Items(nodes[i].members);
      assert nodes[i] in nodes;
    }
    if n :| n in nodes && n.id in c.nodeIds && n.members.Some? && id in n.members.value {
      var i :| 0 <= i < |nodes| && nodes[i] == n;
      assert Affected(g, h, radius, nodes[i].id) && id in Items(nodes[i].members);
    }
  }

  lemma KeysListed(c: Closure, g: PredictiveGraph, h: PredictiveGraph, radius: int, id: Id)
    requires IsClosure(c, g, h, radius)
    ensures id in c.posteriorKeys
       <==> exists n :: n in g.nodes + h.nodes && n.id in c.nodeIds && n.posteriorKeys.Some? && id in n.posteriorKeys.value
  {
    hide Affected, Ascending;
    var nodes := g.nodes + h.nodes;
    if id in c.posteriorKeys {
      var i :| 0 <= i < |nodes| && Affected(g, h, radius, nodes[i].id) && id in Items(nodes[i].posteriorKeys);
      assert nodes[i] in nodes;
    }
    if n :| n in nodes && n.id in c.nodeIds && n.posteriorKeys.Some? && id in n.posteriorKeys.value {
      var i :| 0 <= i < |nodes| && nodes[i] == n;
      assert Affected(g, h, radius, nodes[i].id) && id in Items(nodes[i].posteriorKeys);
    }
  }

  // ---- which obligations are met ----

  /** The graph has the source and a trail from it to the target. */
  ghost predicate Met(g: PredictiveGraph, o: Obligation) {
    LastNode(g.nodes, o.source).Some?
    && exists path :: Trail(g.edges, path) && path[0] == o.source && path[|path| - 1] == o.target
  }

  lemma MetIff(g: PredictiveGraph, o: Obligation)
    requires o.source != o.target
    ensures Met(g, o) <==> !Unresolved(g, o)
  {
    hide IsWalk, OneEdge, Reaches, LastNode, NodeMap;
    NodeMapIsLast(g.nodes, o.source);
    ReachesIsWalk(g.edges, o.source, o.target);
    if Met(g, o) {
      var path :| Trail(g.edges, path) && path[0] == o.source && path[|path| - 1] == o.target;
      TrailIsWalk(g.edges, path);
      assert WalkBetween(g.edges, o.source, o.target, path);
    }
    if !Unresolved(g, o) {
      var path: seq<Id> :| WalkBetween(g.edges, o.source, o.target, path);
      TrailIsWalk(g.edges, path);
      TrailNotEmpty(g.edges, path);
    }
  }

  /** THE BURDEN counts an obligation's weight when it is not met, and nothing when it is. */
  lemma BurdenCounts(g: PredictiveGraph, os: seq<Obligation>, o: Obligation)
    requires o.source != o.target && o.weight > 0.0
    ensures Burden(g, []) == 0.0
    ensures Burden(g, os + [o]) - Burden(g, os) == if Met(g, o) then 0.0 else o.weight
  {
    hide Met, Unresolved;
    MetIff(g, o);
    assert (os + [o])[..|os|] == os;
  }
}

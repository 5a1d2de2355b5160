/** Predictive-graph snaps (internal/graph/graph.go): what a change can influence, and which obligations stay unmet. */
module Graph {
  import opened Prelude

  type Id = string

  /** A list may be absent, which is not the same as empty. */
  type IdList = Option<seq<Id>>

  function Items(list: IdList): seq<Id> { if list.Some? then list.value else [] }

  datatype Node = Node(id: Id, kind: string, members: IdList, posteriorKeys: IdList, lawSpace: string)

  datatype Edge = Edge(id: Id, source: Id, target: Id, comparisonMap: string, effect: string, weight: real)

  datatype PredictiveGraph = PredictiveGraph(nodes: seq<Node>, edges: seq<Edge>)

  datatype Obligation = Obligation(source: Id, target: Id, weight: real)

  datatype Closure = Closure(nodeIds: seq<Id>, edgeIds: seq<Id>, eventIds: seq<Id>, posteriorKeys: seq<Id>)

  // ---- undirected walks ----

  predicate Joins(e: Edge, u: Id, v: Id)
  {
    (e.source == u && e.target == v) || (e.source == v && e.target == u)
  }

  ghost predicate Adjacent(edges: seq<Edge>, u: Id, v: Id) { exists i :: 0 <= i < |edges| && Joins(edges[i], u, v) }

  /** Consecutive entries are joined by an edge, in either direction. */
  ghost predicate IsWalk(edges: seq<Edge>, path: seq<Id>)
  {
    path != [] && forall i :: 0 <= i < |path| - 1 ==> Adjacent(edges, path[i], path[i + 1])
  }

  ghost predicate WalkBetween(edges: seq<Edge>, u: Id, v: Id, path: seq<Id>)
  {
    IsWalk(edges, path) && path[0] == u && path[|path| - 1] == v
  }

  /** Reachable by a walk of exactly `n` steps. */
  ghost predicate Steps(edges: seq<Edge>, u: Id, v: Id, n: nat)
    decreases n
  {
    if n == 0 then u == v else exists w: Id :: Steps(edges, u, w, n - 1) && Adjacent(edges, w, v)
  }

  ghost predicate Connected(edges: seq<Edge>, u: Id, v: Id) { exists n: nat :: Steps(edges, u, v, n) }

  /** Within `radius` steps of some seed. */
  ghost predicate Within(edges: seq<Edge>, seed: set<Id>, radius: int, v: Id)
  {
    exists s: Id, n: nat :: s in seed && n <= radius && Steps(edges, s, v, n)
  }

  /** `Steps` counts the steps of explicit walks. */
  lemma {:induction false} StepsAreWalks(edges: seq<Edge>, u: Id, v: Id, n: nat)
    ensures Steps(edges, u, v, n) <==> exists path: seq<Id> :: |path| == n + 1 && WalkBetween(edges, u, v, path)
  {
    if Steps(edges, u, v, n) {
      var path := WalkFromSteps(edges, u, v, n);
    }
    forall path: seq<Id> | |path| == n + 1 && WalkBetween(edges, u, v, path) ensures Steps(edges, u, v, n) {
      StepsFromWalk(edges, u, v, path);
    }
  }

  lemma {:induction false} WalkFromSteps(edges: seq<Edge>, u: Id, v: Id, n: nat) returns (path: seq<Id>)
    requires Steps(edges, u, v, n)
    ensures |path| == n + 1 && WalkBetween(edges, u, v, path)
    decreases n
  {
    if n == 0 {
      path := [u];
    } else {
      var w: Id :| Steps(edges, u, w, n - 1) && Adjacent(edges, w, v);
      var init := WalkFromSteps(edges, u, w, n - 1);
      path := init + [v];
      forall i | 0 <= i < |path| - 1 ensures Adjacent(edges, path[i], path[i + 1]) {
        if i < |init| - 1 { assert path[i] == init[i] && path[i + 1] == init[i + 1]; }
      }
    }
  }

  lemma {:induction false} StepsFromWalk(edges: seq<Edge>, u: Id, v: Id, path: seq<Id>)
    requires WalkBetween(edges, u, v, path)
    ensures Steps(edges, u, v, |path| - 1)
    decreases |path|
  {
    if |path| > 1 {
      var init := path[..|path| - 1];
      StepsFromWalk(edges, u, init[|init| - 1], init);
      assert Adjacent(edges, path[|path| - 2], path[|path| - 1]);
    }
  }

  // ---- adjacency lists ----

  type Adjacency = map<Id, seq<Id>>

  function Neighbours(adjacency: Adjacency, u: Id): seq<Id> { if u in adjacency then adjacency[u] else [] }

  ghost predicate Represents(adjacency: Adjacency, edges: seq<Edge>)
  {
    forall u: Id, v: Id :: v in Neighbours(adjacency, u) <==> Adjacent(edges, u, v)
  }

  function WithNeighbour(adjacency: Adjacency, u: Id, v: Id): Adjacency { adjacency[u := Neighbours(adjacency, u) + [v]] }

  method BuildAdjacency(edges: seq<Edge>) returns (adjacency: Adjacency)
    ensures Represents(adjacency, edges)
  {
    adjacency := map[];
    for i := 0 to |edges|
      invariant Represents(adjacency, edges[..i])
    {
      ghost var before := adjacency;
      var e := edges[i];
      adjacency := WithNeighbour(adjacency, e.source, e.target);
      adjacency := WithNeighbour(adjacency, e.target, e.source);
      RepresentsStep(before, edges, i);
    }
    assert edges[..|edges|] == edges;
  }

  lemma RepresentsStep(adjacency: Adjacency, edges: seq<Edge>, i: nat)
    requires i < |edges| && Represents(adjacency, edges[..i])
    ensures var e := edges[i];
      Represents(WithNeighbour(WithNeighbour(adjacency, e.source, e.target), e.target, e.source), edges[..i + 1])
  {
    var e := edges[i];
    var once := WithNeighbour(adjacency, e.source, e.target);
    var next := WithNeighbour(once, e.target, e.source);
    forall u: Id, v: Id ensures v in Neighbours(next, u) <==> Adjacent(edges[..i + 1], u, v) {
      AdjacentPrefix(edges, i, u, v);
      NeighbourAdded(adjacency, e.source, e.target, u, v);
      NeighbourAdded(once, e.target, e.source, u, v);
    }
  }

  lemma NeighbourAdded(adjacency: Adjacency, a: Id, b: Id, u: Id, v: Id)
    ensures v in Neighbours(WithNeighbour(adjacency, a, b), u) <==> v in Neighbours(adjacency, u) || (u == a && v == b)
  {
  }

  lemma AdjacentPrefix(edges: seq<Edge>, i: nat, u: Id, v: Id)
    requires i < |edges|
    ensures Adjacent(edges[..i + 1], u, v) <==> Adjacent(edges[..i], u, v) || Joins(edges[i], u, v)
  {
    var longer, shorter := edges[..i + 1], edges[..i];
    if Adjacent(longer, u, v) {
      var k :| 0 <= k < |longer| && Joins(longer[k], u, v);
      if k < i { assert Joins(shorter[k], u, v); }
    }
    if Adjacent(shorter, u, v) {
      var k :| 0 <= k < |shorter| && Joins(shorter[k], u, v);
      assert Joins(longer[k], u, v);
    }
    if Joins(edges[i], u, v) { assert Joins(longer[i], u, v); }
  }

  // ---- maps by identity ----

  function NodeMap(nodes: seq<Node>): map<Id, Node>
  {
    if nodes == [] then map[] else NodeMap(nodes[..|nodes| - 1])[nodes[|nodes| - 1].id := nodes[|nodes| - 1]]
  }

  function EdgeMap(edges: seq<Edge>): map<Id, Edge>
  {
    if edges == [] then map[] else EdgeMap(edges[..|edges| - 1])[edges[|edges| - 1].id := edges[|edges| - 1]]
  }

  method BuildNodeMap(nodes: seq<Node>) returns (out: map<Id, Node>)
    ensures out == NodeMap(nodes)
  {
    out := map[];
    for i := 0 to |nodes|
      invariant out == NodeMap(nodes[..i])
    {
      out := out[nodes[i].id := nodes[i]];
      assert nodes[..i + 1][..i] == nodes[..i];
    }
    assert nodes[..|nodes|] == nodes;
  }

  method BuildEdgeMap(edges: seq<Edge>) returns (out: map<Id, Edge>)
    ensures out == EdgeMap(edges)
  {
    out := map[];
    for i := 0 to |edges|
      invariant out == EdgeMap(edges[..i])
    {
      out := out[edges[i].id := edges[i]];
      assert edges[..i + 1][..i] == edges[..i];
    }
    assert edges[..|edges|] == edges;
  }

  lemma {:induction false} EdgeMapValue(edges: seq<Edge>, id: Id)
    requires id in EdgeMap(edges)
    ensures EdgeMap(edges)[id].id == id && EdgeMap(edges)[id] in edges
  {
    var init := edges[..|edges| - 1];
    if id != edges[|edges| - 1].id {
      EdgeMapValue(init, id);
      assert edges == init + [edges[|edges| - 1]];
    }
  }

  // ---- the seed: everything that differs ----

  ghost predicate Changed<V>(a: map<Id, V>, b: map<Id, V>, id: Id)
  {
    (id in a || id in b) && !(id in a && id in b && a[id] == b[id])
  }

  /** A changed node, or an endpoint of a changed edge in either graph. */
  ghost predicate Seeded(current: PredictiveGraph, candidate: PredictiveGraph, v: Id)
  {
    || Changed(NodeMap(current.nodes), NodeMap(candidate.nodes), v)
    || (exists id: Id :: EndpointOfChanged(EdgeMap(current.edges), EdgeMap(candidate.edges), id, v))
  }

  ghost predicate EndpointOfChanged(a: map<Id, Edge>, b: map<Id, Edge>, id: Id, v: Id)
  {
    Changed(a, b, id) && ((id in a && IsEndpoint(a[id], v)) || (id in b && IsEndpoint(b[id], v)))
  }

  predicate IsEndpoint(e: Edge, v: Id) { e.source == v || e.target == v }

  /** Identities whose value in `a` is missing from or different in `b`. */
  method DiffersFrom<V(==)>(a: map<Id, V>, b: map<Id, V>) returns (ids: set<Id>)
    ensures forall id :: id in ids <==> id in a && (id !in b || a[id] != b[id])
  {
    ids := {};
    var todo := a.Keys;
    while todo != {}
      invariant todo <= a.Keys
      invariant forall id :: id in ids <==> id in a && id !in todo && (id !in b || a[id] != b[id])
      decreases todo
    {
      var id :| id in todo;
      if id !in b || a[id] != b[id] { ids := ids + {id}; }
      todo := todo - {id};
    }
  }

  /** Endpoints, as recorded in `a`, of the given edges. */
  method EndpointsOf(a: map<Id, Edge>, ids: set<Id>) returns (vs: set<Id>)
    requires ids <= a.Keys
    ensures forall v :: v in vs <==> exists id :: id in ids && IsEndpoint(a[id], v)
  {
    vs := {};
    var todo := ids;
    while todo != {}
      invariant todo <= ids
      invariant forall v :: v in vs <==> exists id :: id in ids && id !in todo && IsEndpoint(a[id], v)
      decreases todo
    {
      ghost var before := vs;
      var id :| id in todo;
      vs := vs + {a[id].source, a[id].target};
      ghost var was := todo;
      todo := todo - {id};
      forall v ensures v in vs <==> exists k :: k in ids && k !in todo && IsEndpoint(a[k], v) {
        if v in before {
          var k :| k in ids && k !in was && IsEndpoint(a[k], v);
          assert k in ids && k !in todo && IsEndpoint(a[k], v);
        }
        if IsEndpoint(a[id], v) { assert id in ids && id !in todo && IsEndpoint(a[id], v); }
      }
    }
  }

  method SeedOf(current: PredictiveGraph, candidate: PredictiveGraph) returns (seed: set<Id>)
    ensures forall v :: v in seed <==> Seeded(current, candidate, v)
  {
    var currentNodes := BuildNodeMap(current.nodes);
    var candidateNodes := BuildNodeMap(candidate.nodes);
    var gone := DiffersFrom(currentNodes, candidateNodes);
    var come := DiffersFrom(candidateNodes, currentNodes);
    var currentEdges := BuildEdgeMap(current.edges);
    var candidateEdges := BuildEdgeMap(candidate.edges);
    var goneEdges := DiffersFrom(currentEdges, candidateEdges);
    var comeEdges := DiffersFrom(candidateEdges, currentEdges);
    var left := EndpointsOf(currentEdges, goneEdges);
    var right := EndpointsOf(candidateEdges, comeEdges);
    seed := gone + come + left + right;
    forall v ensures v in seed <==> Seeded(current, candidate, v) {
      if v in left {
        var id :| id in goneEdges && IsEndpoint(currentEdges[id], v);
        assert EndpointOfChanged(currentEdges, candidateEdges, id, v);
      }
      if v in right {
        var id :| id in comeEdges && IsEndpoint(candidateEdges[id], v);
        assert EndpointOfChanged(currentEdges, candidateEdges, id, v);
      }
      if exists id: Id :: EndpointOfChanged(currentEdges, candidateEdges, id, v) {
        var id: Id :| EndpointOfChanged(currentEdges, candidateEdges, id, v);
        if id in currentEdges && IsEndpoint(currentEdges[id], v) { assert id in goneEdges; }
        if id in candidateEdges && IsEndpoint(candidateEdges[id], v) { assert id in comeEdges; }
      }
    }
  }

  // ---- bounded breadth-first search ----

  lemma WithinZero(edges: seq<Edge>, seed: set<Id>, v: Id)
    ensures Within(edges, seed, 0, v) <==> v in seed
  {
    if v in seed { assert Steps(edges, v, v, 0); }
  }

  lemma WithinNext(edges: seq<Edge>, seed: set<Id>, d: nat, v: Id)
    ensures Within(edges, seed, d + 1, v)
      <==> Within(edges, seed, d, v) || exists w: Id :: Within(edges, seed, d, w) && Adjacent(edges, w, v)
  {
    if Within(edges, seed, d + 1, v) {
      var s: Id, n: nat :| s in seed && n <= d + 1 && Steps(edges, s, v, n);
      if n == d + 1 {
        var w: Id :| Steps(edges, s, w, n - 1) && Adjacent(edges, w, v);
        assert Within(edges, seed, d, w);
      }
    }
    if exists w: Id :: Within(edges, seed, d, w) && Adjacent(edges, w, v) {
      var w: Id :| Within(edges, seed, d, w) && Adjacent(edges, w, v);
      var s: Id, n: nat :| s in seed && n <= d && Steps(edges, s, w, n);
      assert Steps(edges, s, v, n + 1);
    }
  }

  /** `affected` is what lies within `d` steps; only the frontier can have neighbours outside it. */
  ghost predicate Layered(edges: seq<Edge>, seed: set<Id>, d: nat, affected: set<Id>, frontier: seq<Id>)
  {
    && (forall v: Id :: v in affected <==> Within(edges, seed, d, v))
    && (forall v :: v in frontier ==> v in affected)
    && (forall u: Id, v: Id :: u in affected && u !in frontier && Adjacent(edges, u, v) ==> v in affected)
  }

  method Spread(adjacency: Adjacency, ghost edges: seq<Edge>, seed: set<Id>, radius: int) returns (affected: set<Id>)
    requires Represents(adjacency, edges)
    ensures forall v: Id :: v in affected <==> Within(edges, seed, if radius < 0 then 0 else radius, v)
  {
    affected := seed;
    var frontier := SortedList(seed);
    forall v: Id ensures v in affected <==> Within(edges, seed, 0, v) { WithinZero(edges, seed, v); }
    var depth := 0;
    while depth < radius
      invariant 0 <= depth && (radius < 0 ==> depth == 0) && (radius >= 0 ==> depth <= radius)
      invariant Layered(edges, seed, depth, affected, frontier)
      decreases radius - depth
    {
      ghost var before := affected;
      ghost var layer := frontier;
      affected, frontier := Advance(adjacency, edges, affected, frontier);
      LayeredNext(edges, seed, depth, before, layer, affected, frontier);
      depth := depth + 1;
    }
  }

  /** One layer: every unseen neighbour of the frontier, and nothing else, joins. */
  method Advance(adjacency: Adjacency, ghost edges: seq<Edge>, affected: set<Id>, frontier: seq<Id>)
    returns (after: set<Id>, next: seq<Id>)
    requires Represents(adjacency, edges)
    ensures forall v :: v in after <==> v in affected || exists u :: u in frontier && Adjacent(edges, u, v)
    ensures forall v :: v in next <==> v in after && v !in affected
  {
    after, next := affected, [];
    for i := 0 to |frontier|
      invariant forall v :: v in after <==> v in affected || exists k :: 0 <= k < i && Adjacent(edges, frontier[k], v)
      invariant forall v :: v in next <==> v in after && v !in affected
    {
      var neighbours := Neighbours(adjacency, frontier[i]);
      ghost var before := after;
      for j := 0 to |neighbours|
        invariant forall v :: v in after <==> v in before || v in neighbours[..j]
        invariant forall v :: v in next <==> v in after && v !in affected
      {
        if neighbours[j] !in after {
          after := after + {neighbours[j]};
          next := next + [neighbours[j]];
        }
      }
      assert neighbours[..|neighbours|] == neighbours;
      forall v ensures v in after <==> v in affected || exists k :: 0 <= k < i + 1 && Adjacent(edges, frontier[k], v) {
        assert v in neighbours <==> Adjacent(edges, frontier[i], v);
        if v in before && v !in affected {
          var k :| 0 <= k < i && Adjacent(edges, frontier[k], v);
        }
      }
    }
  }

  lemma LayeredNext(edges: seq<Edge>, seed: set<Id>, d: nat, affected: set<Id>, frontier: seq<Id>, after: set<Id>, next: seq<Id>)
    requires Layered(edges, seed, d, affected, frontier)
    requires forall v :: v in after <==> v in affected || exists u :: u in frontier && Adjacent(edges, u, v)
    requires forall v :: v in next <==> v in after && v !in affected
    ensures Layered(edges, seed, d + 1, after, next)
  {
    forall v: Id ensures v in after <==> Within(edges, seed, d + 1, v) {
      WithinNext(edges, seed, d, v);
    }
    forall u: Id, v: Id | u in after && u !in next && Adjacent(edges, u, v) ensures v in after {
      assert u in affected;
    }
  }

  // ---- the closure ----

  ghost predicate Affected(current: PredictiveGraph, candidate: PredictiveGraph, radius: int, v: Id)
  {
    exists s: Id, n: nat :: Seeded(current, candidate, s) && (n == 0 || n <= radius) && Steps(current.edges + candidate.edges, s, v, n)
  }

  ghost predicate TouchedEdge(current: PredictiveGraph, candidate: PredictiveGraph, radius: int, e: Edge)
  {
    Affected(current, candidate, radius, e.source) || Affected(current, candidate, radius, e.target)
  }

  /** The closure lists the affected nodes and, of both graphs, the edges that touch them and the events and
      posteriors they carry, each identity once and in order. */
  ghost predicate IsClosure(c: Closure, current: PredictiveGraph, candidate: PredictiveGraph, radius: int)
  {
    var edges, nodes := current.edges + candidate.edges, current.nodes + candidate.nodes;
    && Ascending(c.nodeIds) && Ascending(c.edgeIds) && Ascending(c.eventIds) && Ascending(c.posteriorKeys)
    && (forall v: Id :: v in c.nodeIds <==> Affected(current, candidate, radius, v))
    && (forall id: Id :: id in c.edgeIds
          <==> exists i :: 0 <= i < |edges| && edges[i].id == id && TouchedEdge(current, candidate, radius, edges[i]))
    && (forall id: Id :: id in c.eventIds
          <==> exists i :: 0 <= i < |nodes| && Affected(current, candidate, radius, nodes[i].id) && id in Items(nodes[i].members))
    && (forall id: Id :: id in c.posteriorKeys
          <==> exists i :: 0 <= i < |nodes| && Affected(current, candidate, radius, nodes[i].id) && id in Items(nodes[i].posteriorKeys))
  }

  method DependencyClosure(current: PredictiveGraph, candidate: PredictiveGraph, radius: int) returns (c: Closure)
    ensures IsClosure(c, current, candidate, radius)
  {
    var seed := SeedOf(current, candidate);
    var edges, nodes := current.edges + candidate.edges, current.nodes + candidate.nodes;
    var adjacency := BuildAdjacency(edges);
    var affected := Spread(adjacency, edges, seed, radius);
    forall v: Id ensures v in affected <==> Affected(current, candidate, radius, v) {
      AffectedIsWithin(current, candidate, radius, seed, v);
    }
    var edgeIds := TouchedEdges(edges, affected);
    var eventIds, posteriorKeys := Carried(nodes, affected);
    hide Affected, Seeded, Within;
    var n := SortedList(affected);
    var e := SortedList(edgeIds);
    var v := SortedList(eventIds);
    var p := SortedList(posteriorKeys);
    c := Closure(n, e, v, p);
  }

  lemma AffectedIsWithin(current: PredictiveGraph, candidate: PredictiveGraph, radius: int, seed: set<Id>, v: Id)
    requires forall s :: s in seed <==> Seeded(current, candidate, s)
    ensures Affected(current, candidate, radius, v)
      <==> Within(current.edges + candidate.edges, seed, if radius < 0 then 0 else radius, v)
  {
  }

  method TouchedEdges(edges: seq<Edge>, affected: set<Id>) returns (ids: set<Id>)
    ensures forall id :: id in ids <==> exists i :: 0 <= i < |edges| && edges[i].id == id && (edges[i].source in affected || edges[i].target in affected)
  {
    ids := {};
    for i := 0 to |edges|
      invariant forall id :: id in ids <==> exists k :: 0 <= k < i && edges[k].id == id && (edges[k].source in affected || edges[k].target in affected)
    {
      if edges[i].source in affected {
        ids := ids + {edges[i].id};
      } else if edges[i].target in affected {
        ids := ids + {edges[i].id};
      }
    }
  }

  method Carried(nodes: seq<Node>, affected: set<Id>) returns (events: set<Id>, keys: set<Id>)
    ensures forall id :: id in events <==> exists i :: 0 <= i < |nodes| && nodes[i].id in affected && id in Items(nodes[i].members)
    ensures forall id :: id in keys <==> exists i :: 0 <= i < |nodes| && nodes[i].id in affected && id in Items(nodes[i].posteriorKeys)
  {
    events, keys := {}, {};
    for i := 0 to |nodes|
      invariant forall id :: id in events <==> exists k :: 0 <= k < i && nodes[k].id in affected && id in Items(nodes[k].members)
      invariant forall id :: id in keys <==> exists k :: 0 <= k < i && nodes[k].id in affected && id in Items(nodes[k].posteriorKeys)
    {
      if nodes[i].id in affected {
        events := events + (set id | id in Items(nodes[i].members));
        keys := keys + (set id | id in Items(nodes[i].posteriorKeys));
      }
    }
  }

  /** SAFETY. Whatever the closure does not list is the same in both graphs. */
  lemma UnlistedIsUnchanged(c: Closure, current: PredictiveGraph, candidate: PredictiveGraph, radius: int, id: Id)
    requires IsClosure(c, current, candidate, radius)
    ensures id !in c.nodeIds ==> !Changed(NodeMap(current.nodes), NodeMap(candidate.nodes), id)
    ensures id !in c.edgeIds ==> !Changed(EdgeMap(current.edges), EdgeMap(candidate.edges), id)
  {
    if Changed(NodeMap(current.nodes), NodeMap(candidate.nodes), id) {
      SeedIsAffected(current, candidate, radius, id);
    }
    var a, b := EdgeMap(current.edges), EdgeMap(candidate.edges);
    var edges := current.edges + candidate.edges;
    if Changed(a, b, id) {
      var e := if id in a then a[id] else b[id];
      if id in a { EdgeMapValue(current.edges, id); } else { EdgeMapValue(candidate.edges, id); }
      assert e in edges && e.id == id;
      var i :| 0 <= i < |edges| && edges[i] == e;
      assert EndpointOfChanged(a, b, id, e.source);
      SeedIsAffected(current, candidate, radius, e.source);
      assert TouchedEdge(current, candidate, radius, edges[i]);
    }
  }

  lemma SeedIsAffected(current: PredictiveGraph, candidate: PredictiveGraph, radius: int, v: Id)
    requires Seeded(current, candidate, v)
    ensures Affected(current, candidate, radius, v)
  {
    assert Steps(current.edges + candidate.edges, v, v, 0);
  }

  /** A larger radius never loses a node. */
  lemma ClosureGrows(c: Closure, d: Closure, current: PredictiveGraph, candidate: PredictiveGraph, r: int, s: int, v: Id)
    requires IsClosure(c, current, candidate, r) && IsClosure(d, current, candidate, s) && r <= s
    ensures v in c.nodeIds ==> v in d.nodeIds
  {
    if v in c.nodeIds {
      var u: Id, n: nat :| Seeded(current, candidate, u) && (n == 0 || n <= r) && Steps(current.edges + candidate.edges, u, v, n);
      assert n == 0 || n <= s;
    }
  }

  /** Nothing is affected exactly when the two graphs agree, node for node and edge for edge. */
  lemma EmptyIffUnchanged(c: Closure, current: PredictiveGraph, candidate: PredictiveGraph, radius: int)
    requires IsClosure(c, current, candidate, radius)
    ensures c.nodeIds == []
      <==> NodeMap(current.nodes) == NodeMap(candidate.nodes) && EdgeMap(current.edges) == EdgeMap(candidate.edges)
  {
    var a, b := NodeMap(current.nodes), NodeMap(candidate.nodes);
    var x, y := EdgeMap(current.edges), EdgeMap(candidate.edges);
    if a != b {
      var id := Difference(a, b);
      SeedIsAffected(current, candidate, radius, id);
      assert id in c.nodeIds;
    }
    if x != y {
      var id := Difference(x, y);
      var e := if id in x then x[id] else y[id];
      assert EndpointOfChanged(x, y, id, e.source);
      SeedIsAffected(current, candidate, radius, e.source);
      assert e.source in c.nodeIds;
    }
    if c.nodeIds != [] {
      assert c.nodeIds[0] in c.nodeIds;
      var u: Id, n: nat :| Seeded(current, candidate, u) && (n == 0 || n <= radius)
                           && Steps(current.edges + candidate.edges, u, c.nodeIds[0], n);
    }
  }

  lemma Difference<V>(a: map<Id, V>, b: map<Id, V>) returns (id: Id)
    requires a != b
    ensures Changed(a, b, id)
  {
    if forall id: Id :: !Changed(a, b, id) { EqualWhenUnchanged(a, b); }
    id :| Changed(a, b, id);
  }

  lemma EqualWhenUnchanged<V>(a: map<Id, V>, b: map<Id, V>)
    requires forall id: Id :: !Changed(a, b, id)
    ensures a == b
  {
    forall id | id in a ensures id in b && a[id] == b[id] { assert !Changed(a, b, id); }
    forall id | id in b ensures id in a { assert !Changed(a, b, id); }
  }

  // ---- reachability ----

  /** Some walk of at least one step. */
  ghost predicate Reaches(edges: seq<Edge>, u: Id, v: Id) { exists n: nat :: n > 0 && Steps(edges, u, v, n) }

  ghost predicate ClosedUnder(edges: seq<Edge>, s: set<Id>)
  {
    forall u: Id, v: Id :: u in s && Adjacent(edges, u, v) ==> v in s
  }

  lemma {:induction false} ClosedContainsSteps(edges: seq<Edge>, s: set<Id>, u: Id, v: Id, n: nat)
    requires ClosedUnder(edges, s) && u in s && Steps(edges, u, v, n)
    ensures v in s
    decreases n
  {
    if n > 0 {
      var w: Id :| Steps(edges, u, w, n - 1) && Adjacent(edges, w, v);
      ClosedContainsSteps(edges, s, u, w, n - 1);
    }
  }

  function Mentioned(adjacency: Adjacency): set<Id> { set u, v | u in adjacency && v in adjacency[u] :: v }

  /** Worklist search. It ends, because every identity enters the queue at most once. */
  method Reachable(adjacency: Adjacency, ghost edges: seq<Edge>, source: Id, target: Id) returns (found: bool)
    requires Represents(adjacency, edges)
    ensures found <==> Reaches(edges, source, target)
  {
    hide Searching, Reaches, Represents;
    var seen: set<Id> := {source};
    var queue := [source];
    ghost var universe := {source} + Mentioned(adjacency);
    SearchBegins(edges, source, target);
    while |queue| > 0
      invariant seen <= universe && Searching(edges, source, target, seen, queue)
      decreases 2 * |universe - seen| + |queue|
    {
      ghost var was, before := queue, seen;
      var current := queue[0];
      found, seen, queue := Visit(Neighbours(adjacency, current), target, seen, queue[1..], universe);
      if found {
        SearchFinds(adjacency, edges, source, target, before, was);
        return true;
      }
      SearchStep(adjacency, edges, source, target, was, queue, before, seen);
    }
    SearchEnds(edges, source, target, seen);
    found := false;
  }

  /** All seen identities are connected to the source, and of those no longer queued every neighbour is seen and none is
      the target. */
  ghost predicate Searching(edges: seq<Edge>, source: Id, target: Id, seen: set<Id>, queue: seq<Id>)
  {
    && source in seen && (forall v :: v in queue ==> v in seen)
    && (forall v: Id :: v in seen ==> Connected(edges, source, v))
    && (forall u: Id, v: Id :: u in seen && u !in queue && Adjacent(edges, u, v) ==> v in seen && v != target)
  }

  lemma SearchBegins(edges: seq<Edge>, source: Id, target: Id)
    ensures Searching(edges, source, target, {source}, [source])
  {
    assert Steps(edges, source, source, 0);
  }

  lemma SearchFinds(adjacency: Adjacency, edges: seq<Edge>, source: Id, target: Id, seen: set<Id>, queue: seq<Id>)
    requires Represents(adjacency, edges) && Searching(edges, source, target, seen, queue) && queue != []
    requires target in Neighbours(adjacency, queue[0])
    ensures Reaches(edges, source, target)
  {
    assert queue[0] in seen;
    LastStep(edges, source, queue[0], target);
  }

  lemma SearchStep(adjacency: Adjacency, edges: seq<Edge>, source: Id, target: Id, was: seq<Id>, queue: seq<Id>,
                   before: set<Id>, seen: set<Id>)
    requires Represents(adjacency, edges) && Searching(edges, source, target, before, was) && was != []
    requires target !in Neighbours(adjacency, was[0])
    requires forall v :: v in seen <==> v in before || v in Neighbours(adjacency, was[0])
    requires was[1..] <= queue && forall v :: v in queue[|was| - 1..] <==> v in seen && v !in before
    ensures Searching(edges, source, target, seen, queue)
  {
    hide Adjacent, Connected, Neighbours;
    assert was[0] in before;
    forall v: Id | Adjacent(edges, was[0], v) ensures Connected(edges, source, v) {
      Prolonged(edges, source, was[0], v);
    }
    QueueStep(edges, source, target, was[0], was, queue, before, seen, Neighbours(adjacency, was[0]));
  }

  lemma Prolonged(edges: seq<Edge>, u: Id, w: Id, v: Id)
    requires Connected(edges, u, w) && Adjacent(edges, w, v)
    ensures Connected(edges, u, v)
  {
    LastStep(edges, u, w, v);
  }

  lemma SearchEnds(edges: seq<Edge>, source: Id, target: Id, seen: set<Id>)
    requires Searching(edges, source, target, seen, [])
    ensures !Reaches(edges, source, target)
  {
    NeverReached(edges, seen, source, target);
  }

  lemma LastStep(edges: seq<Edge>, u: Id, w: Id, v: Id)
    requires Connected(edges, u, w) && Adjacent(edges, w, v)
    ensures Reaches(edges, u, v)
  {
    var n: nat :| Steps(edges, u, w, n);
    assert Steps(edges, u, v, n + 1);
  }

  lemma NeverReached(edges: seq<Edge>, seen: set<Id>, source: Id, target: Id)
    requires source in seen
    requires forall u: Id, v: Id :: u in seen && Adjacent(edges, u, v) ==> v in seen && v != target
    ensures !Reaches(edges, source, target)
  {
    forall n: nat | n > 0 ensures !Steps(edges, source, target, n) {
      if Steps(edges, source, target, n) {
        var w: Id :| Steps(edges, source, w, n - 1) && Adjacent(edges, w, target);
        ClosedContainsSteps(edges, seen, source, w, n - 1);
      }
    }
  }

  /** Looks for the target among the neighbours and queues the new ones. */
  method Visit(neighbours: seq<Id>, target: Id, seen: set<Id>, queue: seq<Id>, ghost universe: set<Id>)
    returns (found: bool, after: set<Id>, next: seq<Id>)
    requires seen <= universe && forall v :: v in neighbours ==> v in universe
    ensures found ==> target in neighbours
    ensures !found ==> target !in neighbours
    ensures !found ==> forall v :: v in after <==> v in seen || v in neighbours
    ensures !found ==> queue <= next && forall v :: v in next[|queue|..] <==> v in after && v !in seen
    ensures after <= universe && 2 * |universe - after| + |next| <= 2 * |universe - seen| + |queue|
  {
    after, next := seen, queue;
    for j := 0 to |neighbours|
      invariant forall v :: v in after <==> v in seen || v in neighbours[..j]
      invariant target !in neighbours[..j]
      invariant queue <= next && forall v :: v in next[|queue|..] <==> v in after && v !in seen
      invariant after <= universe && 2 * |universe - after| + |next| <= 2 * |universe - seen| + |queue|
    {
      var v := neighbours[j];
      if v == target { return true, after, next; }
      if v !in after {
        assert universe - (after + {v}) == (universe - after) - {v};
        after := after + {v};
        assert (next + [v])[|queue|..] == next[|queue|..] + [v];
        next := next + [v];
      }
    }
    assert neighbours[..|neighbours|] == neighbours;
    found := false;
  }

  lemma QueueStep(edges: seq<Edge>, source: Id, target: Id, current: Id, was: seq<Id>, queue: seq<Id>,
                  before: set<Id>, seen: set<Id>, neighbours: seq<Id>)
    requires was != [] && was[0] == current && Searching(edges, source, target, before, was)
    requires forall v: Id :: v in neighbours <==> Adjacent(edges, current, v)
    requires forall v: Id :: v in neighbours ==> Connected(edges, source, v)
    requires target !in neighbours
    requires forall v :: v in seen <==> v in before || v in neighbours
    requires was[1..] <= queue && forall v :: v in queue[|was| - 1..] <==> v in seen && v !in before
    ensures Searching(edges, source, target, seen, queue)
  {
    hide Adjacent, Connected;
    assert queue == was[1..] + queue[|was| - 1..];
    assert was == [current] + was[1..];
  }

  /** For distinct identities, what the search decides is the existence of an undirected walk between them. */
  lemma ReachesIsWalk(edges: seq<Edge>, u: Id, v: Id)
    requires u != v
    ensures Reaches(edges, u, v) <==> exists path: seq<Id> :: WalkBetween(edges, u, v, path)
  {
    if Reaches(edges, u, v) {
      var n: nat :| n > 0 && Steps(edges, u, v, n);
      var path := WalkFromSteps(edges, u, v, n);
    }
    forall path: seq<Id> | WalkBetween(edges, u, v, path) ensures Reaches(edges, u, v) {
      StepsFromWalk(edges, u, v, path);
    }
  }

  // ---- unresolved burden ----

  predicate ValidObligation(o: Obligation) { o.source != o.target && o.weight > 0.0 }

  /** No edge path discharges the obligation. */
  ghost predicate Unresolved(g: PredictiveGraph, o: Obligation)
  {
    o.source !in NodeMap(g.nodes) || !Reaches(g.edges, o.source, o.target)
  }

  ghost function Burden(g: PredictiveGraph, os: seq<Obligation>): real
  {
    if os == [] then 0.0
    else Burden(g, os[..|os| - 1]) + (if Unresolved(g, os[|os| - 1]) then os[|os| - 1].weight else 0.0)
  }

  method UnresolvedBurden(g: PredictiveGraph, os: seq<Obligation>) returns (burden: Option<real>)
    ensures burden.None? <==> exists i :: 0 <= i < |os| && !ValidObligation(os[i])
    ensures burden.Some? ==> burden.value == Burden(g, os)
  {
    hide Represents, Reaches, NodeMap, Burden;
    var adjacency := BuildAdjacency(g.edges);
    var nodes := BuildNodeMap(g.nodes);
    var total := 0.0;
    NoObligations(g, os);
    for i := 0 to |os|
      invariant forall k :: 0 <= k < i ==> ValidObligation(os[k])
      invariant total == Burden(g, os[..i])
    {
      if os[i].source == os[i].target || os[i].weight <= 0.0 { return None; }
      var met := false;
      if os[i].source in nodes { met := Reachable(adjacency, g.edges, os[i].source, os[i].target); }
      if !met { total := total + os[i].weight; }
      BurdenStep(g, os, i);
    }
    assert os[..|os|] == os;
    burden := Some(total);
  }

  lemma NoObligations(g: PredictiveGraph, os: seq<Obligation>)
    ensures Burden(g, os[..0]) == 0.0
  {
  }

  lemma BurdenStep(g: PredictiveGraph, os: seq<Obligation>, i: nat)
    requires i < |os|
    ensures Burden(g, os[..i + 1]) == Burden(g, os[..i]) + (if Unresolved(g, os[i]) then os[i].weight else 0.0)
  {
    hide Unresolved;
    assert os[..i + 1][..i] == os[..i];
  }

  /** `h` has every node and every edge of `g`. */
  ghost predicate Extends(h: PredictiveGraph, g: PredictiveGraph)
  {
    && NodeMap(g.nodes).Keys <= NodeMap(h.nodes).Keys
    && forall e :: e in g.edges ==> e in h.edges
  }

  lemma {:induction false} MoreEdgesMoreSteps(g: PredictiveGraph, h: PredictiveGraph, u: Id, v: Id, n: nat)
    requires Extends(h, g) && Steps(g.edges, u, v, n)
    ensures Steps(h.edges, u, v, n)
    decreases n
  {
    if n > 0 {
      var w: Id :| Steps(g.edges, u, w, n - 1) && Adjacent(g.edges, w, v);
      MoreEdgesMoreSteps(g, h, u, w, n - 1);
      var i :| 0 <= i < |g.edges| && Joins(g.edges[i], w, v);
      assert g.edges[i] in h.edges;
      var k :| 0 <= k < |h.edges| && h.edges[k] == g.edges[i];
      assert Joins(h.edges[k], w, v);
      assert Steps(h.edges, u, w, n - 1) && Adjacent(h.edges, w, v);
    }
  }

  /** Adding nodes and edges never raises the burden. */
  lemma {:induction false} MoreEdgesLessBurden(g: PredictiveGraph, h: PredictiveGraph, os: seq<Obligation>)
    requires Extends(h, g) && forall i :: 0 <= i < |os| ==> ValidObligation(os[i])
    ensures 0.0 <= Burden(h, os) <= Burden(g, os)
  {
    if os != [] {
      var o := os[|os| - 1];
      MoreEdgesLessBurden(g, h, os[..|os| - 1]);
      if !Unresolved(g, o) {
        var n: nat :| n > 0 && Steps(g.edges, o.source, o.target, n);
        MoreEdgesMoreSteps(g, h, o.source, o.target, n);
      }
    }
  }

  /** The burden is nil exactly when every obligation is discharged by a path. */
  lemma {:induction false} NoBurdenIffAllResolved(g: PredictiveGraph, os: seq<Obligation>)
    requires forall i :: 0 <= i < |os| ==> ValidObligation(os[i])
    ensures Burden(g, os) >= 0.0
    ensures Burden(g, os) == 0.0 <==> forall i :: 0 <= i < |os| ==> !Unresolved(g, os[i])
  {
    if os != [] {
      var init := os[..|os| - 1];
      NoBurdenIffAllResolved(g, init);
      if Burden(g, os) == 0.0 {
        forall i | 0 <= i < |os| ensures !Unresolved(g, os[i]) {
          if i < |init| { assert !Unresolved(g, init[i]); }
        }
      }
      assert forall i :: 0 <= i < |init| ==> init[i] == os[i];
    }
  }
}

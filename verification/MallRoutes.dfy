/** Mall maps: building the navigation graph from nodes and edges, and routing through it. */
module MallRoutes {
  import opened Common
  import opened Walks
  import ShortestPath

  datatype NavNode = NavNode(id: Node, name: string, floorId: string, zone: string, x: real, y: real, kind: string)

  datatype NavEdge = NavEdge(from: Node, to: Node, distance: real, bidirectional: bool)

  datatype MallMap = MallMap(nodes: seq<NavNode>, edges: seq<NavEdge>)

  // ---- What a list of nodes and edges denotes -------------------------------

  predicate Writes(e: NavEdge, u: Node, v: Node) {
    (e.from == u && e.to == v) || (e.bidirectional && e.from == v && e.to == u)
  }

  /** The distance given by the last edge that writes the pair (u, v). */
  ghost function Weight(edges: seq<NavEdge>, u: Node, v: Node): Option<real> {
    if edges == [] then None
    else
      var e := edges[|edges| - 1];
      if Writes(e, u, v) then Some(e.distance) else Weight(edges[..|edges| - 1], u, v)
  }

  ghost predicate Declared(nodes: seq<NavNode>, u: Node) {
    exists i :: 0 <= i < |nodes| && nodes[i].id == u
  }

  ghost predicate Touches(edges: seq<NavEdge>, u: Node) {
    exists i :: 0 <= i < |edges| && (edges[i].from == u || (edges[i].bidirectional && edges[i].to == u))
  }

  ghost predicate Denotes(adj: Adjacency, nodes: seq<NavNode>, edges: seq<NavEdge>) {
    && (forall u :: u in adj <==> Declared(nodes, u) || Touches(edges, u))
    && (forall u, v :: HasEdge(adj, u, v) <==> Weight(edges, u, v).Some?)
    && (forall u, v | HasEdge(adj, u, v) :: adj[u][v] == Weight(edges, u, v).value)
  }

  /** Edge i is the last that writes the pair (u, v). */
  ghost predicate LastWriter(edges: seq<NavEdge>, u: Node, v: Node, i: int) {
    && 0 <= i < |edges| && Writes(edges[i], u, v)
    && forall j | i < j < |edges| :: !Writes(edges[j], u, v)
  }

  /** Weight is last-writer-wins. */
  lemma {:induction false} WeightIsLastWriter(edges: seq<NavEdge>, u: Node, v: Node)
    ensures Weight(edges, u, v).Some? <==> exists i :: LastWriter(edges, u, v, i)
    ensures forall i | LastWriter(edges, u, v, i) :: Weight(edges, u, v) == Some(edges[i].distance)
  {
    if edges != [] {
      var n := |edges| - 1;
      if Writes(edges[n], u, v) {
        assert LastWriter(edges, u, v, n);
      } else {
        var front := edges[..n];
        WeightIsLastWriter(front, u, v);
        assert forall i :: LastWriter(edges, u, v, i) ==> LastWriter(front, u, v, i);
        assert forall i :: LastWriter(front, u, v, i) ==> LastWriter(edges, u, v, i);
      }
    }
  }

  // ---- Building the graph -----------------------------------------------------

  function Put(adj: Adjacency, u: Node, v: Node, d: real): Adjacency {
    adj[u := (if u in adj then adj[u] else map[])[v := d]]
  }

  function PutEdge(adj: Adjacency, e: NavEdge): Adjacency {
    var there := Put(adj, e.from, e.to, e.distance);
    if e.bidirectional then Put(there, e.to, e.from, e.distance) else there
  }

  lemma TouchesGrows(edges: seq<NavEdge>, e: NavEdge, u: Node)
    ensures Touches(edges + [e], u) <==> Touches(edges, u) || e.from == u || (e.bidirectional && e.to == u)
  {
    var all := edges + [e];
    assert all[|edges|] == e;
    if Touches(edges, u) {
      var i :| 0 <= i < |edges| && (edges[i].from == u || (edges[i].bidirectional && edges[i].to == u));
      assert all[i] == edges[i];
    }
  }

  lemma PutEdgeReads(adj: Adjacency, e: NavEdge, u: Node, v: Node)
    ensures var next := PutEdge(adj, e);
            && (u in next <==> u in adj || u == e.from || (e.bidirectional && u == e.to))
            && (HasEdge(next, u, v) <==> HasEdge(adj, u, v) || Writes(e, u, v))
            && (HasEdge(next, u, v) ==> next[u][v] == if Writes(e, u, v) then e.distance else adj[u][v])
  {
  }

  lemma WeightGrows(edges: seq<NavEdge>, e: NavEdge, u: Node, v: Node)
    ensures Weight(edges + [e], u, v) == if Writes(e, u, v) then Some(e.distance) else Weight(edges, u, v)
  {
    assert (edges + [e])[..|edges|] == edges;
  }

  lemma PutEdgeDenotes(adj: Adjacency, nodes: seq<NavNode>, edges: seq<NavEdge>, e: NavEdge)
    requires Denotes(adj, nodes, edges)
    ensures Denotes(PutEdge(adj, e), nodes, edges + [e])
  {
    hide PutEdge, Weight, Touches, Declared, Writes;
    forall u ensures u in PutEdge(adj, e) <==> Declared(nodes, u) || Touches(edges + [e], u) {
      PutEdgeReads(adj, e, u, u);
      TouchesGrows(edges, e, u);
    }
    forall u, v
      ensures HasEdge(PutEdge(adj, e), u, v) <==> Weight(edges + [e], u, v).Some?
      ensures HasEdge(PutEdge(adj, e), u, v) ==> PutEdge(adj, e)[u][v] == Weight(edges + [e], u, v).value
    {
      PutEdgeReads(adj, e, u, v);
      WeightGrows(edges, e, u, v);
    }
  }

  method NewGraph(nodes: seq<NavNode>, edges: seq<NavEdge>) returns (adj: Adjacency)
    ensures Denotes(adj, nodes, edges)
  {
    adj := map[];
    for k := 0 to |nodes|
      invariant forall u :: u in adj <==> Declared(nodes[..k], u)
      invariant forall u | u in adj :: adj[u] == map[]
    {
      assert nodes[..k + 1] == nodes[..k] + [nodes[k]];
      DeclaredGrows(nodes[..k], nodes[k]);
      adj := adj[nodes[k].id := map[]];
    }
    assert nodes[..|nodes|] == nodes;
    for k := 0 to |edges|
      invariant Denotes(adj, nodes, edges[..k])
    {
      assert edges[..k + 1] == edges[..k] + [edges[k]];
      PutEdgeDenotes(adj, nodes, edges[..k], edges[k]);
      var e := edges[k];
      adj := Put(adj, e.from, e.to, e.distance);
      if e.bidirectional {
        adj := Put(adj, e.to, e.from, e.distance);
      }
    }
    assert edges[..|edges|] == edges;
  }

  lemma DeclaredGrows(nodes: seq<NavNode>, n: NavNode)
    ensures forall u :: Declared(nodes + [n], u) <==> Declared(nodes, u) || u == n.id
  {
    forall u ensures Declared(nodes + [n], u) <==> Declared(nodes, u) || u == n.id {
      assert (nodes + [n])[|nodes|] == n;
      if i :| 0 <= i < |nodes| && nodes[i].id == u {
        assert (nodes + [n])[i] == nodes[i];
      }
    }
  }

  lemma {:induction false} WeightSymmetric(edges: seq<NavEdge>, u: Node, v: Node)
    requires forall e | e in edges :: e.bidirectional
    ensures Weight(edges, u, v) == Weight(edges, v, u)
  {
    if edges != [] {
      WeightSymmetric(edges[..|edges| - 1], u, v);
    }
  }

  /** If every edge is bidirectional, the shortest distances there and back agree. */
  lemma BidirectionalRoutesAgree(adj: Adjacency, nodes: seq<NavNode>, edges: seq<NavEdge>, a: Node, b: Node, d: real,
                                 e: real)
    requires Denotes(adj, nodes, edges) && (forall e | e in edges :: e.bidirectional)
    requires IsShortest(adj, a, b, d) && IsShortest(adj, b, a, e)
    ensures Symmetric(adj) && d == e
  {
    hide IsShortest;
    forall u, v | HasEdge(adj, u, v) ensures HasEdge(adj, v, u) && adj[v][u] == adj[u][v] {
      WeightSymmetric(edges, u, v);
    }
    ShortestIsSymmetric(adj, a, b, d, e);
  }

  // ---- Routes ---------------------------------------------------------------

  datatype RouteResult = Route(nodes: seq<NavNode>, metres: real) | MallNotFound | PathNotFound

  /** The zero value of a node, which a lookup of an undeclared ID yields. */
  const NO_NODE := NavNode("", "", "", "", 0.0, 0.0, "")

  /** The last declared node with the given ID. */
  ghost predicate Names(nodes: seq<NavNode>, id: Node, n: NavNode) {
    if Declared(nodes, id)
    then exists i :: 0 <= i < |nodes| && nodes[i] == n && n.id == id && forall j | i < j < |nodes| :: nodes[j].id != id
    else n == NavNode("", "", "", "", 0.0, 0.0, "")
  }

  ghost predicate EndpointsDeclared(m: MallMap) {
    forall e | e in m.edges :: Declared(m.nodes, e.from) && Declared(m.nodes, e.to)
  }

  /** No pair of nodes ends up with a negative distance. */
  ghost predicate Routable(m: MallMap) {
    forall u, v | Weight(m.edges, u, v).Some? :: Weight(m.edges, u, v).value >= 0.0
  }

  method IndexNodes(nodes: seq<NavNode>) returns (byId: map<Node, NavNode>)
    ensures forall id :: id in byId <==> Declared(nodes, id)
    ensures forall id | id in byId :: Names(nodes, id, byId[id])
  {
    byId := map[];
    for k := 0 to |nodes|
      invariant forall id :: id in byId <==> Declared(nodes[..k], id)
      invariant forall id | id in byId :: Names(nodes[..k], id, byId[id])
    {
      IndexStep(nodes[..k], nodes[k], byId, byId[nodes[k].id := nodes[k]]);
      assert nodes[..k + 1] == nodes[..k] + [nodes[k]];
      byId := byId[nodes[k].id := nodes[k]];
    }
    assert nodes[..|nodes|] == nodes;
  }

  lemma IndexStep(nodes: seq<NavNode>, n: NavNode, byId: map<Node, NavNode>, next: map<Node, NavNode>)
    requires forall id :: id in byId <==> Declared(nodes, id)
    requires forall id | id in byId :: Names(nodes, id, byId[id])
    requires next == byId[n.id := n]
    ensures forall id :: id in next <==> Declared(nodes + [n], id)
    ensures forall id | id in next :: Names(nodes + [n], id, next[id])
  {
    DeclaredGrows(nodes, n);
    var all := nodes + [n];
    forall id | id in next ensures Names(all, id, next[id]) {
      if id == n.id {
        assert all[|nodes|] == n;
      } else {
        var i :| 0 <= i < |nodes| && nodes[i] == byId[id] && byId[id].id == id
            && forall j | i < j < |nodes| :: nodes[j].id != id;
        assert all[i] == byId[id];
      }
    }
  }

  lemma GraphIsRoutable(m: MallMap, adj: Adjacency)
    requires Denotes(adj, m.nodes, m.edges)
    ensures (NonNegative(adj) <==> Routable(m)) && forall u | Declared(m.nodes, u) :: u in adj
  {
    assert forall u, v | HasEdge(adj, u, v) :: adj[u][v] == Weight(m.edges, u, v).value;
  }

  lemma NamesMatch(m: MallMap, adj: Adjacency, path: seq<Node>, route: seq<NavNode>)
    requires Denotes(adj, m.nodes, m.edges) && EndpointsDeclared(m)
    requires IsWalk(adj, path) && Declared(m.nodes, path[0]) && |route| == |path|
    requires forall i | 0 <= i < |path| :: Names(m.nodes, path[i], route[i])
    ensures forall i | 0 <= i < |path| :: route[i].id == path[i]
  {
    hide Denotes, EndpointsDeclared, IsWalk, Declared;
    forall i | 0 <= i < |path| ensures route[i].id == path[i] {
      WalkStaysDeclared(m, adj, path, i);
    }
  }

  method NameNodes(nodes: seq<NavNode>, byId: map<Node, NavNode>, path: seq<Node>) returns (route: seq<NavNode>)
    requires forall id :: id in byId <==> Declared(nodes, id)
    requires forall id | id in byId :: Names(nodes, id, byId[id])
    ensures |route| == |path| && forall i | 0 <= i < |path| :: Names(nodes, path[i], route[i])
  {
    route := [];
    for i := 0 to |path|
      invariant |route| == i && forall k | 0 <= k < i :: Names(nodes, path[k], route[k])
    {
      route := route + [if path[i] in byId then byId[path[i]] else NO_NODE];
    }
  }

  method CalculateRoute(m: Option<MallMap>, from: Node, to: Node)
    returns (r: RouteResult, ghost adj: Adjacency, ghost walk: seq<Node>, ghost path: seq<Node>)
    ensures r.MallNotFound? <==> m.None?
    ensures m.Some? ==> Denotes(adj, m.value.nodes, m.value.edges)
    ensures m.Some? ==> (r.PathNotFound? <==>
              !Declared(m.value.nodes, from) || !Declared(m.value.nodes, to) || !Reachable(adj, from, to))
    ensures r.Route? ==> Joins(adj, from, to, walk) && NoRepeats(walk) && Length(adj, walk) == r.metres
    ensures r.Route? && Routable(m.value) ==> IsShortest(adj, from, to, r.metres)
    // The nodes listed are those of the walk after any node with the empty name.
    ensures r.Route? && from != to ==> path == ShortestPath.AfterSentinel(walk) && (path == walk <==> "" !in walk)
    ensures r.Route? && (from == to || !ShortestPath.UsesSentinel(adj)) ==> path == walk
    ensures r.Route? ==> |r.nodes| == |path| && forall i | 0 <= i < |path| :: Names(m.value.nodes, path[i], r.nodes[i])
    ensures r.Route? && path == walk && EndpointsDeclared(m.value) ==>
              forall i | 0 <= i < |path| :: r.nodes[i].id == path[i]
  {
    if m.None? {
      return MallNotFound, map[], [], [];
    }
    walk, path := [], [];
    hide Routable, Denotes, Declared, Names, EndpointsDeclared, ShortestPath.UsesSentinel, ShortestPath.IsSearch;
    hide Reachable, NoRepeats, IsShortest, Length, NonNegative;
    var byId := IndexNodes(m.value.nodes);
    var g := NewGraph(m.value.nodes, m.value.edges);
    adj := g;
    if from !in byId || to !in byId {
      return PathNotFound, adj, [], [];
    }
    GraphIsRoutable(m.value, adj);
    var found, shortest, _, _, _ := ShortestPath.ShortestPath(g, from, to);
    walk := shortest;
    if found.PathNotFound? {
      return PathNotFound, adj, [], [];
    }
    path := found.path;
    var route := NameNodes(m.value.nodes, byId, found.path);
    if path == walk && EndpointsDeclared(m.value) {
      NamesMatch(m.value, adj, path, route);
    }
    return Route(route, found.metres), adj, walk, path;
  }

  lemma {:induction false} WalkStaysDeclared(m: MallMap, adj: Adjacency, p: seq<Node>, i: nat)
    requires Denotes(adj, m.nodes, m.edges) && EndpointsDeclared(m)
    requires IsWalk(adj, p) && Declared(m.nodes, p[0]) && i < |p|
    ensures Declared(m.nodes, p[i])
  {
    if i < |p| - 1 {
      WalkStaysDeclared(m, adj, p[..|p| - 1], i);
    } else if i > 0 {
      assert HasEdge(adj, p[i - 1], p[i]);
      WeightMentions(m.edges, p[i - 1], p[i]);
    }
  }

  lemma {:induction false} WeightMentions(edges: seq<NavEdge>, u: Node, v: Node)
    requires Weight(edges, u, v).Some?
    ensures exists e :: e in edges && Writes(e, u, v)
  {
    var n := |edges| - 1;
    if Writes(edges[n], u, v) {
      assert edges[n] in edges;
    } else {
      WeightMentions(edges[..n], u, v);
      var e :| e in edges[..n] && Writes(e, u, v);
      assert e in edges;
    }
  }
}

/** Dijkstra's algorithm as the mall route planner runs it: a queue with stale entries,
    an early exit at the target and a path rebuilt from the predecessor map. */
module ShortestPath {
  import opened Common
  import opened Walks

  /** A tentative distance; Infinite stands for math.Inf(1). */
  datatype Distance = Finite(metres: real) | Infinite

  datatype Item = Item(node: Node, key: real)

  datatype Outcome = Found(path: seq<Node>, metres: real) | PathNotFound

  /** The variables of the search loop. */
  datatype Search = Search(
    dist: map<Node, Distance>,
    prev: map<Node, Node>,
    queue: multiset<Item>,
    seen: set<Node>)

  // ---- What the loop keeps -------------------------------------------------

  /** Every node with a finite distance has a recorded walk of that length; the walk leaves
      only settled nodes behind it and prev names its last but one node. */
  ghost predicate Recorded(adj: Adjacency, from: Node, s: Search, walks: map<Node, seq<Node>>) {
    && adj.Keys <= s.dist.Keys <= Nodes(adj) && (NonNegative(adj) ==> s.dist.Keys == adj.Keys)
    && s.seen <= walks.Keys <= s.dist.Keys
    && (forall v | v in s.dist :: v in walks <==> s.dist[v].Finite?)
    && (forall v | v in walks :: RecordedAt(adj, from, s, walks, v))
  }

  ghost predicate RecordedAt(adj: Adjacency, from: Node, s: Search, walks: map<Node, seq<Node>>, v: Node)
    requires v in walks && v in s.dist && s.dist[v].Finite?
  {
    var p := walks[v];
    && Joins(adj, from, v, p)
    && Length(adj, p) == s.dist[v].metres
    && (forall i | 0 <= i < |p| - 1 :: p[i] in s.seen)
    && NoRepeats(p)
    && (if v in s.prev
        then s.prev[v] in s.seen && s.prev[v] in walks && p == walks[s.prev[v]] + [v]
        else p == [v])
  }

  /** Without negative weights a settled distance is final. */
  ghost predicate Optimal(adj: Adjacency, from: Node, s: Search) {
    NonNegative(adj) ==> forall u | u in s.seen :: u in s.dist && OptimalAt(adj, from, u, s.dist[u])
  }

  ghost predicate OptimalAt(adj: Adjacency, from: Node, u: Node, d: Distance) {
    d.Finite? && forall p | Joins(adj, from, u, p) :: d.metres <= Length(adj, p)
  }

  ghost predicate AtMost(d: Distance, x: real) {
    d.Finite? && d.metres <= x
  }

  /** Every edge from a node of `settled` to a key has been relaxed. */
  ghost predicate Relaxed(adj: Adjacency, s: Search, settled: set<Node>) {
    forall u, v | u in settled && HasEdge(adj, u, v) && v in adj :: RelaxedEdge(adj, s, u, v)
  }

  ghost predicate RelaxedEdge(adj: Adjacency, s: Search, u: Node, v: Node)
    requires HasEdge(adj, u, v)
  {
    && u in s.dist && s.dist[u].Finite? && v in s.dist && s.dist[v].Finite?
    && (NonNegative(adj) ==> s.dist[v].metres <= s.dist[u].metres + adj[u][v])
  }

  /** The queue holds an up-to-date entry for every unsettled node with a finite distance,
      and no entry is better than the recorded distance. */
  ghost predicate Queued(s: Search, walks: map<Node, seq<Node>>)
    requires forall v | v in walks :: v in s.dist && s.dist[v].Finite?
  {
    && (forall v | v in walks && v !in s.seen :: Item(v, s.dist[v].metres) in s.queue)
    && (forall e | e in s.queue :: e.node in walks && s.dist[e.node].metres <= e.key)
  }

  ghost predicate Invariant(adj: Adjacency, from: Node, s: Search, walks: map<Node, seq<Node>>) {
    && from in walks
    && Recorded(adj, from, s, walks)
    && s.dist[from] == Finite(0.0)
    && (if s.seen == {} then walks.Keys == {from} else from in s.seen)
    && Optimal(adj, from, s)
    && Queued(s, walks)
  }

  /** Any walk to an unsettled key passes an unsettled key whose recorded distance is
      no longer than the walk. */
  lemma {:induction false} Frontier(adj: Adjacency, from: Node, s: Search, p: seq<Node>) returns (y: Node)
    requires NonNegative(adj) && adj.Keys <= s.dist.Keys && from in adj && s.dist[from] == Finite(0.0)
    requires Optimal(adj, from, s) && Relaxed(adj, s, s.seen)
    requires IsWalk(adj, p) && p[0] == from && p[|p| - 1] in adj && p[|p| - 1] !in s.seen
    ensures y in s.dist && y !in s.seen && AtMost(s.dist[y], Length(adj, p))
  {
    if |p| == 1 {
      y := from;
    } else {
      var q, t := p[..|p| - 1], p[|p| - 1];
      var x := q[|q| - 1];
      assert HasEdge(adj, x, t) && Length(adj, p) == Length(adj, q) + adj[x][t];
      if x in s.seen {
        assert OptimalAt(adj, from, x, s.dist[x]) && Joins(adj, from, x, q);
        assert RelaxedEdge(adj, s, x, t);
        y := t;
      } else {
        y := Frontier(adj, from, s, q);
      }
    }
  }

  /** A minimal entry of an unsettled node carries its recorded distance, which is the true one
      without negative weights. */
  lemma MinimumIsFinal(adj: Adjacency, from: Node, s: Search, walks: map<Node, seq<Node>>, u: Item)
    requires Invariant(adj, from, s, walks) && Relaxed(adj, s, s.seen) && from in adj
    requires u in s.queue && (forall e | e in s.queue :: u.key <= e.key)
    requires u.node !in s.seen
    ensures u.node in walks && u.node in s.dist && s.dist[u.node] == Finite(u.key)
    ensures NonNegative(adj) ==> OptimalAt(adj, from, u.node, s.dist[u.node])
  {
    hide RecordedAt, OptimalAt, RelaxedEdge, NonNegative;
    if NonNegative(adj) {
      LeastIsShortest(adj, from, s, walks, u);
    }
  }

  lemma LeastIsShortest(adj: Adjacency, from: Node, s: Search, walks: map<Node, seq<Node>>, u: Item)
    requires NonNegative(adj) && Invariant(adj, from, s, walks) && Relaxed(adj, s, s.seen) && from in adj
    requires u in s.queue && (forall e | e in s.queue :: u.key <= e.key) && u.node !in s.seen
    requires u.node in s.dist && s.dist[u.node] == Finite(u.key)
    ensures OptimalAt(adj, from, u.node, s.dist[u.node])
  {
    hide RecordedAt, RelaxedEdge, Optimal;
    forall p | Joins(adj, from, u.node, p) ensures u.key <= Length(adj, p) {
      var y := Frontier(adj, from, s, p);
    }
  }

  /** Whatever the weights, an empty queue means that every key on a walk is settled. */
  lemma {:induction false} ExhaustedMeansSettled(adj: Adjacency, from: Node, s: Search, walks: map<Node, seq<Node>>,
                                                 p: seq<Node>)
    requires Invariant(adj, from, s, walks) && Relaxed(adj, s, s.seen) && s.queue == multiset{}
    requires IsWalk(adj, p) && p[0] == from && p[|p| - 1] in adj
    ensures p[|p| - 1] in s.seen
  {
    hide RecordedAt, Optimal, NonNegative;
    if |p| > 1 {
      var q, t := p[..|p| - 1], p[|p| - 1];
      ExhaustedMeansSettled(adj, from, s, walks, q);
      assert RelaxedEdge(adj, s, q[|q| - 1], t);
    }
  }

  lemma ExhaustedMeansUnreachable(adj: Adjacency, from: Node, s: Search, walks: map<Node, seq<Node>>, t: Node)
    requires Invariant(adj, from, s, walks) && Relaxed(adj, s, s.seen)
    requires s.queue == multiset{} && t in adj && t !in s.seen
    ensures !Reachable(adj, from, t) && t in s.dist && s.dist[t].Infinite?
  {
    hide RecordedAt, Optimal, NonNegative, RelaxedEdge;
    forall p | Joins(adj, from, t, p) ensures false {
      ExhaustedMeansSettled(adj, from, s, walks, p);
    }
  }

  // ---- Queue -------------------------------------------------------------

  ghost predicate IsLeast(queue: multiset<Item>, u: Item) {
    u in queue && forall e | e in queue :: u.key <= e.key
  }

  lemma LeastOf(q: multiset<Item>, a: Item, m: Item)
    requires a in q && IsLeast(q - multiset{a}, m)
    ensures IsLeast(q, if a.key <= m.key then a else m)
  {
    forall e | e in q ensures (if a.key <= m.key then a.key else m.key) <= e.key {
      assert e == a || e in q - multiset{a};
    }
  }

  lemma {:induction false} MinimumExists(q: multiset<Item>) returns (u: Item)
    requires q != multiset{}
    ensures IsLeast(q, u)
    decreases |q|
  {
    var a :| a in q;
    if q == multiset{a} {
      u := a;
    } else {
      hide IsLeast;
      var m := MinimumExists(q - multiset{a});
      LeastOf(q, a, m);
      u := if a.key <= m.key then a else m;
    }
  }

  /** heap.Pop: some entry with a least key leaves the queue. */
  method PopMinimum(q: multiset<Item>) returns (u: Item, rest: multiset<Item>)
    requires q != multiset{}
    ensures u in q && rest == q - multiset{u}
    ensures forall e | e in q :: u.key <= e.key
  {
    ghost var least := MinimumExists(q);
    u :| u in q && forall e | e in q :: u.key <= e.key;
    rest := q - multiset{u};
  }

  // ---- One settled node --------------------------------------------------

  /** The search after relaxing the edge from u to v. */
  function Improve(s: Search, u: Node, v: Node, alt: real): Search {
    s.(dist := s.dist[v := Finite(alt)], prev := s.prev[v := u], queue := s.queue + multiset{Item(v, alt)})
  }

  /** The search after looking at the edge from u to v. A node that is no key of adj reads as
      distance 0. */
  function RelaxOne(adj: Adjacency, s: Search, u: Node, v: Node): Search {
    if v in s.seen || !HasEdge(adj, u, v) || u !in s.dist || s.dist[u].Infinite? then s
    else
      var alt := s.dist[u].metres + adj[u][v];
      var known := if v in s.dist then s.dist[v] else Finite(0.0);
      if known.Infinite? || alt < known.metres then Improve(s, u, v, alt) else s
  }

  /** The search after looking at the edges from u in the given order. */
  function RelaxAll(adj: Adjacency, s: Search, u: Node, order: seq<Node>): Search {
    if order == [] then s
    else RelaxOne(adj, RelaxAll(adj, s, u, order[..|order| - 1]), u, order[|order| - 1])
  }

  /** Each of the nodes once. */
  ghost predicate IsOrder(order: seq<Node>, nodes: set<Node>) {
    NoRepeats(order) && forall v :: v in order <==> v in nodes
  }

  /** The search after the entry u is popped and its node settled. */
  function Settling(s: Search, u: Item): Search {
    s.(queue := s.queue - multiset{u}, seen := s.seen + {u.node})
  }

  /** Relaxing one edge keeps the invariant. */
  lemma RelaxStep(adj: Adjacency, from: Node, s: Search, walks: map<Node, seq<Node>>, u: Node, v: Node, alt: real)
    requires Invariant(adj, from, s, walks)
    requires u in s.seen && HasEdge(adj, u, v) && v !in s.seen && u in s.dist && s.dist[u].Finite?
    requires alt == s.dist[u].metres + adj[u][v] && (NonNegative(adj) ==> v in adj)
    requires v in s.dist ==> s.dist[v].Infinite? || alt < s.dist[v].metres
    ensures Invariant(adj, from, Improve(s, u, v, alt), walks[v := walks[u] + [v]])
  {
    hide RecordedAt, OptimalAt, NonNegative, Nodes;
    var t, ws := Improve(s, u, v, alt), walks[v := walks[u] + [v]];
    EdgeInNodes(adj, u, v);
    RelaxRecords(adj, from, s, walks, u, v, alt);
    forall w | w in walks && w != v ensures RecordedAt(adj, from, t, ws, w) {
      RecordedFrame(adj, from, s, walks, t, ws, w);
    }
    QueueKeeps(s, walks, u, v, alt);
  }

  /** All nodes that the graph mentions. */
  function Nodes(adj: Adjacency): set<Node> {
    adj.Keys + set u, v | u in adj && v in adj[u] :: v
  }

  lemma EdgeInNodes(adj: Adjacency, u: Node, v: Node)
    requires HasEdge(adj, u, v)
    ensures v in Nodes(adj)
  {
  }

  lemma QueueKeeps(s: Search, walks: map<Node, seq<Node>>, u: Node, v: Node, alt: real)
    requires forall w | w in walks :: w in s.dist && s.dist[w].Finite?
    requires Queued(s, walks) && u in walks
    requires v in s.dist ==> s.dist[v].Infinite? || alt < s.dist[v].metres
    requires v in walks ==> v in s.dist
    ensures Queued(Improve(s, u, v, alt), walks[v := walks[u] + [v]])
  {
  }

  /** A record survives any change elsewhere. */
  lemma RecordedFrame(adj: Adjacency, from: Node, s: Search, walks: map<Node, seq<Node>>,
                      t: Search, ws: map<Node, seq<Node>>, w: Node)
    requires w in walks && w in s.dist && s.dist[w].Finite? && RecordedAt(adj, from, s, walks, w)
    requires w in ws && w in t.dist && t.dist[w] == s.dist[w] && ws[w] == walks[w]
    requires s.seen <= t.seen && (w in t.prev <==> w in s.prev) && (w in s.prev ==> t.prev[w] == s.prev[w])
    requires forall x | x in s.seen && x in walks :: x in ws && ws[x] == walks[x]
    ensures RecordedAt(adj, from, t, ws, w)
  {
  }

  lemma RelaxRecords(adj: Adjacency, from: Node, s: Search, walks: map<Node, seq<Node>>, u: Node, v: Node, alt: real)
    requires HasEdge(adj, u, v) && v !in s.seen && u in s.seen && u in walks
    requires u in s.dist && s.dist[u].Finite? && RecordedAt(adj, from, s, walks, u)
    requires alt == s.dist[u].metres + adj[u][v]
    ensures RecordedAt(adj, from, Improve(s, u, v, alt), walks[v := walks[u] + [v]], v)
  {
    ExtendWalk(adj, walks[u], v);
  }

  /** The search keeps its invariant, with the edges from u to the nodes of `done` relaxed. */
  ghost predicate Relaxing(adj: Adjacency, from: Node, s: Search, walks: map<Node, seq<Node>>, u: Node,
                           done: set<Node>) {
    && Invariant(adj, from, s, walks) && u in s.seen && Relaxed(adj, s, s.seen - {u})
    && forall v | v in done && v in adj :: HasEdge(adj, u, v) && RelaxedEdge(adj, s, u, v)
  }

  lemma RelaxOneKeeps(adj: Adjacency, from: Node, s: Search, walks: map<Node, seq<Node>>, u: Node, v: Node,
                      done: set<Node>)
    returns (ws: map<Node, seq<Node>>)
    requires Relaxing(adj, from, s, walks, u, done) && HasEdge(adj, u, v) && done <= Neighbours(adj, u)
    ensures var t := RelaxOne(adj, s, u, v);
            && Relaxing(adj, from, t, ws, u, done + {v}) && t.seen == s.seen
            && (forall w | w in s.seen :: w in ws && w in walks && ws[w] == walks[w])
            && |s.queue| <= |t.queue| <= |s.queue| + 1
  {
    hide RecordedAt, OptimalAt, Optimal, Queued, NonNegative, RelaxedEdge, Nodes;
    ws := walks;
    SettledFinite(adj, from, s, walks, u, done);
    if v in s.seen {
      SettledEdge(adj, from, s, walks, u, v);
    } else {
      var alt := s.dist[u].metres + adj[u][v];
      if v in s.dist && !(s.dist[v].Infinite? || alt < s.dist[v].metres) {
        NoGain(adj, s, u, v);
      } else if v in s.dist || alt < 0.0 {
        if NonNegative(adj) && v !in s.dist {
          SumNonNegative(adj, from, s, walks, u, v);
        }
        RelaxStep(adj, from, s, walks, u, v, alt);
        RelaxKeeps(adj, s, Improve(s, u, v, alt), u, v, s.seen - {u}, done + {v});
        ws := walks[v := walks[u] + [v]];
      }
    }
  }

  lemma NoGain(adj: Adjacency, s: Search, u: Node, v: Node)
    requires HasEdge(adj, u, v) && u in s.dist && s.dist[u].Finite? && v in s.dist && s.dist[v].Finite?
    requires s.dist[v].metres <= s.dist[u].metres + adj[u][v]
    ensures RelaxedEdge(adj, s, u, v)
  {
  }

  lemma RelaxingStarts(adj: Adjacency, from: Node, s: Search, walks: map<Node, seq<Node>>, u: Node)
    requires Relaxing(adj, from, s, walks, u, {})
    ensures var all := Neighbours(adj, u);
            Relaxing(adj, from, s, walks, u, all - all) && IsOrder([], all - all)
    ensures forall w | w in s.seen :: w in walks
  {
    hide RecordedAt, OptimalAt, RelaxedEdge;
    assert Neighbours(adj, u) - Neighbours(adj, u) == {};
  }

  lemma SettledFinite(adj: Adjacency, from: Node, s: Search, walks: map<Node, seq<Node>>, u: Node, done: set<Node>)
    requires Relaxing(adj, from, s, walks, u, done)
    ensures u in walks && u in s.dist && s.dist[u].Finite?
  {
    hide RecordedAt, OptimalAt, RelaxedEdge;
  }

  method RelaxNeighbours(adj: Adjacency, from: Node, u: Node, s0: Search, ghost walks0: map<Node, seq<Node>>)
    returns (s: Search, ghost walks: map<Node, seq<Node>>, ghost order: seq<Node>)
    requires Relaxing(adj, from, s0, walks0, u, {})
    // Every neighbour was looked at once, in some order.
    ensures IsOrder(order, Neighbours(adj, u)) && s == RelaxAll(adj, s0, u, order)
    ensures Invariant(adj, from, s, walks) && Relaxed(adj, s, s.seen) && s.seen == s0.seen
    // The heap grows by at most one entry for each edge.
    ensures |s0.queue| <= |s.queue| <= |s0.queue| + |Neighbours(adj, u)|
    ensures forall w | w in s.seen :: w in walks && w in walks0 && walks[w] == walks0[w]
  {
    hide Invariant, Relaxed, Relaxing, Improve, IsOrder;
    s, walks, order := s0, walks0, [];
    RelaxingStarts(adj, from, s, walks, u);
    var all := Neighbours(adj, u);
    var todo := all;
    while todo != {}
      invariant todo <= all && Relaxing(adj, from, s, walks, u, all - todo)
      invariant IsOrder(order, all - todo) && s == RelaxAll(adj, s0, u, order) && s.seen == s0.seen
      invariant |s0.queue| <= |s.queue| && |s.queue| + |todo| <= |s0.queue| + |all|
      invariant forall w | w in s.seen :: w in walks && w in walks0 && walks[w] == walks0[w]
    {
      var v :| v in todo;
      ghost var before := s;
      SettledFinite(adj, from, s, walks, u, all - todo);
      walks := RelaxOneKeeps(adj, from, s, walks, u, v, all - todo);
      if v !in s.seen {
        var alt := s.dist[u].metres + adj[u][v];
        // A node that is no key of adj reads as distance 0.
        var known := if v in s.dist then s.dist[v] else Finite(0.0);
        if known.Infinite? || alt < known.metres {
          s := Improve(s, u, v, alt);
        }
      }
      assert s == RelaxOne(adj, before, u, v);
      assert all - (todo - {v}) == all - todo + {v};
      OrderGrows(order, v, all - todo);
      assert (order + [v])[..|order|] == order;
      todo, order := todo - {v}, order + [v];
    }
    assert all - todo == all;
    AllRelaxed(adj, from, s, walks, u);
  }

  lemma OrderGrows(order: seq<Node>, v: Node, nodes: set<Node>)
    requires IsOrder(order, nodes) && v !in nodes
    ensures IsOrder(order + [v], nodes + {v})
  {
  }

  lemma AllRelaxed(adj: Adjacency, from: Node, s: Search, walks: map<Node, seq<Node>>, u: Node)
    requires Relaxing(adj, from, s, walks, u, Neighbours(adj, u))
    ensures Invariant(adj, from, s, walks) && Relaxed(adj, s, s.seen)
  {
    hide Invariant, RelaxedEdge;
    forall a, b | a in s.seen && HasEdge(adj, a, b) && b in adj ensures RelaxedEdge(adj, s, a, b) {
      if a != u {
        assert a in s.seen - {u};
      }
    }
  }

  lemma SumNonNegative(adj: Adjacency, from: Node, s: Search, walks: map<Node, seq<Node>>, u: Node, v: Node)
    requires NonNegative(adj) && Invariant(adj, from, s, walks) && u in walks && HasEdge(adj, u, v)
    ensures u in s.dist && s.dist[u].Finite? && s.dist[u].metres + adj[u][v] >= 0.0
  {
    assert RecordedAt(adj, from, s, walks, u);
    LengthNonNegative(adj, walks[u]);
  }

  /** An edge between settled nodes needs no relaxing. */
  lemma SettledEdge(adj: Adjacency, from: Node, s: Search, walks: map<Node, seq<Node>>, u: Node, v: Node)
    requires Invariant(adj, from, s, walks)
    requires u in s.seen && v in s.seen && HasEdge(adj, u, v)
    ensures RelaxedEdge(adj, s, u, v)
  {
    hide RecordedAt, OptimalAt, NonNegative, Nodes, Queued;
    if NonNegative(adj) {
      SettledBound(adj, from, s, walks, u, v);
    }
  }

  lemma SettledBound(adj: Adjacency, from: Node, s: Search, walks: map<Node, seq<Node>>, u: Node, v: Node)
    requires HasEdge(adj, u, v) && u in walks && u in s.dist && s.dist[u].Finite? && v in s.dist
    requires RecordedAt(adj, from, s, walks, u) && OptimalAt(adj, from, v, s.dist[v])
    ensures s.dist[v].metres <= s.dist[u].metres + adj[u][v]
  {
    ExtendWalk(adj, walks[u], v);
    assert Joins(adj, from, v, walks[u] + [v]);
  }

  /** Lowering an unsettled distance keeps every edge relaxed so far. */
  lemma RelaxKeeps(adj: Adjacency, s: Search, t: Search, u: Node, v: Node, settled: set<Node>, done: set<Node>)
    requires u in s.seen && v !in s.seen && settled <= s.seen && HasEdge(adj, u, v)
    requires u in s.dist && s.dist[u].Finite?
    requires t.dist == s.dist[v := Finite(s.dist[u].metres + adj[u][v])]
    requires v in s.dist ==> s.dist[v].Infinite? || s.dist[u].metres + adj[u][v] < s.dist[v].metres
    requires done <= Neighbours(adj, u) && Relaxed(adj, s, settled)
    requires forall x | x in done - {v} && x in adj :: RelaxedEdge(adj, s, u, x)
    ensures Relaxed(adj, t, settled)
    ensures forall x | x in done && x in adj :: RelaxedEdge(adj, t, u, x)
  {
    hide NonNegative;
    forall a, b | a in settled && HasEdge(adj, a, b) && b in adj ensures RelaxedEdge(adj, t, a, b) {
      assert RelaxedEdge(adj, s, a, b);
    }
  }

  /** Settling a node whose distance is final keeps the invariant. */
  lemma SettleStep(adj: Adjacency, from: Node, s: Search, walks: map<Node, seq<Node>>, u: Item)
    requires Invariant(adj, from, s, walks) && Relaxed(adj, s, s.seen) && from in adj
    requires u in s.queue && (forall e | e in s.queue :: u.key <= e.key)
    requires u.node !in s.seen
    ensures var t := Settling(s, u);
            Invariant(adj, from, t, walks) && Relaxed(adj, t, t.seen - {u.node})
  {
    hide RecordedAt, OptimalAt, NonNegative, Nodes;
    MinimumIsFinal(adj, from, s, walks, u);
    var t := Settling(s, u);
    forall w | w in walks ensures RecordedAt(adj, from, t, walks, w) {
      RecordedFrame(adj, from, s, walks, t, walks, w);
    }
    assert t.seen - {u.node} == s.seen;
    forall a, b | a in s.seen && HasEdge(adj, a, b) && b in adj ensures RelaxedEdge(adj, t, a, b) {
      assert RelaxedEdge(adj, s, a, b);
    }
  }

  // ---- Settling times and heap traffic ------------------------------------

  ghost predicate Increasing(p: seq<Node>, rank: map<Node, nat>) {
    && (forall i | 0 <= i < |p| :: p[i] in rank)
    && (forall i, j | 0 <= i < j < |p| :: rank[p[i]] < rank[p[j]])
  }

  /** rank numbers the settled nodes; it increases along the walk of every settled node. */
  ghost predicate Ranked(seen: set<Node>, walks: map<Node, seq<Node>>, rank: map<Node, nat>) {
    && rank.Keys == seen
    && (forall u | u in rank :: rank[u] < |rank|)
    && (forall u, v | u in rank && v in rank && u != v :: rank[u] != rank[v])
    && (forall u | u in seen :: u in walks && Increasing(walks[u], rank))
  }

  lemma SettleRank(adj: Adjacency, from: Node, s: Search, walks: map<Node, seq<Node>>, rank: map<Node, nat>, u: Node)
    requires Recorded(adj, from, s, walks) && Ranked(s.seen, walks, rank) && u in walks && u !in s.seen
    ensures Ranked(s.seen + {u}, walks, rank[u := |rank|])
  {
    hide Recorded, RecordedAt, Increasing;
    var next := rank[u := |rank|];
    assert next.Keys == rank.Keys + {u};
    assert |next| == |rank| + 1;
    forall w | w in s.seen + {u} ensures w in walks && Increasing(walks[w], next) {
      if w == u {
        LastWalk(adj, from, s, walks, rank, u);
      } else {
        IncreasingFrame(walks[w], rank, u);
      }
    }
  }

  lemma IncreasingFrame(p: seq<Node>, rank: map<Node, nat>, u: Node)
    requires Increasing(p, rank) && u !in rank
    ensures Increasing(p, rank[u := |rank|])
  {
  }

  lemma LastWalk(adj: Adjacency, from: Node, s: Search, walks: map<Node, seq<Node>>, rank: map<Node, nat>, u: Node)
    requires Recorded(adj, from, s, walks) && Ranked(s.seen, walks, rank) && u in walks && u !in s.seen
    ensures Increasing(walks[u], rank[u := |rank|])
  {
    hide Joins, NoRepeats, Length;
    assert RecordedAt(adj, from, s, walks, u);
    if u in s.prev {
      assert Increasing(walks[s.prev[u]], rank);
    }
  }

  ghost function EdgesFrom(adj: Adjacency, nodes: set<Node>): set<(Node, Node)> {
    set u, v | u in nodes && u in adj && v in adj[u] :: (u, v)
  }

  lemma {:induction false} StarSize(u: Node, targets: set<Node>)
    ensures |set v | v in targets :: (u, v)| == |targets|
  {
    if targets != {} {
      var x :| x in targets;
      StarSize(u, targets - {x});
      assert (set v | v in targets :: (u, v)) == (set v | v in targets - {x} :: (u, v)) + {(u, x)};
    }
  }

  lemma EdgesFromGrows(adj: Adjacency, nodes: set<Node>, u: Node)
    requires u !in nodes
    ensures |EdgesFrom(adj, nodes + {u})| == |EdgesFrom(adj, nodes)| + |Neighbours(adj, u)|
  {
    var star := set v | v in Neighbours(adj, u) :: (u, v);
    StarSize(u, Neighbours(adj, u));
    EdgesSplit(adj, nodes, u, star);
    hide EdgesFrom, Neighbours;
  }

  lemma EdgesSplit(adj: Adjacency, nodes: set<Node>, u: Node, star: set<(Node, Node)>)
    requires u !in nodes && star == set v | v in Neighbours(adj, u) :: (u, v)
    ensures EdgesFrom(adj, nodes + {u}) == EdgesFrom(adj, nodes) + star
    ensures EdgesFrom(adj, nodes) !! star
  {
  }

  // ---- The search ---------------------------------------------------------

  /** The part of a walk after the last node with the empty name, which prev uses for "none". */
  ghost function AfterSentinel(w: seq<Node>): seq<Node> {
    if w == [] || w[|w| - 1] == "" then [] else AfterSentinel(w[..|w| - 1]) + [w[|w| - 1]]
  }

  lemma {:induction false} SentinelCuts(w: seq<Node>)
    ensures AfterSentinel(w) == w <==> "" !in w
    ensures |AfterSentinel(w)| <= |w|
  {
    if w != [] {
      var front := w[..|w| - 1];
      SentinelCuts(front);
      assert w == front + [w[|w| - 1]];
    }
  }

  lemma Predecessor(adj: Adjacency, from: Node, s: Search, walks: map<Node, seq<Node>>, at: Node)
    requires Recorded(adj, from, s, walks) && at in walks
    ensures walks[at] != [] && walks[at][|walks[at]| - 1] == at
    ensures var front := walks[at][..|walks[at]| - 1];
            if at in s.prev
            then s.prev[at] in walks && front == walks[s.prev[at]] && front != [] && front[|front| - 1] == s.prev[at]
            else front == []
  {
    assert RecordedAt(adj, from, s, walks, at);
    if at in s.prev {
      assert RecordedAt(adj, from, s, walks, s.prev[at]);
    }
  }

  /** Following prev gives back the recorded walk as far as the empty name. */
  method RebuildPath(adj: Adjacency, from: Node, s: Search, ghost walks: map<Node, seq<Node>>, to: Node)
    returns (path: seq<Node>)
    requires Recorded(adj, from, s, walks) && to in walks
    ensures path == AfterSentinel(walks[to])
  {
    hide Recorded;
    path := [];
    var at := to;
    Predecessor(adj, from, s, walks, at);
    ghost var rest := walks[to];
    while at != ""
      invariant rest == [] || rest[|rest| - 1] == "" <==> at == ""
      invariant at != "" ==> at in walks && rest == walks[at]
      invariant AfterSentinel(rest) + path == AfterSentinel(walks[to])
      decreases |rest|
    {
      Predecessor(adj, from, s, walks, at);
      rest := rest[..|rest| - 1];
      path := [at] + path;
      at := if at in s.prev then s.prev[at] else "";
    }
  }

  /** The variables when the loop begins. */
  function StartSearch(adj: Adjacency, from: Node): Search {
    Search((map id | id in adj :: Infinite)[from := Finite(0.0)], map[], multiset{Item(from, 0.0)}, {})
  }

  ghost predicate State(adj: Adjacency, from: Node, to: Node, s: Search, walks: map<Node, seq<Node>>,
                        rank: map<Node, nat>) {
    && from in adj && Invariant(adj, from, s, walks) && Relaxed(adj, s, s.seen)
    && Ranked(s.seen, walks, rank) && to !in s.seen
  }

  lemma StartInvariant(adj: Adjacency, from: Node, to: Node, s: Search, walks: map<Node, seq<Node>>,
                       rank: map<Node, nat>)
    requires from in adj && rank == map[] && s == StartSearch(adj, from)
    requires walks == map[from := [from]]
    ensures State(adj, from, to, s, walks, rank)
  {
    assert RecordedAt(adj, from, s, walks, from);
  }

  lemma ReachTarget(adj: Adjacency, from: Node, to: Node, s: Search, walks: map<Node, seq<Node>>, rank: map<Node, nat>,
                    u: Item)
    requires State(adj, from, to, s, walks, rank)
    requires u in s.queue && (forall e | e in s.queue :: u.key <= e.key) && u.node == to
    ensures Recorded(adj, from, s, walks) && Ranked(s.seen, walks, rank)
    ensures to in s.dist && s.dist[to].Finite? && (NonNegative(adj) ==> OptimalAt(adj, from, to, s.dist[to]))
  {
    MinimumIsFinal(adj, from, s, walks, u);
  }

  lemma GiveUp(adj: Adjacency, from: Node, to: Node, s: Search, walks: map<Node, seq<Node>>, rank: map<Node, nat>)
    requires State(adj, from, to, s, walks, rank) && to in adj && s.queue == multiset{}
    ensures Recorded(adj, from, s, walks) && Ranked(s.seen, walks, rank)
    ensures to in s.dist && s.dist[to].Infinite? && !Reachable(adj, from, to)
  {
    ExhaustedMeansUnreachable(adj, from, s, walks, to);
  }

  lemma Settle(adj: Adjacency, from: Node, to: Node, s: Search, walks: map<Node, seq<Node>>, rank: map<Node, nat>,
               u: Item)
    requires State(adj, from, to, s, walks, rank)
    requires u in s.queue && (forall e | e in s.queue :: u.key <= e.key) && u.node !in s.seen && u.node != to
    ensures var t := Settling(s, u);
            && Relaxing(adj, from, t, walks, u.node, {})
            && |Nodes(adj) - t.seen| < |Nodes(adj) - s.seen|
            && Ranked(t.seen, walks, rank[u.node := |rank|]) && to !in t.seen
            && |EdgesFrom(adj, t.seen)| == |EdgesFrom(adj, s.seen)| + |Neighbours(adj, u.node)|
  {
    hide RecordedAt, OptimalAt, RelaxedEdge, EdgesFrom, Increasing, NonNegative, Neighbours, Nodes;
    SettleStep(adj, from, s, walks, u);
    SettleRank(adj, from, s, walks, rank, u.node);
    EdgesFromGrows(adj, s.seen, u.node);
    OneFewer(Nodes(adj), s.seen, u.node);
  }

  lemma OneFewer(all: set<Node>, seen: set<Node>, u: Node)
    requires u in all && u !in seen
    ensures |all - (seen + {u})| < |all - seen|
  {
    assert all - (seen + {u}) == all - seen - {u};
  }

  lemma RankFrame(seen: set<Node>, before: map<Node, seq<Node>>, walks: map<Node, seq<Node>>, rank: map<Node, nat>)
    requires Ranked(seen, before, rank)
    requires forall w | w in seen :: w in walks && w in before && walks[w] == before[w]
    ensures Ranked(seen, walks, rank)
  {
    hide Increasing;
  }

  // ---- Runs of the loop -----------------------------------------------------------------

  function Neighbours(adj: Adjacency, u: Node): set<Node> {
    if u in adj then adj[u].Keys else {}
  }

  ghost predicate Relaxes(adj: Adjacency, s: Search, u: Node, t: Search) {
    exists order :: IsOrder(order, Neighbours(adj, u)) && t == RelaxAll(adj, s, u, order)
  }

  /** One turn: the least entry u, which is not the target's, is popped and dropped or settled. */
  ghost predicate Turn(adj: Adjacency, to: Node, s: Search, u: Item, t: Search) {
    && IsLeast(s.queue, u) && u.node != to
    && if u.node in s.seen then t == s.(queue := s.queue - multiset{u}) else Relaxes(adj, Settling(s, u), u.node, t)
  }

  /** Successive states of the search for `to`, popping the given entries. */
  ghost predicate IsSearch(adj: Adjacency, from: Node, to: Node, run: seq<Search>, pops: seq<Item>) {
    && |run| == |pops| + 1 && run[0] == StartSearch(adj, from)
    && forall i | 0 <= i < |pops| :: Turn(adj, to, run[i], pops[i], run[i + 1])
  }

  lemma SearchGrows(adj: Adjacency, from: Node, to: Node, run: seq<Search>, pops: seq<Item>, u: Item, t: Search)
    requires IsSearch(adj, from, to, run, pops) && Turn(adj, to, run[|pops|], u, t)
    ensures IsSearch(adj, from, to, run + [t], pops + [u])
  {
    hide Turn, StartSearch;
    forall i | 0 <= i < |pops| + 1 ensures Turn(adj, to, (run + [t])[i], (pops + [u])[i], (run + [t])[i + 1]) {
      if i < |pops| {
        assert Turn(adj, to, run[i], pops[i], run[i + 1]);
      }
    }
  }

  lemma SearchBegins(adj: Adjacency, from: Node, to: Node)
    ensures IsSearch(adj, from, to, [StartSearch(adj, from)], []) && |StartSearch(adj, from).queue| == 1
  {
  }

  lemma TurnDrops(adj: Adjacency, to: Node, s: Search, u: Item)
    requires u in s.queue && (forall e | e in s.queue :: u.key <= e.key) && u.node != to && u.node in s.seen
    ensures Turn(adj, to, s, u, s.(queue := s.queue - multiset{u}))
  {
  }

  lemma TurnSettles(adj: Adjacency, to: Node, s: Search, u: Item, order: seq<Node>)
    requires u in s.queue && (forall e | e in s.queue :: u.key <= e.key) && u.node != to && u.node !in s.seen
    requires IsOrder(order, Neighbours(adj, u.node))
    ensures Turn(adj, to, s, u, RelaxAll(adj, Settling(s, u), u.node, order))
  {
    hide RelaxAll, IsOrder;
  }

  lemma IsSettling(s: Search, u: Item, t: Search)
    requires t == s.(queue := s.queue - multiset{u}, seen := s.seen + {u.node})
    ensures t == Settling(s, u)
  {
  }

  lemma GoOn(adj: Adjacency, from: Node, to: Node, s: Search, walks: map<Node, seq<Node>>, rank: map<Node, nat>)
    requires Invariant(adj, from, s, walks) && Relaxed(adj, s, s.seen) && Ranked(s.seen, walks, rank)
    requires from in adj && to !in s.seen
    ensures State(adj, from, to, s, walks, rank)
  {
  }

  /** The loop over the queue: on exit the target's distance is final, or it is infinite
      because no walk reaches it. */
  method Explore(adj: Adjacency, from: Node, to: Node)
    returns (s: Search, ghost walks: map<Node, seq<Node>>, ghost rank: map<Node, nat>,
             ghost run: seq<Search>, ghost pops: seq<Item>)
    requires from in adj && to in adj && from != to
    ensures Recorded(adj, from, s, walks) && Ranked(s.seen, walks, rank)
    ensures if s.dist[to].Infinite? then !Reachable(adj, from, to)
            else NonNegative(adj) ==> OptimalAt(adj, from, to, s.dist[to])
    // The states were those of a search that ends with nothing or the target to pop.
    ensures IsSearch(adj, from, to, run, pops) && s == run[|pops|]
    ensures s.queue == multiset{} || exists u :: IsLeast(s.queue, u) && u.node == to
    // Entries popped and entries left are at most one more than the edges.
    ensures |pops| + |s.queue| <= 1 + |EdgePairs(adj)|
  {
    hide State, Relaxing, Ranked, Recorded, OptimalAt, EdgesFrom, EdgePairs, NonNegative, Reachable, StartSearch;
    hide Turn, RelaxAll, IsOrder, Settling, IsSearch, Invariant, Relaxed, Nodes, Neighbours;
    s := StartSearch(adj, from);
    walks, rank, run, pops := map[from := [from]], map[], [s], [];
    StartInvariant(adj, from, to, s, walks, rank);
    SearchBegins(adj, from, to);
    while s.queue != multiset{}
      invariant State(adj, from, to, s, walks, rank)
      invariant IsSearch(adj, from, to, run, pops) && |run| == |pops| + 1 && s == run[|pops|]
      invariant |pops| + |s.queue| <= 1 + |EdgesFrom(adj, s.seen)|
      decreases |Nodes(adj) - s.seen|, |s.queue|
    {
      var u, rest := PopMinimum(s.queue);
      if u.node == to {
        ReachTarget(adj, from, to, s, walks, rank, u);
        PushBound(adj, s.seen);
        return;
      }
      if u.node in s.seen {
        DropStale(adj, from, to, s, walks, rank, u);
        TurnDrops(adj, to, s, u);
        SearchGrows(adj, from, to, run, pops, u, s.(queue := rest));
        s := s.(queue := rest);
      } else {
        Settle(adj, from, to, s, walks, rank, u);
        ghost var before, mid, order := s, walks, [];
        s := s.(queue := rest, seen := s.seen + {u.node});
        IsSettling(before, u, s);
        s, walks, order := RelaxNeighbours(adj, from, u.node, s, walks);
        rank := rank[u.node := |rank|];
        RankFrame(s.seen, mid, walks, rank);
        GoOn(adj, from, to, s, walks, rank);
        TurnSettles(adj, to, before, u, order);
        SearchGrows(adj, from, to, run, pops, u, s);
      }
      run, pops := run + [s], pops + [u];
    }
    GiveUp(adj, from, to, s, walks, rank);
    PushBound(adj, s.seen);
  }

  /** The empty name is a key with an edge from or to another key. */
  ghost predicate UsesSentinel(adj: Adjacency) {
    "" in adj && exists v :: v != "" && v in adj && (HasEdge(adj, "", v) || HasEdge(adj, v, ""))
  }

  method ShortestPath(adj: Adjacency, from: Node, to: Node)
    returns (r: Outcome, ghost walk: seq<Node>, ghost rank: map<Node, nat>, ghost run: seq<Search>,
             ghost pops: seq<Item>)
    // An error is reported exactly when an endpoint is unknown or no walk exists.
    ensures r.PathNotFound? <==> from !in adj || to !in adj || !Reachable(adj, from, to)
    // Otherwise a simple walk of the reported length was found, and none is shorter unless there
    // are negative weights.
    ensures r.Found? ==> Joins(adj, from, to, walk) && NoRepeats(walk) && Length(adj, walk) == r.metres
    ensures r.Found? && NonNegative(adj) ==> IsShortest(adj, from, to, r.metres)
    // The path is the part of that walk after the empty name, hence the walk exactly when no
    // node on it has that name.
    ensures r.Found? && from != to ==> r.path == AfterSentinel(walk) && (r.path == walk <==> "" !in walk)
    ensures r.Found? && (from == to || !UsesSentinel(adj)) ==> r.path == walk
    // rank is the settling time: every node is settled at most once, the nodes before the
    // target are settled, and each of them strictly after its predecessor.
    ensures rank.Keys <= Nodes(adj) && (forall u | u in rank :: rank[u] < |rank|)
    ensures NonNegative(adj) ==> rank.Keys <= adj.Keys
    ensures forall u, v | u in rank && v in rank && u != v :: rank[u] != rank[v]
    ensures r.Found? ==> forall i | 0 <= i < |walk| - 1 :: walk[i] in rank
    ensures r.Found? ==> forall i, j | 0 <= i < j < |walk| - 1 :: rank[walk[i]] < rank[walk[j]]
    // Heap entries popped on the way and left at the end are at most one more than the edges.
    ensures from in adj && to in adj && from != to ==>
              IsSearch(adj, from, to, run, pops) && |pops| + |run[|pops|].queue| <= 1 + |EdgePairs(adj)|
  {
    hide *;
    walk, rank, run, pops := [], map[], [], [];
    if from !in adj || to !in adj {
      return PathNotFound, walk, rank, run, pops;
    }
    if from == to {
      StayPut(adj, from);
      return Found([from], 0.0), [from], rank, run, pops;
    }
    var s;
    ghost var walks;
    s, walks, rank, run, pops := Explore(adj, from, to);
    SettledOnce(adj, from, s, walks, rank);
    if s.dist[to].Infinite? {
      return PathNotFound, walk, rank, run, pops;
    }
    Conclude(adj, from, s, walks, rank, to);
    walk := walks[to];
    var path := RebuildPath(adj, from, s, walks, to);
    SentinelCuts(walk);
    if !UsesSentinel(adj) {
      SentinelAvoided(adj, from, to, walk);
    }
    return Found(path, s.dist[to].metres), walk, rank, run, pops;
  }

  /** The empty name is on a walk between two different keys only if it has an edge from or to
      another key. */
  lemma SentinelAvoided(adj: Adjacency, from: Node, to: Node, p: seq<Node>)
    requires Joins(adj, from, to, p) && from != to && to in adj && !UsesSentinel(adj)
    ensures "" !in p
  {
    WalkInKeys(adj, p);
    if "" in p {
      var i :| 0 <= i < |p| && p[i] == "";
      var j := Leaves(p, i);
      WalkEdges(adj, p, j);
    }
  }

  /** A sequence with different ends that has the empty name at i changes from or to it somewhere. */
  lemma {:induction false} Leaves(p: seq<Node>, i: nat) returns (j: nat)
    requires i < |p| && p[i] == "" && p[0] != p[|p| - 1]
    ensures j + 1 < |p| && (p[j] == "" <==> p[j + 1] != "")
  {
    j := 0;
    while j + 2 < |p| && (p[j] == "" <==> p[j + 1] == "")
      invariant j + 1 < |p| && forall k | 0 <= k <= j :: p[k] == "" <==> p[0] == ""
    {
      j := j + 1;
    }
  }

  lemma {:induction false} WalkEdges(adj: Adjacency, p: seq<Node>, j: nat)
    requires IsWalk(adj, p) && j + 1 < |p|
    ensures HasEdge(adj, p[j], p[j + 1])
  {
    if j + 2 < |p| {
      WalkEdges(adj, p[..|p| - 1], j);
    }
  }

  /** All rebuilt paths of a graph are whole exactly if it does not use the empty name. */
  lemma WholeExactlyWithoutSentinel(adj: Adjacency)
    ensures (forall from, to, p | from in adj && to in adj && from != to && Joins(adj, from, to, p) ::
               AfterSentinel(p) == p)
            <==> !UsesSentinel(adj)
  {
    if UsesSentinel(adj) {
      var v :| v != "" && v in adj && (HasEdge(adj, "", v) || HasEdge(adj, v, ""));
      var a, b := if HasEdge(adj, "", v) then "" else v, if HasEdge(adj, "", v) then v else "";
      assert [a, b][..1] == [a] && Joins(adj, a, b, [a, b]);
      SentinelCuts([a, b]);
    } else {
      forall from, to, p | from in adj && to in adj && from != to && Joins(adj, from, to, p)
        ensures AfterSentinel(p) == p
      {
        SentinelAvoided(adj, from, to, p);
        SentinelCuts(p);
      }
    }
  }

  lemma {:induction false} WalkInKeys(adj: Adjacency, p: seq<Node>)
    requires IsWalk(adj, p) && p[|p| - 1] in adj
    ensures forall i | 0 <= i < |p| :: p[i] in adj
  {
    if |p| > 1 {
      WalkInKeys(adj, p[..|p| - 1]);
    }
  }

  lemma StayPut(adj: Adjacency, v: Node)
    ensures Joins(adj, v, v, [v]) && NoRepeats([v]) && Reachable(adj, v, v)
    ensures Length(adj, [v]) == 0.0 && (NonNegative(adj) ==> IsShortest(adj, v, v, 0.0))
  {
    assert Joins(adj, v, v, [v]) && Length(adj, [v]) == 0.0;
    forall p | NonNegative(adj) && Joins(adj, v, v, p) ensures 0.0 <= Length(adj, p) {
      LengthNonNegative(adj, p);
    }
  }

  lemma DropStale(adj: Adjacency, from: Node, to: Node, s: Search, walks: map<Node, seq<Node>>, rank: map<Node, nat>,
                  u: Item)
    requires State(adj, from, to, s, walks, rank)
    requires u in s.queue && u.node in s.seen
    ensures State(adj, from, to, s.(queue := s.queue - multiset{u}), walks, rank)
  {
    hide Invariant, Relaxed, Ranked;
    StaleKeeps(adj, from, s, walks, u);
  }

  lemma StaleKeeps(adj: Adjacency, from: Node, s: Search, walks: map<Node, seq<Node>>, u: Item)
    requires Invariant(adj, from, s, walks) && Relaxed(adj, s, s.seen) && u in s.queue && u.node in s.seen
    ensures var t := s.(queue := s.queue - multiset{u}); Invariant(adj, from, t, walks) && Relaxed(adj, t, t.seen)
  {
    hide RecordedAt, OptimalAt, NonNegative, Nodes;
    var t := s.(queue := s.queue - multiset{u});
    forall w | w in walks ensures RecordedAt(adj, from, t, walks, w) {
      RecordedFrame(adj, from, s, walks, t, walks, w);
    }
    forall a, b | a in s.seen && HasEdge(adj, a, b) && b in adj ensures RelaxedEdge(adj, t, a, b) {
      assert RelaxedEdge(adj, s, a, b);
    }
  }

  lemma PushBound(adj: Adjacency, seen: set<Node>)
    ensures |EdgesFrom(adj, seen)| <= |EdgePairs(adj)|
  {
    SubsetSize(EdgesFrom(adj, seen), EdgePairs(adj));
  }

  /** What the settling times and records say of every node. */
  lemma SettledOnce(adj: Adjacency, from: Node, s: Search, walks: map<Node, seq<Node>>, rank: map<Node, nat>)
    requires Recorded(adj, from, s, walks) && Ranked(s.seen, walks, rank)
    ensures adj.Keys <= s.dist.Keys && forall v | v in adj :: v in walks <==> s.dist[v].Finite?
    ensures NonNegative(adj) ==> rank.Keys <= adj.Keys
    ensures rank.Keys <= Nodes(adj) && (forall u | u in rank :: rank[u] < |rank|)
    ensures forall u, v | u in rank && v in rank && u != v :: rank[u] != rank[v]
  {
    hide RecordedAt, Increasing, NonNegative, Nodes;
  }

  /** What the recorded walk of a finally labelled target amounts to. */
  lemma Conclude(adj: Adjacency, from: Node, s: Search, walks: map<Node, seq<Node>>, rank: map<Node, nat>, to: Node)
    requires Recorded(adj, from, s, walks) && to in walks && (NonNegative(adj) ==> OptimalAt(adj, from, to, s.dist[to]))
    requires Ranked(s.seen, walks, rank)
    ensures Joins(adj, from, to, walks[to]) && NoRepeats(walks[to])
    ensures Length(adj, walks[to]) == s.dist[to].metres
    ensures NonNegative(adj) ==> IsShortest(adj, from, to, s.dist[to].metres)
    ensures Reachable(adj, from, to)
    ensures forall i | 0 <= i < |walks[to]| - 1 :: walks[to][i] in rank
    ensures forall i, j | 0 <= i < j < |walks[to]| - 1 :: rank[walks[to][i]] < rank[walks[to][j]]
  {
    assert RecordedAt(adj, from, s, walks, to);
    if to in s.prev {
      assert Increasing(walks[s.prev[to]], rank);
    }
  }

  // ---- How negative weights may be ------------------------------------------------------

  ghost predicate AtLeast(adj: Adjacency, c: real) {
    forall u, v | HasEdge(adj, u, v) :: adj[u][v] >= c
  }

  /** Every search for `to` that stops there has its shortest distance, and every search that runs
      out of entries has no walk to it. */
  ghost predicate Right(adj: Adjacency, from: Node, to: Node) {
    forall run, pops | IsSearch(adj, from, to, run, pops) :: RightEnd(adj, from, to, run[|pops|])
  }

  ghost predicate RightEnd(adj: Adjacency, from: Node, to: Node, s: Search) {
    && (s.queue == multiset{} ==> !Reachable(adj, from, to))
    && forall u | IsLeast(s.queue, u) && u.node == to ::
         to in s.dist && s.dist[to].Finite? && IsShortest(adj, from, to, s.dist[to].metres)
  }

  ghost predicate RightAbove(c: real) {
    forall adj, from, to | AtLeast(adj, c) && from in adj && to in adj && from != to :: Right(adj, from, to)
  }

  ghost predicate Searching(adj: Adjacency, from: Node, to: Node, s: Search) {
    from in adj && to !in s.seen && exists walks :: Invariant(adj, from, s, walks) && Relaxed(adj, s, s.seen)
  }

  lemma {:induction false} RelaxAllKeeps(adj: Adjacency, from: Node, s: Search, walks: map<Node, seq<Node>>, u: Node,
                                         order: seq<Node>)
    returns (ws: map<Node, seq<Node>>)
    requires Relaxing(adj, from, s, walks, u, {}) && forall v | v in order :: v in Neighbours(adj, u)
    ensures var t := RelaxAll(adj, s, u, order);
            Relaxing(adj, from, t, ws, u, set v | v in order) && t.seen == s.seen
  {
    hide Relaxing, RelaxOne;
    if order == [] {
      ws := walks;
      assert (set v | v in order) == {};
    } else {
      var front, v := order[..|order| - 1], order[|order| - 1];
      assert v in order && forall w | w in front :: w in order;
      ws := RelaxAllKeeps(adj, from, s, walks, u, front);
      ws := RelaxOneKeeps(adj, from, RelaxAll(adj, s, u, front), ws, u, v, set w | w in front);
      assert (set w | w in order) == (set w | w in front) + {v};
    }
  }

  lemma TurnKeeps(adj: Adjacency, from: Node, to: Node, s: Search, u: Item, t: Search)
    requires Searching(adj, from, to, s) && Turn(adj, to, s, u, t)
    ensures Searching(adj, from, to, t)
  {
    hide Invariant, Relaxed, Relaxing, RelaxAll;
    var walks :| Invariant(adj, from, s, walks) && Relaxed(adj, s, s.seen);
    if u.node in s.seen {
      StaleKeeps(adj, from, s, walks, u);
    } else {
      var order :| IsOrder(order, Neighbours(adj, u.node)) && t == RelaxAll(adj, Settling(s, u), u.node, order);
      SettleStarts(adj, from, s, walks, u);
      var ws := RelaxAllKeeps(adj, from, Settling(s, u), walks, u.node, order);
      assert (set v | v in order) == Neighbours(adj, u.node);
      AllRelaxed(adj, from, t, ws, u.node);
    }
  }

  lemma SettleStarts(adj: Adjacency, from: Node, s: Search, walks: map<Node, seq<Node>>, u: Item)
    requires Invariant(adj, from, s, walks) && Relaxed(adj, s, s.seen) && from in adj
    requires IsLeast(s.queue, u) && u.node !in s.seen
    ensures Relaxing(adj, from, Settling(s, u), walks, u.node, {})
  {
    hide RecordedAt, OptimalAt, RelaxedEdge, NonNegative;
    SettleStep(adj, from, s, walks, u);
  }

  lemma {:induction false} SearchKeeps(adj: Adjacency, from: Node, to: Node, run: seq<Search>, pops: seq<Item>, i: nat)
    requires from in adj && IsSearch(adj, from, to, run, pops) && i <= |pops|
    ensures Searching(adj, from, to, run[i])
  {
    hide Searching, Turn, NonNegative, StartSearch;
    if i == 0 {
      SearchStarts(adj, from, to);
    } else {
      SearchKeeps(adj, from, to, run, pops, i - 1);
      assert Turn(adj, to, run[i - 1], pops[i - 1], run[i - 1 + 1]);
      TurnKeeps(adj, from, to, run[i - 1], pops[i - 1], run[i]);
    }
  }

  lemma SearchStarts(adj: Adjacency, from: Node, to: Node)
    requires from in adj
    ensures Searching(adj, from, to, StartSearch(adj, from))
  {
    hide StartSearch, Invariant, Relaxed;
    StartInvariant(adj, from, to, StartSearch(adj, from), map[from := [from]], map[]);
  }

  lemma NonNegativeIsRight(adj: Adjacency, from: Node, to: Node)
    requires NonNegative(adj) && from in adj && to in adj
    ensures Right(adj, from, to)
  {
    hide Turn, StartSearch, NonNegative, RightEnd;
    forall run, pops | IsSearch(adj, from, to, run, pops) ensures RightEnd(adj, from, to, run[|pops|]) {
      SearchKeeps(adj, from, to, run, pops, |pops|);
      SearchingEndsRight(adj, from, to, run[|pops|]);
    }
  }

  lemma SearchingEndsRight(adj: Adjacency, from: Node, to: Node, s: Search)
    requires NonNegative(adj) && to in adj && Searching(adj, from, to, s)
    ensures RightEnd(adj, from, to, s)
  {
    hide Invariant, Relaxed, NonNegative, Reachable;
    var walks :| Invariant(adj, from, s, walks) && Relaxed(adj, s, s.seen);
    if s.queue == multiset{} {
      ExhaustedMeansUnreachable(adj, from, s, walks, to);
    }
    forall u | IsLeast(s.queue, u) && u.node == to
      ensures to in s.dist && s.dist[to].Finite? && IsShortest(adj, from, to, s.dist[to].metres)
    {
      MinimumIsFinal(adj, from, s, walks, u);
      FinalIsShortest(adj, from, s, walks, to);
    }
  }

  lemma FinalIsShortest(adj: Adjacency, from: Node, s: Search, walks: map<Node, seq<Node>>, v: Node)
    requires Invariant(adj, from, s, walks) && v in walks && v in s.dist && OptimalAt(adj, from, v, s.dist[v])
    ensures v in s.dist && s.dist[v].Finite? && IsShortest(adj, from, v, s.dist[v].metres)
  {
    assert RecordedAt(adj, from, s, walks, v);
  }

  /** From a to b directly in 0, or around c for -e / 2. */
  function Shortcut(a: Node, b: Node, c: Node, e: real): Adjacency {
    map[a := map[b := 0.0, c := e / 2.0], b := map[], c := map[b := -e]]
  }

  /** The search from a for b after its first turn. */
  function Misled(a: Node, b: Node, c: Node, e: real): Search {
    Search(map[a := Finite(0.0), b := Finite(0.0), c := Finite(e / 2.0)], map[b := a, c := a],
           multiset{Item(b, 0.0), Item(c, e / 2.0)}, {a})
  }

  lemma MisledStart(a: Node, b: Node, c: Node, e: real)
    requires a != b && b != c && a != c
    ensures Settling(StartSearch(Shortcut(a, b, c, e), a), Item(a, 0.0)) ==
            Search(map[a := Finite(0.0), b := Infinite, c := Infinite], map[], multiset{}, {a})
  {
    var adj := Shortcut(a, b, c, e);
    assert adj.Keys == {a, b, c};
    assert (map id | id in adj :: Infinite)[a := Finite(0.0)] == map[a := Finite(0.0), b := Infinite, c := Infinite];
    assert multiset{Item(a, 0.0)} - multiset{Item(a, 0.0)} == multiset{};
    assert {} + {a} == {a};
  }

  lemma MisledMiddle(a: Node, b: Node, c: Node, e: real)
    requires a != b && b != c && a != c
    ensures var s := Search(map[a := Finite(0.0), b := Infinite, c := Infinite], map[], multiset{}, {a});
            RelaxOne(Shortcut(a, b, c, e), s, a, b) ==
            Search(map[a := Finite(0.0), b := Finite(0.0), c := Infinite], map[b := a], multiset{Item(b, 0.0)}, {a})
  {
  }

  lemma MisledEnd(a: Node, b: Node, c: Node, e: real)
    requires a != b && b != c && a != c
    ensures var s := Search(map[a := Finite(0.0), b := Finite(0.0), c := Infinite], map[b := a],
                            multiset{Item(b, 0.0)}, {a});
            RelaxOne(Shortcut(a, b, c, e), s, a, c) == Misled(a, b, c, e)
  {
  }

  lemma MisledTurn(a: Node, b: Node, c: Node, e: real)
    requires a != b && b != c && a != c
    ensures Turn(Shortcut(a, b, c, e), b, StartSearch(Shortcut(a, b, c, e), a), Item(a, 0.0), Misled(a, b, c, e))
  {
    var adj, order := Shortcut(a, b, c, e), [b, c];
    assert Neighbours(adj, a) == {b, c} && IsOrder(order, {b, c});
    hide Shortcut, Settling, RelaxOne, Misled, Neighbours, IsOrder;
    MisledStart(a, b, c, e);
    MisledMiddle(a, b, c, e);
    MisledEnd(a, b, c, e);
    var s := Settling(StartSearch(adj, a), Item(a, 0.0));
    assert order[..1] == [b] && order[..1][..0] == [];
    assert RelaxAll(adj, s, a, order[..1]) == RelaxOne(adj, s, a, b);
    assert RelaxAll(adj, s, a, order) == Misled(a, b, c, e);
  }

  lemma ShortcutWalks(a: Node, b: Node, c: Node, e: real)
    requires a != b && b != c && a != c
    ensures Joins(Shortcut(a, b, c, e), a, b, [a, c, b]) && Length(Shortcut(a, b, c, e), [a, c, b]) == e / 2.0 - e
  {
    var adj := Shortcut(a, b, c, e);
    assert [a] + [c] == [a, c] && [a, c] + [b] == [a, c, b];
    ExtendWalk(adj, [a], c);
    ExtendWalk(adj, [a, c], b);
  }

  /** With an edge of weight -e the loop stops at the target with distance 0 although a walk of
      length -e / 2 exists. */
  lemma NegativeWeightMisleads(a: Node, b: Node, c: Node, e: real)
    requires a != b && b != c && a != c && e > 0.0
    ensures AtLeast(Shortcut(a, b, c, e), -e) && !Right(Shortcut(a, b, c, e), a, b)
  {
    hide Turn, Joins, Length, IsWalk;
    var adj, s := Shortcut(a, b, c, e), Misled(a, b, c, e);
    MisledTurn(a, b, c, e);
    ShortcutWalks(a, b, c, e);
    var run, pops := [StartSearch(adj, a), s], [Item(a, 0.0)];
    assert IsSearch(adj, a, b, run, pops) && run[|pops|] == s;
    assert IsLeast(s.queue, Item(b, 0.0));
    assert !IsShortest(adj, a, b, s.dist[b].metres);
    assert !RightEnd(adj, a, b, s);
  }

  /** The search is right on all graphs with weights of at least c if and only if c is not negative. */
  lemma RightExactlyWithoutNegativeWeights(c: real)
    ensures RightAbove(c) <==> c >= 0.0
  {
    hide Right;
    if c >= 0.0 {
      forall adj, from, to | AtLeast(adj, c) && from in adj && to in adj && from != to ensures Right(adj, from, to) {
        NonNegativeIsRight(adj, from, to);
      }
    } else {
      NegativeWeightMisleads("a", "b", "c", -c);
      var adj := Shortcut("a", "b", "c", -c);
      assert AtLeast(adj, c) && "a" in adj && "b" in adj && !Right(adj, "a", "b");
    }
  }
}

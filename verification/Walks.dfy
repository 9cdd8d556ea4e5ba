/** Directed graphs as nested adjacency maps, walks through them and walk lengths:
    the vocabulary in which the route planner is specified. */
module Walks {
  type Node = string
  type Adjacency = map<Node, map<Node, real>>

  predicate HasEdge(adj: Adjacency, u: Node, v: Node) {
    u in adj && v in adj[u]
  }

  ghost predicate NonNegative(adj: Adjacency) {
    forall u, v | HasEdge(adj, u, v) :: adj[u][v] >= 0.0
  }

  /** The ordered pairs joined by an edge. */
  ghost function EdgePairs(adj: Adjacency): set<(Node, Node)> {
    set u, v | u in adj && v in adj[u] :: (u, v)
  }

  ghost predicate IsWalk(adj: Adjacency, p: seq<Node>) {
    && |p| > 0
    && (|p| > 1 ==> IsWalk(adj, p[..|p| - 1]) && HasEdge(adj, p[|p| - 2], p[|p| - 1]))
  }

  ghost predicate Joins(adj: Adjacency, s: Node, t: Node, p: seq<Node>) {
    IsWalk(adj, p) && p[0] == s && p[|p| - 1] == t
  }

  ghost predicate Reachable(adj: Adjacency, s: Node, t: Node) {
    exists p :: Joins(adj, s, t, p)
  }

  ghost function Length(adj: Adjacency, p: seq<Node>): real
    requires IsWalk(adj, p)
  {
    if |p| == 1 then 0.0 else Length(adj, p[..|p| - 1]) + adj[p[|p| - 2]][p[|p| - 1]]
  }

  /** d is the length of a shortest walk from s to t. */
  ghost predicate IsShortest(adj: Adjacency, s: Node, t: Node, d: real) {
    && (exists p :: Joins(adj, s, t, p) && Length(adj, p) == d)
    && (forall p | Joins(adj, s, t, p) :: d <= Length(adj, p))
  }

  ghost predicate NoRepeats<T(!new)>(p: seq<T>) {
    forall i, j | 0 <= i < j < |p| :: p[i] != p[j]
  }

  lemma {:induction false} LengthNonNegative(adj: Adjacency, p: seq<Node>)
    requires NonNegative(adj) && IsWalk(adj, p)
    ensures Length(adj, p) >= 0.0
  {
    if |p| > 1 {
      assert HasEdge(adj, p[|p| - 2], p[|p| - 1]);
      LengthNonNegative(adj, p[..|p| - 1]);
    }
  }

  /** Extending a walk by one edge. */
  lemma ExtendWalk(adj: Adjacency, p: seq<Node>, v: Node)
    requires IsWalk(adj, p) && HasEdge(adj, p[|p| - 1], v)
    ensures IsWalk(adj, p + [v]) && Length(adj, p + [v]) == Length(adj, p) + adj[p[|p| - 1]][v]
  {
    assert (p + [v])[..|p|] == p;
  }

  // ---- Symmetric graphs -------------------------------------------------

  ghost predicate Symmetric(adj: Adjacency) {
    forall u, v | HasEdge(adj, u, v) :: HasEdge(adj, v, u) && adj[v][u] == adj[u][v]
  }

  ghost function Reverse(p: seq<Node>): (r: seq<Node>)
    ensures |r| == |p|
    ensures |p| > 0 ==> r[0] == p[|p| - 1] && r[|p| - 1] == p[0]
  {
    if p == [] then [] else [p[|p| - 1]] + Reverse(p[..|p| - 1])
  }

  /** Putting an edge in front of a walk. */
  lemma {:induction false} PrependEdge(adj: Adjacency, u: Node, p: seq<Node>)
    requires IsWalk(adj, p) && HasEdge(adj, u, p[0])
    ensures IsWalk(adj, [u] + p) && Length(adj, [u] + p) == adj[u][p[0]] + Length(adj, p)
  {
    var q := [u] + p;
    if |p| == 1 {
      assert q[..1] == [u];
    } else {
      assert q[..|p|] == [u] + p[..|p| - 1];
      PrependEdge(adj, u, p[..|p| - 1]);
    }
  }

  lemma {:induction false} ReverseWalk(adj: Adjacency, p: seq<Node>)
    requires Symmetric(adj) && IsWalk(adj, p)
    ensures IsWalk(adj, Reverse(p)) && Length(adj, Reverse(p)) == Length(adj, p)
  {
    if |p| == 1 {
      assert Reverse(p) == p;
    } else {
      var q := p[..|p| - 1];
      ReverseWalk(adj, q);
      assert HasEdge(adj, q[|q| - 1], p[|p| - 1]);
      PrependEdge(adj, p[|p| - 1], Reverse(q));
    }
  }

  /** In a symmetric graph the way back is as long as the way there. */
  lemma ShortestIsSymmetric(adj: Adjacency, s: Node, t: Node, d: real, e: real)
    requires Symmetric(adj)
    requires IsShortest(adj, s, t, d) && IsShortest(adj, t, s, e)
    ensures d == e
  {
    var p :| Joins(adj, s, t, p) && Length(adj, p) == d;
    var q :| Joins(adj, t, s, q) && Length(adj, q) == e;
    ReverseWalk(adj, p);
    ReverseWalk(adj, q);
    assert Joins(adj, t, s, Reverse(p)) && Joins(adj, s, t, Reverse(q));
  }
}

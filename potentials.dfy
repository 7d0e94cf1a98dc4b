/**
  * Lower bounds on walk weights from a potential: a number per node that
  * never rises along an edge by more than the edge's weight. When every node
  * but the source has just one edge that rises by exactly its weight, the
  * walk of least weight to each node is unique, which pins the result of a
  * shortest-path search.
  */
module Potentials {
  import opened Graphs

  /** Along every edge the potential rises by at most the edge's weight. */
  ghost predicate Feasible(g: Graph<Node>, pot: map<Node, nat>) {
    && (forall u :: u in g ==> u in pot)
    && (forall u, v :: u in g && v in g[u] ==> v in pot && pot[v] <= pot[u] + g[u][v])
  }

  /**
    * The potential is 0 at src and each node is entered by at most one edge
    * that rises by exactly its weight, the one from its parent.
    */
  ghost predicate TightTree(g: Graph<Node>, pot: map<Node, nat>, src: Node, parent: map<Node, Node>)
    requires Feasible(g, pot)
  {
    && src in pot && pot[src] == 0
    && forall u, v :: u in g && v in g[u] && pot[v] == pot[u] + g[u][v] ==> v in parent && parent[v] == u
  }

  /** Feasibility and a tight tree, from the conditions on each edge. */
  lemma TreeOfPotential(g: Graph<Node>, pot: map<Node, nat>, src: Node, parent: map<Node, Node>)
    requires forall u :: u in g ==> u in pot
    requires forall u, v :: u in g && v in g[u] ==> v in pot && pot[v] <= pot[u] + g[u][v]
    requires forall u, v :: u in g && v in g[u] && pot[v] == pot[u] + g[u][v] ==> v in parent && parent[v] == u
    requires src in pot && pot[src] == 0
    ensures Feasible(g, pot) && TightTree(g, pot, src, parent)
  {
  }

  /** No walk weighs less than the rise of the potential from its first node to its last. */
  lemma {:induction false} WalkLowerBound(g: Graph<Node>, pot: map<Node, nat>, p: seq<Node>)
    requires Feasible(g, pot) && IsWalk(g, p)
    ensures p[0] in pot && p[|p| - 1] in pot
    ensures pot[p[|p| - 1]] <= pot[p[0]] + Weight(g, p)
    decreases |p|
  {
    if |p| > 1 {
      WalkPrefix(g, p);
      WalkLowerBound(g, pot, p[..|p| - 1]);
    }
  }

  /**
    * A walk from src whose weight equals the potential of its end, under a
    * tight tree with positive weights, is the only such walk.
    */
  lemma {:induction false} TightWalkUnique(g: Graph<Node>, pot: map<Node, nat>, src: Node,
                                           parent: map<Node, Node>, p: seq<Node>, q: seq<Node>, x: Node)
    requires Feasible(g, pot) && TightTree(g, pot, src, parent) && PositiveWeights(g)
    requires IsPath(g, p, src, x) && IsPath(g, q, src, x)
    requires x in pot && Weight(g, p) == pot[x] && Weight(g, q) == pot[x]
    ensures p == q
    decreases |p| + |q|
  {
    if |p| == 1 || |q| == 1 {
      // x is src, and a walk of weight 0 takes no edge
      ZeroWeightWalk(g, p);
      ZeroWeightWalk(g, q);
    } else {
      var p', q' := p[..|p| - 1], q[..|q| - 1];
      WalkPrefix(g, p);
      WalkPrefix(g, q);
      var u, w := p[|p| - 2], q[|q| - 2];
      WalkLowerBound(g, pot, p');
      WalkLowerBound(g, pot, q');
      assert parent[x] == u && parent[x] == w;
      TightWalkUnique(g, pot, src, parent, p', q', u);
      assert p == p' + [x] && q == q' + [x];
    }
  }

  /** With positive weights, only a walk that takes no edge weighs 0. */
  lemma ZeroWeightWalk(g: Graph<Node>, p: seq<Node>)
    requires PositiveWeights(g) && IsWalk(g, p) && Weight(g, p) == 0
    ensures |p| == 1
  {
    if |p| > 1 {
      WalkPrefix(g, p);
    }
  }

  /**
    * A walk from src to x no heavier than a walk whose weight is the
    * potential of x is that walk.
    */
  lemma ShortestWalkUnique(g: Graph<Node>, pot: map<Node, nat>, src: Node, parent: map<Node, Node>,
                           expected: seq<Node>, r: seq<Node>, x: Node)
    requires Feasible(g, pot) && TightTree(g, pot, src, parent) && PositiveWeights(g)
    requires IsPath(g, expected, src, x) && x in pot && Weight(g, expected) == pot[x]
    requires IsPath(g, r, src, x) && Weight(g, r) <= Weight(g, expected)
    ensures r == expected
  {
    WalkLowerBound(g, pot, r);
    TightWalkUnique(g, pot, src, parent, expected, r, x);
  }
}

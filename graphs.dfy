/**
  * Weighted graphs as dictionaries of dictionaries, the shape both the
  * knight's-graph builder and the shortest-path search use: each node label
  * maps to the labels of its neighbours, each with a nonnegative edge weight.
  */
module Graphs {

  type Node = string  // a node label, such as "D4"

  type Graph<T> = map<T, map<T, nat>>

  /** Every neighbour is itself a node of the graph. */
  ghost predicate Closed<T>(g: Graph<T>) {
    forall u, v :: u in g && v in g[u] ==> v in g
  }

  /** Every edge has a positive weight. */
  ghost predicate PositiveWeights<T>(g: Graph<T>) {
    forall u, v :: u in g && v in g[u] ==> g[u][v] > 0
  }

  /** Every edge can be walked back with the same weight. */
  ghost predicate Symmetric<T>(g: Graph<T>) {
    forall u, v :: u in g && v in g[u] ==> v in g && u in g[v] && g[v][u] == g[u][v]
  }

  /** In a symmetric graph every neighbour is a node. */
  lemma SymmetricClosed<T>(g: Graph<T>)
    requires Symmetric(g)
    ensures Closed(g)
  {
  }

  /** A nonempty sequence of nodes, each one a neighbour of the one before. */
  ghost predicate IsWalk<T>(g: Graph<T>, p: seq<T>) {
    && |p| >= 1
    && (forall i :: 0 <= i < |p| ==> p[i] in g)
    && (forall i :: 0 <= i < |p| - 1 ==> p[i + 1] in g[p[i]])
  }

  /** A walk from s to t. */
  ghost predicate IsPath<T>(g: Graph<T>, p: seq<T>, s: T, t: T) {
    IsWalk(g, p) && p[0] == s && p[|p| - 1] == t
  }

  ghost predicate Reachable<T(!new)>(g: Graph<T>, s: T, t: T) {
    exists p :: IsPath(g, p, s, t)
  }

  /** The total weight of the edges a walk takes. */
  ghost function Weight<T>(g: Graph<T>, p: seq<T>): nat
    requires IsWalk(g, p)
    decreases |p|
  {
    if |p| == 1 then 0
    else
      assert IsWalk(g, p[..|p| - 1]);
      Weight(g, p[..|p| - 1]) + g[p[|p| - 2]][p[|p| - 1]]
  }

  /** Stepping from the end of a walk to a neighbour gives a walk, heavier by that edge. */
  lemma WalkExtend<T>(g: Graph<T>, p: seq<T>, v: T)
    requires IsWalk(g, p) && v in g && v in g[p[|p| - 1]]
    ensures IsWalk(g, p + [v])
    ensures Weight(g, p + [v]) == Weight(g, p) + g[p[|p| - 1]][v]
  {
    assert (p + [v])[..|p|] == p;
  }

  /** Dropping the last node of a walk leaves a walk that is no heavier. */
  lemma WalkPrefix<T>(g: Graph<T>, p: seq<T>)
    requires IsWalk(g, p) && |p| >= 2
    ensures IsWalk(g, p[..|p| - 1])
    ensures p[..|p| - 1][|p| - 2] == p[|p| - 2]
    ensures Weight(g, p) == Weight(g, p[..|p| - 1]) + g[p[|p| - 2]][p[|p| - 1]]
  {
  }
}

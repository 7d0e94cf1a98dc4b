/**
  * Graphs built from sets of directed pairs: adding an undirected edge of
  * weight 1 to a dictionary of dictionaries, and the graph that has weight 1
  * on exactly the pairs of a given set.
  */
module EdgeGraphs {
  import opened Graphs

  // ---------------------------------------------------------------------------
  // Adding an edge
  // ---------------------------------------------------------------------------

  /**
    * The graph after an undirected edge a-b of weight 1 is added: a and b
    * become nodes if they were not, each lists the other with weight 1, and
    * every other node and every other entry stays as it was.
    */
  function WithEdge<T(==)>(g: Graph<T>, a: T, b: T): (r: Graph<T>)
    ensures r.Keys == g.Keys + {a, b}
    ensures b in r[a] && r[a][b] == 1
    ensures a in r[b] && r[b][a] == 1
    ensures forall x, y :: x in g && y in g[x] && !(x == a && y == b) && !(x == b && y == a) ==>
              y in r[x] && r[x][y] == g[x][y]
    ensures forall x, y :: x in r && y in r[x] && !(x == a && y == b) && !(x == b && y == a) ==>
              x in g && y in g[x]
  {
    var ga := if a in g then g[a] else map[];
    var g1 := g[a := ga[b := 1]];
    var gb := if b in g1 then g1[b] else map[];
    g1[b := gb[a := 1]]
  }

  /** Adding the same edge a second time changes nothing. */
  lemma WithEdgeIdempotent<T>(g: Graph<T>, a: T, b: T)
    ensures WithEdge(WithEdge(g, a, b), a, b) == WithEdge(g, a, b)
  {
    var r1 := WithEdge(g, a, b);
    var r2 := WithEdge(r1, a, b);
    forall x | x in r2 ensures r2[x] == r1[x] {
      assert r2[x].Keys == r1[x].Keys;
    }
  }

  /** Adding an edge keeps a symmetric graph symmetric. */
  lemma WithEdgeKeepsSymmetric<T>(g: Graph<T>, a: T, b: T)
    requires Symmetric(g)
    ensures Symmetric(WithEdge(g, a, b))
  {
  }

  // ---------------------------------------------------------------------------
  // Graphs of weight-1 edge sets
  // ---------------------------------------------------------------------------

  /**
    * g has weight 1 on exactly the directed pairs of E, and its nodes are the
    * sources of those pairs: no node is listed without a neighbour.
    */
  ghost predicate HasEdgesOf<T>(g: Graph<T>, E: set<(T, T)>) {
    && (forall a {:trigger g[a]} :: a in g ==> g[a] != map[])
    && (forall a, b {:trigger b in g[a]} :: a in g && b in g[a] ==> (a, b) in E && g[a][b] == 1)
    && (forall e {:trigger e in E} :: e in E ==> e.0 in g && e.1 in g[e.0])
  }

  /** At most one graph has the edges of E. */
  lemma HasEdgesOfUnique<T>(g1: Graph<T>, g2: Graph<T>, E: set<(T, T)>)
    requires HasEdgesOf(g1, E) && HasEdgesOf(g2, E)
    ensures g1 == g2
  {
    forall a | a in g1 ensures a in g2 {
      var b :| b in g1[a];
      assert (a, b) in E;
    }
    forall a | a in g2 ensures a in g1 {
      var b :| b in g2[a];
      assert (a, b) in E;
    }
    forall a | a in g1 ensures g1[a] == g2[a] {
      forall b | b in g1[a] ensures b in g2[a] {
        assert (a, b) in E;
      }
      forall b | b in g2[a] ensures b in g1[a] {
        assert (a, b) in E;
      }
      assert g1[a].Keys == g2[a].Keys;
    }
  }

  function Sources<T(==)>(E: set<(T, T)>): set<T> {
    set e | e in E :: e.0
  }

  function NeighboursIn<T(==)>(E: set<(T, T)>, a: T): set<T> {
    set e | e in E && e.0 == a :: e.1
  }

  /** The graph with weight 1 on exactly the directed pairs of E. */
  function EdgeGraph<T(==,!new)>(E: set<(T, T)>): (g: Graph<T>)
    ensures HasEdgesOf(g, E)
  {
    var g := map a | a in Sources(E) :: map b | b in NeighboursIn(E, a) :: 1;
    forall a | a in g ensures g[a] != map[] {
      var e :| e in E && e.0 == a;
      assert e.1 in NeighboursIn(E, a);
      assert e.1 in g[a];
    }
    g
  }

  /**
    * Adding the undirected edge a-b to a graph with the edges of E gives a
    * graph with the edges of E and both directions of a-b.
    */
  lemma WithEdgeAddsPairs<T>(g: Graph<T>, E: set<(T, T)>, a: T, b: T)
    requires HasEdgesOf(g, E)
    ensures HasEdgesOf(WithEdge(g, a, b), E + {(a, b), (b, a)})
  {
    var r := WithEdge(g, a, b);
    forall x | x in r ensures r[x] != map[] {
      if x == a {
        assert b in r[a];
      } else if x == b {
        assert a in r[b];
      } else {
        var y :| y in g[x];
        assert y in r[x];
      }
    }
    forall e | e in E + {(a, b), (b, a)} ensures e.0 in r && e.1 in r[e.0] {
      if e != (a, b) && e != (b, a) {
        assert e in E;
      }
    }
  }

  /** When E holds every pair reversed, the graph with the edges of E is symmetric and closed. */
  lemma HasEdgesOfSymmetric<T>(g: Graph<T>, E: set<(T, T)>)
    requires HasEdgesOf(g, E)
    requires forall e :: e in E ==> (e.1, e.0) in E
    ensures Symmetric(g) && Closed(g)
  {
    forall u, v | u in g && v in g[u] ensures v in g && u in g[v] && g[v][u] == g[u][v] {
      assert (u, v) in E;
      assert (v, u) in E;
    }
    SymmetricClosed(g);
  }

  /** Both directions of every pair in E. */
  function Sym<T(==)>(E: set<(T, T)>): set<(T, T)> {
    E + set e | e in E :: (e.1, e.0)
  }

  lemma SymAdd<T>(E: set<(T, T)>, a: T, b: T)
    ensures Sym(E + {(a, b)}) == Sym(E) + {(a, b), (b, a)}
  {
  }
}

/**
  * The knight's graph: a dictionary that creates a node the first time an
  * edge touches it, the edge-adding operation on it, and the builder that adds
  * one edge of weight 1 for every legal knight move on an n x n board.
  */
module KnightsGraph {
  import opened Board
  import opened Graphs
  import opened EdgeGraphs

  /** A node-to-neighbour dictionary whose missing nodes read as empty (a defaultdict of dicts). */
  class AdjacencyDict {
    var adj: Graph<Node>

    constructor ()
      ensures adj == map[]
    {
      adj := map[];
    }

    /** Records a and b as neighbours of each other with weight 1. */
    method AddEdge(a: Node, b: Node)
      modifies this
      ensures adj == WithEdge(old(adj), a, b)
    {
      var neighboursA := if a in adj then adj[a] else map[];
      adj := adj[a := neighboursA[b := 1]];
      var neighboursB := if b in adj then adj[b] else map[];
      adj := adj[b := neighboursB[a := 1]];
    }
  }

  // ---------------------------------------------------------------------------
  // The knight's graph
  // ---------------------------------------------------------------------------

  /** The labelled pairs (from, to) of the knight moves from the given squares. */
  function MovePairs(n: int, from: set<Square>): set<(Node, Node)>
    requires n <= 8
    requires forall s :: s in from ==> OnBoard(s, n)
  {
    set s, t | s in from && t in PermittedMovesFrom(s.0, s.1, n) :: (Label(s), Label(t))
  }

  /** Every legal knight move on an n x n board, as a pair of labels. */
  function KnightEdges(n: int): set<(Node, Node)>
    requires n <= 8
  {
    MovePairs(n, Squares(n))
  }

  /**
    * g is the knight's graph of an n x n board: weight 1 on exactly the legal
    * knight moves, and a node for every square the knight can leave.
    */
  ghost predicate IsKnightGraph(g: Graph<Node>, n: int)
    requires n <= 8
  {
    HasEdgesOf(g, KnightEdges(n))
  }

  /** The squares before (row, col) in row-major order. */
  function SquaresBefore(n: int, row: int, col: int): set<Square> {
    set s | s in Squares(n) && (s.0 < row || (s.0 == row && s.1 < col))
  }

  /** The labelled pairs from s to each square of ts. */
  function Towards(s: Square, ts: seq<Square>): set<(Node, Node)>
    requires OnBoard(s, 8)
    requires forall t :: t in ts ==> OnBoard(t, 8)
  {
    set t | t in ts :: (Label(s), Label(t))
  }

  lemma TowardsNext(s: Square, ts: seq<Square>, i: int)
    requires OnBoard(s, 8) && 0 <= i < |ts|
    requires forall t :: t in ts ==> OnBoard(t, 8)
    ensures Towards(s, ts[..i + 1]) == Towards(s, ts[..i]) + {(Label(s), Label(ts[i]))}
  {
    assert ts[..i + 1] == ts[..i] + [ts[i]];
  }

  lemma MovePairsNextSquare(n: int, row: int, col: int)
    requires 0 <= row < n <= 8 && 0 <= col < n
    ensures MovePairs(n, SquaresBefore(n, row, col + 1))
         == MovePairs(n, SquaresBefore(n, row, col)) + Towards((row, col), PermittedMovesFrom(row, col, n))
  {
    var cur := (row, col);
    var before := SquaresBefore(n, row, col);
    assert SquaresBefore(n, row, col + 1) == before + {cur};
    MovePairsAddSquare(n, before, cur);
  }

  /** The pairs from one more square are those from the others and those from it. */
  lemma MovePairsAddSquare(n: int, from: set<Square>, cur: Square)
    requires n <= 8 && OnBoard(cur, n)
    requires forall s :: s in from ==> OnBoard(s, n)
    ensures MovePairs(n, from + {cur}) == MovePairs(n, from) + Towards(cur, PermittedMovesFrom(cur.0, cur.1, n))
  {
    var moves := PermittedMovesFrom(cur.0, cur.1, n);
    forall e | e in MovePairs(n, from + {cur}) ensures e in MovePairs(n, from) + Towards(cur, moves) {
      MovePairsAddSquareSub(n, from, cur, e);
    }
    forall e | e in MovePairs(n, from) + Towards(cur, moves) ensures e in MovePairs(n, from + {cur}) {
      MovePairsAddSquareSup(n, from, cur, e);
    }
  }

  lemma MovePairsAddSquareSub(n: int, from: set<Square>, cur: Square, e: (Node, Node))
    requires n <= 8 && OnBoard(cur, n)
    requires forall s :: s in from ==> OnBoard(s, n)
    requires e in MovePairs(n, from + {cur})
    ensures e in MovePairs(n, from) + Towards(cur, PermittedMovesFrom(cur.0, cur.1, n))
  {
    var s, t := MovePairsWitness(n, from + {cur}, e);
    if s == cur {
      assert e in Towards(cur, PermittedMovesFrom(cur.0, cur.1, n));
    } else {
      assert e in MovePairs(n, from);
    }
  }

  /** The move behind a pair of MovePairs. */
  lemma MovePairsWitness(n: int, from: set<Square>, e: (Node, Node)) returns (s: Square, t: Square)
    requires n <= 8
    requires forall s :: s in from ==> OnBoard(s, n)
    requires e in MovePairs(n, from)
    ensures s in from && t in PermittedMovesFrom(s.0, s.1, n) && OnBoard(t, n)
    ensures e == (Label(s), Label(t))
  {
    s, t :| s in from && t in PermittedMovesFrom(s.0, s.1, n) && e == (Label(s), Label(t));
  }

  lemma MovePairsAddSquareSup(n: int, from: set<Square>, cur: Square, e: (Node, Node))
    requires n <= 8 && OnBoard(cur, n)
    requires forall s :: s in from ==> OnBoard(s, n)
    requires e in MovePairs(n, from) + Towards(cur, PermittedMovesFrom(cur.0, cur.1, n))
    ensures e in MovePairs(n, from + {cur})
  {
    if e in MovePairs(n, from) {
      var s, t :| s in from && t in PermittedMovesFrom(s.0, s.1, n) && e == (Label(s), Label(t));
      assert s in from + {cur};
    } else {
      var t :| t in PermittedMovesFrom(cur.0, cur.1, n) && e == (Label(cur), Label(t));
      assert cur in from + {cur};
    }
  }

  lemma SquaresBeforeNextRow(n: int, row: int)
    ensures SquaresBefore(n, row, n) == SquaresBefore(n, row + 1, 0)
  {
  }

  lemma SquaresBeforeEnd(n: int, row: int)
    requires (n >= 0 && row == n) || (n < 0 && row == 0)
    ensures SquaresBefore(n, row, 0) == Squares(n)
  {
  }

  /**
    * Builds the knight's graph of an n x n board: for every square, in row-major
    * order, and every legal move from it, in offset order, adds the edge
    * between their labels. Squares are labelled through the 8 x 8 mapping, so
    * boards larger than 8 are not supported.
    */
  method BuildKnightsGraph(n: int) returns (graph: AdjacencyDict)
    requires n <= 8
    ensures fresh(graph)
    ensures IsKnightGraph(graph.adj, n)
  {
    graph := new AdjacencyDict();
    var mapping := GetMapping();
    ghost var done: set<(Node, Node)> := {};
    assert SquaresBefore(n, 0, 0) == {};
    assert Sym(done) == {};
    var row := 0;
    while row < n
      invariant 0 <= row && (n >= 0 ==> row <= n) && (n < 0 ==> row == 0)
      invariant done == MovePairs(n, SquaresBefore(n, row, 0))
      invariant HasEdgesOf(graph.adj, Sym(done))
    {
      var col := 0;
      while col < n
        invariant 0 <= col <= n
        invariant done == MovePairs(n, SquaresBefore(n, row, col))
        invariant HasEdgesOf(graph.adj, Sym(done))
      {
        AddMovesFrom(graph, mapping, (row, col), PermittedMovesFrom(row, col, n), done);
        MovePairsNextSquare(n, row, col);
        done := done + Towards((row, col), PermittedMovesFrom(row, col, n));
        col := col + 1;
      }
      SquaresBeforeNextRow(n, row);
      row := row + 1;
    }
    SquaresBeforeEnd(n, row);
    KnightEdgesSymmetric(n);
  }

  /**
    * The innermost loop of the builder: adds the edge from the square `from`
    * to each square of `moves`, looking both labels up in mapping.
    */
  method AddMovesFrom(graph: AdjacencyDict, mapping: map<Square, string>, from: Square, moves: seq<Square>,
                      ghost done: set<(Node, Node)>)
    requires OnBoard(from, 8)
    requires forall t :: t in moves ==> OnBoard(t, 8)
    requires forall s :: OnBoard(s, 8) ==> s in mapping && mapping[s] == Label(s)
    requires HasEdgesOf(graph.adj, Sym(done))
    modifies graph
    ensures HasEdgesOf(graph.adj, Sym(done + Towards(from, moves)))
  {
    ghost var added := done;
    var i := 0;
    while i < |moves|
      invariant 0 <= i <= |moves|
      invariant added == done + Towards(from, moves[..i])
      invariant HasEdgesOf(graph.adj, Sym(added))
    {
      var a, b := mapping[from], mapping[moves[i]];
      ghost var adj0 := graph.adj;
      graph.AddEdge(a, b);
      WithEdgeAddsPairs(adj0, Sym(added), a, b);
      SymAdd(added, a, b);
      TowardsNext(from, moves, i);
      added := added + {(a, b)};
      i := i + 1;
    }
    assert moves[..i] == moves;
  }

  // ---------------------------------------------------------------------------
  // What the knight's graph is
  // ---------------------------------------------------------------------------

  /** Every knight move can be made backwards, so the edge set is its own reverse. */
  lemma KnightEdgesSymmetric(n: int)
    requires n <= 8
    ensures Sym(KnightEdges(n)) == KnightEdges(n)
  {
    forall e | e in KnightEdges(n) ensures (e.1, e.0) in KnightEdges(n) {
      var s, t := MovePairsWitness(n, Squares(n), e);
      MovesSymmetric(s, t, n);
    }
  }

  /**
    * Between two squares of the board the graph has an edge, of weight 1,
    * exactly when the second is a legal knight move from the first.
    */
  lemma KnightGraphEdge(g: Graph<Node>, n: int, s: Square, t: Square)
    requires n <= 8 && IsKnightGraph(g, n) && OnBoard(s, n) && OnBoard(t, n)
    ensures Label(s) in g && Label(t) in g[Label(s)]
            <==> t in PermittedMovesFrom(s.0, s.1, n)
    ensures Label(s) in g && Label(t) in g[Label(s)]
            ==> g[Label(s)][Label(t)] == 1
  {
    KnightEdgeMember(n, s, t);
  }

  /** The labelled pair of two squares is a knight edge exactly when the second is a move from the first. */
  lemma KnightEdgeMember(n: int, s: Square, t: Square)
    requires n <= 8 && OnBoard(s, n) && OnBoard(t, n)
    ensures (Label(s), Label(t)) in KnightEdges(n) <==> t in PermittedMovesFrom(s.0, s.1, n)
  {
    if (Label(s), Label(t)) in KnightEdges(n) {
      var s', t' := MovePairsWitness(n, Squares(n), (Label(s), Label(t)));
      LabelInjective(s, s');
      LabelInjective(t, t');
    }
    if t in PermittedMovesFrom(s.0, s.1, n) {
      assert s in Squares(n);
    }
  }

  /** Every knight edge joins the labels of two squares of the board, the second a move from the first. */
  lemma KnightEdgeEnds(n: int, e: (Node, Node))
    requires n <= 8 && e in KnightEdges(n)
    ensures Coordinate(e.0).Some? && Coordinate(e.1).Some?
    ensures OnBoard(Coordinate(e.0).value, n) && OnBoard(Coordinate(e.1).value, n)
    ensures Coordinate(e.1).value in PermittedMovesFrom(Coordinate(e.0).value.0, Coordinate(e.0).value.1, n)
  {
    var s, t := MovePairsWitness(n, Squares(n), e);
    LabelRoundTrip(s);
    LabelRoundTrip(t);
  }

  /** Every knight edge can be taken backwards. */
  lemma KnightEdgeReverse(n: int, e: (Node, Node))
    requires n <= 8 && e in KnightEdges(n)
    ensures (e.1, e.0) in KnightEdges(n)
  {
    KnightEdgesSymmetric(n);
    assert (e.1, e.0) in Sym(KnightEdges(n));
  }

  /** A square of the board is a node exactly when the knight can move from it. */
  lemma KnightGraphNode(g: Graph<Node>, n: int, s: Square)
    requires n <= 8 && IsKnightGraph(g, n) && OnBoard(s, n)
    ensures Label(s) in g <==> PermittedMovesFrom(s.0, s.1, n) != []
  {
    var moves := PermittedMovesFrom(s.0, s.1, n);
    if Label(s) in g {
      var l :| l in g[Label(s)];
      KnightEdgeEnds(n, (Label(s), l));
      LabelRoundTrip(s);
      assert Coordinate(l).value in moves;
    }
    if moves != [] {
      KnightGraphEdge(g, n, s, moves[0]);
    }
  }

  /** Every node is the label of a square of the board. */
  lemma KnightGraphNodesOnBoard(g: Graph<Node>, n: int, l: Node)
    requires n <= 8 && IsKnightGraph(g, n) && l in g
    ensures Coordinate(l).Some? && OnBoard(Coordinate(l).value, n)
  {
    var m :| m in g[l];
    KnightEdgeEnds(n, (l, m));
  }

  /**
    * The knight's graph is undirected, every neighbour is a node, and no
    * square is its own neighbour.
    */
  lemma KnightGraphShape(g: Graph<Node>, n: int)
    requires n <= 8 && IsKnightGraph(g, n)
    ensures Symmetric(g) && Closed(g)
    ensures forall u :: u in g ==> u !in g[u]
  {
    forall e | e in KnightEdges(n) ensures (e.1, e.0) in KnightEdges(n) {
      KnightEdgeReverse(n, e);
    }
    HasEdgesOfSymmetric(g, KnightEdges(n));
    forall u | u in g ensures u !in g[u] {
      KnightGraphNoLoop(g, n, u);
    }
  }

  lemma KnightGraphNoLoop(g: Graph<Node>, n: int, u: Node)
    requires n <= 8 && IsKnightGraph(g, n) && u in g
    ensures u !in g[u]
  {
    if u in g[u] {
      KnightEdgeEnds(n, (u, u));
      NoMoveToSelf(Coordinate(u).value, n);
    }
  }

  /** On a board of side at most 2 no knight move exists, so the graph is empty. */
  lemma SmallBoardGraphEmpty(g: Graph<Node>, n: int)
    requires n <= 2 && IsKnightGraph(g, n)
    ensures g == map[]
  {
    if g != map[] {
      var u :| u in g;
      var v :| v in g[u];
      KnightEdgeEnds(n, (u, v));
      NoMovesOnSmallBoard(Coordinate(u).value, n);
    }
  }

  /** On the 8 x 8 board the knight can leave every square, so every label is a node. */
  lemma FullBoardEveryLabelIsNode(g: Graph<Node>, s: Square)
    requires IsKnightGraph(g, 8) && OnBoard(s, 8)
    ensures Label(s) in g
  {
    var t := (if s.0 < 7 then s.0 + 1 else s.0 - 1, if s.1 < 6 then s.1 + 2 else s.1 - 2);
    PermittedMovesAreKnightSteps(OffsetTo(s.0, s.1, t));
    assert t in PermittedMovesFrom(s.0, s.1, 8);
    KnightGraphNode(g, 8, s);
  }
}

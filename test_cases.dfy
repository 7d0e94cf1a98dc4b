/**
  * The cases of the program's own test suite, stated over the model: the
  * moves from each square of a 3 x 3 board, the knight's graph of that
  * board, the shortest paths of a small weighted graph, and the request
  * lines accepted or refused by the validation.
  */
module TestCases {
  import opened Board
  import opened Graphs
  import opened EdgeGraphs
  import opened KnightsGraph
  import opened InputValidation

  // ---------------------------------------------------------------------------
  // Moves on a 3 x 3 board
  // ---------------------------------------------------------------------------

  /** A sequence without repetitions has as many distinct elements as positions. */
  lemma {:induction false} DistinctCard(r: seq<Square>)
    requires forall i, j :: 0 <= i < j < |r| ==> r[i] != r[j]
    ensures |set t | t in r| == |r|
  {
    if r != [] {
      var init := r[..|r| - 1];
      DistinctCard(init);
      assert (set t | t in r) == (set t | t in init) + {r[|r| - 1]};
      assert r[|r| - 1] !in init;
    }
  }

  /** A sequence without repetitions whose elements are exactly a and b lists them once each. */
  lemma PairSeq(r: seq<Square>, a: Square, b: Square)
    requires forall t :: t in r <==> t == a || t == b
    requires forall i, j :: 0 <= i < j < |r| ==> r[i] != r[j]
    requires a != b
    ensures r == [a, b] || r == [b, a]
  {
    DistinctCard(r);
    assert (set t | t in r) == {a, b};
    assert r[0] in r && r[1] in r;
  }

  /**
    * When exactly two squares a and b are reached with the i-th and j-th
    * offsets, i < j, the moves are a then b.
    */
  lemma TwoMoves(row: int, col: int, n: int, a: Square, b: Square, i: nat, j: nat)
    requires forall t :: OnBoard(t, n) && OffsetTo(row, col, t) in PermittedMoves <==> t == a || t == b
    requires i < j < |PermittedMoves|
    requires OffsetTo(row, col, a) == PermittedMoves[i] && OffsetTo(row, col, b) == PermittedMoves[j]
    ensures PermittedMovesFrom(row, col, n) == [a, b]
  {
    PermittedMovesDistinct();
    IndexOfDistinct(PermittedMoves, i);
    IndexOfDistinct(PermittedMoves, j);
    PairSeq(PermittedMovesFrom(row, col, n), a, b);
  }

  /** When no offset stays on the board there are no moves. */
  lemma NoMoves(row: int, col: int, n: int)
    requires forall t :: !(OnBoard(t, n) && OffsetTo(row, col, t) in PermittedMoves)
    ensures PermittedMovesFrom(row, col, n) == []
  {
    var r := PermittedMovesFrom(row, col, n);
    DistinctCard(r);
    assert (set t | t in r) == {};
  }

  lemma OffsetCases(d: Square)
    ensures d in PermittedMoves <==>
      d == (-1, -2) || d == (1, -2) || d == (-2, -1) || d == (2, -1) ||
      d == (-2, 1) || d == (2, 1) || d == (-1, 2) || d == (1, 2)
  {
  }

  lemma MovesFrom00()
    ensures PermittedMovesFrom(0, 0, 3) == [(2, 1), (1, 2)]
  {
    forall t ensures OnBoard(t, 3) && OffsetTo(0, 0, t) in PermittedMoves <==> t == (2, 1) || t == (1, 2) {
      OffsetCases(OffsetTo(0, 0, t));
    }
    TwoMoves(0, 0, 3, (2, 1), (1, 2), 5, 7);
  }

  lemma MovesFrom01()
    ensures PermittedMovesFrom(0, 1, 3) == [(2, 0), (2, 2)]
  {
    forall t ensures OnBoard(t, 3) && OffsetTo(0, 1, t) in PermittedMoves <==> t == (2, 0) || t == (2, 2) {
      OffsetCases(OffsetTo(0, 1, t));
    }
    TwoMoves(0, 1, 3, (2, 0), (2, 2), 3, 5);
  }

  lemma MovesFrom02()
    ensures PermittedMovesFrom(0, 2, 3) == [(1, 0), (2, 1)]
  {
    forall t ensures OnBoard(t, 3) && OffsetTo(0, 2, t) in PermittedMoves <==> t == (1, 0) || t == (2, 1) {
      OffsetCases(OffsetTo(0, 2, t));
    }
    TwoMoves(0, 2, 3, (1, 0), (2, 1), 1, 3);
  }

  lemma MovesFrom10()
    ensures PermittedMovesFrom(1, 0, 3) == [(0, 2), (2, 2)]
  {
    forall t ensures OnBoard(t, 3) && OffsetTo(1, 0, t) in PermittedMoves <==> t == (0, 2) || t == (2, 2) {
      OffsetCases(OffsetTo(1, 0, t));
    }
    TwoMoves(1, 0, 3, (0, 2), (2, 2), 6, 7);
  }

  lemma MovesFrom11()
    ensures PermittedMovesFrom(1, 1, 3) == []
  {
    forall t ensures !(OnBoard(t, 3) && OffsetTo(1, 1, t) in PermittedMoves) {
      OffsetCases(OffsetTo(1, 1, t));
    }
    NoMoves(1, 1, 3);
  }

  lemma MovesFrom12()
    ensures PermittedMovesFrom(1, 2, 3) == [(0, 0), (2, 0)]
  {
    forall t ensures OnBoard(t, 3) && OffsetTo(1, 2, t) in PermittedMoves <==> t == (0, 0) || t == (2, 0) {
      OffsetCases(OffsetTo(1, 2, t));
    }
    TwoMoves(1, 2, 3, (0, 0), (2, 0), 0, 1);
  }

  lemma MovesFrom20()
    ensures PermittedMovesFrom(2, 0, 3) == [(0, 1), (1, 2)]
  {
    forall t ensures OnBoard(t, 3) && OffsetTo(2, 0, t) in PermittedMoves <==> t == (0, 1) || t == (1, 2) {
      OffsetCases(OffsetTo(2, 0, t));
    }
    TwoMoves(2, 0, 3, (0, 1), (1, 2), 4, 6);
  }

  lemma MovesFrom21()
    ensures PermittedMovesFrom(2, 1, 3) == [(0, 0), (0, 2)]
  {
    forall t ensures OnBoard(t, 3) && OffsetTo(2, 1, t) in PermittedMoves <==> t == (0, 0) || t == (0, 2) {
      OffsetCases(OffsetTo(2, 1, t));
    }
    TwoMoves(2, 1, 3, (0, 0), (0, 2), 2, 4);
  }

  lemma MovesFrom22()
    ensures PermittedMovesFrom(2, 2, 3) == [(1, 0), (0, 1)]
  {
    forall t ensures OnBoard(t, 3) && OffsetTo(2, 2, t) in PermittedMoves <==> t == (1, 0) || t == (0, 1) {
      OffsetCases(OffsetTo(2, 2, t));
    }
    TwoMoves(2, 2, 3, (1, 0), (0, 1), 0, 2);
  }

  // ---------------------------------------------------------------------------
  // The knight's graph of a 3 x 3 board
  // ---------------------------------------------------------------------------

  /** The expected graph: every square but the centre, joined to its two moves. */
  const ThreeByThree: Graph<Node> := map[
    "A1" := map["C2" := 1, "B3" := 1],
    "C2" := map["A1" := 1, "A3" := 1],
    "B3" := map["A1" := 1, "C1" := 1],
    "A2" := map["C1" := 1, "C3" := 1],
    "C1" := map["A2" := 1, "B3" := 1],
    "C3" := map["A2" := 1, "B1" := 1],
    "A3" := map["B1" := 1, "C2" := 1],
    "B1" := map["A3" := 1, "C3" := 1]
  ]

  lemma FixtureNeighbours(s: Square, a: Square, b: Square, t: Square)
    requires OnBoard(s, 3) && OnBoard(a, 3) && OnBoard(b, 3) && OnBoard(t, 3)
    requires Label(s) in ThreeByThree && ThreeByThree[Label(s)] == map[Label(a) := 1, Label(b) := 1]
    ensures Label(t) in ThreeByThree[Label(s)] <==> t == a || t == b
  {
    LabelInjective(t, a);
    LabelInjective(t, b);
  }

  lemma FixtureRow00()
    ensures Label((0, 0)) in ThreeByThree
    ensures ThreeByThree[Label((0, 0))] == map[Label((2, 1)) := 1, Label((1, 2)) := 1]
  {
  }

  lemma FixtureMoves00(t: Square)
    requires OnBoard(t, 3)
    ensures t in PermittedMovesFrom(0, 0, 3) <==> Label((0, 0)) in ThreeByThree && Label(t) in ThreeByThree[Label((0, 0))]
  {
    MovesFrom00();
    FixtureRow00();
    FixtureNeighbours((0, 0), (2, 1), (1, 2), t);
  }

  lemma FixtureRow01()
    ensures Label((0, 1)) in ThreeByThree
    ensures ThreeByThree[Label((0, 1))] == map[Label((2, 0)) := 1, Label((2, 2)) := 1]
  {
  }

  lemma FixtureMoves01(t: Square)
    requires OnBoard(t, 3)
    ensures t in PermittedMovesFrom(0, 1, 3) <==> Label((0, 1)) in ThreeByThree && Label(t) in ThreeByThree[Label((0, 1))]
  {
    MovesFrom01();
    FixtureRow01();
    FixtureNeighbours((0, 1), (2, 0), (2, 2), t);
  }

  lemma FixtureRow02()
    ensures Label((0, 2)) in ThreeByThree
    ensures ThreeByThree[Label((0, 2))] == map[Label((1, 0)) := 1, Label((2, 1)) := 1]
  {
  }

  lemma FixtureMoves02(t: Square)
    requires OnBoard(t, 3)
    ensures t in PermittedMovesFrom(0, 2, 3) <==> Label((0, 2)) in ThreeByThree && Label(t) in ThreeByThree[Label((0, 2))]
  {
    MovesFrom02();
    FixtureRow02();
    FixtureNeighbours((0, 2), (1, 0), (2, 1), t);
  }

  lemma FixtureRow10()
    ensures Label((1, 0)) in ThreeByThree
    ensures ThreeByThree[Label((1, 0))] == map[Label((0, 2)) := 1, Label((2, 2)) := 1]
  {
  }

  lemma FixtureMoves10(t: Square)
    requires OnBoard(t, 3)
    ensures t in PermittedMovesFrom(1, 0, 3) <==> Label((1, 0)) in ThreeByThree && Label(t) in ThreeByThree[Label((1, 0))]
  {
    MovesFrom10();
    FixtureRow10();
    FixtureNeighbours((1, 0), (0, 2), (2, 2), t);
  }

  lemma FixtureRow11()
    ensures Label((1, 1)) !in ThreeByThree
  {
  }

  lemma FixtureMoves11(t: Square)
    requires OnBoard(t, 3)
    ensures t in PermittedMovesFrom(1, 1, 3) <==> Label((1, 1)) in ThreeByThree && Label(t) in ThreeByThree[Label((1, 1))]
  {
    MovesFrom11();
    FixtureRow11();
  }

  lemma FixtureRow12()
    ensures Label((1, 2)) in ThreeByThree
    ensures ThreeByThree[Label((1, 2))] == map[Label((0, 0)) := 1, Label((2, 0)) := 1]
  {
  }

  lemma FixtureMoves12(t: Square)
    requires OnBoard(t, 3)
    ensures t in PermittedMovesFrom(1, 2, 3) <==> Label((1, 2)) in ThreeByThree && Label(t) in ThreeByThree[Label((1, 2))]
  {
    MovesFrom12();
    FixtureRow12();
    FixtureNeighbours((1, 2), (0, 0), (2, 0), t);
  }

  lemma FixtureRow20()
    ensures Label((2, 0)) in ThreeByThree
    ensures ThreeByThree[Label((2, 0))] == map[Label((0, 1)) := 1, Label((1, 2)) := 1]
  {
  }

  lemma FixtureMoves20(t: Square)
    requires OnBoard(t, 3)
    ensures t in PermittedMovesFrom(2, 0, 3) <==> Label((2, 0)) in ThreeByThree && Label(t) in ThreeByThree[Label((2, 0))]
  {
    MovesFrom20();
    FixtureRow20();
    FixtureNeighbours((2, 0), (0, 1), (1, 2), t);
  }

  lemma FixtureRow21()
    ensures Label((2, 1)) in ThreeByThree
    ensures ThreeByThree[Label((2, 1))] == map[Label((0, 0)) := 1, Label((0, 2)) := 1]
  {
  }

  lemma FixtureMoves21(t: Square)
    requires OnBoard(t, 3)
    ensures t in PermittedMovesFrom(2, 1, 3) <==> Label((2, 1)) in ThreeByThree && Label(t) in ThreeByThree[Label((2, 1))]
  {
    MovesFrom21();
    FixtureRow21();
    FixtureNeighbours((2, 1), (0, 0), (0, 2), t);
  }

  lemma FixtureRow22()
    ensures Label((2, 2)) in ThreeByThree
    ensures ThreeByThree[Label((2, 2))] == map[Label((1, 0)) := 1, Label((0, 1)) := 1]
  {
  }

  lemma FixtureMoves22(t: Square)
    requires OnBoard(t, 3)
    ensures t in PermittedMovesFrom(2, 2, 3) <==> Label((2, 2)) in ThreeByThree && Label(t) in ThreeByThree[Label((2, 2))]
  {
    MovesFrom22();
    FixtureRow22();
    FixtureNeighbours((2, 2), (1, 0), (0, 1), t);
  }

  lemma FixtureMovesRow0(s: Square, t: Square)
    requires s.0 == 0 && OnBoard(s, 3) && OnBoard(t, 3)
    ensures t in PermittedMovesFrom(s.0, s.1, 3) <==> Label(s) in ThreeByThree && Label(t) in ThreeByThree[Label(s)]
  {
    if s.1 == 0 { FixtureMoves00(t); }
    else if s.1 == 1 { FixtureMoves01(t); }
    else { FixtureMoves02(t); }
  }

  lemma FixtureMovesRow1(s: Square, t: Square)
    requires s.0 == 1 && OnBoard(s, 3) && OnBoard(t, 3)
    ensures t in PermittedMovesFrom(s.0, s.1, 3) <==> Label(s) in ThreeByThree && Label(t) in ThreeByThree[Label(s)]
  {
    if s.1 == 0 { FixtureMoves10(t); }
    else if s.1 == 1 { FixtureMoves11(t); }
    else { FixtureMoves12(t); }
  }

  lemma FixtureMovesRow2(s: Square, t: Square)
    requires s.0 == 2 && OnBoard(s, 3) && OnBoard(t, 3)
    ensures t in PermittedMovesFrom(s.0, s.1, 3) <==> Label(s) in ThreeByThree && Label(t) in ThreeByThree[Label(s)]
  {
    if s.1 == 0 { FixtureMoves20(t); }
    else if s.1 == 1 { FixtureMoves21(t); }
    else { FixtureMoves22(t); }
  }

  /** Between squares of the 3 x 3 board, the expected graph has an edge exactly where the knight can move. */
  lemma FixtureMoves(s: Square, t: Square)
    requires OnBoard(s, 3) && OnBoard(t, 3)
    ensures t in PermittedMovesFrom(s.0, s.1, 3) <==> Label(s) in ThreeByThree && Label(t) in ThreeByThree[Label(s)]
  {
    if s.0 == 0 { FixtureMovesRow0(s, t); }
    else if s.0 == 1 { FixtureMovesRow1(s, t); }
    else { FixtureMovesRow2(s, t); }
  }

  /** Every node of the expected graph is a square of the 3 x 3 board and has a neighbour. */
  lemma FixtureNode(a: Node)
    requires a in ThreeByThree
    ensures Coordinate(a).Some? && OnBoard(Coordinate(a).value, 3)
    ensures ThreeByThree[a] != map[]
  {
    if a == "A1" { assert "C2" in ThreeByThree[a]; }
    else if a == "C2" { assert "A1" in ThreeByThree[a]; }
    else if a == "B3" { assert "A1" in ThreeByThree[a]; }
    else if a == "A2" { assert "C1" in ThreeByThree[a]; }
    else if a == "C1" { assert "A2" in ThreeByThree[a]; }
    else if a == "C3" { assert "A2" in ThreeByThree[a]; }
    else if a == "A3" { assert "B1" in ThreeByThree[a]; }
    else { assert "A3" in ThreeByThree[a]; }
  }

  /** Every neighbour in the expected graph is a square of the 3 x 3 board, at weight 1. */
  lemma FixtureNeighbour(a: Node, b: Node)
    requires a in ThreeByThree && b in ThreeByThree[a]
    ensures Coordinate(b).Some? && OnBoard(Coordinate(b).value, 3)
    ensures ThreeByThree[a][b] == 1
  {
    if a == "A1" { assert b == "C2" || b == "B3"; }
    else if a == "C2" { assert b == "A1" || b == "A3"; }
    else if a == "B3" { assert b == "A1" || b == "C1"; }
    else if a == "A2" { assert b == "C1" || b == "C3"; }
    else if a == "C1" { assert b == "A2" || b == "B3"; }
    else if a == "C3" { assert b == "A2" || b == "B1"; }
    else if a == "A3" { assert b == "B1" || b == "C2"; }
    else { assert b == "A3" || b == "C3"; }
  }

  /** The expected graph has weight 1 on exactly the knight moves of the 3 x 3 board. */
  lemma FixtureIsKnightGraph()
    ensures IsKnightGraph(ThreeByThree, 3)
  {
    forall a | a in ThreeByThree
      ensures ThreeByThree[a] != map[]
    {
      FixtureNode(a);
    }
    forall a, b | a in ThreeByThree && b in ThreeByThree[a]
      ensures (a, b) in KnightEdges(3) && ThreeByThree[a][b] == 1
    {
      FixtureNode(a);
      FixtureNeighbour(a, b);
      var s, t := Coordinate(a).value, Coordinate(b).value;
      FixtureMoves(s, t);
      KnightEdgeMember(3, s, t);
    }
    forall e | e in KnightEdges(3)
      ensures e.0 in ThreeByThree && e.1 in ThreeByThree[e.0]
    {
      KnightEdgeEnds(3, e);
      FixtureMoves(Coordinate(e.0).value, Coordinate(e.1).value);
    }
  }

  /** The graph built for a 3 x 3 board is the expected one. */
  lemma ThreeByThreeGraph(g: Graph<Node>)
    requires IsKnightGraph(g, 3)
    ensures g == ThreeByThree
  {
    FixtureIsKnightGraph();
    HasEdgesOfUnique(g, ThreeByThree, KnightEdges(3));
  }

  /** Building the graph of a 3 x 3 board gives the expected graph. */
  method BuildThreeByThree() returns (g: Graph<Node>)
    ensures g == ThreeByThree
  {
    var graph := BuildKnightsGraph(3);
    g := graph.adj;
    ThreeByThreeGraph(g);
  }

  // ---------------------------------------------------------------------------
  // Request lines
  // ---------------------------------------------------------------------------

  /**
    * "D4 D5" is a valid request; "A1 H9" is not, as H9 is off the board; and
    * "A1  H8" is not, as it has two spaces between the squares.
    */
  method RequestCases() returns (r1: bool, r2: bool, r3: bool)
    ensures r1 && !r2 && !r3
  {
    var ok, offBoard, twoSpaces := ["D4 D5"], ["A1 H9"], ["A1  H8"];
    assert MatchesRequest(ok[0]);
    r1 := InputIsValid(ok);
    assert !IsRank(offBoard[0][4]);
    r2 := InputIsValid(offBoard);
    assert |twoSpaces[0]| == 6 && twoSpaces[0][5] != '\n';
    r3 := InputIsValid(twoSpaces);
  }
}

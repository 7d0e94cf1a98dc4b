/**
  * Lengths of shortest knight paths on the 8 x 8 board. Each knight move
  * changes row + col by 1 or 3, so after k moves that sum has changed by at
  * most 3k and by an amount of the same parity as k. With a walk that meets
  * the bound, this fixes how many squares the shortest path visits for the
  * requests "D4 G7", "D4 D5" and "A1 H8".
  */
module KnightPaths {
  import opened Board
  import opened Graphs
  import opened EdgeGraphs
  import opened KnightsGraph
  import opened HeapQueue
  import opened ShortestPath
  import opened InputValidation

  /** row + col of a square; a knight move changes it by an odd amount of at most 3. */
  function CoordSum(s: Square): int {
    s.0 + s.1
  }

  /** One edge of the knight's graph joins two board squares a knight move apart, at weight 1. */
  lemma KnightGraphStep(g: Graph<Node>, u: Node, v: Node)
    requires IsKnightGraph(g, 8) && u in g && v in g[u]
    ensures Coordinate(u).Some? && Coordinate(v).Some?
    ensures Coordinate(v).value in PermittedMovesFrom(Coordinate(u).value.0, Coordinate(u).value.1, 8)
    ensures g[u][v] == 1
  {
    KnightEdgeEnds(8, (u, v));
  }

  /** x and y are both even or both odd. */
  predicate SameParity(x: int, y: int) {
    (x - y) % 2 == 0
  }

  /** Each square of ss is a knight's step from the one before. */
  predicate KnightSteps(ss: seq<Square>) {
    forall i :: 0 <= i < |ss| - 1 ==> IsKnightStep(OffsetTo(ss[i].0, ss[i].1, ss[i + 1]))
  }

  /**
    * Over k knight's steps from a to b, row + col changes by at most 3k, and
    * by an amount of the same parity as k.
    */
  lemma {:induction false} KnightStepsBound(ss: seq<Square>, a: Square, b: Square, k: int)
    requires |ss| == k + 1 && k >= 0 && ss[0] == a && ss[k] == b && KnightSteps(ss)
    ensures -3 * k <= CoordSum(b) - CoordSum(a) <= 3 * k
    ensures SameParity(CoordSum(b) - CoordSum(a), k)
  {
    if k > 0 {
      var init := ss[..k];
      assert KnightSteps(init);
      var u := ss[k - 1];
      KnightStepsBound(init, a, u, k - 1);
      assert IsKnightStep(OffsetTo(u.0, u.1, b));
      SumBoundStep(CoordSum(u) - CoordSum(a), k - 1, CoordSum(b) - CoordSum(u));
    }
  }

  /** The squares a walk of the knight's graph visits. */
  ghost function WalkSquares(g: Graph<Node>, p: seq<Node>): (ss: seq<Square>)
    requires IsKnightGraph(g, 8) && IsWalk(g, p)
    ensures |ss| == |p|
    ensures forall i :: 0 <= i < |p| ==> Coordinate(p[i]) == Some(ss[i])
  {
    seq(|p|, i requires 0 <= i < |p| => NodeSquare(g, p[i]))
  }

  /** The square a node of the knight's graph names. */
  ghost function NodeSquare(g: Graph<Node>, u: Node): (s: Square)
    requires IsKnightGraph(g, 8) && u in g
    ensures Coordinate(u) == Some(s)
  {
    KnightGraphNodesOnBoard(g, 8, u);
    Coordinate(u).value
  }

  /** The squares of a walk of the knight's graph are knight's steps apart. */
  lemma WalkTakesKnightSteps(g: Graph<Node>, p: seq<Node>)
    requires IsKnightGraph(g, 8) && IsWalk(g, p)
    ensures KnightSteps(WalkSquares(g, p))
  {
    var ss := WalkSquares(g, p);
    forall i | 0 <= i < |ss| - 1
      ensures IsKnightStep(OffsetTo(ss[i].0, ss[i].1, ss[i + 1]))
    {
      KnightGraphStep(g, p[i], p[i + 1]);
      PermittedMovesAreKnightSteps(OffsetTo(ss[i].0, ss[i].1, ss[i + 1]));
    }
  }

  /** Every edge of the knight's graph weighs 1, so a walk weighs its number of moves. */
  lemma {:induction false} KnightWalkWeight(g: Graph<Node>, p: seq<Node>)
    requires IsKnightGraph(g, 8) && IsWalk(g, p)
    ensures Weight(g, p) == |p| - 1
    decreases |p|
  {
    if |p| > 1 {
      WalkPrefix(g, p);
      KnightWalkWeight(g, p[..|p| - 1]);
      KnightGraphStep(g, p[|p| - 2], p[|p| - 1]);
    }
  }

  /**
    * A walk of the knight's graph weighs one per move, and between its ends
    * row + col changes by at most three per move, with the parity of the
    * number of moves.
    */
  lemma KnightWalk(g: Graph<Node>, p: seq<Node>, a: Square, b: Square)
    requires IsKnightGraph(g, 8) && IsWalk(g, p)
    requires Coordinate(p[0]) == Some(a) && Coordinate(p[|p| - 1]) == Some(b)
    ensures Weight(g, p) == |p| - 1
    ensures -3 * (|p| - 1) <= CoordSum(b) - CoordSum(a) <= 3 * (|p| - 1)
    ensures SameParity(CoordSum(b) - CoordSum(a), |p| - 1)
  {
    KnightWalkWeight(g, p);
    var ss := WalkSquares(g, p);
    WalkTakesKnightSteps(g, p);
    KnightStepsBound(ss, a, b, |p| - 1);
  }

  /** Adding one move of change e to k moves of total change d keeps the bound and the parity. */
  lemma SumBoundStep(d: int, k: int, e: int)
    requires -3 * k <= d <= 3 * k && SameParity(d, k)
    requires e == 1 || e == -1 || e == 3 || e == -3
    ensures -3 * (k + 1) <= d + e <= 3 * (k + 1) && SameParity(d + e, k + 1)
  {
    var x := d - k;
    assert (d + e) - (k + 1) == x + (e - 1);
    if e == -1 {
      EvenShift(x, -1);
    } else if e == 3 {
      EvenShift(x, 1);
    } else if e == -3 {
      EvenShift(x, -2);
    }
  }

  /** Adding an even number keeps an even number even. */
  lemma EvenShift(x: int, c: int)
    requires x % 2 == 0
    ensures (x + 2 * c) % 2 == 0
  {
    assert x + 2 * c == 2 * (x / 2 + c);
  }

  // ---------------------------------------------------------------------------
  // The example requests
  // ---------------------------------------------------------------------------

  /** The labels of a sequence of board squares. */
  function LabelsOf(ss: seq<Square>): (ls: seq<Node>)
    requires forall i :: 0 <= i < |ss| ==> OnBoard(ss[i], 8)
    ensures |ls| == |ss| && forall i :: 0 <= i < |ss| ==> ls[i] == Label(ss[i])
  {
    if ss == [] then [] else [Label(ss[0])] + LabelsOf(ss[1..])
  }

  /** A tour of `moves` knight moves on the full board from s to t. */
  predicate IsTour(s: Square, t: Square, tour: seq<Square>, moves: nat) {
    && |tour| == moves + 1 && tour[0] == s && tour[moves] == t
    && (forall i :: 0 <= i < |tour| ==> OnBoard(tour[i], 8))
    && forall i :: 0 <= i < |tour| - 1 ==> OffsetTo(tour[i].0, tour[i].1, tour[i + 1]) in PermittedMoves
  }

  /**
    * No count of moves below `moves` fits the change of row + col from s to
    * t, except a single move where t is not one move from s.
    */
  predicate NoShorterCount(s: Square, t: Square, moves: nat) {
    forall w: nat :: w < moves && -3 * w <= CoordSum(t) - CoordSum(s) <= 3 * w && SameParity(CoordSum(t) - CoordSum(s), w) ==>
      w == 1 && OffsetTo(s.0, s.1, t) !in PermittedMoves
  }

  /** A sequence of board squares, each a knight move from the one before, labels a walk of the knight's graph. */
  lemma KnightTour(g: Graph<Node>, s: Square, t: Square, ss: seq<Square>, moves: nat)
    requires IsKnightGraph(g, 8) && IsTour(s, t, ss, moves)
    ensures IsPath(g, LabelsOf(ss), Label(s), Label(t))
  {
    var ls := LabelsOf(ss);
    forall i | 0 <= i < |ss|
      ensures ls[i] in g
    {
      FullBoardEveryLabelIsNode(g, ss[i]);
    }
    forall i | 0 <= i < |ss| - 1
      ensures ls[i + 1] in g[ls[i]]
    {
      assert ss[i + 1] in PermittedMovesFrom(ss[i].0, ss[i].1, 8);
      KnightGraphEdge(g, 8, ss[i], ss[i + 1]);
    }
  }

  /**
    * The search between two squares of the full board returns a walk of
    * exactly `moves` knight moves when some walk has that many and none has
    * fewer: at least `moves` when the change of row + col or its parity rules
    * out every shorter walk, and at most `moves` because it is a lightest walk.
    */
  lemma ShortestKnightMoves(g: Graph<Node>, s: Square, t: Square, path: seq<Node>, tour: seq<Square>, moves: nat)
    requires IsKnightGraph(g, 8) && OnBoard(s, 8) && OnBoard(t, 8)
    requires IsTour(s, t, tour, moves) && NoShorterCount(s, t, moves)
    requires Reachable(g, Label(s), Label(t)) ==>
               IsPath(g, path, Label(s), Label(t)) &&
               forall p :: IsPath(g, p, Label(s), Label(t)) ==> Weight(g, path) <= Weight(g, p)
    ensures IsPath(g, path, Label(s), Label(t)) && |path| == moves + 1
  {
    KnightTour(g, s, t, tour, moves);
    var labels := LabelsOf(tour);
    KnightWalkWeight(g, labels);
    LabelRoundTrip(s);
    LabelRoundTrip(t);
    KnightWalk(g, path, s, t);
    if |path| == 2 {
      KnightGraphEdge(g, 8, s, t);
    }
  }

  /**
    * The search on the full board from s to t, when some tour of `moves`
    * knight moves leads there and no shorter walk can, returns a walk of
    * exactly `moves` moves.
    */
  method KnightSearch(g: Graph<Node>, s: Square, t: Square, tour: seq<Square>, moves: nat)
    returns (path: seq<Node>, printed: string)
    requires IsKnightGraph(g, 8) && OnBoard(s, 8) && OnBoard(t, 8)
    requires IsTour(s, t, tour, moves) && NoShorterCount(s, t, moves)
    ensures IsPath(g, path, Label(s), Label(t)) && |path| == moves + 1
    ensures printed == JoinWords(path) && SplitWords(printed) == path
    ensures FirstInOrder(g, Label(s), path)
  {
    KnightGraphPositive(g);
    KnightGraphShape(g, 8);
    FullBoardEveryLabelIsNode(g, s);
    FullBoardEveryLabelIsNode(g, t);
    path, printed := Dijkstra(g, Label(s), Label(t));
    ShortestKnightMoves(g, s, t, path, tour, moves);
    PrintedKnightWalk(g, path);
  }

  /** The printed form of a walk of the knight's graph splits back into the walk: labels hold no space. */
  lemma PrintedKnightWalk(g: Graph<Node>, path: seq<Node>)
    requires IsKnightGraph(g, 8) && IsWalk(g, path)
    ensures SplitWords(JoinWords(path)) == path
  {
    forall w | w in path
      ensures IsLabel(w)
    {
      KnightGraphNodesOnBoard(g, 8, w);
    }
    PrintedLabels(path);
  }

  /** Labels hold no space, so the printed form of a sequence of labels splits back into it. */
  lemma PrintedLabels(ls: seq<Node>)
    requires ls != [] && forall w :: w in ls ==> IsLabel(w)
    ensures SplitWords(JoinWords(ls)) == ls
  {
    forall w | w in ls
      ensures ' ' !in w
    {
      assert w == [w[0], w[1]];
    }
    SplitJoin(ls);
  }

  /** A square of the board is a tour of no moves. */
  lemma TourStart(t: Square)
    requires OnBoard(t, 8)
    ensures IsTour(t, t, [t], 0)
  {
  }

  /** A knight move, given by its offset's place among the permitted moves, before a tour. */
  lemma TourMove(s: Square, k: nat, t: Square, tour: seq<Square>, moves: nat)
    requires OnBoard(s, 8) && tour != [] && IsTour(tour[0], t, tour, moves)
    requires k < |PermittedMoves| && OffsetTo(s.0, s.1, tour[0]) == PermittedMoves[k]
    ensures IsTour(s, t, [s] + tour, moves + 1)
  {
    var tour' := [s] + tour;
    forall i | 0 <= i < |tour'| - 1
      ensures OffsetTo(tour'[i].0, tour'[i].1, tour'[i + 1]) in PermittedMoves
    {
      if i > 0 {
        assert tour'[i] == tour[i - 1] && tour'[i + 1] == tour[i];
      }
    }
  }

  /** The tour D4 E6 G7. */
  lemma TourD4G7()
    ensures IsTour((3, 3), (6, 6), [(3, 3), (4, 5), (6, 6)], 2)
  {
    TourStart((6, 6));
    TourMove((4, 5), 5, (6, 6), [(6, 6)], 0);
    assert [(4, 5)] + [(6, 6)] == [(4, 5), (6, 6)];
    TourMove((3, 3), 7, (6, 6), [(4, 5), (6, 6)], 1);
    assert [(3, 3)] + [(4, 5), (6, 6)] == [(3, 3), (4, 5), (6, 6)];
  }


  /** No walk from D4 to G7 of fewer than two moves: row + col rises by 6, and a move changes it by at most 3. */
  lemma NoShorterD4G7()
    ensures NoShorterCount((3, 3), (6, 6), 2)
  {
  }

  /** The tour D4 C2 B4 D5. */
  lemma TourD4D5()
    ensures IsTour((3, 3), (3, 4), [(3, 3), (2, 1), (1, 3), (3, 4)], 3)
  {
    TourStart((3, 4));
    TourMove((1, 3), 5, (3, 4), [(3, 4)], 0);
    assert [(1, 3)] + [(3, 4)] == [(1, 3), (3, 4)];
    TourMove((2, 1), 6, (3, 4), [(1, 3), (3, 4)], 1);
    assert [(2, 1)] + [(1, 3), (3, 4)] == [(2, 1), (1, 3), (3, 4)];
    TourMove((3, 3), 0, (3, 4), [(2, 1), (1, 3), (3, 4)], 2);
    assert [(3, 3)] + [(2, 1), (1, 3), (3, 4)] == [(3, 3), (2, 1), (1, 3), (3, 4)];
  }


  /** No walk from D4 to D5 of fewer than three moves: the count is odd, and D5 is not one move from D4. */
  lemma NoShorterD4D5()
    ensures NoShorterCount((3, 3), (3, 4), 3)
  {
    assert !SameParity(1, 0) && !SameParity(1, 2);
    assert OffsetTo(3, 3, (3, 4)) !in PermittedMoves;
  }

  /** The tour A1 C2 A3 B5 D6 F7 H8. */
  lemma TourA1H8()
    ensures IsTour((0, 0), (7, 7), [(0, 0), (2, 1), (0, 2), (1, 4), (3, 5), (5, 6), (7, 7)], 6)
  {
    TourStart((7, 7));
    TourMove((5, 6), 5, (7, 7), [(7, 7)], 0);
    assert [(5, 6)] + [(7, 7)] == [(5, 6), (7, 7)];
    TourMove((3, 5), 5, (7, 7), [(5, 6), (7, 7)], 1);
    assert [(3, 5)] + [(5, 6), (7, 7)] == [(3, 5), (5, 6), (7, 7)];
    TourMove((1, 4), 5, (7, 7), [(3, 5), (5, 6), (7, 7)], 2);
    assert [(1, 4)] + [(3, 5), (5, 6), (7, 7)] == [(1, 4), (3, 5), (5, 6), (7, 7)];
    TourMove((0, 2), 7, (7, 7), [(1, 4), (3, 5), (5, 6), (7, 7)], 3);
    assert [(0, 2)] + [(1, 4), (3, 5), (5, 6), (7, 7)] == [(0, 2), (1, 4), (3, 5), (5, 6), (7, 7)];
    TourMove((2, 1), 4, (7, 7), [(0, 2), (1, 4), (3, 5), (5, 6), (7, 7)], 4);
    assert [(2, 1)] + [(0, 2), (1, 4), (3, 5), (5, 6), (7, 7)] == [(2, 1), (0, 2), (1, 4), (3, 5), (5, 6), (7, 7)];
    TourMove((0, 0), 5, (7, 7), [(2, 1), (0, 2), (1, 4), (3, 5), (5, 6), (7, 7)], 5);
    assert [(0, 0)] + [(2, 1), (0, 2), (1, 4), (3, 5), (5, 6), (7, 7)] == [(0, 0), (2, 1), (0, 2), (1, 4), (3, 5), (5, 6), (7, 7)];
  }


  /** No walk from A1 to H8 of fewer than six moves: five are too few to rise by 14, and the count is even. */
  lemma NoShorterA1H8()
    ensures NoShorterCount((0, 0), (7, 7), 6)
  {
    assert !SameParity(14, 5);
  }

  /** The labels of the squares the usage text names. */
  lemma UsageLabels()
    ensures Label((3, 3)) == "D4" && Label((6, 6)) == "G7" && Label((3, 4)) == "D5"
    ensures Label((0, 0)) == "A1" && Label((7, 7)) == "H8"
  {
  }

  // ---------------------------------------------------------------------------
  // Which shortest path the search prints
  // ---------------------------------------------------------------------------

  /** Labels compare as strings exactly as their squares compare by file, then by rank. */
  lemma LabelOrder(s: Square, t: Square)
    requires OnBoard(s, 8) && OnBoard(t, 8)
    ensures StrLe(Label(s), Label(t)) <==> s.0 < t.0 || (s.0 == t.0 && s.1 <= t.1)
  {
    FileAndRankChars(s.0);
    FileAndRankChars(t.0);
    FileAndRankChars(s.1);
    FileAndRankChars(t.1);
    var a, b := Label(s), Label(t);
    if a[0] == b[0] {
      assert StrLe(a, b) == StrLe(a[1..], b[1..]);
      assert StrLe(a[1..], b[1..]) == (a[1] == b[1] || a[1] < b[1]) by {
        assert a[1..][1..] == [] && b[1..][1..] == [];
      }
    }
  }

  /** Every edge of the knight's graph weighs 1. */
  lemma KnightGraphPositive(g: Graph<Node>)
    requires IsKnightGraph(g, 8)
    ensures PositiveWeights(g)
  {
    forall u, v | u in g && v in g[u]
      ensures g[u][v] > 0
    {
      KnightGraphStep(g, u, v);
    }
  }

  /** x is the first square, in label order, from which a knight reaches c. */
  ghost predicate FirstNeighbour(c: Square, x: Square)
    requires OnBoard(x, 8)
  {
    forall t :: OnBoard(t, 8) && OffsetTo(t.0, t.1, c) in PermittedMoves && StrLe(Label(t), Label(x)) ==> t == x
  }

  /** x is the first square, in label order, one knight move from both a and c. */
  ghost predicate FirstCommonNeighbour(a: Square, c: Square, x: Square)
    requires OnBoard(x, 8)
  {
    forall t ::
      OnBoard(t, 8) && OffsetTo(a.0, a.1, t) in PermittedMoves && OffsetTo(t.0, t.1, c) in PermittedMoves &&
      StrLe(Label(t), Label(x))
      ==> t == x
  }

  /** The first k squares of a tour are a tour of k - 1 moves. */
  lemma TourPrefix(s: Square, t: Square, tour: seq<Square>, moves: nat, k: nat)
    requires IsTour(s, t, tour, moves) && 0 < k <= moves + 1
    ensures IsTour(s, tour[k - 1], tour[..k], k - 1)
  {
  }

  /**
    * On a path whose steps are first in order, the node before p[i] comes,
    * in label order, no later than any node y with an edge to p[i] that the
    * source reaches by a walk of i - 1 moves.
    */
  lemma PredecessorFirst(g: Graph<Node>, src: Node, p: seq<Node>, i: nat, q: seq<Node>, y: Node)
    requires IsKnightGraph(g, 8) && IsWalk(g, p) && FirstInOrder(g, src, p) && 0 < i < |p|
    requires IsPath(g, q, src, y) && |q| == i && p[i] in g[y]
    ensures StrLe(p[i - 1], y)
  {
    assert LeastStepAt(g, src, p, i);
    StepWeights(g, p, i, q, y);
    EqualStepFirst(g, src, p, i, q, y);
  }

  /** Both walks to the step into p[i] take i - 1 moves, and the step weighs 1. */
  lemma StepWeights(g: Graph<Node>, p: seq<Node>, i: nat, q: seq<Node>, y: Node)
    requires IsKnightGraph(g, 8) && IsWalk(g, p) && 0 < i < |p|
    requires IsWalk(g, q) && |q| == i && y in g && p[i] in g[y]
    ensures IsWalk(g, p[..i]) && IsWalk(g, p[..i + 1])
    ensures Weight(g, q) == Weight(g, p[..i]) && Weight(g, q) + g[y][p[i]] == Weight(g, p[..i + 1])
  {
    KnightWalkWeight(g, q);
    KnightPrefixWeight(g, p, i);
    KnightPrefixWeight(g, p, i + 1);
    KnightGraphStep(g, y, p[i]);
  }

  /** The first k nodes of a walk of the knight's graph are a walk of k - 1 moves. */
  lemma KnightPrefixWeight(g: Graph<Node>, p: seq<Node>, k: nat)
    requires IsKnightGraph(g, 8) && IsWalk(g, p) && 0 < k <= |p|
    ensures IsWalk(g, p[..k]) && Weight(g, p[..k]) == k - 1
  {
    var pre := p[..k];
    assert IsWalk(g, pre);
    KnightWalkWeight(g, pre);
  }

  /** A walk as heavy as p's prefix that steps into p[i] ends no earlier in label order than p[i - 1]. */
  lemma EqualStepFirst(g: Graph<Node>, src: Node, p: seq<Node>, i: nat, q: seq<Node>, y: Node)
    requires IsWalk(g, p) && 0 < i < |p| && LeastStepAt(g, src, p, i)
    requires IsPath(g, q, src, y) && p[i] in g[y]
    requires IsWalk(g, p[..i]) && IsWalk(g, p[..i + 1])
    requires Weight(g, q) == Weight(g, p[..i]) && Weight(g, q) + g[y][p[i]] == Weight(g, p[..i + 1])
    ensures StrLe(p[i - 1], y)
  {
    assert EntryLe(Entry(Weight(g, p[..i]), p[i - 1]), Entry(Weight(g, q), y));
  }

  /**
    * On the path the search returns from s, the node before p[i] = c is x
    * when a tour of i - 1 moves reaches x, and x is the first neighbour of c
    * in label order (or, for the second node, the first common neighbour of
    * s and c).
    */
  lemma PinPredecessor(g: Graph<Node>, s: Square, p: seq<Node>, i: nat, c: Square, x: Square, tour: seq<Square>)
    requires IsKnightGraph(g, 8) && OnBoard(s, 8) && IsWalk(g, p) && p[0] == Label(s)
    requires FirstInOrder(g, Label(s), p)
    requires 0 < i < |p| && OnBoard(c, 8) && p[i] == Label(c)
    requires IsTour(s, x, tour, i - 1) && OffsetTo(x.0, x.1, c) in PermittedMoves
    requires FirstNeighbour(c, x) || (i == 2 && FirstCommonNeighbour(s, c, x))
    ensures p[i - 1] == Label(x)
  {
    KnightTour(g, s, x, tour, i - 1);
    KnightGraphEdge(g, 8, x, c);
    PredecessorFirst(g, Label(s), p, i, LabelsOf(tour), Label(x));
    KnightGraphStep(g, p[i - 1], p[i]);
    var t := Coordinate(p[i - 1]).value;
    LabelRoundTrip(c);
    assert OffsetTo(t.0, t.1, c) in PermittedMoves;
    if i == 2 && !FirstNeighbour(c, x) {
      KnightGraphStep(g, p[0], p[1]);
      LabelRoundTrip(s);
      assert OffsetTo(s.0, s.1, t) in PermittedMoves;
    }
  }

  /** F7 is the first square a knight reaches H8 from. */
  lemma FirstNeighbourH8()
    ensures FirstNeighbour((7, 7), (5, 6))
  {
    forall t | OnBoard(t, 8) && OffsetTo(t.0, t.1, (7, 7)) in PermittedMoves && StrLe(Label(t), Label((5, 6)))
      ensures t == (5, 6)
    {
      LabelOrder(t, (5, 6));
    }
  }

  /** D6 is the first square a knight reaches F7 from. */
  lemma FirstNeighbourF7()
    ensures FirstNeighbour((5, 6), (3, 5))
  {
    forall t | OnBoard(t, 8) && OffsetTo(t.0, t.1, (5, 6)) in PermittedMoves && StrLe(Label(t), Label((3, 5)))
      ensures t == (3, 5)
    {
      LabelOrder(t, (3, 5));
    }
  }

  /** B5 is the first square a knight reaches D6 from. */
  lemma FirstNeighbourD6()
    ensures FirstNeighbour((3, 5), (1, 4))
  {
    forall t | OnBoard(t, 8) && OffsetTo(t.0, t.1, (3, 5)) in PermittedMoves && StrLe(Label(t), Label((1, 4)))
      ensures t == (1, 4)
    {
      LabelOrder(t, (1, 4));
    }
  }

  /** A3 is the first square a knight reaches B5 from. */
  lemma FirstNeighbourB5()
    ensures FirstNeighbour((1, 4), (0, 2))
  {
    forall t | OnBoard(t, 8) && OffsetTo(t.0, t.1, (1, 4)) in PermittedMoves && StrLe(Label(t), Label((0, 2)))
      ensures t == (0, 2)
    {
      LabelOrder(t, (0, 2));
    }
  }

  /** B4 is the first square a knight reaches D5 from. */
  lemma FirstNeighbourD5()
    ensures FirstNeighbour((3, 4), (1, 3))
  {
    forall t | OnBoard(t, 8) && OffsetTo(t.0, t.1, (3, 4)) in PermittedMoves && StrLe(Label(t), Label((1, 3)))
      ensures t == (1, 3)
    {
      LabelOrder(t, (1, 3));
    }
  }

  /** E6 is the first square one move from both D4 and G7. */
  lemma FirstCommonD4G7()
    ensures FirstCommonNeighbour((3, 3), (6, 6), (4, 5))
  {
    forall t | OnBoard(t, 8) && OffsetTo(3, 3, t) in PermittedMoves && OffsetTo(t.0, t.1, (6, 6)) in PermittedMoves &&
               StrLe(Label(t), Label((4, 5)))
      ensures t == (4, 5)
    {
      LabelOrder(t, (4, 5));
    }
  }

  /** C2 is the first square one move from both D4 and B4. */
  lemma FirstCommonD4B4()
    ensures FirstCommonNeighbour((3, 3), (1, 3), (2, 1))
  {
    forall t | OnBoard(t, 8) && OffsetTo(3, 3, t) in PermittedMoves && OffsetTo(t.0, t.1, (1, 3)) in PermittedMoves &&
               StrLe(Label(t), Label((2, 1)))
      ensures t == (2, 1)
    {
      LabelOrder(t, (2, 1));
    }
  }

  /** C2 is the first square one move from both A1 and A3. */
  lemma FirstCommonA1A3()
    ensures FirstCommonNeighbour((0, 0), (0, 2), (2, 1))
  {
    forall t | OnBoard(t, 8) && OffsetTo(0, 0, t) in PermittedMoves && OffsetTo(t.0, t.1, (0, 2)) in PermittedMoves &&
               StrLe(Label(t), Label((2, 1)))
      ensures t == (2, 1)
    {
      LabelOrder(t, (2, 1));
    }
  }

  /** Labels of the squares the three usage examples pass through. */
  lemma PathLabels()
    ensures Label((4, 5)) == "E6" && Label((2, 1)) == "C2" && Label((1, 3)) == "B4"
    ensures Label((0, 2)) == "A3" && Label((1, 4)) == "B5" && Label((3, 5)) == "D6" && Label((5, 6)) == "F7"
  {
  }

  /**
    * One step back along the path p the search returns from s, checked
    * against a tour of as many moves: when p[i] is the tour's i-th square and
    * the tour's square before it is the first neighbour of that square (or,
    * for the second node, the first common neighbour with s), p[i - 1] is the
    * tour's square before.
    */
  lemma PinStep(g: Graph<Node>, s: Square, t: Square, p: seq<Node>, tour: seq<Square>, moves: nat, i: nat)
    requires IsKnightGraph(g, 8) && OnBoard(s, 8) && IsWalk(g, p) && p[0] == Label(s) && FirstInOrder(g, Label(s), p)
    requires IsTour(s, t, tour, moves) && |p| == moves + 1
    requires 2 <= i < |p| && p[i] == Label(tour[i])
    requires FirstNeighbour(tour[i], tour[i - 1]) || (i == 2 && FirstCommonNeighbour(s, tour[i], tour[i - 1]))
    ensures p[i - 1] == Label(tour[i - 1])
  {
    TourPrefix(s, t, tour, moves, i);
    PinPredecessor(g, s, p, i, tour[i], tour[i - 1], tour[..i]);
  }

  /** JoinWords puts one space between a word and the rest. */
  lemma JoinOnto(w: string, rest: seq<string>, joined: string)
    requires rest != [] && JoinWords(rest) == joined
    ensures JoinWords([w] + rest) == w + " " + joined
  {
    assert ([w] + rest)[1..] == rest;
  }

  /** The search's two-move path from D4 to G7 passes through E6. */
  lemma PinD4G7(g: Graph<Node>, p: seq<Node>)
    requires IsKnightGraph(g, 8) && IsPath(g, p, Label((3, 3)), Label((6, 6))) && |p| == 3
    requires FirstInOrder(g, Label((3, 3)), p)
    ensures JoinWords(p) == "D4 E6 G7"
  {
    var tour := [(3, 3), (4, 5), (6, 6)];
    TourD4G7();
    FirstCommonD4G7();
    PinStep(g, (3, 3), (6, 6), p, tour, 2, 2);
    PrintD4G7(p);
  }

  lemma PrintD4G7(p: seq<Node>)
    requires |p| == 3 && p[0] == Label((3, 3)) && p[1] == Label((4, 5)) && p[2] == Label((6, 6))
    ensures JoinWords(p) == "D4 E6 G7"
  {
    UsageLabels();
    PathLabels();
    assert p == ["D4", "E6", "G7"];
    JoinD4G7();
  }

  lemma JoinD4G7()
    ensures JoinWords(["D4", "E6", "G7"]) == "D4 E6 G7"
  {
    JoinOnto("E6", ["G7"], "G7");
    assert ["E6"] + ["G7"] == ["E6", "G7"];
    JoinOnto("D4", ["E6", "G7"], "E6 G7");
    assert ["D4"] + ["E6", "G7"] == ["D4", "E6", "G7"];
  }

  /** The search's three-move path from D4 to D5 passes through C2 and B4. */
  lemma PinD4D5(g: Graph<Node>, p: seq<Node>)
    requires IsKnightGraph(g, 8) && IsPath(g, p, Label((3, 3)), Label((3, 4))) && |p| == 4
    requires FirstInOrder(g, Label((3, 3)), p)
    ensures JoinWords(p) == "D4 C2 B4 D5"
  {
    var tour := [(3, 3), (2, 1), (1, 3), (3, 4)];
    TourD4D5();
    FirstNeighbourD5();
    PinStep(g, (3, 3), (3, 4), p, tour, 3, 3);
    FirstCommonD4B4();
    PinStep(g, (3, 3), (3, 4), p, tour, 3, 2);
    PrintD4D5(p);
  }

  lemma PrintD4D5(p: seq<Node>)
    requires |p| == 4 && p[0] == Label((3, 3)) && p[1] == Label((2, 1)) && p[2] == Label((1, 3)) && p[3] == Label((3, 4))
    ensures JoinWords(p) == "D4 C2 B4 D5"
  {
    UsageLabels();
    PathLabels();
    assert p == ["D4", "C2", "B4", "D5"];
    JoinD4D5();
  }

  lemma JoinD4D5()
    ensures JoinWords(["D4", "C2", "B4", "D5"]) == "D4 C2 B4 D5"
  {
    JoinOnto("B4", ["D5"], "D5");
    assert ["B4"] + ["D5"] == ["B4", "D5"];
    JoinOnto("C2", ["B4", "D5"], "B4 D5");
    assert ["C2"] + ["B4", "D5"] == ["C2", "B4", "D5"];
    JoinOnto("D4", ["C2", "B4", "D5"], "C2 B4 D5");
    assert ["D4"] + ["C2", "B4", "D5"] == ["D4", "C2", "B4", "D5"];
  }

  /** The search's six-move path from A1 to H8 passes through C2, A3, B5, D6 and F7. */
  lemma PinA1H8(g: Graph<Node>, p: seq<Node>)
    requires IsKnightGraph(g, 8) && IsPath(g, p, Label((0, 0)), Label((7, 7))) && |p| == 7
    requires FirstInOrder(g, Label((0, 0)), p)
    ensures JoinWords(p) == "A1 C2 A3 B5 D6 F7 H8"
  {
    var tour := [(0, 0), (2, 1), (0, 2), (1, 4), (3, 5), (5, 6), (7, 7)];
    TourA1H8();
    PinA1H8End(g, p, tour);
    FirstNeighbourB5();
    PinStep(g, (0, 0), (7, 7), p, tour, 6, 3);
    FirstCommonA1A3();
    PinStep(g, (0, 0), (7, 7), p, tour, 6, 2);
    PrintA1H8(p);
  }

  /** The last three moves of the search's path from A1 to H8 are B5 D6 F7 H8. */
  lemma PinA1H8End(g: Graph<Node>, p: seq<Node>, tour: seq<Square>)
    requires IsKnightGraph(g, 8) && IsPath(g, p, Label((0, 0)), Label((7, 7))) && |p| == 7
    requires FirstInOrder(g, Label((0, 0)), p)
    requires tour == [(0, 0), (2, 1), (0, 2), (1, 4), (3, 5), (5, 6), (7, 7)] && IsTour((0, 0), (7, 7), tour, 6)
    ensures p[3] == Label(tour[3]) && p[4] == Label(tour[4]) && p[5] == Label(tour[5])
  {
    FirstNeighbourH8();
    PinStep(g, (0, 0), (7, 7), p, tour, 6, 6);
    FirstNeighbourF7();
    PinStep(g, (0, 0), (7, 7), p, tour, 6, 5);
    FirstNeighbourD6();
    PinStep(g, (0, 0), (7, 7), p, tour, 6, 4);
  }

  lemma PrintA1H8(p: seq<Node>)
    requires |p| == 7 && p[0] == Label((0, 0)) && p[1] == Label((2, 1)) && p[2] == Label((0, 2)) && p[3] == Label((1, 4))
    requires p[4] == Label((3, 5)) && p[5] == Label((5, 6)) && p[6] == Label((7, 7))
    ensures JoinWords(p) == "A1 C2 A3 B5 D6 F7 H8"
  {
    UsageLabels();
    PathLabels();
    assert p[0] == "A1" && p[1] == "C2" && p[2] == "A3" && p[3] == "B5" && p[4] == "D6" && p[5] == "F7" && p[6] == "H8";
    assert p == ["A1", "C2", "A3", "B5", "D6", "F7", "H8"];
    JoinA1H8();
  }

  lemma JoinA1H8()
    ensures JoinWords(["A1", "C2", "A3", "B5", "D6", "F7", "H8"]) == "A1 C2 A3 B5 D6 F7 H8"
  {
    JoinA3H8();
    JoinOnto("C2", ["A3", "B5", "D6", "F7", "H8"], "A3 B5 D6 F7 H8");
    assert ["C2"] + ["A3", "B5", "D6", "F7", "H8"] == ["C2", "A3", "B5", "D6", "F7", "H8"];
    JoinOnto("A1", ["C2", "A3", "B5", "D6", "F7", "H8"], "C2 A3 B5 D6 F7 H8");
    assert ["A1"] + ["C2", "A3", "B5", "D6", "F7", "H8"] == ["A1", "C2", "A3", "B5", "D6", "F7", "H8"];
  }

  lemma JoinA3H8()
    ensures JoinWords(["A3", "B5", "D6", "F7", "H8"]) == "A3 B5 D6 F7 H8"
  {
    JoinB5H8();
    JoinOnto("A3", ["B5", "D6", "F7", "H8"], "B5 D6 F7 H8");
    assert ["A3"] + ["B5", "D6", "F7", "H8"] == ["A3", "B5", "D6", "F7", "H8"];
  }

  lemma JoinB5H8()
    ensures JoinWords(["B5", "D6", "F7", "H8"]) == "B5 D6 F7 H8"
  {
    JoinOnto("F7", ["H8"], "H8");
    assert ["F7"] + ["H8"] == ["F7", "H8"];
    JoinOnto("D6", ["F7", "H8"], "F7 H8");
    assert ["D6"] + ["F7", "H8"] == ["D6", "F7", "H8"];
    JoinOnto("B5", ["D6", "F7", "H8"], "D6 F7 H8");
    assert ["B5"] + ["D6", "F7", "H8"] == ["B5", "D6", "F7", "H8"];
  }

  /**
    * The three requests of the program's usage text, answered on the 8 x 8
    * knight's graph: D4 to G7 by D4 E6 G7, D4 to D5 by D4 C2 B4 D5 and A1 to
    * H8 by A1 C2 A3 B5 D6 F7 H8, as the usage text shows.
    */
  method UsageExamples() returns (out1: string, out2: string, out3: string)
    ensures out1 == "D4 E6 G7"
    ensures out2 == "D4 C2 B4 D5"
    ensures out3 == "A1 C2 A3 B5 D6 F7 H8"
  {
    var graph := BuildKnightsGraph(8);
    UsageLabels();
    TourD4G7();
    NoShorterD4G7();
    var p1;
    p1, out1 := KnightSearch(graph.adj, (3, 3), (6, 6), [(3, 3), (4, 5), (6, 6)], 2);
    PinD4G7(graph.adj, p1);
    TourD4D5();
    NoShorterD4D5();
    var p2;
    p2, out2 := KnightSearch(graph.adj, (3, 3), (3, 4), [(3, 3), (2, 1), (1, 3), (3, 4)], 3);
    PinD4D5(graph.adj, p2);
    TourA1H8();
    NoShorterA1H8();
    var p3;
    p3, out3 := KnightSearch(graph.adj, (0, 0), (7, 7), [(0, 0), (2, 1), (0, 2), (1, 4), (3, 5), (5, 6), (7, 7)], 6);
    PinA1H8(graph.adj, p3);
  }

  /** Both squares a valid request line names are nodes of the 8 x 8 knight's graph. */
  lemma RequestNodesInGraph(g: Graph<Node>, line: string)
    requires IsKnightGraph(g, 8) && MatchesRequest(line)
    ensures line[..2] in g && line[3..5] in g
  {
    RequestNamesSquares(line);
    FullBoardEveryLabelIsNode(g, Coordinate(line[..2]).value);
    FullBoardEveryLabelIsNode(g, Coordinate(line[3..5]).value);
  }
}

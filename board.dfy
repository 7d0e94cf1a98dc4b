/**
  * The chess board of the knight's-path finder: (row, col) squares, the eight
  * knight offsets, the moves that stay on an N x N board, and the two-character
  * square labels ("A1" .. "H8") that name the squares in the graph.
  */
module Board {

  datatype Option<T> = None | Some(value: T)

  /** A (row, col) coordinate; rows and columns count from 0. */
  type Square = (int, int)

  predicate OnBoard(s: Square, n: int) {
    0 <= s.0 < n && 0 <= s.1 < n
  }

  /** Every square of an n x n board. */
  function Squares(n: int): set<Square> {
    set r, c | 0 <= r < n && 0 <= c < n :: (r, c)
  }

  // ---------------------------------------------------------------------------
  // Knight moves
  // ---------------------------------------------------------------------------

  /** The knight's offsets, in the order in which moves are tried. */
  const PermittedMoves: seq<Square> :=
    [(-1, -2), (1, -2),
     (-2, -1), (2, -1),
     (-2, 1), (2, 1),
     (-1, 2), (1, 2)]

  /** Position of `x` in `s`, or |s| when it does not occur. */
  function IndexOf(s: seq<Square>, x: Square): (i: nat)
    ensures i <= |s|
    ensures i < |s| ==> s[i] == x && x !in s[..i]
    ensures i == |s| <==> x !in s
  {
    if s == [] then 0
    else if s[0] == x then 0
    else
      assert s[1..][..IndexOf(s[1..], x)] == s[1..IndexOf(s[1..], x) + 1];
      1 + IndexOf(s[1..], x)
  }

  /** The offset that leads from (row, col) to t. */
  function OffsetTo(row: int, col: int, t: Square): Square {
    (t.0 - row, t.1 - col)
  }

  /** Which of the eight offsets leads from (row, col) to t (8 when none does). */
  function Rank(row: int, col: int, t: Square): nat {
    IndexOf(PermittedMoves, OffsetTo(row, col, t))
  }

  /** No offset occurs twice. */
  predicate Distinct(ds: seq<Square>) {
    forall i, j :: 0 <= i < j < |ds| ==> ds[i] != ds[j]
  }

  /**
    * The squares reached from (row, col) with the offsets ds, in the order of
    * ds, keeping those that lie on the n x n board.
    */
  function MovesWithOffsets(row: int, col: int, n: int, ds: seq<Square>): (r: seq<Square>)
    requires Distinct(ds)
    ensures forall t :: t in r <==> OnBoard(t, n) && OffsetTo(row, col, t) in ds
    ensures forall i :: 0 <= i < |r| ==> IndexOf(ds, OffsetTo(row, col, r[i])) < |ds|
    ensures forall i, j :: 0 <= i < j < |r| ==>
              IndexOf(ds, OffsetTo(row, col, r[i])) < IndexOf(ds, OffsetTo(row, col, r[j]))
  {
    if ds == [] then []
    else
      var t := (row + ds[0].0, col + ds[0].1);
      var rest := MovesWithOffsets(row, col, n, ds[1..]);
      assert OffsetTo(row, col, t) == ds[0];
      LaterOffsetsRankHigher(row, col, ds, rest);
      if OnBoard(t, n) then [t] + rest else rest
  }

  /** Squares reached with the offsets after the first are ranked one past their rank among those offsets. */
  lemma LaterOffsetsRankHigher(row: int, col: int, ds: seq<Square>, rest: seq<Square>)
    requires Distinct(ds) && ds != []
    requires forall i :: 0 <= i < |rest| ==> OffsetTo(row, col, rest[i]) in ds[1..]
    ensures forall i :: 0 <= i < |rest| ==>
              IndexOf(ds, OffsetTo(row, col, rest[i])) == 1 + IndexOf(ds[1..], OffsetTo(row, col, rest[i]))
  {
    forall i | 0 <= i < |rest|
      ensures IndexOf(ds, OffsetTo(row, col, rest[i])) == 1 + IndexOf(ds[1..], OffsetTo(row, col, rest[i]))
    {
      var x := OffsetTo(row, col, rest[i]);
      var j :| 0 <= j < |ds[1..]| && ds[1..][j] == x;
      assert ds[j + 1] == x;
    }
  }

  /**
    * The knight moves from (row, col) that land on the n x n board: exactly the
    * squares one offset away that lie on the board, in the order of the
    * offsets, each once.
    */
  function PermittedMovesFrom(row: int, col: int, n: int): (r: seq<Square>)
    ensures forall t :: t in r <==> OnBoard(t, n) && OffsetTo(row, col, t) in PermittedMoves
    ensures forall i, j :: 0 <= i < j < |r| ==> Rank(row, col, r[i]) < Rank(row, col, r[j])
    ensures forall i, j :: 0 <= i < j < |r| ==> r[i] != r[j]
    ensures |r| <= |PermittedMoves|
  {
    PermittedMovesDistinct();
    var r := MovesWithOffsets(row, col, n, PermittedMoves);
    MovesAtMostOffsets(r, row, col);
    r
  }

  /** A sequence whose ranks strictly increase below 8 has at most 8 elements. */
  lemma {:induction false} MovesAtMostOffsets(r: seq<Square>, row: int, col: int)
    requires forall i :: 0 <= i < |r| ==> Rank(row, col, r[i]) < |PermittedMoves|
    requires forall i, j :: 0 <= i < j < |r| ==> Rank(row, col, r[i]) < Rank(row, col, r[j])
    ensures forall i :: 0 <= i < |r| ==> i <= Rank(row, col, r[i])
    ensures |r| <= |PermittedMoves|
  {
    if r != [] {
      var init := r[..|r| - 1];
      MovesAtMostOffsets(init, row, col);
      if |r| >= 2 {
        assert Rank(row, col, r[|r| - 2]) < Rank(row, col, r[|r| - 1]);
        assert init[|r| - 2] == r[|r| - 2];
      }
      forall i | 0 <= i < |r| ensures i <= Rank(row, col, r[i]) {
        if i < |r| - 1 {
          assert init[i] == r[i];
        }
      }
    }
  }

  /** The eight offsets are pairwise different. */
  lemma PermittedMovesDistinct()
    ensures Distinct(PermittedMoves)
  {
  }

  /** In a sequence without repetitions, the position of the i-th element is i. */
  lemma IndexOfDistinct(s: seq<Square>, i: nat)
    requires Distinct(s) && i < |s|
    ensures IndexOf(s, s[i]) == i
  {
  }

  /** The shape of a knight's step: one square along one axis and two along the other. */
  predicate IsKnightStep(d: Square) {
    ((d.0 == 1 || d.0 == -1) && (d.1 == 2 || d.1 == -2)) ||
    ((d.0 == 2 || d.0 == -2) && (d.1 == 1 || d.1 == -1))
  }

  /** The eight offsets are exactly the knight's steps. */
  lemma PermittedMovesAreKnightSteps(d: Square)
    ensures d in PermittedMoves <==> IsKnightStep(d)
  {
  }

  /** Knight moves are reversible: t is a move from s exactly when s is a move from t. */
  lemma MovesSymmetric(s: Square, t: Square, n: int)
    requires OnBoard(s, n)
    ensures t in PermittedMovesFrom(s.0, s.1, n) <==> OnBoard(t, n) && s in PermittedMovesFrom(t.0, t.1, n)
  {
    PermittedMovesAreKnightSteps(OffsetTo(s.0, s.1, t));
    PermittedMovesAreKnightSteps(OffsetTo(t.0, t.1, s));
  }

  /** No knight move stays on its square. */
  lemma NoMoveToSelf(s: Square, n: int)
    ensures s !in PermittedMovesFrom(s.0, s.1, n)
  {
    PermittedMovesAreKnightSteps(OffsetTo(s.0, s.1, s));
  }

  /** On a board of side at most 2 the knight cannot move at all. */
  lemma NoMovesOnSmallBoard(s: Square, n: int)
    requires OnBoard(s, n) && n <= 2
    ensures PermittedMovesFrom(s.0, s.1, n) == []
  {
    var r := PermittedMovesFrom(s.0, s.1, n);
    if r != [] {
      PermittedMovesAreKnightSteps(OffsetTo(s.0, s.1, r[0]));
    }
  }

  // ---------------------------------------------------------------------------
  // Square labels
  // ---------------------------------------------------------------------------

  /** Row i is written with Files[i], column j with Ranks[j]. */
  const Files: string := "ABCDEFGH"
  const Ranks: string := "12345678"

  /** The label of an 8 x 8 square: its file letter then its rank digit. */
  function Label(s: Square): string
    requires OnBoard(s, 8)
  {
    [Files[s.0], Ranks[s.1]]
  }

  lemma FileAndRankChars(i: int)
    requires 0 <= i < 8
    ensures Files[i] as int == 'A' as int + i
    ensures Ranks[i] as int == '1' as int + i
  {
    if i == 0 {} else if i == 1 {} else if i == 2 {} else if i == 3 {}
    else if i == 4 {} else if i == 5 {} else if i == 6 {} else {}
  }

  /** A string of the form file letter A-H followed by rank digit 1-8. */
  predicate IsLabel(l: string) {
    |l| == 2 && 'A' <= l[0] <= 'H' && '1' <= l[1] <= '8'
  }

  /** The square a label names, if it names one. */
  function Coordinate(l: string): (s: Option<Square>)
    ensures s.Some? <==> IsLabel(l)
    ensures s.Some? ==> OnBoard(s.value, 8) && Label(s.value) == l
  {
    if IsLabel(l) then
      var sq := (l[0] as int - 'A' as int, l[1] as int - '1' as int);
      FileAndRankChars(sq.0);
      FileAndRankChars(sq.1);
      Some(sq)
    else None
  }

  /** Reading back the label of a square gives the square: labels are unique. */
  lemma LabelRoundTrip(s: Square)
    requires OnBoard(s, 8)
    ensures IsLabel(Label(s))
    ensures Coordinate(Label(s)) == Some(s)
  {
    FileAndRankChars(s.0);
    FileAndRankChars(s.1);
  }

  lemma LabelInjective(s: Square, t: Square)
    requires OnBoard(s, 8) && OnBoard(t, 8)
    ensures Label(s) == Label(t) <==> s == t
  {
    LabelRoundTrip(s);
    LabelRoundTrip(t);
  }

  /**
    * The coordinate-to-label table of an 8 x 8 board: 64 entries, one per
    * square, and no two squares share a label.
    */
  function GetMapping(): (m: map<Square, string>)
    ensures m.Keys == Squares(8)
    ensures |m| == 64
    ensures forall s :: OnBoard(s, 8) ==> s in m && m[s] == Label(s)
    ensures forall s :: s in m ==> IsLabel(m[s]) && Coordinate(m[s]) == Some(s)
    ensures forall s, t :: s in m && t in m && m[s] == m[t] ==> s == t
  {
    var m := map s | s in Squares(8) :: Label(s);
    SquaresCount(8);
    assert m.Keys == Squares(8);
    forall s | s in m ensures IsLabel(m[s]) && Coordinate(m[s]) == Some(s) {
      LabelRoundTrip(s);
    }
    m
  }

  /** The squares (r, 0), ..., (r, m - 1) of one row. */
  function RowPrefix(r: int, m: int): set<Square> {
    set c | 0 <= c < m :: (r, c)
  }

  lemma {:induction false} RowPrefixCount(r: int, m: nat)
    ensures |RowPrefix(r, m)| == m
  {
    if m > 0 {
      RowPrefixCount(r, m - 1);
      assert RowPrefix(r, m) == RowPrefix(r, m - 1) + {(r, m - 1)};
    }
  }

  /** The squares with row below k on an n-wide board. */
  function FirstRows(k: int, n: int): set<Square> {
    set r, c | 0 <= r < k && 0 <= c < n :: (r, c)
  }

  lemma {:induction false} FirstRowsCount(k: nat, n: nat)
    ensures |FirstRows(k, n)| == k * n
  {
    if k > 0 {
      FirstRowsCount(k - 1, n);
      RowPrefixCount(k - 1, n);
      FirstRowsSplit(k, n);
      assert (k - 1) * n + n == k * n;
    }
  }

  /** The first k rows are the first k - 1 rows and, apart from them, row k - 1. */
  lemma FirstRowsSplit(k: nat, n: nat)
    requires k > 0
    ensures FirstRows(k, n) == FirstRows(k - 1, n) + RowPrefix(k - 1, n)
    ensures FirstRows(k - 1, n) !! RowPrefix(k - 1, n)
  {
    var prev, row := FirstRows(k - 1, n), RowPrefix(k - 1, n);
    forall s | s in FirstRows(k, n) ensures s in prev + row {
      if s.0 < k - 1 {
        assert s in prev;
      } else {
        assert s in row;
      }
    }
  }

  /** An n x n board has n * n squares. */
  lemma SquaresCount(n: nat)
    ensures |Squares(n)| == n * n
  {
    FirstRowsCount(n, n);
    assert Squares(n) == FirstRows(n, n);
  }
}

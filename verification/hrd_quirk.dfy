/** A board on which check_bottom misses a legal slide of the goal piece.

    When the cell below an empty cell shows '1', check_bottom (hrd.py:582 and
    hrd.py:588) confirms the goal piece's second top cell by reading the grid
    at row x + 1, column y + 1 (or row x - 1) instead of row y + 1, column
    x + 1. The model keeps that reading; this module exhibits a board where it
    rejects an upward goal slide that the rules allow. */
module HrdQuirk {

  import opened Maybe
  import opened Grid
  import opened HrdBoard
  import opened HrdMoves
  import opened HrdState
  import opened HrdCells
  import opened HrdSuccessors

  /** Rows "<><>", "..<>", "11^^", "11vv", "<><>": the goal piece at (0, 2)
      under the two empty cells (0, 1) and (1, 1). */
  function QuirkPieces(): seq<Piece> {
    [ Piece(Horizontal, 0, 0), Piece(Horizontal, 2, 0), Piece(Horizontal, 2, 1), Piece(Goal, 0, 2),
      Piece(Vertical, 2, 2), Piece(Vertical, 3, 2), Piece(Horizontal, 0, 4), Piece(Horizontal, 2, 4) ]
  }

  function QuirkGrid(): Grid {
    [ ['<', '>', '<', '>'],
      ['.', '.', '<', '>'],
      ['1', '1', '^', '^'],
      ['1', '1', 'v', 'v'],
      ['<', '>', '<', '>'] ]
  }

  lemma QuirkDisjoint()
    ensures Disjoint(QuirkPieces())
  {
    var ps := QuirkPieces();
    forall i, j, cx, cy | 0 <= i < |ps| && 0 <= j < |ps| && Covers(ps[i], cx, cy) && Covers(ps[j], cx, cy)
      ensures i == j
    {
    }
  }

  /** The piece covering each cell of the board, -1 for the empty ones. */
  function QuirkOwner(cx: int, cy: int): int {
    if cy == 0 then (if cx < 2 then 0 else 1)
    else if cy == 1 then (if cx < 2 then -1 else 2)
    else if cy <= 3 then (if cx < 2 then 3 else if cx == 2 then 4 else 5)
    else (if cx < 2 then 6 else 7)
  }

  lemma QuirkCell(cx: int, cy: int)
    requires OnGrid(cx, cy)
    ensures CellOf(QuirkPieces(), cx, cy) == QuirkGrid()[cy][cx]
  {
    var ps := QuirkPieces();
    QuirkDisjoint();
    CellOfDisjoint(ps, cx, cy);
    var k := QuirkOwner(cx, cy);
    if k >= 0 {
      assert Covers(ps[k], cx, cy);
    }
  }

  lemma QuirkGridDrawn()
    ensures AllInBounds(QuirkPieces())
    ensures QuirkGrid() == BuildGrid(QuirkPieces())
  {
    var g := BuildGrid(QuirkPieces());
    BuildGridCells(QuirkPieces());
    forall cx, cy | OnGrid(cx, cy)
      ensures g[cy][cx] == QuirkGrid()[cy][cx]
    {
      QuirkCell(cx, cy);
    }
    GridExt(g, QuirkGrid());
  }

  lemma QuirkEmpty()
    ensures EmptySet(QuirkGrid()) == {(0, 1), (1, 1)}
  {
    var g := QuirkGrid();
    forall c | c in EmptySet(g)
      ensures c == (0, 1) || c == (1, 1)
    {
      EmptySetMember(g, c.0, c.1);
    }
    EmptySetMember(g, 0, 1);
    EmptySetMember(g, 1, 1);
  }

  lemma QuirkOneGoal()
    ensures OneGoal(QuirkPieces())
  {
    var ps := QuirkPieces();
    assert IsGoalAt(ps, 3);
    forall i | IsGoalAt(ps, i)
      ensures i == 3
    {
    }
  }

  lemma QuirkWellFormed()
    ensures WellFormed(Board(QuirkPieces(), QuirkGrid()))
  {
    QuirkDisjoint();
    QuirkGridDrawn();
    QuirkEmpty();
    QuirkOneGoal();
  }

  lemma QuirkSquares()
    ensures WellFormed(Board(QuirkPieces(), QuirkGrid()))
    ensures LocateEmptySquares(Board(QuirkPieces(), QuirkGrid())) == ((0, 1), (1, 1))
  {
    QuirkWellFormed();
    QuirkEmpty();
    var squares := LocateEmptySquares(Board(QuirkPieces(), QuirkGrid()));
    assert Index(squares.0) < Index(squares.1);
    InPair({(0, 1), (1, 1)}, (0, 1), (1, 1), squares.0);
    InPair({(0, 1), (1, 1)}, (0, 1), (1, 1), squares.1);
  }

  /** From both empty cells the goal piece below is passed over. */
  lemma QuirkBottomNone()
    ensures WellFormed(Board(QuirkPieces(), QuirkGrid()))
    ensures BottomCandidate(Board(QuirkPieces(), QuirkGrid()), 0, 1).None?
    ensures BottomCandidate(Board(QuirkPieces(), QuirkGrid()), 1, 1).None?
  {
    QuirkWellFormed();
  }

  /** On this board the goal piece can slide up, yet the check started from
      either empty cell above it finds nothing. */
  lemma GoalUpMissed(s: State, hash: Board -> int)
    requires s.board == Board(QuirkPieces(), QuirkGrid())
    ensures WellFormed(s.board) && LegalSlide(s.board, 3, Up)
    ensures LocateEmptySquares(s.board) == ((0, 1), (1, 1))
    ensures CheckBottom((0, 1), s, hash).None? && CheckBottom((1, 1), s, hash).None?
  {
    QuirkSquares();
    QuirkGoalCanRise();
    QuirkBottomNone();
    BottomNoneCheckNone(s, (0, 1), hash);
    BottomNoneCheckNone(s, (1, 1), hash);
  }

  lemma QuirkGoalCanRise()
    ensures WellFormed(Board(QuirkPieces(), QuirkGrid()))
    ensures LegalSlide(Board(QuirkPieces(), QuirkGrid()), 3, Up)
  {
    QuirkWellFormed();
    assert Enter(QuirkPieces()[3], Up) == {(0, 1), (1, 1)};
  }

  lemma BottomNoneCheckNone(s: State, sq: (int, int), hash: Board -> int)
    requires WellFormed(s.board) && OnGrid(sq.0, sq.1) && s.board.grid[sq.1][sq.0] == '.'
    requires BottomCandidate(s.board, sq.0, sq.1).None?
    ensures CheckBottom(sq, s, hash).None?
  {
  }
}

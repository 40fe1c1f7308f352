/** Boards on which the jump generator's moving coordinates show (see
    JumpSeries): after a red man jumps up-left, the up-right test runs from
    the square it landed on but against the board it started from. */
module CheckersQuirk {

  import opened Maybe
  import opened Grid
  import opened CheckersBoard
  import opened CheckersMoves
  import opened CheckersSuccessors

  /** A red man on column 2 of row 4 with black men on (1, 3), (3, 3) and
      (1, 1), and the squares (0, 2), (2, 0) and (4, 2) empty; the other
      squares may hold anything. */
  predicate ShiftPattern(b: Board) {
    && IsBoard(b)
    && b[4][2] == 'r' && b[3][1] == 'b' && b[3][3] == 'b' && b[1][1] == 'b'
    && b[2][0] == '.' && b[0][2] == '.' && b[2][4] == '.'
  }

  /** The smallest such board: every other square is empty. */
  function ShiftBoard(): (b: Board)
    ensures ShiftPattern(b)
  {
    [ "........",
      ".b......",
      "........",
      ".b.b....",
      "..r.....",
      "........",
      "........",
      "........" ]
  }

  /** move_red_piece on such a board returns two jump results. The red man
      can capture the black man on (3, 3) up and to the right, yet neither
      result does so; the second result comes from a jump tried from
      (0, 2) on the original board, and it still holds the red man on
      (2, 4) next to the king it produced, one red piece more than the
      board started with. */
  lemma ShiftedJumpAddsPiece(b: Board) returns (r0: Board, r1: Board)
    requires ShiftPattern(b)
    ensures IsBoard(r0) && IsBoard(r1)
    ensures MoveRedPiece(b, 2, 4) == ([r0, r1], 1)
    ensures CanJump(b, 2, 4, 'r', RightUp)
    ensures r0[3][3] == 'b' && r1[3][3] == 'b'
    ensures r1[4][2] == 'r' && r1[0][2] == 'R'
    ensures Count(r1, Red) == Count(b, Red) + 1
  {
    r0, r1 := ShiftSeries(b);
    assert MoveRedPiece(b, 2, 4) == ([r0, r1], 1);
    assert b[3][3] == 'b' && b[2][4] == '.';
  }

  /** The jump series of the red man: the chain after the up-left jump, then
      the jump tried from (0, 2). */
  lemma ShiftSeries(b: Board) returns (r0: Board, r1: Board)
    requires ShiftPattern(b)
    ensures JumpSeries(b, 2, 4, 'r', [LeftUp, RightUp], [LeftUp, RightUp]) == [r0, r1]
    ensures IsBoard(r0) && IsBoard(r1)
    ensures r0[3][3] == 'b' && r1[3][3] == 'b'
    ensures r1[4][2] == 'r' && r1[0][2] == 'R'
    ensures Count(r1, Red) == Count(b, Red) + 1
  {
    var ups := [LeftUp, RightUp];
    r0 := FirstResult(b);
    r1 := SecondResult(b);
    SeriesJump(b, 2, 4, 'r', ups, ups);
    var s1 := SecondSeries(b, r1, ups[1..]);
  }

  /** The series tried from (0, 2) yields the second result alone. */
  lemma SecondSeries(b: Board, r1: Board, dirs: seq<Diag>) returns (s1: seq<Board>)
    requires ShiftPattern(b)
    requires |dirs| == 1 && dirs[0] == RightUp
    requires r1 == Jump(b, 0, 2, 'r', RightUp)
    requires r1 == Chain(r1, 2, 0, 'r', [LeftUp, RightUp]).0
    ensures s1 == JumpSeries(b, 0, 2, 'r', dirs, [LeftUp, RightUp])
    ensures s1 == [r1]
  {
    SeriesJump(b, 0, 2, 'r', dirs, [LeftUp, RightUp]);
    s1 := JumpSeries(b, 0, 2, 'r', dirs, [LeftUp, RightUp]);
  }

  /** One step of JumpSeries when the first direction allows a jump. */
  lemma SeriesJump(b: Board, x: int, y: int, piece: char, dirs: seq<Diag>, chain: seq<Diag>)
    requires IsBoard(b) && OnBoard(x, y) && piece in Red + Black && |dirs| > 0
    requires (forall e :: e in dirs ==> Moves(piece, e)) && (forall e :: e in chain ==> Moves(piece, e))
    requires CanJump(b, x, y, piece, dirs[0])
    ensures JumpSeries(b, x, y, piece, dirs, chain) ==
      [Chain(Jump(b, x, y, piece, dirs[0]), x + 2 * Dx(dirs[0]), y + 2 * Dy(dirs[0]), piece, chain).0] +
      JumpSeries(b, x + 2 * Dx(dirs[0]), y + 2 * Dy(dirs[0]), piece, dirs[1..], chain)
  {
  }

  /** The chain after the up-left jump continues up-right over (1, 1) and
      stops on the far row. */
  lemma FirstResult(b: Board) returns (t: Board)
    requires ShiftPattern(b)
    ensures t == Chain(Jump(b, 2, 4, 'r', LeftUp), 0, 2, 'r', [LeftUp, RightUp]).0
    ensures IsBoard(t) && t[3][3] == 'b'
  {
    var first := Jump(b, 2, 4, 'r', LeftUp);
    assert first[1][1] == 'b' && first[0][2] == '.' && first[3][3] == 'b';
    assert FirstJump(first, 0, 2, 'r', [LeftUp, RightUp]) == Some(RightUp);
    t := Jump(first, 0, 2, 'r', RightUp);
    assert t[3][3] == 'b';
    assert FirstJump(t, 2, 0, 'r', [LeftUp, RightUp]).None?;
  }

  /** The jump tried from (0, 2) on the original board: nothing follows it
      on the far row. */
  lemma SecondResult(b: Board) returns (t: Board)
    requires ShiftPattern(b)
    ensures t == Jump(b, 0, 2, 'r', RightUp)
    ensures t == Chain(t, 2, 0, 'r', [LeftUp, RightUp]).0
    ensures t[3][3] == 'b' && t[4][2] == 'r' && t[0][2] == 'R'
    ensures Count(t, Red) == Count(b, Red) + 1
  {
    t := Jump(b, 0, 2, 'r', RightUp);
    JumpCount(b, 0, 2, 'r', RightUp, Red);
    assert FirstJump(t, 2, 0, 'r', [LeftUp, RightUp]).None?;
  }
}

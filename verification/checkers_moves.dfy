/** Single steps, single jumps and jump chains of one checkers piece
    (checkers.py:63-203 for the upward moves, 218-359 for the downward ones,
    374-402 for the king's chains).

    The source writes each of the four diagonal directions out separately;
    here a direction is a value and the four copies become one definition
    with the direction's offsets. */
module CheckersMoves {

  import opened Maybe
  import opened Grid
  import opened CheckersBoard

  datatype Diag = LeftUp | RightUp | LeftDown | RightDown

  function Dx(d: Diag): int {
    match d
    case LeftUp => -1
    case LeftDown => -1
    case RightUp => 1
    case RightDown => 1
  }

  function Dy(d: Diag): int {
    if d.LeftUp? || d.RightUp? then -1 else 1
  }

  /** The pieces a piece may capture in direction d. The upward tests
      (checkers.py:64-92) treat a 'B' as black and every other piece as red;
      the downward tests (checkers.py:218-248) treat an 'R' as red and every
      other piece as black. */
  function Prey(piece: char, d: Diag): set<char> {
    if d.LeftUp? || d.RightUp? then
      (if piece == 'B' then Red else Black)
    else
      (if piece == 'R' then Black else Red)
  }

  /** piece_{left,right}_{up,down}_jump_is_possible: the diagonal neighbour
      lies on the board and holds a piece to capture, and the square beyond
      it lies on the board and is empty. */
  predicate CanJump(b: Board, x: int, y: int, piece: char, d: Diag)
    requires IsBoard(b)
  {
    var mx, my := x + Dx(d), y + Dy(d);
    var lx, ly := x + 2 * Dx(d), y + 2 * Dy(d);
    OnBoard(mx, my) && b[my][mx] in Prey(piece, d) && OnBoard(lx, ly) && b[ly][lx] == '.'
  }

  /** The symbol a piece shows after landing on row `row` moving in direction
      d: a red man reaching row 0 moving up becomes a king, and so does a
      black man reaching row 7 moving down. */
  function Promote(piece: char, d: Diag, row: int): char {
    if d.LeftUp? || d.RightUp? then
      (if row == 0 && piece == 'r' then 'R' else piece)
    else
      (if row == Size - 1 && piece == 'b' then 'B' else piece)
  }

  /** jump_left_up, jump_right_up, jump_left_down, jump_right_down
      (checkers.py:97-124, 253-280): the piece lands two squares along d,
      promoted if it reaches the far row, and the square it leaves and the
      square it jumps are emptied. */
  function Jump(b: Board, x: int, y: int, piece: char, d: Diag): (r: Board)
    requires IsBoard(b) && OnBoard(x, y) && OnBoard(x + 2 * Dx(d), y + 2 * Dy(d))
    ensures IsBoard(r)
    ensures r[y][x] == '.' && r[y + Dy(d)][x + Dx(d)] == '.'
    ensures r[y + 2 * Dy(d)][x + 2 * Dx(d)] == Promote(piece, d, y + 2 * Dy(d))
    ensures forall i, j :: OnBoard(j, i) && (j, i) !in {(x, y), (x + Dx(d), y + Dy(d)), (x + 2 * Dx(d), y + 2 * Dy(d))} ==>
              r[i][j] == b[i][j]
  {
    var lx, ly := x + 2 * Dx(d), y + 2 * Dy(d);
    var b1 := Set(b, lx, ly, Promote(piece, d, ly));
    var b2 := Set(b1, x + Dx(d), y + Dy(d), '.');
    Set(b2, x, y, '.')
  }

  /** How a jump changes the number of pieces of a class: the jumped piece
      and the piece that left are gone, the landing piece is new. */
  lemma JumpCount(b: Board, x: int, y: int, piece: char, d: Diag, s: set<char>)
    requires IsBoard(b) && OnBoard(x, y) && CanJump(b, x, y, piece, d) && '.' !in s
    ensures Count(Jump(b, x, y, piece, d), s) ==
      Count(b, s) - Ind(b[y + Dy(d)][x + Dx(d)] in s) - Ind(b[y][x] in s) + Ind(Promote(piece, d, y + 2 * Dy(d)) in s)
  {
    var lx, ly := x + 2 * Dx(d), y + 2 * Dy(d);
    var mx, my := x + Dx(d), y + Dy(d);
    var b1 := Set(b, lx, ly, Promote(piece, d, ly));
    CountSet(b, lx, ly, Promote(piece, d, ly), s);
    var b2 := Set(b1, mx, my, '.');
    CountSet(b1, mx, my, '.', s);
    CountSet(b2, x, y, '.', s);
    assert b1[my][mx] == b[my][mx] && b2[y][x] == b[y][x];
  }

  /** The colour of a piece symbol, and the other colour. */
  function Own(piece: char): set<char> {
    if piece in Red then Red else Black
  }

  function Foe(piece: char): set<char> {
    if piece in Red then Black else Red
  }

  /** The directions the source moves a piece in: men forward only (red up,
      black down), kings both ways. */
  predicate Moves(piece: char, d: Diag) {
    || piece == 'R' || piece == 'B'
    || (piece == 'r' && (d.LeftUp? || d.RightUp?))
    || (piece == 'b' && (d.LeftDown? || d.RightDown?))
  }

  /** Whenever the source asks whether a piece can jump, the pieces it may
      capture are exactly the other colour's, and promotion keeps the
      piece's colour. */
  lemma PreyIsFoe(piece: char, d: Diag, row: int)
    requires Moves(piece, d)
    ensures Prey(piece, d) == Foe(piece)
    ensures Promote(piece, d, row) in Own(piece)
    ensures Own(piece) !! Foe(piece) && '.' !in Own(piece) + Foe(piece)
  {
  }

  /** A jump of a piece in one of its directions removes at least one enemy
      piece, and exactly one when the square it leaves holds no enemy piece
      (always so in the move generators, where that square holds the piece
      itself); it keeps the number of friendly pieces when the square it
      leaves holds a friendly piece. */
  lemma JumpCaptures(b: Board, x: int, y: int, piece: char, d: Diag)
    requires IsBoard(b) && OnBoard(x, y) && Moves(piece, d) && CanJump(b, x, y, piece, d)
    ensures Count(Jump(b, x, y, piece, d), Foe(piece)) <= Count(b, Foe(piece)) - 1
    ensures b[y][x] !in Foe(piece) ==> Count(Jump(b, x, y, piece, d), Foe(piece)) == Count(b, Foe(piece)) - 1
    ensures b[y][x] in Own(piece) ==> Count(Jump(b, x, y, piece, d), Own(piece)) == Count(b, Own(piece))
    ensures b[y][x] !in Own(piece) ==> Count(Jump(b, x, y, piece, d), Own(piece)) == Count(b, Own(piece)) + 1
  {
    PreyIsFoe(piece, d, y + 2 * Dy(d));
    JumpCount(b, x, y, piece, d, Foe(piece));
    JumpCount(b, x, y, piece, d, Own(piece));
  }

  /** The first direction of the list in which the piece can jump: the
      if/elif order of the consecutive_jumps loops. */
  function FirstJump(b: Board, x: int, y: int, piece: char, dirs: seq<Diag>): (r: Option<Diag>)
    requires IsBoard(b)
    ensures r.Some? <==> exists d :: d in dirs && CanJump(b, x, y, piece, d)
    ensures r.Some? ==> r.value in dirs && CanJump(b, x, y, piece, r.value)
    ensures r.Some? ==>
      exists i :: 0 <= i < |dirs| && dirs[i] == r.value && forall j :: 0 <= j < i ==> !CanJump(b, x, y, piece, dirs[j])
    decreases |dirs|
  {
    if |dirs| == 0 then None
    else if CanJump(b, x, y, piece, dirs[0]) then Some(dirs[0])
    else
      var r := FirstJump(b, x, y, piece, dirs[1..]);
      assert forall d :: d in dirs <==> d == dirs[0] || d in dirs[1..];
      if r.Some? then
        var i :| 0 <= i < |dirs[1..]| && dirs[1..][i] == r.value && forall j :: 0 <= j < i ==> !CanJump(b, x, y, piece, dirs[1..][j]);
        assert dirs[i + 1] == r.value;
        r
      else r
  }

  /** The loop of consecutive_jumps_up, consecutive_jumps_down and
      consecutive_jumps_king (checkers.py:131-144, 287-300, 377-402): keep
      jumping in the first direction of `dirs` that allows it. Returns the
      board and the square the piece ends on. Every jump captures an enemy
      piece, so the loop ends; when it ends no direction allows a jump. */
  function Chain(b: Board, x: int, y: int, piece: char, dirs: seq<Diag>): (r: (Board, int, int))
    requires IsBoard(b) && OnBoard(x, y) && piece in Red + Black
    requires forall d :: d in dirs ==> Moves(piece, d)
    ensures IsBoard(r.0) && OnBoard(r.1, r.2)
    ensures forall d :: d in dirs ==> !CanJump(r.0, r.1, r.2, piece, d)
    ensures Count(r.0, Foe(piece)) <= Count(b, Foe(piece))
    ensures b[y][x] in Own(piece) ==> r.0[r.2][r.1] in Own(piece) && Count(r.0, Own(piece)) == Count(b, Own(piece))
    decreases Count(b, Foe(piece))
  {
    match FirstJump(b, x, y, piece, dirs)
    case None => (b, x, y)
    case Some(d) =>
      JumpCaptures(b, x, y, piece, d);
      PreyIsFoe(piece, d, y + 2 * Dy(d));
      Chain(Jump(b, x, y, piece, d), x + 2 * Dx(d), y + 2 * Dy(d), piece, dirs)
  }

  /** The simple-move test of generate_{red,black}_piece_simple_moves
      (checkers.py:195-199, 351-356): the diagonal neighbour lies on the
      board and is empty. */
  predicate CanStep(b: Board, x: int, y: int, d: Diag)
    requires IsBoard(b)
  {
    OnBoard(x + Dx(d), y + Dy(d)) && b[y + Dy(d)][x + Dx(d)] == '.'
  }

  /** move_piece_{left,right}_{up,down} (checkers.py:170-188, 326-344): the
      piece moves one square along d, promoted if it reaches the far row, and
      the square it leaves is emptied. */
  function Step(b: Board, x: int, y: int, piece: char, d: Diag): (r: Board)
    requires IsBoard(b) && OnBoard(x, y) && OnBoard(x + Dx(d), y + Dy(d))
    ensures IsBoard(r)
    ensures r[y][x] == '.' && r[y + Dy(d)][x + Dx(d)] == Promote(piece, d, y + Dy(d))
    ensures forall i, j :: OnBoard(j, i) && (j, i) != (x, y) && (j, i) != (x + Dx(d), y + Dy(d)) ==> r[i][j] == b[i][j]
  {
    var b1 := Set(b, x + Dx(d), y + Dy(d), Promote(piece, d, y + Dy(d)));
    Set(b1, x, y, '.')
  }

  /** A simple move of a piece from its own square keeps the number of
      pieces of both colours. */
  lemma StepKeepsCounts(b: Board, x: int, y: int, piece: char, d: Diag)
    requires IsBoard(b) && OnBoard(x, y) && CanStep(b, x, y, d) && Moves(piece, d) && b[y][x] == piece
    ensures Count(Step(b, x, y, piece, d), Red) == Count(b, Red)
    ensures Count(Step(b, x, y, piece, d), Black) == Count(b, Black)
  {
    var lx, ly := x + Dx(d), y + Dy(d);
    var p := Promote(piece, d, ly);
    PreyIsFoe(piece, d, ly);
    var b1 := Set(b, lx, ly, p);
    CountSet(b, lx, ly, p, Red);
    CountSet(b, lx, ly, p, Black);
    CountSet(b1, x, y, '.', Red);
    CountSet(b1, x, y, '.', Black);
    assert b1[y][x] == piece;
  }
}

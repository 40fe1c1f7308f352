/** Sliding one piece by one cell (hrd.py move_piece_right, move_piece_left,
    move_piece_down, move_piece_up).

    A move copies the board, shifts the first piece of the list whose top-left
    corner equals the moved piece's, and edits only the grid cells the piece
    enters or leaves; the grid is not redrawn. The lemma
    SlidePreservesWellFormed shows that on a well-formed board such an edit
    yields exactly the grid drawn from the new piece list. */
module HrdMoves {

  import opened Grid
  import opened HrdBoard

  datatype Dir = Left | Right | Up | Down

  /** The piece one cell further in direction d. */
  function Shift(p: Piece, d: Dir): Piece {
    match d
    case Left => p.(x := p.x - 1)
    case Right => p.(x := p.x + 1)
    case Up => p.(y := p.y - 1)
    case Down => p.(y := p.y + 1)
  }

  /** The position in the list of the first piece whose top-left corner is
      (x, y), or |ps| when there is none (the `for ... if ...: break` search
      of hrd.py:237-240 and of every check_* function). */
  function FirstAt(ps: seq<Piece>, x: int, y: int): (k: nat)
    ensures k <= |ps|
    ensures k < |ps| ==> ps[k].x == x && ps[k].y == y
    ensures forall j :: 0 <= j < k ==> !(ps[j].x == x && ps[j].y == y)
    decreases |ps|
  {
    if |ps| == 0 then 0
    else if ps[0].x == x && ps[0].y == y then 0
    else 1 + FirstAt(ps[1..], x, y)
  }

  /** The piece list after the move: the first piece with the moved piece's
      corner is shifted, the others are kept. */
  function ShiftFirstAt(ps: seq<Piece>, x: int, y: int, d: Dir): (r: seq<Piece>)
    ensures |r| == |ps|
    ensures forall j :: 0 <= j < |ps| && j != FirstAt(ps, x, y) ==> r[j] == ps[j]
    ensures FirstAt(ps, x, y) < |ps| ==> r[FirstAt(ps, x, y)] == Shift(ps[FirstAt(ps, x, y)], d)
  {
    var k := FirstAt(ps, x, y);
    if k < |ps| then ps[k := Shift(ps[k], d)] else ps
  }

  /** The grid p shows on every cell it covers. */
  ghost predicate Consistent(g: Grid, p: Piece)
    requires IsRect(g, Width, Height) && InBounds(p)
  {
    forall cx, cy :: Covers(p, cx, cy) ==> g[cy][cx] == Glyph(p, cx, cy)
  }

  /** What a cell shows after p has slid to p': the new glyph on the cells p'
      covers, '.' on the cells p leaves, and the old symbol everywhere else. */
  function SlidCell(g: Grid, p: Piece, p': Piece, cx: int, cy: int): char
    requires IsRect(g, Width, Height) && OnGrid(cx, cy)
  {
    if Covers(p', cx, cy) then Glyph(p', cx, cy)
    else if Covers(p, cx, cy) then '.'
    else g[cy][cx]
  }

  /** hrd.py:225-261. */
  function MoveRight(b: Board, p: Piece): (r: Board)
    requires IsRect(b.grid, Width, Height) && InBounds(p) && InBounds(Shift(p, Right))
    ensures r.pieces == ShiftFirstAt(b.pieces, p.x, p.y, Right)
    ensures IsRect(r.grid, Width, Height)
  {
    var g := b.grid;
    var x := p.x;
    var y := p.y;
    var grid :=
      match p.kind
      case Single => Set(Set(g, x + 1, y, '2'), x, y, '.')
      case Horizontal => Set(Set(Set(g, x + 2, y, '>'), x + 1, y, '<'), x, y, '.')
      case Vertical => Set(Set(Set(Set(g, x + 1, y, '^'), x + 1, y + 1, 'v'), x, y, '.'), x, y + 1, '.')
      case Goal => Set(Set(Set(Set(g, x + 2, y, '1'), x + 2, y + 1, '1'), x, y, '.'), x, y + 1, '.');
    Board(ShiftFirstAt(b.pieces, x, y, Right), grid)
  }

  /** hrd.py:319-355. */
  function MoveLeft(b: Board, p: Piece): (r: Board)
    requires IsRect(b.grid, Width, Height) && InBounds(p) && InBounds(Shift(p, Left))
    ensures r.pieces == ShiftFirstAt(b.pieces, p.x, p.y, Left)
    ensures IsRect(r.grid, Width, Height)
  {
    var g := b.grid;
    var x := p.x;
    var y := p.y;
    var grid :=
      match p.kind
      case Single => Set(Set(g, x - 1, y, '2'), x, y, '.')
      case Horizontal => Set(Set(Set(g, x - 1, y, '<'), x, y, '>'), x + 1, y, '.')
      case Vertical => Set(Set(Set(Set(g, x - 1, y, '^'), x - 1, y + 1, 'v'), x, y, '.'), x, y + 1, '.')
      case Goal => Set(Set(Set(Set(g, x - 1, y, '1'), x - 1, y + 1, '1'), x + 1, y, '.'), x + 1, y + 1, '.');
    Board(ShiftFirstAt(b.pieces, x, y, Left), grid)
  }

  /** hrd.py:413-449. */
  function MoveDown(b: Board, p: Piece): (r: Board)
    requires IsRect(b.grid, Width, Height) && InBounds(p) && InBounds(Shift(p, Down))
    ensures r.pieces == ShiftFirstAt(b.pieces, p.x, p.y, Down)
    ensures IsRect(r.grid, Width, Height)
  {
    var g := b.grid;
    var x := p.x;
    var y := p.y;
    var grid :=
      match p.kind
      case Single => Set(Set(g, x, y + 1, '2'), x, y, '.')
      case Vertical => Set(Set(Set(g, x, y + 2, 'v'), x, y + 1, '^'), x, y, '.')
      case Horizontal => Set(Set(Set(Set(g, x, y + 1, '<'), x + 1, y + 1, '>'), x, y, '.'), x + 1, y, '.')
      case Goal => Set(Set(Set(Set(g, x, y + 2, '1'), x + 1, y + 2, '1'), x, y, '.'), x + 1, y, '.');
    Board(ShiftFirstAt(b.pieces, x, y, Down), grid)
  }

  /** hrd.py:507-543. */
  function MoveUp(b: Board, p: Piece): (r: Board)
    requires IsRect(b.grid, Width, Height) && InBounds(p) && InBounds(Shift(p, Up))
    ensures r.pieces == ShiftFirstAt(b.pieces, p.x, p.y, Up)
    ensures IsRect(r.grid, Width, Height)
  {
    var g := b.grid;
    var x := p.x;
    var y := p.y;
    var grid :=
      match p.kind
      case Single => Set(Set(g, x, y - 1, '2'), x, y, '.')
      case Vertical => Set(Set(Set(g, x, y - 1, '^'), x, y, 'v'), x, y + 1, '.')
      case Horizontal => Set(Set(Set(Set(g, x, y - 1, '<'), x + 1, y - 1, '>'), x, y, '.'), x + 1, y, '.')
      case Goal => Set(Set(Set(Set(g, x, y - 1, '1'), x + 1, y - 1, '1'), x, y + 1, '.'), x + 1, y + 1, '.');
    Board(ShiftFirstAt(b.pieces, x, y, Up), grid)
  }

  /** On a grid that shows p where p lies, each move function leaves exactly
      the picture of the slid piece: the new glyphs where the shifted piece
      lies, '.' on the cells it vacated, and every other cell untouched. */
  lemma MoveRightCells(b: Board, p: Piece)
    requires IsRect(b.grid, Width, Height) && InBounds(p) && InBounds(Shift(p, Right)) && Consistent(b.grid, p)
    ensures forall cx, cy :: OnGrid(cx, cy) ==> MoveRight(b, p).grid[cy][cx] == SlidCell(b.grid, p, Shift(p, Right), cx, cy)
  {
    forall cx, cy | OnGrid(cx, cy)
      ensures MoveRight(b, p).grid[cy][cx] == SlidCell(b.grid, p, Shift(p, Right), cx, cy)
    {
      assert Covers(p, p.x, p.y);
    }
  }

  lemma MoveLeftCells(b: Board, p: Piece)
    requires IsRect(b.grid, Width, Height) && InBounds(p) && InBounds(Shift(p, Left)) && Consistent(b.grid, p)
    ensures forall cx, cy :: OnGrid(cx, cy) ==> MoveLeft(b, p).grid[cy][cx] == SlidCell(b.grid, p, Shift(p, Left), cx, cy)
  {
    forall cx, cy | OnGrid(cx, cy)
      ensures MoveLeft(b, p).grid[cy][cx] == SlidCell(b.grid, p, Shift(p, Left), cx, cy)
    {
      assert Covers(p, p.x, p.y);
    }
  }

  lemma MoveDownCells(b: Board, p: Piece)
    requires IsRect(b.grid, Width, Height) && InBounds(p) && InBounds(Shift(p, Down)) && Consistent(b.grid, p)
    ensures forall cx, cy :: OnGrid(cx, cy) ==> MoveDown(b, p).grid[cy][cx] == SlidCell(b.grid, p, Shift(p, Down), cx, cy)
  {
    forall cx, cy | OnGrid(cx, cy)
      ensures MoveDown(b, p).grid[cy][cx] == SlidCell(b.grid, p, Shift(p, Down), cx, cy)
    {
      assert Covers(p, p.x, p.y);
    }
  }

  lemma MoveUpCells(b: Board, p: Piece)
    requires IsRect(b.grid, Width, Height) && InBounds(p) && InBounds(Shift(p, Up)) && Consistent(b.grid, p)
    ensures forall cx, cy :: OnGrid(cx, cy) ==> MoveUp(b, p).grid[cy][cx] == SlidCell(b.grid, p, Shift(p, Up), cx, cy)
  {
    forall cx, cy | OnGrid(cx, cy)
      ensures MoveUp(b, p).grid[cy][cx] == SlidCell(b.grid, p, Shift(p, Up), cx, cy)
    {
      assert Covers(p, p.x, p.y);
    }
  }

  /** The move function for a direction. */
  function Move(b: Board, p: Piece, d: Dir): Board
    requires IsRect(b.grid, Width, Height) && InBounds(p) && InBounds(Shift(p, d))
  {
    match d
    case Right => MoveRight(b, p)
    case Left => MoveLeft(b, p)
    case Down => MoveDown(b, p)
    case Up => MoveUp(b, p)
  }

  function Column(cx: int, y0: int, h: nat): set<(int, int)> {
    if h == 1 then {(cx, y0)} else {(cx, y0), (cx, y0 + 1)}
  }

  function Row(x0: int, cy: int, w: nat): set<(int, int)> {
    if w == 1 then {(x0, cy)} else {(x0, cy), (x0 + 1, cy)}
  }

  /** The cells a piece moves into when it slides in direction d. */
  function Enter(p: Piece, d: Dir): set<(int, int)> {
    var w := PieceWidth(p.kind);
    var h := PieceHeight(p.kind);
    match d
    case Right => Column(p.x + w, p.y, h)
    case Left => Column(p.x - 1, p.y, h)
    case Down => Row(p.x, p.y + h, w)
    case Up => Row(p.x, p.y - 1, w)
  }

  /** The cells a piece vacates when it slides in direction d. */
  function Leave(p: Piece, d: Dir): set<(int, int)> {
    var w := PieceWidth(p.kind);
    var h := PieceHeight(p.kind);
    match d
    case Right => Column(p.x, p.y, h)
    case Left => Column(p.x + w - 1, p.y, h)
    case Down => Row(p.x, p.y, w)
    case Up => Row(p.x, p.y + h - 1, w)
  }

  /** A slide enters exactly the cells the shifted piece covers and the piece
      did not, vacates exactly the converse, and enters as many cells as it
      vacates. */
  lemma EnterLeave(p: Piece, d: Dir)
    ensures forall cx, cy :: (cx, cy) in Enter(p, d) <==> Covers(Shift(p, d), cx, cy) && !Covers(p, cx, cy)
    ensures forall cx, cy :: (cx, cy) in Leave(p, d) <==> Covers(p, cx, cy) && !Covers(Shift(p, d), cx, cy)
    ensures |Enter(p, d)| == |Leave(p, d)|
  {
  }

  /** The piece at position k can slide in direction d: it stays on the board
      and every cell it enters is empty. */
  ghost predicate LegalSlide(b: Board, k: int, d: Dir)
    requires IsRect(b.grid, Width, Height)
  {
    && 0 <= k < |b.pieces|
    && InBounds(Shift(b.pieces[k], d))
    && forall cx, cy :: (cx, cy) in Enter(b.pieces[k], d) ==> OnGrid(cx, cy) && b.grid[cy][cx] == '.'
  }

  lemma GridExt(g1: Grid, g2: Grid)
    requires IsRect(g1, Width, Height) && IsRect(g2, Width, Height)
    requires forall cx, cy :: OnGrid(cx, cy) ==> g1[cy][cx] == g2[cy][cx]
    ensures g1 == g2
  {
    forall cy | 0 <= cy < Height
      ensures g1[cy] == g2[cy]
    {
      assert forall cx :: 0 <= cx < Width ==> g1[cy][cx] == g2[cy][cx];
    }
  }

  lemma CardSwap<T>(a: set<T>, e: set<T>, l: set<T>)
    requires e <= a && l !! a && |e| == |l|
    ensures |(a - e) + l| == |a|
  {
    assert a == (a - e) + e;
    assert (a - e) !! e;
    assert (a - e) !! l;
  }

  lemma EmptySetMember(g: Grid, cx: int, cy: int)
    requires IsRect(g, Width, Height)
    ensures (cx, cy) in EmptySet(g) <==> OnGrid(cx, cy) && g[cy][cx] == '.'
  {
  }

  /** Sliding a piece into empty cells keeps a board well formed: the edited
      grid is the one drawn from the new piece list and exactly two cells stay
      empty. */
  lemma SlidePreservesWellFormed(b: Board, k: int, d: Dir, r: Board)
    requires WellFormed(b) && LegalSlide(b, k, d)
    requires r.pieces == b.pieces[k := Shift(b.pieces[k], d)]
    requires IsRect(r.grid, Width, Height)
    requires forall cx, cy :: OnGrid(cx, cy) ==> r.grid[cy][cx] == SlidCell(b.grid, b.pieces[k], Shift(b.pieces[k], d), cx, cy)
    ensures WellFormed(r)
  {
    var ps := b.pieces;
    var p := ps[k];
    var rs := r.pieces;
    // every entered cell is free of all pieces
    forall cx, cy | (cx, cy) in Enter(p, d)
      ensures forall j :: 0 <= j < |ps| ==> !Covers(ps[j], cx, cy)
    {
      EmptyCell(b, cx, cy);
    }
    assert AllInBounds(rs);
    SlideDisjoint(ps, k, d);
    assert OneGoal(rs) by {
      assert forall i :: IsGoalAt(rs, i) <==> IsGoalAt(ps, i);
    }
    SlideRedraws(b, k, d, r);
    SlideKeepsTwoEmpty(b, k, d, r);
  }

  /** Moving one piece of a non-overlapping list into cells no piece covers
      keeps the list non-overlapping. */
  lemma SlideDisjoint(ps: seq<Piece>, k: int, d: Dir)
    requires Disjoint(ps) && 0 <= k < |ps|
    requires forall cx, cy | (cx, cy) in Enter(ps[k], d) :: forall j :: 0 <= j < |ps| ==> !Covers(ps[j], cx, cy)
    ensures Disjoint(ps[k := Shift(ps[k], d)])
  {
    var p := ps[k];
    var p' := Shift(p, d);
    var rs := ps[k := p'];
    EnterLeave(p, d);
    forall i, j, cx, cy | 0 <= i < |rs| && 0 <= j < |rs| && Covers(rs[i], cx, cy) && Covers(rs[j], cx, cy)
      ensures i == j
    {
      if Covers(p', cx, cy) && !Covers(p, cx, cy) {
        assert (cx, cy) in Enter(p, d);
      }
    }
  }

  /** The edited grid after a slide is the one drawn from the new piece
      list. */
  lemma SlideRedraws(b: Board, k: int, d: Dir, r: Board)
    requires AllInBounds(b.pieces) && Disjoint(b.pieces) && b.grid == BuildGrid(b.pieces) && 0 <= k < |b.pieces|
    requires r.pieces == b.pieces[k := Shift(b.pieces[k], d)]
    requires AllInBounds(r.pieces) && Disjoint(r.pieces)
    requires IsRect(r.grid, Width, Height)
    requires forall cx, cy :: OnGrid(cx, cy) ==> r.grid[cy][cx] == SlidCell(b.grid, b.pieces[k], Shift(b.pieces[k], d), cx, cy)
    ensures r.grid == BuildGrid(r.pieces)
  {
    var ps := b.pieces;
    var rs := r.pieces;
    var p := ps[k];
    var p' := Shift(p, d);
    var bg := BuildGrid(rs);
    BuildGridCells(rs);
    BuildGridCells(ps);
    forall cx, cy | OnGrid(cx, cy)
      ensures r.grid[cy][cx] == bg[cy][cx]
    {
      CellOfDisjoint(rs, cx, cy);
      CellOfDisjoint(ps, cx, cy);
      assert Covers(rs[k], cx, cy) == Covers(p', cx, cy);
      assert forall j :: 0 <= j < |ps| && j != k ==> rs[j] == ps[j];
      if !Covers(p', cx, cy) && Covers(p, cx, cy) {
        assert forall j :: 0 <= j < |rs| ==> !Covers(rs[j], cx, cy);
      }
    }
    GridExt(r.grid, bg);
  }

  /** A slide empties as many cells as it fills, so two cells stay empty. */
  lemma SlideKeepsTwoEmpty(b: Board, k: int, d: Dir, r: Board)
    requires WellFormed(b) && LegalSlide(b, k, d)
    requires IsRect(r.grid, Width, Height)
    requires forall cx, cy :: OnGrid(cx, cy) ==> r.grid[cy][cx] == SlidCell(b.grid, b.pieces[k], Shift(b.pieces[k], d), cx, cy)
    ensures |EmptySet(r.grid)| == 2
  {
    var p := b.pieces[k];
    var a := EmptySet(b.grid);
    var e := Enter(p, d);
    var l := Leave(p, d);
    EnterLeave(p, d);
    forall c | c in e
      ensures c in a
    {
      EmptySetMember(b.grid, c.0, c.1);
    }
    forall c | c in l
      ensures c !in a
    {
      CoveredCell(b, k, c.0, c.1);
      EmptySetMember(b.grid, c.0, c.1);
    }
    forall c
      ensures c in EmptySet(r.grid) <==> c in (a - e) + l
    {
      EmptySetMember(r.grid, c.0, c.1);
      EmptySetMember(b.grid, c.0, c.1);
      if Covers(p, c.0, c.1) {
        CoveredCell(b, k, c.0, c.1);
      }
    }
    assert EmptySet(r.grid) == (a - e) + l;
    CardSwap(a, e, l);
  }

  /** On a well-formed board the piece at position k is the first with its
      top-left corner, and a legal slide of it through the move function of
      its direction keeps the board well formed. */
  lemma MovePreservesWellFormed(b: Board, k: int, d: Dir)
    requires WellFormed(b) && LegalSlide(b, k, d)
    ensures InBounds(b.pieces[k])
    ensures FirstAt(b.pieces, b.pieces[k].x, b.pieces[k].y) == k
    ensures WellFormed(Move(b, b.pieces[k], d))
    ensures Move(b, b.pieces[k], d).pieces == b.pieces[k := Shift(b.pieces[k], d)]
  {
    var ps := b.pieces;
    var p := ps[k];
    var f := FirstAt(ps, p.x, p.y);
    assert f < |ps|;
    TopLeftUnique(b, f, k);
    assert Consistent(b.grid, p) by {
      forall cx, cy | Covers(p, cx, cy)
        ensures b.grid[cy][cx] == Glyph(p, cx, cy)
      {
        CoveredCell(b, k, cx, cy);
      }
    }
    var r := Move(b, p, d);
    match d {
      case Right => MoveRightCells(b, p);
      case Left => MoveLeftCells(b, p);
      case Down => MoveDownCells(b, p);
      case Up => MoveUpCells(b, p);
    }
    assert r.pieces == ps[k := Shift(p, d)];
    SlidePreservesWellFormed(b, k, d, r);
  }
}

/** The Hua Rong Dao board: a 5-row, 4-column grid of glyphs built from a list
    of pieces (hrd.py, classes Piece and Board).

    A piece is identified by the coordinate of its top-left cell and its
    shape. The source spells the shape with two flags and an orientation
    letter; the four combinations its parser produces become the four
    constructors of Kind. */
module HrdBoard {

  import opened Grid

  const Width := 4
  const Height := 5

  /** Shapes: the 2x2 goal piece, the 1x1 single, the 1x2 horizontal domino
      ('h') and the 2x1 vertical domino ('v'). */
  datatype Kind = Goal | Single | Horizontal | Vertical

  datatype Piece = Piece(kind: Kind, x: int, y: int)

  /** A board keeps its piece list and the grid of glyphs drawn from it; the
      moves edit the grid cell by cell rather than redrawing it. */
  datatype Board = Board(pieces: seq<Piece>, grid: Grid)

  function PieceWidth(k: Kind): nat {
    match k
    case Goal => 2
    case Horizontal => 2
    case Single => 1
    case Vertical => 1
  }

  function PieceHeight(k: Kind): nat {
    match k
    case Goal => 2
    case Vertical => 2
    case Single => 1
    case Horizontal => 1
  }

  predicate OnGrid(cx: int, cy: int) {
    0 <= cx < Width && 0 <= cy < Height
  }

  /** The cells a piece occupies. */
  predicate Covers(p: Piece, cx: int, cy: int) {
    p.x <= cx < p.x + PieceWidth(p.kind) && p.y <= cy < p.y + PieceHeight(p.kind)
  }

  /** The glyph a piece shows on a cell it occupies: '1' for the goal piece,
      '2' for a single, '<' '>' for the halves of a horizontal domino and
      '^' 'v' for the halves of a vertical one. */
  function Glyph(p: Piece, cx: int, cy: int): (c: char)
    ensures c != '.'
  {
    match p.kind
    case Goal => '1'
    case Single => '2'
    case Horizontal => if cx == p.x then '<' else '>'
    case Vertical => if cy == p.y then '^' else 'v'
  }

  predicate InBounds(p: Piece) {
    0 <= p.x && 0 <= p.y && p.x + PieceWidth(p.kind) <= Width && p.y + PieceHeight(p.kind) <= Height
  }

  predicate AllInBounds(ps: seq<Piece>) {
    forall i :: 0 <= i < |ps| ==> InBounds(ps[i])
  }

  /** No cell is occupied by two pieces. */
  ghost predicate Disjoint(ps: seq<Piece>) {
    forall i, j, cx, cy ::
      0 <= i < |ps| && 0 <= j < |ps| && Covers(ps[i], cx, cy) && Covers(ps[j], cx, cy) ==> i == j
  }

  predicate IsGoalAt(ps: seq<Piece>, i: int) {
    0 <= i < |ps| && ps[i].kind == Goal
  }

  /** Exactly one goal piece (the parser keeps only the first '1' it meets). */
  ghost predicate OneGoal(ps: seq<Piece>) {
    (exists i :: IsGoalAt(ps, i)) && forall i, j :: IsGoalAt(ps, i) && IsGoalAt(ps, j) ==> i == j
  }

  function Blank(): (g: Grid)
    ensures IsRect(g, Width, Height)
    ensures forall cx, cy :: OnGrid(cx, cy) ==> g[cy][cx] == '.'
  {
    seq(Height, _ => seq(Width, _ => '.'))
  }

  /** Draws one piece (hrd.py:79-93). */
  function Paint(g: Grid, p: Piece): (r: Grid)
    requires IsRect(g, Width, Height) && InBounds(p)
    ensures IsRect(r, Width, Height)
    ensures forall cx, cy :: OnGrid(cx, cy) ==>
              r[cy][cx] == if Covers(p, cx, cy) then Glyph(p, cx, cy) else g[cy][cx]
  {
    match p.kind
    case Goal =>
      Set(Set(Set(Set(g, p.x, p.y, '1'), p.x + 1, p.y, '1'), p.x, p.y + 1, '1'), p.x + 1, p.y + 1, '1')
    case Single => Set(g, p.x, p.y, '2')
    case Horizontal => Set(Set(g, p.x, p.y, '<'), p.x + 1, p.y, '>')
    case Vertical => Set(Set(g, p.x, p.y, '^'), p.x, p.y + 1, 'v')
  }

  /** The symbol a cell shows once every piece has been drawn in list order: the
      glyph of the last piece that occupies it, or '.' when none does. */
  function CellOf(ps: seq<Piece>, cx: int, cy: int): char
    decreases |ps|
  {
    if |ps| == 0 then '.'
    else if Covers(ps[|ps| - 1], cx, cy) then Glyph(ps[|ps| - 1], cx, cy)
    else CellOf(ps[..|ps| - 1], cx, cy)
  }

  /** Board.__construct_grid (hrd.py:67-93): a blank grid with each piece drawn
      in turn. */
  function BuildGrid(ps: seq<Piece>): (g: Grid)
    requires AllInBounds(ps)
    ensures IsRect(g, Width, Height)
    decreases |ps|
  {
    if |ps| == 0 then Blank() else Paint(BuildGrid(ps[..|ps| - 1]), ps[|ps| - 1])
  }

  /** Every cell of the drawn grid shows what CellOf says: drawing the pieces
      in list order leaves the glyph of the last one covering the cell. */
  lemma {:induction false} BuildGridCells(ps: seq<Piece>)
    requires AllInBounds(ps)
    ensures forall cx, cy :: OnGrid(cx, cy) ==> BuildGrid(ps)[cy][cx] == CellOf(ps, cx, cy)
    decreases |ps|
  {
    if |ps| > 0 {
      var pre := ps[..|ps| - 1];
      assert AllInBounds(pre) by {
        assert forall i :: 0 <= i < |pre| ==> pre[i] == ps[i];
      }
      BuildGridCells(pre);
    }
  }

  /** The empty cells of a grid, as (column, row) pairs. */
  function EmptySet(g: Grid): set<(int, int)>
    requires IsRect(g, Width, Height)
  {
    set cx, cy | 0 <= cx < Width && 0 <= cy < Height && g[cy][cx] == '.' :: (cx, cy)
  }

  /** The invariant every puzzle board keeps: the pieces lie on the board
      without overlapping, there is exactly one goal piece, the grid is the
      one drawn from the pieces, and exactly two cells are empty. */
  ghost predicate WellFormed(b: Board) {
    && AllInBounds(b.pieces)
    && Disjoint(b.pieces)
    && OneGoal(b.pieces)
    && b.grid == BuildGrid(b.pieces)
    && |EmptySet(b.grid)| == 2
  }

  /** With non-overlapping pieces a cell shows the glyph of the one piece that
      covers it, and '.' when no piece does. */
  lemma {:induction false} CellOfDisjoint(ps: seq<Piece>, cx: int, cy: int)
    requires Disjoint(ps)
    ensures forall i :: 0 <= i < |ps| && Covers(ps[i], cx, cy) ==> CellOf(ps, cx, cy) == Glyph(ps[i], cx, cy)
    ensures (forall i :: 0 <= i < |ps| ==> !Covers(ps[i], cx, cy)) ==> CellOf(ps, cx, cy) == '.'
    decreases |ps|
  {
    if |ps| > 0 {
      var n := |ps| - 1;
      var pre := ps[..n];
      assert Disjoint(pre) by {
        forall i, j, x, y | 0 <= i < |pre| && 0 <= j < |pre| && Covers(pre[i], x, y) && Covers(pre[j], x, y)
          ensures i == j
        {
          assert pre[i] == ps[i] && pre[j] == ps[j];
        }
      }
      CellOfDisjoint(pre, cx, cy);
      forall i | 0 <= i < |ps| && Covers(ps[i], cx, cy)
        ensures CellOf(ps, cx, cy) == Glyph(ps[i], cx, cy)
      {
        if i < n {
          assert pre[i] == ps[i];
          assert !Covers(ps[n], cx, cy);
        }
      }
      if forall i :: 0 <= i < |ps| ==> !Covers(ps[i], cx, cy) {
        assert forall i :: 0 <= i < |pre| ==> pre[i] == ps[i];
      }
    }
  }

  /** On a well-formed board every occupied cell lies on the grid and shows the
      glyph of the piece occupying it. */
  lemma CoveredCell(b: Board, i: int, cx: int, cy: int)
    requires WellFormed(b) && 0 <= i < |b.pieces| && Covers(b.pieces[i], cx, cy)
    ensures OnGrid(cx, cy) && b.grid[cy][cx] == Glyph(b.pieces[i], cx, cy)
  {
    BuildGridCells(b.pieces);
    CellOfDisjoint(b.pieces, cx, cy);
  }

  /** On a well-formed board a '.' cell is occupied by no piece. */
  lemma EmptyCell(b: Board, cx: int, cy: int)
    requires WellFormed(b) && OnGrid(cx, cy) && b.grid[cy][cx] == '.'
    ensures forall i :: 0 <= i < |b.pieces| ==> !Covers(b.pieces[i], cx, cy)
  {
    BuildGridCells(b.pieces);
    CellOfDisjoint(b.pieces, cx, cy);
  }

  lemma {:induction false} CellOfOwner(ps: seq<Piece>, cx: int, cy: int) returns (i: int)
    requires CellOf(ps, cx, cy) != '.'
    ensures 0 <= i < |ps| && Covers(ps[i], cx, cy) && CellOf(ps, cx, cy) == Glyph(ps[i], cx, cy)
    decreases |ps|
  {
    var n := |ps| - 1;
    if Covers(ps[n], cx, cy) {
      i := n;
    } else {
      i := CellOfOwner(ps[..n], cx, cy);
      assert ps[..n][i] == ps[i];
    }
  }

  /** On a well-formed board a cell that is not '.' is occupied by a piece whose
      glyph it shows. */
  lemma Owner(b: Board, cx: int, cy: int) returns (i: int)
    requires WellFormed(b) && OnGrid(cx, cy) && b.grid[cy][cx] != '.'
    ensures 0 <= i < |b.pieces| && Covers(b.pieces[i], cx, cy)
    ensures b.grid[cy][cx] == Glyph(b.pieces[i], cx, cy)
  {
    BuildGridCells(b.pieces);
    i := CellOfOwner(b.pieces, cx, cy);
  }

  /** Two pieces of a well-formed board never share a top-left corner. */
  lemma TopLeftUnique(b: Board, i: int, j: int)
    requires WellFormed(b) && 0 <= i < |b.pieces| && 0 <= j < |b.pieces|
    requires b.pieces[i].x == b.pieces[j].x && b.pieces[i].y == b.pieces[j].y
    ensures i == j
  {
    assert Covers(b.pieces[i], b.pieces[i].x, b.pieces[i].y);
    assert Covers(b.pieces[j], b.pieces[i].x, b.pieces[i].y);
  }
}

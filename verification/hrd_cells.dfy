/** What a single glyph of a well-formed Hua Rong Dao grid reveals about the
    piece list, and the empty cells in the order the source finds them
    (hrd.py, locate_empty_squares). The successor functions read one or two
    glyphs next to an empty cell and infer from them which piece to slide;
    the lemmas here justify those inferences. */
module HrdCells {

  import opened Grid
  import opened HrdBoard
  import opened HrdMoves
  import opened HrdState

  /** The first piece of the list with top-left corner (x, y) has the given
      kind and lies on the board. */
  ghost predicate PieceIs(b: Board, kind: Kind, x: int, y: int) {
    var k := FirstAt(b.pieces, x, y);
    k < |b.pieces| && b.pieces[k] == Piece(kind, x, y) && InBounds(Piece(kind, x, y))
  }

  /** The goal piece of a board (the first one in the list). */
  ghost function GoalPiece(b: Board): Piece
    requires HasGoal(b)
  {
    b.pieces[FirstGoal(b.pieces)]
  }

  /** The glyphs a grid may hold. */
  const Glyphs: set<char> := {'.', '1', '2', '<', '>', '^', 'v'}

  predicate IsGlyph(c: char) {
    c in Glyphs
  }

  lemma FirstAtOwner(b: Board, i: int)
    requires WellFormed(b) && 0 <= i < |b.pieces|
    ensures FirstAt(b.pieces, b.pieces[i].x, b.pieces[i].y) == i
  {
    var f := FirstAt(b.pieces, b.pieces[i].x, b.pieces[i].y);
    assert f <= i;
    TopLeftUnique(b, f, i);
  }

  /** On a well-formed board there is a goal piece, it lies on the board, and
      the '1' cells are exactly the cells it covers. */
  lemma GoalFacts(b: Board)
    requires WellFormed(b)
    ensures HasGoal(b)
    ensures PieceIs(b, Goal, GoalPiece(b).x, GoalPiece(b).y)
    ensures forall cx, cy :: OnGrid(cx, cy) ==> (b.grid[cy][cx] == '1' <==> Covers(GoalPiece(b), cx, cy))
  {
    HeuristicZeroIffGoal(b);
    var k := FirstGoal(b.pieces);
    FirstAtOwner(b, k);
    forall cx, cy | OnGrid(cx, cy)
      ensures b.grid[cy][cx] == '1' <==> Covers(GoalPiece(b), cx, cy)
    {
      if Covers(GoalPiece(b), cx, cy) {
        CoveredCell(b, k, cx, cy);
      }
      if b.grid[cy][cx] == '1' {
        var i := Owner(b, cx, cy);
        assert IsGoalAt(b.pieces, i);
      }
    }
  }

  /** What one glyph of a well-formed grid says about the piece under it: a
      '2' is a single with its corner there, '<' and '^' are the first halves
      of dominoes with their corner there, and '>' and 'v' are the second
      halves of dominoes whose corner is one cell to the left or above. */
  lemma CellFacts(b: Board, cx: int, cy: int)
    requires WellFormed(b) && OnGrid(cx, cy)
    ensures b.grid[cy][cx] == '2' ==> PieceIs(b, Single, cx, cy)
    ensures b.grid[cy][cx] == '<' ==> PieceIs(b, Horizontal, cx, cy)
    ensures b.grid[cy][cx] == '>' ==> PieceIs(b, Horizontal, cx - 1, cy)
    ensures b.grid[cy][cx] == '^' ==> PieceIs(b, Vertical, cx, cy)
    ensures b.grid[cy][cx] == 'v' ==> PieceIs(b, Vertical, cx, cy - 1)
  {
    if b.grid[cy][cx] != '.' {
      var i := Owner(b, cx, cy);
      var p := b.pieces[i];
      FirstAtOwner(b, i);
      assert InBounds(p);
      match p.kind {
        case Single =>
          assert p == Piece(Single, cx, cy);
        case Horizontal =>
          assert p == Piece(Horizontal, cx, cy) || p == Piece(Horizontal, cx - 1, cy);
        case Vertical =>
          assert p == Piece(Vertical, cx, cy) || p == Piece(Vertical, cx, cy - 1);
        case Goal =>
      }
    }
  }

  /** Every cell of a well-formed grid holds one of the glyphs. */
  lemma CellGlyph(b: Board, cx: int, cy: int)
    requires WellFormed(b) && OnGrid(cx, cy)
    ensures IsGlyph(b.grid[cy][cx])
  {
    if b.grid[cy][cx] != '.' {
      var i := Owner(b, cx, cy);
    }
  }

  /** A cell's position in row-major order. */
  function Index(c: (int, int)): int {
    c.1 * Width + c.0
  }

  function CellAt(n: int): (c: (int, int))
    ensures 0 <= n < Width * Height ==> OnGrid(c.0, c.1) && Index(c) == n
  {
    (n % Width, n / Width)
  }

  /** The empty cells at row-major positions n and beyond, in row-major order
      (the nested row/column loops of locate_empty_squares, hrd.py:212-220). */
  function EmptyFrom(g: Grid, n: nat): (r: seq<(int, int)>)
    requires IsRect(g, Width, Height)
    ensures forall i :: 0 <= i < |r| ==> OnGrid(r[i].0, r[i].1) && g[r[i].1][r[i].0] == '.' && Index(r[i]) >= n
    ensures forall i, j :: 0 <= i < j < |r| ==> Index(r[i]) < Index(r[j])
    ensures forall cx, cy :: OnGrid(cx, cy) && g[cy][cx] == '.' && Index((cx, cy)) >= n ==> (cx, cy) in r
    decreases Width * Height - n
  {
    if n >= Width * Height then []
    else
      var c := CellAt(n);
      var rest := EmptyFrom(g, n + 1);
      assert forall cx, cy :: OnGrid(cx, cy) && Index((cx, cy)) == n ==> (cx, cy) == c by {
        forall cx, cy | OnGrid(cx, cy) && Index((cx, cy)) == n
          ensures (cx, cy) == c
        {
          IndexInjective(cx, cy, c.0, c.1);
        }
      }
      if g[c.1][c.0] == '.' then [c] + rest else rest
  }

  /** Different cells have different row-major positions. */
  lemma IndexInjective(x1: int, y1: int, x2: int, y2: int)
    requires OnGrid(x1, y1) && OnGrid(x2, y2) && Index((x1, y1)) == Index((x2, y2))
    ensures x1 == x2 && y1 == y2
  {
  }

  /** Distinct elements: a sequence has as many as its set. */
  lemma {:induction false} DistinctCard<T>(s: seq<T>)
    requires forall i, j :: 0 <= i < j < |s| ==> s[i] != s[j]
    ensures |set x | x in s| == |s|
  {
    if |s| > 0 {
      var t := s[1..];
      DistinctCard(t);
      assert (set x | x in s) == (set x | x in t) + {s[0]};
      assert s[0] !in t;
    }
  }

  /** The cells EmptyFrom lists from position 0 are exactly the empty cells. */
  lemma EmptyFromSet(g: Grid)
    requires IsRect(g, Width, Height)
    ensures (set x | x in EmptyFrom(g, 0)) == EmptySet(g)
  {
    var cells := EmptyFrom(g, 0);
    forall c | c in EmptySet(g)
      ensures c in cells
    {
      EmptySetMember(g, c.0, c.1);
    }
    forall c | c in cells
      ensures c in EmptySet(g)
    {
      EmptySetMember(g, c.0, c.1);
    }
  }

  /** A grid with exactly two empty cells lists exactly those two. */
  lemma TwoEmpty(g: Grid)
    requires IsRect(g, Width, Height) && |EmptySet(g)| == 2
    ensures |EmptyFrom(g, 0)| == 2
    ensures EmptySet(g) == {EmptyFrom(g, 0)[0], EmptyFrom(g, 0)[1]}
  {
    var cells := EmptyFrom(g, 0);
    EmptyFromSet(g);
    DistinctCard(cells);
    PairSet(cells);
  }

  lemma PairSet<T>(s: seq<T>)
    requires |s| == 2
    ensures (set x | x in s) == {s[0], s[1]}
  {
  }

  /** locate_empty_squares (hrd.py:205-222) on a well-formed board: the two
      empty cells, the first before the second in row-major order. The
      source collects every later '.' into the second square; a well-formed
      board has exactly two. */
  function LocateEmptySquares(b: Board): (r: ((int, int), (int, int)))
    requires WellFormed(b)
    ensures OnGrid(r.0.0, r.0.1) && b.grid[r.0.1][r.0.0] == '.'
    ensures OnGrid(r.1.0, r.1.1) && b.grid[r.1.1][r.1.0] == '.'
    ensures Index(r.0) < Index(r.1)
    ensures EmptySet(b.grid) == {r.0, r.1}
  {
    var cells := EmptyFrom(b.grid, 0);
    TwoEmpty(b.grid);
    (cells[0], cells[1])
  }
}

/** Successor generation of the Hua Rong Dao solver (hrd.py, check_left,
    check_right, check_top, check_bottom, remove_duplicate_boards,
    generate_successors).

    For each of the two empty cells the source looks at the neighbouring
    glyph on each side, decides from it (and sometimes from one or two more
    glyphs) which piece could slide into the empty cell, looks that piece up
    by its top-left corner and slides it. Each check is modelled in two
    parts: a Candidate function that reads the glyphs and names the corner
    of the piece to slide, and Slide, which looks the piece up and builds
    the successor state. */
module HrdSuccessors {

  import opened Maybe
  import opened Grid
  import opened HrdBoard
  import opened HrdMoves
  import opened HrdState
  import opened HrdCells

  /** b' is b after a legal slide of one of its pieces in direction d. */
  ghost predicate SlidesTo(b: Board, d: Dir, b': Board) {
    WellFormed(b) && exists k :: LegalSlide(b, k, d) && b' == Move(b, b.pieces[k], d)
  }

  /** t is a successor state of s: its board is s's board after one legal
      slide, it is well formed, its parent is s, its depth is one more, its id
      is the hash of its board, and its cost so far (f minus the heuristic)
      is one more than s's. */
  ghost predicate IsChild(s: State, t: State, hash: Board -> int) {
    && WellFormed(t.board)
    && HasGoal(s.board) && HasGoal(t.board)
    && (exists d :: SlidesTo(s.board, d, t.board))
    && t.parent == Some(s)
    && t.depth == s.depth + 1
    && t.id == hash(t.board)
    && t.f - Heuristic(t.board) == s.f - Heuristic(s.board) + 1
  }

  /** What GoalFacts establishes about the goal piece of a well-formed
      board: it exists, lies on the board, and covers exactly the '1'
      cells. */
  ghost predicate GoalInfo(b: Board)
    requires IsRect(b.grid, Width, Height)
  {
    && HasGoal(b)
    && PieceIs(b, Goal, GoalPiece(b).x, GoalPiece(b).y)
    && forall cx, cy :: OnGrid(cx, cy) ==> (b.grid[cy][cx] == '1' <==> Covers(GoalPiece(b), cx, cy))
  }

  /** The piece with top-left corner c, if it can slide in direction d. */
  ghost predicate Slidable(b: Board, c: (int, int), d: Dir)
    requires IsRect(b.grid, Width, Height)
  {
    var k := FirstAt(b.pieces, c.0, c.1);
    k < |b.pieces| && LegalSlide(b, k, d)
  }

  /** The piece with top-left corner c can slide in direction d if there is
      one at all. */
  ghost predicate SlidableIfPresent(b: Board, c: (int, int), d: Dir)
    requires IsRect(b.grid, Width, Height)
  {
    var k := FirstAt(b.pieces, c.0, c.1);
    k < |b.pieces| ==> LegalSlide(b, k, d)
  }

  /** The glyph tests of check_left (hrd.py:264-310): the piece left of the
      empty cell (x, y) that could slide right into it, as its top-left
      corner. */
  function LeftCandidate(b: Board, x: int, y: int): (r: Option<(int, int)>)
    requires WellFormed(b) && OnGrid(x, y) && b.grid[y][x] == '.'
    ensures x == 0 ==> r.None?
  {
    var g := b.grid;
    if x > 0 then
      CellFacts(b, x - 1, y);
      var c := g[y][x - 1];
      if c == '2' then Some((x - 1, y))
      else if c == '>' then Some((x - 2, y))
      else if c == 'v' then
        if g[y - 1][x] == '.' then Some((x - 1, y - 1)) else None
      else if c == '^' then
        if g[y + 1][x] == '.' then Some((x - 1, y)) else None
      else if c == '1' then
        GoalFacts(b);
        if y < Height - 1 then
          if g[y + 1][x] == '.' && g[y + 1][x - 1] == '1' then Some((x - 2, y)) else None
        else
          if g[y - 1][x] == '.' && g[y - 1][x - 1] == '1' then Some((x - 2, y - 1)) else None
      else None
    else None
  }

  /** The glyph tests of check_right (hrd.py:358-404): the piece right of the
      empty cell (x, y) that could slide left into it. */
  function RightCandidate(b: Board, x: int, y: int): (r: Option<(int, int)>)
    requires WellFormed(b) && OnGrid(x, y) && b.grid[y][x] == '.'
    ensures x == Width - 1 ==> r.None?
  {
    var g := b.grid;
    if x < Width - 1 then
      CellFacts(b, x + 1, y);
      var c := g[y][x + 1];
      if c == '2' then Some((x + 1, y))
      else if c == '<' then Some((x + 1, y))
      else if c == 'v' then
        if g[y - 1][x] == '.' then Some((x + 1, y - 1)) else None
      else if c == '^' then
        if g[y + 1][x] == '.' then Some((x + 1, y)) else None
      else if c == '1' then
        GoalFacts(b);
        if y < Height - 1 then
          if g[y + 1][x] == '.' && g[y + 1][x + 1] == '1' then Some((x + 1, y)) else None
        else
          if g[y - 1][x] == '.' && g[y - 1][x + 1] == '1' then Some((x + 1, y - 1)) else None
      else None
    else None
  }

  /** The glyph tests of check_top (hrd.py:452-498): the piece above the empty
      cell (x, y) that could slide down into it. */
  function TopCandidate(b: Board, x: int, y: int): (r: Option<(int, int)>)
    requires WellFormed(b) && OnGrid(x, y) && b.grid[y][x] == '.'
    ensures y == 0 ==> r.None?
  {
    var g := b.grid;
    if y > 0 then
      CellFacts(b, x, y - 1);
      var c := g[y - 1][x];
      if c == '2' then Some((x, y - 1))
      else if c == 'v' then Some((x, y - 2))
      else if c == '<' then
        if g[y][x + 1] == '.' then Some((x, y - 1)) else None
      else if c == '>' then
        if g[y][x - 1] == '.' then Some((x - 1, y - 1)) else None
      else if c == '1' then
        GoalFacts(b);
        if x < Width - 1 then
          if g[y][x + 1] == '.' && g[y - 1][x + 1] == '1' then Some((x, y - 2)) else None
        else
          if g[y][x - 1] == '.' && g[y - 1][x - 1] == '1' then Some((x - 1, y - 2)) else None
      else None
    else None
  }

  /** The glyph tests of check_bottom (hrd.py:546-592): the piece below the
      empty cell (x, y) that could slide up into it. For the goal piece the
      source tests the cell grid[x + 1][y + 1] (or grid[x - 1][y + 1]), with
      row and column swapped; that test reads some cell of the board, so the
      candidate it names is not always the goal's corner, and when it is the
      goal's corner the slide is legal. */
  function BottomCandidate(b: Board, x: int, y: int): (r: Option<(int, int)>)
    requires WellFormed(b) && OnGrid(x, y) && b.grid[y][x] == '.'
    ensures y == Height - 1 ==> r.None?
  {
    var g := b.grid;
    if y < Height - 1 then
      CellFacts(b, x, y + 1);
      var c := g[y + 1][x];
      if c == '2' then Some((x, y + 1))
      else if c == '^' then Some((x, y + 1))
      else if c == '<' then
        if g[y][x + 1] == '.' then Some((x, y + 1)) else None
      else if c == '>' then
        if g[y][x - 1] == '.' then Some((x - 1, y + 1)) else None
      else if c == '1' then
        GoalFacts(b);
        if x < Width - 1 then
          if g[y][x + 1] == '.' && g[x + 1][y + 1] == '1' then Some((x, y + 1)) else None
        else
          if g[y][x - 1] == '.' && g[x - 1][y + 1] == '1' then Some((x - 1, y + 1)) else None
      else None
    else None
  }

  /** A piece found by its corner can slide when the shifted piece stays on
      the board and the cells it enters are empty. */
  lemma SlidableFrom(b: Board, kind: Kind, px: int, py: int, d: Dir)
    requires IsRect(b.grid, Width, Height) && PieceIs(b, kind, px, py)
    requires InBounds(Shift(Piece(kind, px, py), d))
    requires forall c :: c in Enter(Piece(kind, px, py), d) ==> b.grid[c.1][c.0] == '.'
    ensures Slidable(b, (px, py), d)
  {
  }

  /** Every piece check_left names can slide right into the empty cell. */
  lemma LeftCandidateSound(b: Board, x: int, y: int)
    requires WellFormed(b) && OnGrid(x, y) && b.grid[y][x] == '.'
    ensures LeftCandidate(b, x, y).Some? ==> Slidable(b, LeftCandidate(b, x, y).value, Right)
  {
    if x > 0 {
      CellFacts(b, x - 1, y);
      var c := b.grid[y][x - 1];
      if c == '2' {
        LeftOfSingle(b, x, y);
      } else if c == '>' {
        LeftOfHorizontal(b, x, y);
      } else if c == 'v' {
        LeftOfVerticalBottom(b, x, y);
      } else if c == '^' {
        LeftOfVerticalTop(b, x, y);
      } else if c == '1' {
        GoalFacts(b);
        LeftOfGoal(b, x, y);
      }
    }
  }

  lemma LeftOfSingle(b: Board, x: int, y: int)
    requires IsRect(b.grid, Width, Height) && OnGrid(x, y) && b.grid[y][x] == '.' && x > 0
    requires b.grid[y][x - 1] == '2'
    requires PieceIs(b, Single, x - 1, y)
    ensures Slidable(b, (x - 1, y), Right)
  {
    SlidableFrom(b, Single, x - 1, y, Right);
  }

  lemma LeftOfHorizontal(b: Board, x: int, y: int)
    requires IsRect(b.grid, Width, Height) && OnGrid(x, y) && b.grid[y][x] == '.' && x > 0
    requires b.grid[y][x - 1] == '>'
    requires PieceIs(b, Horizontal, x - 2, y)
    ensures Slidable(b, (x - 2, y), Right)
  {
    SlidableFrom(b, Horizontal, x - 2, y, Right);
  }

  lemma LeftOfVerticalBottom(b: Board, x: int, y: int)
    requires IsRect(b.grid, Width, Height) && OnGrid(x, y) && b.grid[y][x] == '.' && x > 0
    requires b.grid[y][x - 1] == 'v'
    requires PieceIs(b, Vertical, x - 1, y - 1)
    ensures y > 0 && (b.grid[y - 1][x] == '.' ==> Slidable(b, (x - 1, y - 1), Right))
  {
    if b.grid[y - 1][x] == '.' {
      SlidableFrom(b, Vertical, x - 1, y - 1, Right);
    }
  }

  lemma LeftOfVerticalTop(b: Board, x: int, y: int)
    requires IsRect(b.grid, Width, Height) && OnGrid(x, y) && b.grid[y][x] == '.' && x > 0
    requires b.grid[y][x - 1] == '^'
    requires PieceIs(b, Vertical, x - 1, y)
    ensures y < Height - 1 && (b.grid[y + 1][x] == '.' ==> Slidable(b, (x - 1, y), Right))
  {
    if b.grid[y + 1][x] == '.' {
      SlidableFrom(b, Vertical, x - 1, y, Right);
    }
  }

  lemma LeftOfGoal(b: Board, x: int, y: int)
    requires IsRect(b.grid, Width, Height) && OnGrid(x, y) && b.grid[y][x] == '.' && x > 0
    requires b.grid[y][x - 1] == '1'
    requires GoalInfo(b)
    ensures y < Height - 1 && b.grid[y + 1][x] == '.' && b.grid[y + 1][x - 1] == '1' ==> Slidable(b, (x - 2, y), Right)
    ensures y == Height - 1 && b.grid[y - 1][x] == '.' && b.grid[y - 1][x - 1] == '1' ==> Slidable(b, (x - 2, y - 1), Right)
  {
    var g := b.grid;
    var gp := GoalPiece(b);
    if y < Height - 1 {
      if g[y + 1][x] == '.' && g[y + 1][x - 1] == '1' {
        assert gp == Piece(Goal, x - 2, y);
        SlidableFrom(b, Goal, x - 2, y, Right);
      }
    } else {
      if g[y - 1][x] == '.' && g[y - 1][x - 1] == '1' {
        assert gp == Piece(Goal, x - 2, y - 1);
        SlidableFrom(b, Goal, x - 2, y - 1, Right);
      }
    }
  }

  /** Every piece check_right names can slide left into the empty cell. */
  lemma RightCandidateSound(b: Board, x: int, y: int)
    requires WellFormed(b) && OnGrid(x, y) && b.grid[y][x] == '.'
    ensures RightCandidate(b, x, y).Some? ==> Slidable(b, RightCandidate(b, x, y).value, Left)
  {
    if x < Width - 1 {
      CellFacts(b, x + 1, y);
      var c := b.grid[y][x + 1];
      if c == '2' {
        RightOfSingle(b, x, y);
      } else if c == '<' {
        RightOfHorizontal(b, x, y);
      } else if c == 'v' {
        RightOfVerticalBottom(b, x, y);
      } else if c == '^' {
        RightOfVerticalTop(b, x, y);
      } else if c == '1' {
        GoalFacts(b);
        RightOfGoal(b, x, y);
      }
    }
  }

  lemma RightOfSingle(b: Board, x: int, y: int)
    requires IsRect(b.grid, Width, Height) && OnGrid(x, y) && b.grid[y][x] == '.' && x < Width - 1
    requires b.grid[y][x + 1] == '2'
    requires PieceIs(b, Single, x + 1, y)
    ensures Slidable(b, (x + 1, y), Left)
  {
    SlidableFrom(b, Single, x + 1, y, Left);
  }

  lemma RightOfHorizontal(b: Board, x: int, y: int)
    requires IsRect(b.grid, Width, Height) && OnGrid(x, y) && b.grid[y][x] == '.' && x < Width - 1
    requires b.grid[y][x + 1] == '<'
    requires PieceIs(b, Horizontal, x + 1, y)
    ensures Slidable(b, (x + 1, y), Left)
  {
    SlidableFrom(b, Horizontal, x + 1, y, Left);
  }

  lemma RightOfVerticalBottom(b: Board, x: int, y: int)
    requires IsRect(b.grid, Width, Height) && OnGrid(x, y) && b.grid[y][x] == '.' && x < Width - 1
    requires b.grid[y][x + 1] == 'v'
    requires PieceIs(b, Vertical, x + 1, y - 1)
    ensures y > 0 && (b.grid[y - 1][x] == '.' ==> Slidable(b, (x + 1, y - 1), Left))
  {
    if b.grid[y - 1][x] == '.' {
      SlidableFrom(b, Vertical, x + 1, y - 1, Left);
    }
  }

  lemma RightOfVerticalTop(b: Board, x: int, y: int)
    requires IsRect(b.grid, Width, Height) && OnGrid(x, y) && b.grid[y][x] == '.' && x < Width - 1
    requires b.grid[y][x + 1] == '^'
    requires PieceIs(b, Vertical, x + 1, y)
    ensures y < Height - 1 && (b.grid[y + 1][x] == '.' ==> Slidable(b, (x + 1, y), Left))
  {
    if b.grid[y + 1][x] == '.' {
      SlidableFrom(b, Vertical, x + 1, y, Left);
    }
  }

  lemma RightOfGoal(b: Board, x: int, y: int)
    requires IsRect(b.grid, Width, Height) && OnGrid(x, y) && b.grid[y][x] == '.' && x < Width - 1
    requires b.grid[y][x + 1] == '1'
    requires GoalInfo(b)
    ensures y < Height - 1 && b.grid[y + 1][x] == '.' && b.grid[y + 1][x + 1] == '1' ==> Slidable(b, (x + 1, y), Left)
    ensures y == Height - 1 && b.grid[y - 1][x] == '.' && b.grid[y - 1][x + 1] == '1' ==> Slidable(b, (x + 1, y - 1), Left)
  {
    var g := b.grid;
    var gp := GoalPiece(b);
    if y < Height - 1 {
      if g[y + 1][x] == '.' && g[y + 1][x + 1] == '1' {
        assert gp == Piece(Goal, x + 1, y);
        SlidableFrom(b, Goal, x + 1, y, Left);
      }
    } else {
      if g[y - 1][x] == '.' && g[y - 1][x + 1] == '1' {
        assert gp == Piece(Goal, x + 1, y - 1);
        SlidableFrom(b, Goal, x + 1, y - 1, Left);
      }
    }
  }

  /** Every piece check_top names can slide down into the empty cell. */
  lemma TopCandidateSound(b: Board, x: int, y: int)
    requires WellFormed(b) && OnGrid(x, y) && b.grid[y][x] == '.'
    ensures TopCandidate(b, x, y).Some? ==> Slidable(b, TopCandidate(b, x, y).value, Down)
  {
    if y > 0 {
      CellFacts(b, x, y - 1);
      var c := b.grid[y - 1][x];
      if c == '2' {
        AboveSingle(b, x, y);
      } else if c == 'v' {
        AboveVertical(b, x, y);
      } else if c == '<' {
        AboveHorizontalLeft(b, x, y);
      } else if c == '>' {
        AboveHorizontalRight(b, x, y);
      } else if c == '1' {
        GoalFacts(b);
        AboveGoal(b, x, y);
      }
    }
  }

  lemma AboveSingle(b: Board, x: int, y: int)
    requires IsRect(b.grid, Width, Height) && OnGrid(x, y) && b.grid[y][x] == '.' && y > 0
    requires b.grid[y - 1][x] == '2'
    requires PieceIs(b, Single, x, y - 1)
    ensures Slidable(b, (x, y - 1), Down)
  {
    SlidableFrom(b, Single, x, y - 1, Down);
  }

  lemma AboveVertical(b: Board, x: int, y: int)
    requires IsRect(b.grid, Width, Height) && OnGrid(x, y) && b.grid[y][x] == '.' && y > 0
    requires b.grid[y - 1][x] == 'v'
    requires PieceIs(b, Vertical, x, y - 2)
    ensures Slidable(b, (x, y - 2), Down)
  {
    SlidableFrom(b, Vertical, x, y - 2, Down);
  }

  lemma AboveHorizontalLeft(b: Board, x: int, y: int)
    requires IsRect(b.grid, Width, Height) && OnGrid(x, y) && b.grid[y][x] == '.' && y > 0
    requires b.grid[y - 1][x] == '<'
    requires PieceIs(b, Horizontal, x, y - 1)
    ensures x < Width - 1 && (b.grid[y][x + 1] == '.' ==> Slidable(b, (x, y - 1), Down))
  {
    if b.grid[y][x + 1] == '.' {
      SlidableFrom(b, Horizontal, x, y - 1, Down);
    }
  }

  lemma AboveHorizontalRight(b: Board, x: int, y: int)
    requires IsRect(b.grid, Width, Height) && OnGrid(x, y) && b.grid[y][x] == '.' && y > 0
    requires b.grid[y - 1][x] == '>'
    requires PieceIs(b, Horizontal, x - 1, y - 1)
    ensures x > 0 && (b.grid[y][x - 1] == '.' ==> Slidable(b, (x - 1, y - 1), Down))
  {
    if b.grid[y][x - 1] == '.' {
      SlidableFrom(b, Horizontal, x - 1, y - 1, Down);
    }
  }

  lemma AboveGoal(b: Board, x: int, y: int)
    requires IsRect(b.grid, Width, Height) && OnGrid(x, y) && b.grid[y][x] == '.' && y > 0
    requires b.grid[y - 1][x] == '1'
    requires GoalInfo(b)
    ensures x < Width - 1 && b.grid[y][x + 1] == '.' && b.grid[y - 1][x + 1] == '1' ==> Slidable(b, (x, y - 2), Down)
    ensures x == Width - 1 && b.grid[y][x - 1] == '.' && b.grid[y - 1][x - 1] == '1' ==> Slidable(b, (x - 1, y - 2), Down)
  {
    var g := b.grid;
    var gp := GoalPiece(b);
    if x < Width - 1 {
      if g[y][x + 1] == '.' && g[y - 1][x + 1] == '1' {
        assert gp == Piece(Goal, x, y - 2);
        SlidableFrom(b, Goal, x, y - 2, Down);
      }
    } else {
      if g[y][x - 1] == '.' && g[y - 1][x - 1] == '1' {
        assert gp == Piece(Goal, x - 1, y - 2);
        SlidableFrom(b, Goal, x - 1, y - 2, Down);
      }
    }
  }

  /** Every piece check_bottom names can slide up into the empty cell; for the
      goal piece the transposed test may name a corner no piece has, and then
      the lookup finds nothing. */
  lemma BottomCandidateSound(b: Board, x: int, y: int)
    requires WellFormed(b) && OnGrid(x, y) && b.grid[y][x] == '.'
    ensures BottomCandidate(b, x, y).Some? ==> SlidableIfPresent(b, BottomCandidate(b, x, y).value, Up)
  {
    if y < Height - 1 {
      CellFacts(b, x, y + 1);
      var c := b.grid[y + 1][x];
      if c == '2' {
        BelowSingle(b, x, y);
      } else if c == '^' {
        BelowVertical(b, x, y);
      } else if c == '<' {
        BelowHorizontalLeft(b, x, y);
      } else if c == '>' {
        BelowHorizontalRight(b, x, y);
      } else if c == '1' {
        GoalFacts(b);
        BelowGoal(b, x, y);
      }
    }
  }

  lemma BelowSingle(b: Board, x: int, y: int)
    requires IsRect(b.grid, Width, Height) && OnGrid(x, y) && b.grid[y][x] == '.' && y < Height - 1
    requires b.grid[y + 1][x] == '2'
    requires PieceIs(b, Single, x, y + 1)
    ensures Slidable(b, (x, y + 1), Up)
  {
    SlidableFrom(b, Single, x, y + 1, Up);
  }

  lemma BelowVertical(b: Board, x: int, y: int)
    requires IsRect(b.grid, Width, Height) && OnGrid(x, y) && b.grid[y][x] == '.' && y < Height - 1
    requires b.grid[y + 1][x] == '^'
    requires PieceIs(b, Vertical, x, y + 1)
    ensures Slidable(b, (x, y + 1), Up)
  {
    SlidableFrom(b, Vertical, x, y + 1, Up);
  }

  lemma BelowHorizontalLeft(b: Board, x: int, y: int)
    requires IsRect(b.grid, Width, Height) && OnGrid(x, y) && b.grid[y][x] == '.' && y < Height - 1
    requires b.grid[y + 1][x] == '<'
    requires PieceIs(b, Horizontal, x, y + 1)
    ensures x < Width - 1 && (b.grid[y][x + 1] == '.' ==> Slidable(b, (x, y + 1), Up))
  {
    if b.grid[y][x + 1] == '.' {
      SlidableFrom(b, Horizontal, x, y + 1, Up);
    }
  }

  lemma BelowHorizontalRight(b: Board, x: int, y: int)
    requires IsRect(b.grid, Width, Height) && OnGrid(x, y) && b.grid[y][x] == '.' && y < Height - 1
    requires b.grid[y + 1][x] == '>'
    requires PieceIs(b, Horizontal, x - 1, y + 1)
    ensures x > 0 && (b.grid[y][x - 1] == '.' ==> Slidable(b, (x - 1, y + 1), Up))
  {
    if b.grid[y][x - 1] == '.' {
      SlidableFrom(b, Horizontal, x - 1, y + 1, Up);
    }
  }

  /** Below the empty cell is the goal piece, whose top row is therefore the
      next row, so the transposed test reads an existing cell. */
  lemma BelowGoal(b: Board, x: int, y: int)
    requires IsRect(b.grid, Width, Height) && OnGrid(x, y) && b.grid[y][x] == '.' && y < Height - 1
    requires b.grid[y + 1][x] == '1'
    requires GoalInfo(b) && Disjoint(b.pieces)
    ensures y + 1 < Width
    ensures x < Width - 1 && b.grid[y][x + 1] == '.' && b.grid[x + 1][y + 1] == '1' ==> SlidableIfPresent(b, (x, y + 1), Up)
    ensures x == Width - 1 && b.grid[y][x - 1] == '.' && b.grid[x - 1][y + 1] == '1' ==> Slidable(b, (x - 1, y + 1), Up)
  {
    assert GoalPiece(b).y == y + 1;
    if x < Width - 1 {
      BelowGoalInner(b, x, y);
    } else {
      BelowGoalEdge(b, x, y);
    }
  }

  lemma BelowGoalInner(b: Board, x: int, y: int)
    requires IsRect(b.grid, Width, Height) && OnGrid(x, y) && b.grid[y][x] == '.' && y + 1 < Width && x < Width - 1
    requires b.grid[y + 1][x] == '1'
    requires GoalInfo(b) && Disjoint(b.pieces)
    ensures b.grid[y][x + 1] == '.' ==> SlidableIfPresent(b, (x, y + 1), Up)
  {
    var gp := GoalPiece(b);
    if b.grid[y][x + 1] == '.' {
      if gp.x == x {
        SlidableFrom(b, Goal, x, y + 1, Up);
      } else {
        NoCorner(b, x, y + 1);
      }
    }
  }

  lemma BelowGoalEdge(b: Board, x: int, y: int)
    requires IsRect(b.grid, Width, Height) && OnGrid(x, y) && b.grid[y][x] == '.' && y + 1 < Width && x == Width - 1
    requires b.grid[y + 1][x] == '1'
    requires GoalInfo(b)
    ensures b.grid[y][x - 1] == '.' ==> Slidable(b, (x - 1, y + 1), Up)
  {
    var gp := GoalPiece(b);
    if b.grid[y][x - 1] == '.' {
      assert gp == Piece(Goal, x - 1, y + 1);
      SlidableFrom(b, Goal, x - 1, y + 1, Up);
    }
  }

  /** A cell covered by the goal piece but not its corner is no piece's
      corner. */
  lemma NoCorner(b: Board, cx: int, cy: int)
    requires Disjoint(b.pieces)
    requires HasGoal(b) && Covers(GoalPiece(b), cx, cy)
    requires (GoalPiece(b).x, GoalPiece(b).y) != (cx, cy)
    ensures FirstAt(b.pieces, cx, cy) == |b.pieces|
  {
    var k := FirstAt(b.pieces, cx, cy);
    if k < |b.pieces| {
      assert false;
    }
  }

  /** Looks up the first piece with top-left corner c and slides it in
      direction d, wrapping the new board in a successor state (the piece
      loop of every check_* branch and the state construction at its end,
      e.g. hrd.py:276-279 and 312-315). Nothing is produced when no piece has
      that corner. */
  function Slide(s: State, c: (int, int), d: Dir, hash: Board -> int): (r: Option<State>)
    requires WellFormed(s.board) && SlidableIfPresent(s.board, c, d)
    ensures r.None? <==> FirstAt(s.board.pieces, c.0, c.1) == |s.board.pieces|
    ensures r.Some? ==> IsChild(s, r.value, hash) && SlidesTo(s.board, d, r.value.board)
  {
    var b := s.board;
    var k := FirstAt(b.pieces, c.0, c.1);
    if k < |b.pieces| then
      ChildOfSlide(s, k, d, hash);
      Some(MakeChild(s, Move(b, b.pieces[k], d), hash))
    else
      None
  }

  /** The state built from a legal slide is a successor state. */
  lemma ChildOfSlide(s: State, k: int, d: Dir, hash: Board -> int)
    requires WellFormed(s.board) && LegalSlide(s.board, k, d)
    ensures InBounds(s.board.pieces[k])
    ensures WellFormed(Move(s.board, s.board.pieces[k], d))
    ensures HasGoal(s.board) && HasGoal(Move(s.board, s.board.pieces[k], d))
    ensures SlidesTo(s.board, d, Move(s.board, s.board.pieces[k], d))
    ensures IsChild(s, MakeChild(s, Move(s.board, s.board.pieces[k], d), hash), hash)
  {
    var b := s.board;
    MovePreservesWellFormed(b, k, d);
    var b' := Move(b, b.pieces[k], d);
    HeuristicZeroIffGoal(b);
    HeuristicZeroIffGoal(b');
    assert SlidesTo(b, d, b');
    var t := MakeChild(s, b', hash);
    assert t.board == b';
  }

  /** check_left (hrd.py:264-316): slide the piece left of the empty cell sq
      right into it. */
  function CheckLeft(sq: (int, int), s: State, hash: Board -> int): (r: Option<State>)
    requires WellFormed(s.board) && OnGrid(sq.0, sq.1) && s.board.grid[sq.1][sq.0] == '.'
    ensures sq.0 == 0 ==> r.None?
    ensures r.Some? ==> IsChild(s, r.value, hash) && SlidesTo(s.board, Right, r.value.board)
  {
    LeftCandidateSound(s.board, sq.0, sq.1);
    match LeftCandidate(s.board, sq.0, sq.1)
    case None => None
    case Some(c) => Slide(s, c, Right, hash)
  }

  /** check_right (hrd.py:358-410): slide the piece right of the empty cell sq
      left into it. */
  function CheckRight(sq: (int, int), s: State, hash: Board -> int): (r: Option<State>)
    requires WellFormed(s.board) && OnGrid(sq.0, sq.1) && s.board.grid[sq.1][sq.0] == '.'
    ensures sq.0 == Width - 1 ==> r.None?
    ensures r.Some? ==> IsChild(s, r.value, hash) && SlidesTo(s.board, Left, r.value.board)
  {
    RightCandidateSound(s.board, sq.0, sq.1);
    match RightCandidate(s.board, sq.0, sq.1)
    case None => None
    case Some(c) => Slide(s, c, Left, hash)
  }

  /** check_top (hrd.py:452-504): slide the piece above the empty cell sq down
      into it. */
  function CheckTop(sq: (int, int), s: State, hash: Board -> int): (r: Option<State>)
    requires WellFormed(s.board) && OnGrid(sq.0, sq.1) && s.board.grid[sq.1][sq.0] == '.'
    ensures sq.1 == 0 ==> r.None?
    ensures r.Some? ==> IsChild(s, r.value, hash) && SlidesTo(s.board, Down, r.value.board)
  {
    TopCandidateSound(s.board, sq.0, sq.1);
    match TopCandidate(s.board, sq.0, sq.1)
    case None => None
    case Some(c) => Slide(s, c, Down, hash)
  }

  /** check_bottom (hrd.py:546-598): slide the piece below the empty cell sq up
      into it. */
  function CheckBottom(sq: (int, int), s: State, hash: Board -> int): (r: Option<State>)
    requires WellFormed(s.board) && OnGrid(sq.0, sq.1) && s.board.grid[sq.1][sq.0] == '.'
    ensures sq.1 == Height - 1 ==> r.None?
    ensures r.Some? ==> IsChild(s, r.value, hash) && SlidesTo(s.board, Up, r.value.board)
  {
    BottomCandidateSound(s.board, sq.0, sq.1);
    match BottomCandidate(s.board, sq.0, sq.1)
    case None => None
    case Some(c) => Slide(s, c, Up, hash)
  }

  /** The states of the list that are present, in order (the None filter of
      generate_successors, hrd.py:633-635). */
  function Somes(os: seq<Option<State>>): (r: seq<State>)
    ensures |r| <= |os|
    ensures forall t :: t in r <==> Some(t) in os
    decreases |os|
  {
    if |os| == 0 then []
    else
      var n := |os| - 1;
      var r := Somes(os[..n]);
      assert os == os[..n] + [os[n]];
      match os[n]
      case None => r
      case Some(t) => r + [t]
  }

  /** Some state of the list shows grid g (membership in grid_explored of
      remove_duplicate_boards, which lists the grids of the states kept so
      far). */
  predicate HasGrid(ss: seq<State>, g: Grid) {
    exists j :: 0 <= j < |ss| && ss[j].board.grid == g
  }

  /** remove_duplicate_boards (hrd.py:601-614): keeps a state only when no
      earlier kept state has the same grid. The result has pairwise distinct
      grids, holds only states of the input, and shows every grid the input
      shows. */
  function RemoveDuplicateBoards(ss: seq<State>): (r: seq<State>)
    ensures |r| <= |ss|
    ensures forall i, j :: 0 <= i < j < |r| ==> r[i].board.grid != r[j].board.grid
    ensures forall t :: t in r ==> t in ss
    ensures forall i :: 0 <= i < |ss| ==> HasGrid(r, ss[i].board.grid)
    decreases |ss|
  {
    if |ss| == 0 then []
    else
      var n := |ss| - 1;
      var r := RemoveDuplicateBoards(ss[..n]);
      assert forall i :: 0 <= i < n ==> ss[..n][i] == ss[i];
      if HasGrid(r, ss[n].board.grid) then r
      else
        var r' := r + [ss[n]];
        assert r'[|r|] == ss[n];
        assert forall i :: 0 <= i < n ==> HasGrid(r', ss[i].board.grid) by {
          forall i | 0 <= i < n
            ensures HasGrid(r', ss[i].board.grid)
          {
            var j :| 0 <= j < |r| && r[j].board.grid == ss[i].board.grid;
            assert r'[j] == r[j];
          }
        }
        r'
  }

  /** No state before position n shows the grid of the state at n. */
  ghost predicate FirstOfGrid(ss: seq<State>, n: int)
    requires 0 <= n < |ss|
  {
    forall i :: 0 <= i < n ==> ss[i].board.grid != ss[n].board.grid
  }

  /** The states of the list that are the first to show their grid, in
      order. */
  ghost function FirstOccurrences(ss: seq<State>): seq<State>
    decreases |ss|
  {
    if |ss| == 0 then []
    else
      var n := |ss| - 1;
      FirstOccurrences(ss[..n]) + (if FirstOfGrid(ss, n) then [ss[n]] else [])
  }

  /** remove_duplicate_boards keeps exactly the first state showing each grid,
      in input order. */
  lemma {:induction false} RemoveDuplicateBoardsKeepsFirst(ss: seq<State>)
    ensures RemoveDuplicateBoards(ss) == FirstOccurrences(ss)
    decreases |ss|
  {
    if |ss| > 0 {
      var n := |ss| - 1;
      var pre := ss[..n];
      var r := RemoveDuplicateBoards(pre);
      RemoveDuplicateBoardsKeepsFirst(pre);
      var g := ss[n].board.grid;
      if HasGrid(r, g) {
        var j :| 0 <= j < |r| && r[j].board.grid == g;
        assert r[j] in pre;
        var i :| 0 <= i < n && pre[i] == r[j];
        assert ss[i] == pre[i];
        assert !FirstOfGrid(ss, n);
        assert FirstOccurrences(ss) == FirstOccurrences(pre) + [];
        assert RemoveDuplicateBoards(ss) == r;
      } else {
        forall i | 0 <= i < n
          ensures ss[i].board.grid != g
        {
          assert ss[i] == pre[i];
        }
        assert FirstOccurrences(ss) == FirstOccurrences(pre) + [ss[n]];
        assert RemoveDuplicateBoards(ss) == r + [ss[n]];
      }
    }
  }

  /** The four checks at one empty cell, in the order generate_successors
      runs them. */
  function ChecksAt(sq: (int, int), s: State, hash: Board -> int): (r: seq<Option<State>>)
    requires WellFormed(s.board) && OnGrid(sq.0, sq.1) && s.board.grid[sq.1][sq.0] == '.'
    ensures |r| == 4
    ensures forall o :: o in r && o.Some? ==> IsChild(s, o.value, hash)
  {
    [CheckFor(Right, sq, s, hash), CheckFor(Left, sq, s, hash), CheckFor(Down, sq, s, hash), CheckFor(Up, sq, s, hash)]
  }

  /** generate_successors (hrd.py:617-639): the four checks at the first empty
      cell, then at the second, absent results dropped, duplicate grids
      removed. Every result is a successor state of s, their grids are
      pairwise distinct, and there are at most eight. */
  function GenerateSuccessors(s: State, hash: Board -> int): (r: seq<State>)
    requires WellFormed(s.board)
    ensures |r| <= 8
    ensures forall t :: t in r ==> IsChild(s, t, hash)
    ensures forall i, j :: 0 <= i < j < |r| ==> r[i].board.grid != r[j].board.grid
  {
    var squares := LocateEmptySquares(s.board);
    RemoveDuplicateBoards(Somes(ChecksAt(squares.0, s, hash) + ChecksAt(squares.1, s, hash)))
  }

  /** The cell a slide of p in direction d enters first: the cell check_left,
      check_right, check_top or check_bottom starts from when it finds p. */
  function EntryCell(p: Piece, d: Dir): (int, int) {
    match d
    case Right => (p.x + PieceWidth(p.kind), p.y)
    case Left => (p.x - 1, p.y)
    case Down => (p.x, p.y + PieceHeight(p.kind))
    case Up => (p.x, p.y - 1)
  }

  /** The other cell a piece two cells across the direction of travel
      enters: below the entry cell for a sideways slide, right of it for a
      vertical one. */
  function SecondEntry(p: Piece, d: Dir): (int, int) {
    var e := EntryCell(p, d);
    if d == Right || d == Left then (e.0, e.1 + 1) else (e.0 + 1, e.1)
  }

  /** The cells a legal slide enters lie on the grid and are empty. */
  lemma EnteredEmpty(b: Board, k: int, d: Dir)
    requires IsRect(b.grid, Width, Height) && LegalSlide(b, k, d)
    ensures var e := EntryCell(b.pieces[k], d);
      OnGrid(e.0, e.1) && b.grid[e.1][e.0] == '.'
    ensures var p := b.pieces[k];
      var e := SecondEntry(p, d);
      (if d == Right || d == Left then PieceHeight(p.kind) else PieceWidth(p.kind)) == 2 ==>
        OnGrid(e.0, e.1) && b.grid[e.1][e.0] == '.'
  {
    var p := b.pieces[k];
    assert EntryCell(p, d) in Enter(p, d);
    if (if d == Right || d == Left then PieceHeight(p.kind) else PieceWidth(p.kind)) == 2 {
      assert SecondEntry(p, d) in Enter(p, d);
    }
  }

  lemma EntryCellEmpty(b: Board, k: int, d: Dir)
    requires WellFormed(b) && LegalSlide(b, k, d)
    ensures EntryCell(b.pieces[k], d) in Enter(b.pieces[k], d)
    ensures OnGrid(EntryCell(b.pieces[k], d).0, EntryCell(b.pieces[k], d).1)
    ensures b.grid[EntryCell(b.pieces[k], d).1][EntryCell(b.pieces[k], d).0] == '.'
  {
  }

  /** What check_left concludes from the glyphs next to the empty cell
      (x, y) in the cases a legal slide to the right produces. */
  lemma LeftReads(b: Board, x: int, y: int)
    requires WellFormed(b) && OnGrid(x, y) && b.grid[y][x] == '.' && x > 0
    ensures b.grid[y][x - 1] == '2' ==> LeftCandidate(b, x, y) == Some((x - 1, y))
    ensures b.grid[y][x - 1] == '>' ==> LeftCandidate(b, x, y) == Some((x - 2, y))
    ensures b.grid[y][x - 1] == '^' && y < Height - 1 && b.grid[y + 1][x] == '.' ==>
      LeftCandidate(b, x, y) == Some((x - 1, y))
    ensures b.grid[y][x - 1] == '1' && y < Height - 1 && b.grid[y + 1][x] == '.' && b.grid[y + 1][x - 1] == '1' ==>
      LeftCandidate(b, x, y) == Some((x - 2, y))
  {
  }

  /** check_left finds every legal slide to the right, from the first cell the
      piece would enter. */
  lemma LeftCandidateComplete(b: Board, k: int)
    requires WellFormed(b) && LegalSlide(b, k, Right)
    ensures var e := EntryCell(b.pieces[k], Right);
      OnGrid(e.0, e.1) && b.grid[e.1][e.0] == '.' &&
      LeftCandidate(b, e.0, e.1) == Some((b.pieces[k].x, b.pieces[k].y))
  {
    var p := b.pieces[k];
    EnteredEmpty(b, k, Right);
    var w := PieceWidth(p.kind);
    CoveredCell(b, k, p.x + w - 1, p.y);
    if p.kind == Goal {
      CoveredCell(b, k, p.x + 1, p.y + 1);
    }
    LeftReads(b, p.x + w, p.y);
  }

  /** What check_right concludes from the glyphs next to the empty cell
      (x, y) in the cases a legal slide to the left produces. */
  lemma RightReads(b: Board, x: int, y: int)
    requires WellFormed(b) && OnGrid(x, y) && b.grid[y][x] == '.' && x < Width - 1
    ensures b.grid[y][x + 1] == '2' ==> RightCandidate(b, x, y) == Some((x + 1, y))
    ensures b.grid[y][x + 1] == '<' ==> RightCandidate(b, x, y) == Some((x + 1, y))
    ensures b.grid[y][x + 1] == '^' && y < Height - 1 && b.grid[y + 1][x] == '.' ==>
      RightCandidate(b, x, y) == Some((x + 1, y))
    ensures b.grid[y][x + 1] == '1' && y < Height - 1 && b.grid[y + 1][x] == '.' && b.grid[y + 1][x + 1] == '1' ==>
      RightCandidate(b, x, y) == Some((x + 1, y))
  {
  }

  /** check_right finds every legal slide to the left. */
  lemma RightCandidateComplete(b: Board, k: int)
    requires WellFormed(b) && LegalSlide(b, k, Left)
    ensures var e := EntryCell(b.pieces[k], Left);
      OnGrid(e.0, e.1) && b.grid[e.1][e.0] == '.' &&
      RightCandidate(b, e.0, e.1) == Some((b.pieces[k].x, b.pieces[k].y))
  {
    var p := b.pieces[k];
    EnteredEmpty(b, k, Left);
    CoveredCell(b, k, p.x, p.y);
    if p.kind == Goal {
      CoveredCell(b, k, p.x, p.y + 1);
    }
    RightReads(b, p.x - 1, p.y);
  }

  /** What check_top concludes from the glyphs above the empty cell (x, y)
      in the cases a legal downward slide produces. */
  lemma TopReads(b: Board, x: int, y: int)
    requires WellFormed(b) && OnGrid(x, y) && b.grid[y][x] == '.' && y > 0
    ensures b.grid[y - 1][x] == '2' ==> TopCandidate(b, x, y) == Some((x, y - 1))
    ensures b.grid[y - 1][x] == 'v' ==> TopCandidate(b, x, y) == Some((x, y - 2))
    ensures b.grid[y - 1][x] == '<' && x < Width - 1 && b.grid[y][x + 1] == '.' ==>
      TopCandidate(b, x, y) == Some((x, y - 1))
    ensures b.grid[y - 1][x] == '1' && x < Width - 1 && b.grid[y][x + 1] == '.' && b.grid[y - 1][x + 1] == '1' ==>
      TopCandidate(b, x, y) == Some((x, y - 2))
  {
  }

  /** check_top finds every legal slide downwards. */
  lemma TopCandidateComplete(b: Board, k: int)
    requires WellFormed(b) && LegalSlide(b, k, Down)
    ensures var e := EntryCell(b.pieces[k], Down);
      OnGrid(e.0, e.1) && b.grid[e.1][e.0] == '.' &&
      TopCandidate(b, e.0, e.1) == Some((b.pieces[k].x, b.pieces[k].y))
  {
    var p := b.pieces[k];
    EnteredEmpty(b, k, Down);
    var h := PieceHeight(p.kind);
    CoveredCell(b, k, p.x, p.y + h - 1);
    if p.kind == Goal {
      CoveredCell(b, k, p.x + 1, p.y + 1);
    }
    TopReads(b, p.x, p.y + h);
  }

  /** What check_bottom concludes from the glyphs below the empty cell
      (x, y) in the cases a legal upward slide of a piece other than the goal
      piece produces. */
  lemma BottomReads(b: Board, x: int, y: int)
    requires WellFormed(b) && OnGrid(x, y) && b.grid[y][x] == '.' && y < Height - 1
    ensures b.grid[y + 1][x] == '2' ==> BottomCandidate(b, x, y) == Some((x, y + 1))
    ensures b.grid[y + 1][x] == '^' ==> BottomCandidate(b, x, y) == Some((x, y + 1))
    ensures b.grid[y + 1][x] == '<' && x < Width - 1 && b.grid[y][x + 1] == '.' ==>
      BottomCandidate(b, x, y) == Some((x, y + 1))
  {
  }

  /** check_bottom finds every legal upward slide of a piece other than the
      goal piece. */
  lemma BottomCandidateComplete(b: Board, k: int)
    requires WellFormed(b) && LegalSlide(b, k, Up) && b.pieces[k].kind != Goal
    ensures var e := EntryCell(b.pieces[k], Up);
      OnGrid(e.0, e.1) && b.grid[e.1][e.0] == '.' &&
      BottomCandidate(b, e.0, e.1) == Some((b.pieces[k].x, b.pieces[k].y))
  {
    var p := b.pieces[k];
    EnteredEmpty(b, k, Up);
    CoveredCell(b, k, p.x, p.y);
    BottomReads(b, p.x, p.y - 1);
  }

  /** The check for direction d, from the empty cell sq. */
  function CheckFor(d: Dir, sq: (int, int), s: State, hash: Board -> int): Option<State>
    requires WellFormed(s.board) && OnGrid(sq.0, sq.1) && s.board.grid[sq.1][sq.0] == '.'
  {
    match d
    case Right => CheckLeft(sq, s, hash)
    case Left => CheckRight(sq, s, hash)
    case Down => CheckTop(sq, s, hash)
    case Up => CheckBottom(sq, s, hash)
  }

  /** Started from the cell a legal slide enters first, the check of its
      direction produces exactly that slide, except an upward slide of the
      goal piece. */
  lemma CheckFindsSlide(s: State, k: int, d: Dir, hash: Board -> int)
    requires WellFormed(s.board) && LegalSlide(s.board, k, d)
    requires !(d == Up && s.board.pieces[k].kind == Goal)
    ensures InBounds(s.board.pieces[k])
    ensures var e := EntryCell(s.board.pieces[k], d);
      && OnGrid(e.0, e.1) && s.board.grid[e.1][e.0] == '.'
      && CheckFor(d, e, s, hash).Some?
      && CheckFor(d, e, s, hash).value.board == Move(s.board, s.board.pieces[k], d)
  {
    var b := s.board;
    FirstAtOwner(b, k);
    ChildOfSlide(s, k, d, hash);
    var p := b.pieces[k];
    var e := EntryCell(p, d);
    match d {
      case Right =>
        LeftCandidateComplete(b, k);
        assert CheckLeft(e, s, hash) == Slide(s, (p.x, p.y), Right, hash);
      case Left =>
        RightCandidateComplete(b, k);
        assert CheckRight(e, s, hash) == Slide(s, (p.x, p.y), Left, hash);
      case Down =>
        TopCandidateComplete(b, k);
        assert CheckTop(e, s, hash) == Slide(s, (p.x, p.y), Down, hash);
      case Up =>
        BottomCandidateComplete(b, k);
        assert CheckBottom(e, s, hash) == Slide(s, (p.x, p.y), Up, hash);
    }
  }

  lemma CheckInChecksAt(s: State, sq: (int, int), d: Dir, hash: Board -> int)
    requires WellFormed(s.board) && OnGrid(sq.0, sq.1) && s.board.grid[sq.1][sq.0] == '.'
    ensures CheckFor(d, sq, s, hash) in ChecksAt(sq, s, hash)
  {
    var r := ChecksAt(sq, s, hash);
    match d {
      case Right => assert r[0] == CheckFor(d, sq, s, hash);
      case Left => assert r[1] == CheckFor(d, sq, s, hash);
      case Down => assert r[2] == CheckFor(d, sq, s, hash);
      case Up => assert r[3] == CheckFor(d, sq, s, hash);
    }
  }

  /** Whatever a check produces from either empty cell survives, up to its
      grid, into the successor list. */
  lemma CheckInSuccessors(s: State, sq: (int, int), d: Dir, hash: Board -> int)
    requires WellFormed(s.board)
    requires sq == LocateEmptySquares(s.board).0 || sq == LocateEmptySquares(s.board).1
    requires CheckFor(d, sq, s, hash).Some?
    ensures HasGrid(GenerateSuccessors(s, hash), CheckFor(d, sq, s, hash).value.board.grid)
  {
    var squares := LocateEmptySquares(s.board);
    var all := ChecksAt(squares.0, s, hash) + ChecksAt(squares.1, s, hash);
    var o := CheckFor(d, sq, s, hash);
    CheckInChecksAt(s, sq, d, hash);
    assert o in all;
    var somes := Somes(all);
    assert o.value in somes;
    var i :| 0 <= i < |somes| && somes[i] == o.value;
  }

  /** Every legal slide on the board, except an upward slide of the goal
      piece, shows up among the successors: some successor has the grid that
      slide produces. */
  lemma GenerateSuccessorsComplete(s: State, k: int, d: Dir, hash: Board -> int)
    requires WellFormed(s.board) && LegalSlide(s.board, k, d)
    requires !(d == Up && s.board.pieces[k].kind == Goal)
    ensures InBounds(s.board.pieces[k])
    ensures HasGrid(GenerateSuccessors(s, hash), Move(s.board, s.board.pieces[k], d).grid)
  {
    CheckFindsSlide(s, k, d, hash);
    var e := EntryIsSquare(s.board, k, d);
    CheckInSuccessors(s, e, d, hash);
  }

  /** The entry cell of a legal slide is one of the two empty cells. */
  lemma EntryIsSquare(b: Board, k: int, d: Dir) returns (e: (int, int))
    requires WellFormed(b) && LegalSlide(b, k, d)
    ensures e == EntryCell(b.pieces[k], d)
    ensures e == LocateEmptySquares(b).0 || e == LocateEmptySquares(b).1
  {
    e := EntryCell(b.pieces[k], d);
    EntryCellEmpty(b, k, d);
    EmptyIsSquare(b, e);
  }

  /** Every empty cell of a well-formed board is one of the two squares
      locate_empty_squares reports. */
  lemma EmptyIsSquare(b: Board, c: (int, int))
    requires WellFormed(b) && OnGrid(c.0, c.1) && b.grid[c.1][c.0] == '.'
    ensures c == LocateEmptySquares(b).0 || c == LocateEmptySquares(b).1
  {
    var squares := LocateEmptySquares(b);
    EmptySetMember(b.grid, c.0, c.1);
    InPair(EmptySet(b.grid), squares.0, squares.1, c);
  }

  lemma InPair<T>(s: set<T>, a: T, b: T, c: T)
    requires s == {a, b} && c in s
    ensures c == a || c == b
  {
  }
}

/** Successor generation for one side (checkers.py:148-166, 192-214,
    304-322, 348-370, 406-518).

    Every piece of the side to move contributes either its jump results
    (flag 1) or, when it has none, its simple moves (flag 0); the side's
    successors are the jump results of all pieces when any piece can jump,
    and the simple moves otherwise (mandatory capture). */
module CheckersSuccessors {

  import opened Maybe
  import opened Grid
  import opened CheckersBoard
  import opened CheckersMoves

  /** A checkers search state: the board, the number of moves from the root
      and the state it was generated from. */
  datatype State = State(board: Board, depth: int, parent: Option<State>)

  /** The directions a piece moves in, in the order the source tries them:
      a red man up-left then up-right, a black man down-left then
      down-right, a king up before down. */
  function MoverDirs(piece: char): (r: seq<Diag>)
    ensures forall d :: d in r ==> Moves(piece, d)
  {
    if piece == 'r' then [LeftUp, RightUp]
    else if piece == 'b' then [LeftDown, RightDown]
    else if piece == 'R' || piece == 'B' then [LeftUp, RightUp, LeftDown, RightDown]
    else []
  }

  /** generate_red_piece_jumps, generate_black_piece_jumps and
      generate_king_jumps (checkers.py:148-166, 304-322, 406-439): each
      direction in turn is tried on the original board, and when a jump is
      found the chain that follows it is one result; the coordinates then
      move to the landing square and the next direction is tried from
      there, still on the original board. */
  function JumpSeries(b: Board, x: int, y: int, piece: char, dirs: seq<Diag>, chain: seq<Diag>): (r: seq<Board>)
    requires IsBoard(b) && OnBoard(x, y) && piece in Red + Black
    requires forall d :: d in dirs ==> Moves(piece, d)
    requires forall d :: d in chain ==> Moves(piece, d)
    ensures |r| <= |dirs|
    ensures |r| > 0 <==> exists d :: d in dirs && CanJump(b, x, y, piece, d)
    ensures forall t :: t in r ==> IsBoard(t) && Count(t, Foe(piece)) < Count(b, Foe(piece))
    decreases |dirs|
  {
    if |dirs| == 0 then []
    else
      var d := dirs[0];
      assert forall e :: e in dirs <==> e == d || e in dirs[1..];
      if CanJump(b, x, y, piece, d) then
        var lx, ly := x + 2 * Dx(d), y + 2 * Dy(d);
        JumpCaptures(b, x, y, piece, d);
        var t := Chain(Jump(b, x, y, piece, d), lx, ly, piece, chain).0;
        [t] + JumpSeries(b, lx, ly, piece, dirs[1..], chain)
      else
        JumpSeries(b, x, y, piece, dirs[1..], chain)
  }

  /** generate_{red,black}_piece_simple_moves (checkers.py:192-203,
      348-359): one result per direction whose diagonal neighbour is an
      empty square on the board. */
  function SimpleMoves(b: Board, x: int, y: int, piece: char, dirs: seq<Diag>): (r: seq<Board>)
    requires IsBoard(b) && OnBoard(x, y) && b[y][x] == piece
    requires forall d :: d in dirs ==> Moves(piece, d)
    ensures |r| <= |dirs|
    ensures |r| > 0 <==> exists d :: d in dirs && CanStep(b, x, y, d)
    ensures forall t :: t in r ==> IsBoard(t) && Count(t, Red) == Count(b, Red) && Count(t, Black) == Count(b, Black)
    decreases |dirs|
  {
    if |dirs| == 0 then []
    else
      var d := dirs[0];
      assert forall e :: e in dirs <==> e == d || e in dirs[1..];
      var rest := SimpleMoves(b, x, y, piece, dirs[1..]);
      if CanStep(b, x, y, d) then
        StepKeepsCounts(b, x, y, piece, d);
        [Step(b, x, y, piece, d)] + rest
      else rest
  }

  /** Some direction lets the piece on (x, y) jump / step. */
  predicate HasJump(b: Board, x: int, y: int)
    requires IsBoard(b) && OnBoard(x, y)
  {
    exists d :: d in MoverDirs(b[y][x]) && CanJump(b, x, y, b[y][x], d)
  }

  predicate HasStep(b: Board, x: int, y: int)
    requires IsBoard(b) && OnBoard(x, y)
  {
    exists d :: d in MoverDirs(b[y][x]) && CanStep(b, x, y, d)
  }

  /** The per-piece mandatory-capture contract of move_red_piece,
      move_black_piece and move_king: flag 1 with the jump results exactly
      when the piece has a jump, each of them capturing; flag 0 with the
      simple moves otherwise, each keeping both piece counts. */
  ghost predicate PieceMoves(b: Board, x: int, y: int, r: (seq<Board>, int))
    requires IsBoard(b) && OnBoard(x, y) && b[y][x] in Red + Black
  {
    && (r.1 == 1 || r.1 == 0)
    && (r.1 == 1 <==> HasJump(b, x, y))
    && (r.1 == 1 ==> |r.0| > 0 && forall t :: t in r.0 ==> IsBoard(t) && Count(t, Foe(b[y][x])) < Count(b, Foe(b[y][x])))
    && (r.1 == 0 ==> (|r.0| > 0 <==> HasStep(b, x, y)))
    && (r.1 == 0 ==> forall t :: t in r.0 ==> IsBoard(t) && Count(t, Red) == Count(b, Red) && Count(t, Black) == Count(b, Black))
  }

  /** move_red_piece (checkers.py:208-214). */
  function MoveRedPiece(b: Board, x: int, y: int): (r: (seq<Board>, int))
    requires IsBoard(b) && OnBoard(x, y) && b[y][x] == 'r'
    ensures PieceMoves(b, x, y, r)
  {
    var jumps := JumpSeries(b, x, y, 'r', [LeftUp, RightUp], [LeftUp, RightUp]);
    if |jumps| > 0 then (jumps, 1)
    else (SimpleMoves(b, x, y, 'r', [LeftUp, RightUp]), 0)
  }

  /** move_black_piece (checkers.py:363-370). */
  function MoveBlackPiece(b: Board, x: int, y: int): (r: (seq<Board>, int))
    requires IsBoard(b) && OnBoard(x, y) && b[y][x] == 'b'
    ensures PieceMoves(b, x, y, r)
  {
    var jumps := JumpSeries(b, x, y, 'b', [LeftDown, RightDown], [LeftDown, RightDown]);
    if |jumps| > 0 then (jumps, 1)
    else (SimpleMoves(b, x, y, 'b', [LeftDown, RightDown]), 0)
  }

  /** move_king (checkers.py:443-453): the king's jumps in all four
      directions, or else its upward simple moves followed by its downward
      ones. */
  function MoveKing(b: Board, x: int, y: int): (r: (seq<Board>, int))
    requires IsBoard(b) && OnBoard(x, y) && (b[y][x] == 'R' || b[y][x] == 'B')
    ensures PieceMoves(b, x, y, r)
  {
    var p := b[y][x];
    var all := [LeftUp, RightUp] + [LeftDown, RightDown];
    KingDirs(p);
    var jumps := JumpSeries(b, x, y, p, all, all);
    if |jumps| > 0 then (jumps, 1)
    else (KingSimpleMoves(b, x, y), 0)
  }

  /** The simple moves of a king: generate_red_piece_simple_moves followed
      by generate_black_piece_simple_moves (checkers.py:450-451). */
  function KingSimpleMoves(b: Board, x: int, y: int): (r: seq<Board>)
    requires IsBoard(b) && OnBoard(x, y) && (b[y][x] == 'R' || b[y][x] == 'B')
    ensures |r| > 0 <==> HasStep(b, x, y)
    ensures forall t :: t in r ==> IsBoard(t) && Count(t, Red) == Count(b, Red) && Count(t, Black) == Count(b, Black)
  {
    var p := b[y][x];
    var up := SimpleMoves(b, x, y, p, [LeftUp, RightUp]);
    var down := SimpleMoves(b, x, y, p, [LeftDown, RightDown]);
    KingDirs(p);
    StepSplit(b, x, y, [LeftUp, RightUp], [LeftDown, RightDown]);
    up + down
  }

  lemma KingDirs(p: char)
    requires p == 'R' || p == 'B'
    ensures MoverDirs(p) == [LeftUp, RightUp] + [LeftDown, RightDown]
  {
  }

  lemma StepSplit(b: Board, x: int, y: int, ds: seq<Diag>, es: seq<Diag>)
    requires IsBoard(b)
    ensures (exists d :: d in ds + es && CanStep(b, x, y, d)) <==>
            (exists d :: d in ds && CanStep(b, x, y, d)) || (exists d :: d in es && CanStep(b, x, y, d))
  {
    assert forall d :: d in ds + es <==> d in ds || d in es;
  }

  /** The results of the piece on (x, y), by the helper the source calls
      for its symbol. */
  function PieceResults(b: Board, x: int, y: int): (r: (seq<Board>, int))
    requires IsBoard(b) && OnBoard(x, y) && b[y][x] in Red + Black
    ensures PieceMoves(b, x, y, r)
  {
    var p := b[y][x];
    if p == 'r' then MoveRedPiece(b, x, y)
    else if p == 'b' then MoveBlackPiece(b, x, y)
    else MoveKing(b, x, y)
  }

  /** The colour the side to move on turn `player` captures. */
  function Opp(player: char): set<char> {
    if player == 'r' then Black else Red
  }

  /** Square number m in row-major order: column m % 8 of row m / 8. */
  function Col(m: int): int { m % Size }
  function Row(m: int): int { m / Size }

  /** Square m holds a piece of the side to move that can jump. */
  predicate SideJump(b: Board, player: char, m: int)
    requires IsBoard(b)
  {
    0 <= m < Size * Size && b[Row(m)][Col(m)] in Side(player) && HasJump(b, Col(m), Row(m))
  }

  /** Square m holds a piece of the side to move that cannot jump but can
      step. */
  predicate SideStep(b: Board, player: char, m: int)
    requires IsBoard(b)
  {
    0 <= m < Size * Size && b[Row(m)][Col(m)] in Side(player) && !HasJump(b, Col(m), Row(m)) && HasStep(b, Col(m), Row(m))
  }

  /** The two lists generate_red_moves / generate_black_moves
      (checkers.py:457-504) accumulate over the first n squares in row-major
      order: the jump results of every piece that can jump, and the simple
      moves of every piece that cannot. Every jump result captures, every
      simple move keeps both counts. */
  function Collect(b: Board, player: char, n: nat): (r: (seq<Board>, seq<Board>))
    requires IsBoard(b) && n <= Size * Size
    ensures forall t :: t in r.0 ==> IsBoard(t) && Count(t, Opp(player)) < Count(b, Opp(player))
    ensures forall t :: t in r.1 ==> IsBoard(t) && Count(t, Red) == Count(b, Red) && Count(t, Black) == Count(b, Black)
  {
    if n == 0 then ([], [])
    else
      var rest := Collect(b, player, n - 1);
      var x, y := Col(n - 1), Row(n - 1);
      if b[y][x] in Side(player) then
        var pr := PieceResults(b, x, y);
        assert Foe(b[y][x]) == Opp(player);
        if pr.1 == 1 then (rest.0 + pr.0, rest.1) else (rest.0, rest.1 + pr.0)
      else rest
  }

  /** The jump list is non-empty exactly when one of the first n squares
      holds a piece of the side that can jump, and the simple-move list
      exactly when one holds a piece that cannot jump but can step. */
  lemma {:induction false} CollectNonEmpty(b: Board, player: char, n: nat)
    requires IsBoard(b) && n <= Size * Size
    ensures |Collect(b, player, n).0| > 0 <==> JumpsBelow(b, player, n)
    ensures |Collect(b, player, n).1| > 0 <==> StepsBelow(b, player, n)
  {
    if n > 0 {
      CollectNonEmpty(b, player, n - 1);
      LastSquare(b, player, n);
      SquareAdds(b, player, n);
    }
  }

  /** Square n - 1 adds to the jump list exactly when its piece can jump,
      and to the simple-move list exactly when it cannot jump but can step. */
  lemma SquareAdds(b: Board, player: char, n: nat)
    requires IsBoard(b) && 0 < n <= Size * Size
    ensures |Collect(b, player, n).0| > 0 <==> |Collect(b, player, n - 1).0| > 0 || SideJump(b, player, n - 1)
    ensures |Collect(b, player, n).1| > 0 <==> |Collect(b, player, n - 1).1| > 0 || SideStep(b, player, n - 1)
  {
    var x, y := Col(n - 1), Row(n - 1);
    if b[y][x] in Side(player) {
      var pr := PieceResults(b, x, y);
      assert pr.1 == 1 <==> HasJump(b, x, y);
    }
  }

  /** The squares below n are those below n - 1 and square n - 1 itself. */
  lemma LastSquare(b: Board, player: char, n: nat)
    requires IsBoard(b) && 0 < n <= Size * Size
    ensures JumpsBelow(b, player, n) <==> JumpsBelow(b, player, n - 1) || SideJump(b, player, n - 1)
    ensures StepsBelow(b, player, n) <==> StepsBelow(b, player, n - 1) || SideStep(b, player, n - 1)
  {
  }

  /** One of the first n squares holds a piece of the side that can jump. */
  predicate JumpsBelow(b: Board, player: char, n: int)
    requires IsBoard(b)
  {
    exists m :: 0 <= m < n && SideJump(b, player, m)
  }

  /** One of the first n squares holds a piece of the side that cannot jump
      but can step. */
  predicate StepsBelow(b: Board, player: char, n: int)
    requires IsBoard(b)
  {
    exists m :: 0 <= m < n && SideStep(b, player, m)
  }

  /** Some piece of the side to move can capture. */
  predicate CanCapture(b: Board, player: char)
    requires IsBoard(b)
  {
    JumpsBelow(b, player, Size * Size)
  }

  /** No piece of the side to move can jump or step. */
  predicate Blocked(b: Board, player: char)
    requires IsBoard(b)
  {
    forall m :: 0 <= m < Size * Size && b[Row(m)][Col(m)] in Side(player) ==>
      !HasJump(b, Col(m), Row(m)) && !HasStep(b, Col(m), Row(m))
  }

  /** generate_red_moves / generate_black_moves (checkers.py:457-504), as
      chosen by generate_successors (checkers.py:510-518): the jump results
      when any piece can jump, the simple moves otherwise. Capturing is
      mandatory: when a capture exists every successor has fewer opposing
      pieces, and otherwise every successor keeps both counts; there is no
      successor exactly when the side is blocked. */
  function GenerateMoves(b: Board, player: char): (r: seq<Board>)
    requires IsBoard(b)
    ensures CanCapture(b, player) ==> forall t :: t in r ==> IsBoard(t) && Count(t, Opp(player)) < Count(b, Opp(player))
    ensures !CanCapture(b, player) ==>
              forall t :: t in r ==> IsBoard(t) && Count(t, Red) == Count(b, Red) && Count(t, Black) == Count(b, Black)
    ensures |r| == 0 <==> Blocked(b, player)
  {
    var lists := Collect(b, player, Size * Size);
    CollectNonEmpty(b, player, Size * Size);
    BlockedIff(b, player);
    if |lists.0| > 0 then lists.0 else lists.1
  }

  lemma BlockedIff(b: Board, player: char)
    requires IsBoard(b)
    ensures Blocked(b, player) <==> !JumpsBelow(b, player, Size * Size) && !StepsBelow(b, player, Size * Size)
  {
    if !Blocked(b, player) {
      var m :| 0 <= m < Size * Size && b[Row(m)][Col(m)] in Side(player) &&
               !(!HasJump(b, Col(m), Row(m)) && !HasStep(b, Col(m), Row(m)));
      assert SideJump(b, player, m) || SideStep(b, player, m);
    }
  }

  /** generate_successors (checkers.py:510-518): one state per generated
      board, in order, each one move deeper than s with parent s. Capturing
      is mandatory at the level of states too: when a capture exists every
      successor has fewer opposing pieces, otherwise every successor keeps
      both counts, and there is no successor exactly when the side is
      blocked. */
  function GenerateSuccessors(s: State, player: char): (r: seq<State>)
    requires IsBoard(s.board)
    ensures |r| == |GenerateMoves(s.board, player)|
    ensures forall i :: 0 <= i < |r| ==> r[i].board == GenerateMoves(s.board, player)[i]
    ensures forall t :: t in r ==> IsBoard(t.board) && t.parent == Some(s) && t.depth == s.depth + 1
    ensures CanCapture(s.board, player) ==>
              forall t :: t in r ==> Count(t.board, Opp(player)) < Count(s.board, Opp(player))
    ensures !CanCapture(s.board, player) ==>
              forall t :: t in r ==> Count(t.board, Red) == Count(s.board, Red) && Count(t.board, Black) == Count(s.board, Black)
    ensures |r| == 0 <==> Blocked(s.board, player)
  {
    var moves := GenerateMoves(s.board, player);
    seq(|moves|, i requires 0 <= i < |moves| => State(moves[i], s.depth + 1, Some(s)))
  }
}

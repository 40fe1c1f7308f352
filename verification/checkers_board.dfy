/** The checkers board and the two sides (checkers.py, State, get_opp_char,
    get_next_turn).

    A board is an 8x8 grid of the symbols 'r' (red man), 'R' (red king), 'b'
    (black man), 'B' (black king) and '.' (empty square); board[y][x] is the
    square in column x of row y. Red men move up (towards row 0), black men
    move down (towards row 7), kings move both ways. */
module CheckersBoard {

  import opened Grid

  type Board = Grid

  const Size := 8

  const Red: set<char> := {'r', 'R'}
  const Black: set<char> := {'b', 'B'}

  predicate IsBoard(b: Board) {
    IsRect(b, Size, Size)
  }

  predicate OnBoard(x: int, y: int) {
    0 <= x < Size && 0 <= y < Size
  }

  /** get_next_turn (checkers.py:46-50): 'r' hands the turn to 'b', anything
      else hands it to 'r'. */
  function NextTurn(turn: char): (r: char)
    ensures r == 'r' || r == 'b'
    ensures turn in {'r', 'b'} ==> r != turn
  {
    if turn == 'r' then 'b' else 'r'
  }

  /** Passing the turn twice gives it back to the side that had it. */
  lemma NextTurnInvolution(turn: char)
    requires turn == 'r' || turn == 'b'
    ensures NextTurn(NextTurn(turn)) == turn
  {
  }

  /** The pieces of the side that moves on turn `player`: red for 'r', black
      for any other symbol (the branch of generate_successors). */
  function Side(player: char): set<char> {
    if player == 'r' then Red else Black
  }

  /** get_opp_char (checkers.py:39-43): the man and king symbols of the
      other colour. */
  function OppChars(piece: char): (r: seq<char>)
    ensures |r| == 2
  {
    if piece in ['b', 'B'] then ['r', 'R'] else ['b', 'B']
  }

  /** For any piece symbol, get_opp_char names exactly the other colour's
      pieces, man first. */
  lemma OppCharsOtherColour(piece: char)
    requires piece in Red + Black
    ensures (set c | c in OppChars(piece)) == if piece in Red then Black else Red
    ensures OppChars(piece)[0] in {'r', 'b'}
  {
    var r := OppChars(piece);
    assert (set c | c in r) == {r[0], r[1]};
  }
}

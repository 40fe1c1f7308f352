/** Scoring checkers boards for the search (checkers.py, utility_function and
    evaluation_function).

    Scores may be infinite (the source uses numpy's infinities), so they are
    extended integers. */
module CheckersEval {

  import opened Grid
  import opened CheckersBoard
  import opened CheckersSuccessors

  datatype ExtInt = NegInf | Fin(n: int) | PosInf

  /** The order of the extended integers: NegInf below every integer, PosInf
      above. */
  predicate Le(a: ExtInt, b: ExtInt) {
    match (a, b)
    case (NegInf, _) => true
    case (_, PosInf) => true
    case (Fin(x), Fin(y)) => x <= y
    case _ => false
  }

  function Max(a: ExtInt, b: ExtInt): (r: ExtInt)
    ensures (r == a || r == b) && Le(a, r) && Le(b, r)
  {
    if Le(a, b) then b else a
  }

  function Min(a: ExtInt, b: ExtInt): (r: ExtInt)
    ensures (r == a || r == b) && Le(r, a) && Le(r, b)
  {
    if Le(a, b) then a else b
  }

  /** Le is a total order. */
  lemma LeTotalOrder(a: ExtInt, b: ExtInt, c: ExtInt)
    ensures Le(a, a)
    ensures Le(a, b) && Le(b, a) ==> a == b
    ensures Le(a, b) && Le(b, c) ==> Le(a, c)
    ensures Le(a, b) || Le(b, a)
  {
  }

  /** The material of one colour: men count one, kings two. */
  function Material(b: Board, man: char, king: char): nat {
    Count(b, {man}) + 2 * Count(b, {king})
  }

  /** evaluation_function (checkers.py:558-581): the material of the player's
      colour minus the opponent's, red's for 'r' and black's for any other
      symbol. */
  function Evaluation(b: Board, player: char): int {
    var red := Material(b, 'r', 'R');
    var black := Material(b, 'b', 'B');
    if player == 'r' then red - black else black - red
  }

  /** The evaluation is zero-sum: what red gains black loses. */
  lemma EvaluationZeroSum(b: Board, player: char)
    ensures Evaluation(b, 'r') == -Evaluation(b, 'b')
    ensures player != 'r' ==> Evaluation(b, player) == Evaluation(b, 'b')
  {
  }

  /** Crowning a red man adds one to red's evaluation: a king is worth two
      men. */
  lemma CrowningGain(b: Board, x: int, y: int)
    requires IsBoard(b) && OnBoard(x, y) && b[y][x] == 'r'
    ensures Evaluation(Set(b, x, y, 'R'), 'r') == Evaluation(b, 'r') + 1
    ensures Evaluation(Set(b, x, y, 'R'), 'b') == Evaluation(b, 'b') - 1
  {
    CountSet(b, x, y, 'R', {'r'});
    CountSet(b, x, y, 'R', {'R'});
    CountSet(b, x, y, 'R', {'b'});
    CountSet(b, x, y, 'R', {'B'});
  }

  /** Removing a black piece raises red's evaluation by its worth: one for a
      man, two for a king. */
  lemma CaptureGain(b: Board, x: int, y: int)
    requires IsBoard(b) && OnBoard(x, y) && b[y][x] in Black
    ensures Evaluation(Set(b, x, y, '.'), 'r') == Evaluation(b, 'r') + (if b[y][x] == 'B' then 2 else 1)
  {
    CountSet(b, x, y, '.', {'r'});
    CountSet(b, x, y, '.', {'R'});
    CountSet(b, x, y, '.', {'b'});
    CountSet(b, x, y, '.', {'B'});
  }

  /** utility_function (checkers.py:524-553): for 'r', -inf when red has no
      piece and +inf when black has none; for 'b', +inf when red has no piece
      and -inf when black has none; otherwise -inf when the player has no
      move and 0 when it has one. */
  function Utility(b: Board, player: char): (r: ExtInt)
    requires IsBoard(b)
    ensures r == Fin(0) <==>
              (player == 'r' || player == 'b' ==> Count(b, Red) > 0 && Count(b, Black) > 0) && !Blocked(b, player)
    ensures r.PosInf? <==> (player == 'r' && Count(b, Red) > 0 && Count(b, Black) == 0) || (player == 'b' && Count(b, Red) == 0)
    ensures r == Fin(0) || r.NegInf? || r.PosInf?
  {
    var red := Count(b, Red);
    var black := Count(b, Black);
    if player == 'r' && red == 0 then NegInf
    else if player == 'r' && black == 0 then PosInf
    else if player == 'b' && red == 0 then PosInf
    else if player == 'b' && black == 0 then NegInf
    else if |GenerateMoves(b, player)| == 0 then NegInf
    else Fin(0)
  }

  /** A side with pieces of its own but none of the opponent's has won, on
      either colour: the utility is +inf. */
  lemma UtilityWin(b: Board, player: char)
    requires IsBoard(b) && (player == 'r' || player == 'b')
    requires Count(b, Side(player)) > 0 && Count(b, Opp(player)) == 0
    ensures Utility(b, player) == PosInf
  {
  }
}

/** Search states of the Hua Rong Dao solver (hrd.py, class State, goal_test,
    heuristic_function, get_solution).

    A state wraps a board with its f value, its depth in the search tree, a
    link to the state it was generated from and an id used to break ties
    between equal f values. */
module HrdState {

  import opened Maybe
  import opened HrdBoard

  /** The source computes `id` as hash(board), the identity hash of the board
      object; here it is whatever value the caller supplies. */
  datatype State = State(board: Board, f: int, depth: int, parent: Option<State>, id: int)

  /** State.__lt__ (hrd.py:131-134): by f value, ties broken by id. */
  predicate Less(a: State, b: State) {
    if a.f == b.f then a.id < b.id else a.f < b.f
  }

  /** Less is the lexicographic order on (f, id): a strict order that relates
      any two states whose keys differ. */
  lemma LessIsLexicographic(a: State, b: State, c: State)
    ensures Less(a, b) <==> a.f < b.f || (a.f == b.f && a.id < b.id)
    ensures !Less(a, a)
    ensures Less(a, b) ==> !Less(b, a)
    ensures Less(a, b) && Less(b, c) ==> Less(a, c)
    ensures Less(a, b) || Less(b, a) || (a.f == b.f && a.id == b.id)
  {
  }

  function Abs(n: int): nat {
    if n < 0 then -n else n
  }

  /** The position of the first goal piece of the list (the loop of
      heuristic_function stops at the first one), or |ps| when there is
      none. */
  function FirstGoal(ps: seq<Piece>): (k: nat)
    ensures k <= |ps|
    ensures k < |ps| ==> IsGoalAt(ps, k)
    ensures forall j :: 0 <= j < k ==> !IsGoalAt(ps, j)
    decreases |ps|
  {
    if |ps| == 0 then 0
    else if ps[0].kind == Goal then 0
    else
      assert forall j :: 0 < j < |ps| ==> IsGoalAt(ps, j) == IsGoalAt(ps[1..], j - 1);
      1 + FirstGoal(ps[1..])
  }

  predicate HasGoal(b: Board) {
    FirstGoal(b.pieces) < |b.pieces|
  }

  /** goal_test (hrd.py:177-190): some goal piece of the list has its top-left
      corner at column 1, row 3, the exit at the bottom centre. */
  function GoalTest(b: Board): (r: bool)
    ensures r <==> exists i :: IsGoalAt(b.pieces, i) && b.pieces[i].x == 1 && b.pieces[i].y == 3
  {
    GoalAmong(b.pieces)
  }

  function GoalAmong(ps: seq<Piece>): (r: bool)
    ensures r <==> exists i :: IsGoalAt(ps, i) && ps[i].x == 1 && ps[i].y == 3
    decreases |ps|
  {
    if |ps| == 0 then false
    else if ps[0].kind == Goal && ps[0].x == 1 && ps[0].y == 3 then
      assert IsGoalAt(ps, 0);
      true
    else
      var r := GoalAmong(ps[1..]);
      assert forall i :: 0 < i < |ps| ==> ps[i] == ps[1..][i - 1];
      assert r ==> exists i :: IsGoalAt(ps, i) && ps[i].x == 1 && ps[i].y == 3 by {
        if r {
          var i :| IsGoalAt(ps[1..], i) && ps[1..][i].x == 1 && ps[1..][i].y == 3;
          assert IsGoalAt(ps, i + 1);
        }
      }
      r
  }

  /** heuristic_function (hrd.py:193-202): the Manhattan distance from the
      first goal piece's top-left corner to the exit at (1, 3). */
  function Heuristic(b: Board): (h: nat)
    requires HasGoal(b)
    ensures h == 0 <==> b.pieces[FirstGoal(b.pieces)].x == 1 && b.pieces[FirstGoal(b.pieces)].y == 3
  {
    var g := b.pieces[FirstGoal(b.pieces)];
    Abs(g.x - 1) + Abs(g.y - 3)
  }

  /** With exactly one goal piece the heuristic is zero exactly on goal
      boards. */
  lemma HeuristicZeroIffGoal(b: Board)
    requires OneGoal(b.pieces)
    ensures HasGoal(b)
    ensures Heuristic(b) == 0 <==> GoalTest(b)
  {
    var k := FirstGoal(b.pieces);
    var i :| IsGoalAt(b.pieces, i);
    assert k <= i;
    if GoalTest(b) {
      var j :| IsGoalAt(b.pieces, j) && b.pieces[j].x == 1 && b.pieces[j].y == 3;
      assert j == k;
    }
  }

  /** The state generated for a successor board (the tail of every check_*
      function, e.g. hrd.py:312-315): the cost so far, g = f - h, grows by
      one, the depth grows by one, the parent is s, and the new f is the new
      cost plus the new board's heuristic. */
  function MakeChild(s: State, b: Board, hash: Board -> int): (t: State)
    requires HasGoal(s.board) && HasGoal(b)
    ensures t.board == b && t.parent == Some(s) && t.depth == s.depth + 1 && t.id == hash(b)
    ensures t.f - Heuristic(t.board) == (s.f - Heuristic(s.board)) + 1
  {
    var oldCost := s.f - Heuristic(s.board);
    var t := State(b, oldCost + 1, s.depth + 1, Some(s), hash(b));
    t.(f := t.f + Heuristic(b))
  }

  /** The parent chain of s read from its root down to s. */
  ghost function Ancestry(s: State): (r: seq<State>)
    ensures |r| >= 1 && r[|r| - 1] == s
    decreases s
  {
    match s.parent
    case None => [s]
    case Some(p) => Ancestry(p) + [s]
  }

  /** get_solution (hrd.py:642-657): the states from the root of the parent
      chain down to s. The source collects the chain from s upwards and then
      reverses it; prepending each state gives the same list, which is the
      ancestry of s. */
  method GetSolution(s: State) returns (r: seq<State>)
    ensures |r| >= 1
    ensures r[0].parent.None?
    ensures r[|r| - 1] == s
    ensures forall i :: 0 < i < |r| ==> r[i].parent == Some(r[i - 1])
    ensures r == Ancestry(s)
  {
    var cur := s;
    r := [];
    while cur.parent.Some?
      invariant r != [] ==> r[0].parent == Some(cur) && r[|r| - 1] == s
      invariant r == [] ==> cur == s
      invariant forall i :: 0 < i < |r| ==> r[i].parent == Some(r[i - 1])
      invariant Ancestry(s) == Ancestry(cur) + r
      decreases cur
    {
      r := [cur] + r;
      cur := cur.parent.value;
    }
    r := [cur] + r;
  }
}

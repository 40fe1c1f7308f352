/** The two search procedures of the Hua Rong Dao solver (hrd.py, dfs and
    astar): both keep a frontier of states and a set of explored grids, skip a
    popped state whose grid was explored already, stop at the first goal state
    they expand and otherwise push the successors whose grids are still
    unexplored. Depth-first search pops the most recently pushed state; A*
    pops a state of least (f, id). */
module HrdSearch {

  import opened Maybe
  import opened Grid
  import opened HrdBoard
  import opened HrdState
  import opened HrdCells
  import opened HrdSuccessors

  /** All sequences of length n over an alphabet. */
  ghost function Words<T(!new)>(alphabet: set<T>, n: nat): (r: set<seq<T>>)
    ensures forall w :: |w| == n && (forall i :: 0 <= i < n ==> w[i] in alphabet) ==> w in r
  {
    if n == 0 then {[]}
    else
      var shorter := Words(alphabet, n - 1);
      var r := set w, c | w in shorter && c in alphabet :: w + [c];
      assert forall w :: |w| == n && (forall i :: 0 <= i < n ==> w[i] in alphabet) ==> w in r by {
        forall w | |w| == n && (forall i :: 0 <= i < n ==> w[i] in alphabet)
          ensures w in r
        {
          assert w[..n - 1] in shorter;
          assert w == w[..n - 1] + [w[n - 1]];
        }
      }
      r
  }

  /** Every 5x4 grid of glyphs: a finite set holding the grid of every
      well-formed board, so the explored set cannot grow forever. */
  ghost function AllGrids(): set<Grid> {
    Words(Words(Glyphs, Width), Height)
  }

  lemma GridInAll(b: Board)
    requires WellFormed(b)
    ensures b.grid in AllGrids()
  {
    forall cy | 0 <= cy < Height
      ensures b.grid[cy] in Words(Glyphs, Width)
    {
      forall cx | 0 <= cx < Width
        ensures b.grid[cy][cx] in Glyphs
      {
        CellGlyph(b, cx, cy);
      }
    }
  }

  /** A finite set holding the grid of every well-formed board. */
  lemma GridUniverse() returns (u: set<Grid>)
    ensures forall b :: WellFormed(b) ==> b.grid in u
  {
    u := AllGrids();
    forall b | WellFormed(b)
      ensures b.grid in u
    {
      GridInAll(b);
    }
  }

  /** t is s or is reached from s by a chain of successor states, each the
      parent of the next. */
  ghost predicate Descends(s: State, t: State, hash: Board -> int)
    decreases t
  {
    t == s || (t.parent.Some? && IsChild(t.parent.value, t, hash) && Descends(s, t.parent.value, hash))
  }

  /** From position j on, each state of the path is a successor of the one
      before it. */
  ghost predicate ChildChain(path: seq<State>, j: int, hash: Board -> int) {
    forall i :: 0 <= j < i < |path| ==> IsChild(path[i - 1], path[i], hash)
  }

  /** A solution from s: a path through s whose part after s is a chain of
      successor states ending in a goal board. */
  ghost predicate SolutionFrom(s: State, path: seq<State>, hash: Board -> int) {
    && |path| >= 1
    && GoalTest(path[|path| - 1].board)
    && exists j :: 0 <= j < |path| && path[j] == s && ChildChain(path, j, hash)
  }

  /** One step back along Descends: a descendant other than s is a successor
      of its parent, which descends from s. */
  lemma DescendsStep(s: State, t: State, hash: Board -> int)
    requires Descends(s, t, hash) && t != s
    ensures t.parent.Some? && IsChild(t.parent.value, t, hash) && Descends(s, t.parent.value, hash)
  {
  }

  /** Walking the parent chain back from a descendant of s reaches s, and
      every step walked is a successor step. */
  lemma {:induction false} ChainBack(s: State, t: State, hash: Board -> int) returns (j: int)
    requires Descends(s, t, hash)
    ensures 0 <= j < |Ancestry(t)| && Ancestry(t)[j] == s
    ensures forall i :: j < i < |Ancestry(t)| ==> IsChild(Ancestry(t)[i - 1], Ancestry(t)[i], hash)
    decreases t
  {
    if t == s {
      j := |Ancestry(t)| - 1;
    } else {
      DescendsStep(s, t, hash);
      var p := t.parent.value;
      var a := Ancestry(p);
      j := ChainBack(s, p, hash);
      assert Ancestry(t) == a + [t];
      forall i | j < i < |a| + 1
        ensures IsChild((a + [t])[i - 1], (a + [t])[i], hash)
      {
        if i == |a| {
          assert (a + [t])[i - 1] == p && (a + [t])[i] == t;
        } else {
          assert (a + [t])[i - 1] == a[i - 1] && (a + [t])[i] == a[i];
        }
      }
    }
  }

  /** get_solution applied to a goal state descending from s gives a solution
      from s. */
  method Solution(s: State, t: State, hash: Board -> int) returns (path: seq<State>)
    requires Descends(s, t, hash) && GoalTest(t.board)
    ensures |path| >= 1 && path[|path| - 1] == t && SolutionFrom(s, path, hash)
    ensures path == Ancestry(t)
  {
    path := GetSolution(t);
    ghost var j := ChainBack(s, t, hash);
    assert ChildChain(path, j, hash);
  }

  /** The successors still worth pushing: those whose grid is unexplored, in
      order (the inner loops of dfs and astar, hrd.py:685-689 and 729-734). */
  function Unexplored(ss: seq<State>, explored: set<Grid>): (r: seq<State>)
    ensures forall t :: t in r <==> t in ss && t.board.grid !in explored
    ensures |r| <= |ss|
    decreases |ss|
  {
    if |ss| == 0 then []
    else
      var rest := Unexplored(ss[1..], explored);
      assert forall t :: t in ss <==> t == ss[0] || t in ss[1..];
      if ss[0].board.grid !in explored then [ss[0]] + rest else rest
  }

  /** What both searches keep of their frontier: well-formed states that
      descend from the start. */
  ghost predicate FrontierOk(s: State, frontier: seq<State>, hash: Board -> int) {
    forall t :: t in frontier ==> WellFormed(t.board) && Descends(s, t, hash)
  }

  lemma PushOk(s: State, t: State, frontier: seq<State>, explored: set<Grid>, hash: Board -> int)
    requires WellFormed(t.board) && Descends(s, t, hash) && FrontierOk(s, frontier, hash)
    ensures FrontierOk(s, frontier + Unexplored(GenerateSuccessors(t, hash), explored), hash)
  {
    var succ := GenerateSuccessors(t, hash);
    forall u | u in Unexplored(succ, explored)
      ensures WellFormed(u.board) && Descends(s, u, hash)
    {
      assert IsChild(t, u, hash);
    }
  }

  /** The states of the parent chain from s down to t; just t when t is s or
      has no parent. */
  ghost function LineFrom(s: State, t: State): (r: seq<State>)
    ensures |r| >= 1 && r[|r| - 1] == t
    decreases t
  {
    if t == s || t.parent.None? then [t] else LineFrom(s, t.parent.value) + [t]
  }

  /** No two states of the list show the same grid. */
  ghost predicate DistinctGrids(ss: seq<State>) {
    forall i, j :: 0 <= i < j < |ss| ==> ss[i].board.grid != ss[j].board.grid
  }

  /** The path passes through s and shows no grid twice from s on. */
  ghost predicate NoRepeatFrom(s: State, path: seq<State>) {
    exists j :: 0 <= j < |path| && path[j] == s && DistinctGrids(path[j..])
  }

  /** t is s or s lies on the parent chain of t. */
  ghost predicate Linked(s: State, t: State)
    decreases t
  {
    t == s || (t.parent.Some? && Linked(s, t.parent.value))
  }

  lemma {:induction false} DescendsLinked(s: State, t: State, hash: Board -> int)
    requires Descends(s, t, hash)
    ensures Linked(s, t)
    decreases t
  {
    if t != s {
      DescendsLinked(s, t.parent.value, hash);
    }
  }

  /** A state linked to s has a longer parent chain than s, unless it is s. */
  lemma {:induction false} LinkedDeeper(s: State, t: State)
    requires Linked(s, t)
    ensures t == s || |Ancestry(s)| < |Ancestry(t)|
    decreases t
  {
    if t != s {
      var p := t.parent.value;
      LinkedDeeper(s, p);
      assert Ancestry(t) == Ancestry(p) + [t];
    }
  }

  /** The line from s to a state linked to it starts at s and is the tail of
      the ancestry of that state. */
  lemma {:induction false} LineInAncestry(s: State, t: State)
    requires Linked(s, t)
    ensures LineFrom(s, t)[0] == s
    ensures |LineFrom(s, t)| <= |Ancestry(t)|
    ensures Ancestry(t)[|Ancestry(t)| - |LineFrom(s, t)|..] == LineFrom(s, t)
    decreases t
  {
    if t != s {
      var p := t.parent.value;
      LineInAncestry(s, p);
      var a := Ancestry(p);
      var l := LineFrom(s, p);
      assert Ancestry(t) == a + [t];
      assert LineFrom(s, t) == l + [t];
      SuffixAppend(a, l, t);
    }
  }

  /** A suffix stays a suffix when the same element is appended to both. */
  lemma SuffixAppend<T>(a: seq<T>, l: seq<T>, x: T)
    requires |l| <= |a| && a[|a| - |l|..] == l
    ensures (a + [x])[|a + [x]| - |l + [x]|..] == l + [x]
  {
    assert (a + [x])[|a| - |l|..] == a[|a| - |l|..] + [x];
  }

  /** Every state on the line from s to t other than t itself has been
      expanded, and no two of them show the same grid. */
  ghost predicate LineExplored(s: State, t: State, explored: set<Grid>) {
    var l := LineFrom(s, t);
    && (forall k :: 0 <= k < |l| - 1 ==> l[k].board.grid in explored)
    && DistinctGrids(l[..|l| - 1])
  }

  /** What both searches keep of the lines leading to their frontier. */
  ghost predicate FrontierLines(s: State, frontier: seq<State>, explored: set<Grid>) {
    forall t :: t in frontier ==> LineExplored(s, t, explored)
  }

  lemma PopLines(s: State, q: seq<State>, m: int, explored: set<Grid>)
    requires FrontierLines(s, q, explored) && 0 <= m < |q|
    ensures LineExplored(s, q[m], explored)
    ensures FrontierLines(s, q[..m] + q[m + 1..], explored)
  {
    assert q[m] in q;
    RemoveKeeps(q, m);
  }

  /** A state whose grid is not explored ends a line without repeated
      grids. */
  lemma LineDistinct(s: State, t: State, explored: set<Grid>)
    requires LineExplored(s, t, explored) && t.board.grid !in explored
    ensures DistinctGrids(LineFrom(s, t))
  {
    var l := LineFrom(s, t);
    forall i, j | 0 <= i < j < |l|
      ensures l[i].board.grid != l[j].board.grid
    {
      if j < |l| - 1 {
        assert l[..|l| - 1][i] == l[i] && l[..|l| - 1][j] == l[j];
      } else {
        assert l[i].board.grid in explored;
      }
    }
  }

  /** A child of t, whose grid is not explored yet, ends a line that is
      expanded and free of repeated grids once t is. */
  lemma ChildLine(s: State, t: State, u: State, explored: set<Grid>)
    requires Linked(s, t) && u.parent == Some(t)
    requires LineExplored(s, t, explored) && t.board.grid !in explored
    ensures LineExplored(s, u, explored + {t.board.grid})
  {
    var l := LineFrom(s, t);
    LineDistinct(s, t, explored);
    LinkedDeeper(s, t);
    assert Ancestry(u) == Ancestry(t) + [u];
    assert LineFrom(s, u) == l + [u];
    assert (l + [u])[..|l|] == l;
  }

  /** Expanding t, whose grid is not explored yet, keeps the frontier, with
      t's unexplored successors pushed, well formed and descending from s,
      and keeps the lines to its states expanded and free of repeated
      grids. */
  lemma ExpandLines(s: State, t: State, q: seq<State>, explored: set<Grid>, hash: Board -> int)
    requires WellFormed(t.board) && Descends(s, t, hash)
    requires LineExplored(s, t, explored) && t.board.grid !in explored
    requires FrontierOk(s, q, hash) && FrontierLines(s, q, explored)
    ensures FrontierOk(s, q + Unexplored(GenerateSuccessors(t, hash), explored + {t.board.grid}), hash)
    ensures FrontierLines(s, q + Unexplored(GenerateSuccessors(t, hash), explored + {t.board.grid}), explored + {t.board.grid})
  {
    var e := explored + {t.board.grid};
    PushOk(s, t, q, e, hash);
    DescendsLinked(s, t, hash);
    var pushed := Unexplored(GenerateSuccessors(t, hash), e);
    forall u | u in q + pushed
      ensures LineExplored(s, u, e)
    {
      if u in q {
        assert LineExplored(s, u, explored);
      } else {
        assert IsChild(t, u, hash);
        ChildLine(s, t, u, explored);
      }
    }
  }

  /** The inner loops of dfs and astar (hrd.py:684-690, 728-735): once t is
      expanded, push its successors whose grid is not explored, t's own grid
      now included. The frontier before them is kept, each state pushed is a
      child of t with an unexplored grid, and the frontier stays well formed,
      descending from s, with expanded lines free of repeated grids. */
  method PushSuccessors(ghost s: State, t: State, frontier: seq<State>, explored: set<Grid>, hash: Board -> int)
    returns (r: seq<State>)
    requires WellFormed(t.board) && Descends(s, t, hash)
    requires LineExplored(s, t, explored) && t.board.grid !in explored
    requires FrontierOk(s, frontier, hash) && FrontierLines(s, frontier, explored)
    ensures |frontier| <= |r| && r[..|frontier|] == frontier
    ensures forall i :: |frontier| <= i < |r| ==> r[i].parent == Some(t) && r[i].board.grid !in explored + {t.board.grid}
    ensures FrontierOk(s, r, hash) && FrontierLines(s, r, explored + {t.board.grid})
  {
    ExpandLines(s, t, frontier, explored, hash);
    var pushed := Unexplored(GenerateSuccessors(t, hash), explored + {t.board.grid});
    r := frontier + pushed;
    forall i | |frontier| <= i < |r|
      ensures r[i].parent == Some(t) && r[i].board.grid !in explored + {t.board.grid}
    {
      assert r[i] == pushed[i - |frontier|] && r[i] in pushed;
      assert IsChild(t, r[i], hash);
    }
  }

  /** The solution path of a goal state reached along a line without
      repeated grids shows no grid twice from s on. */
  lemma GoalLine(s: State, t: State, explored: set<Grid>)
    requires Linked(s, t)
    requires LineExplored(s, t, explored) && t.board.grid !in explored
    ensures NoRepeatFrom(s, Ancestry(t))
  {
    LineInAncestry(s, t);
    LineDistinct(s, t, explored);
    var a := Ancestry(t);
    var j := |a| - |LineFrom(s, t)|;
    assert a[j..] == LineFrom(s, t);
    assert a[j] == s;
  }

  /** Appending a grid not yet explored keeps the expansion order free of
      repeats and its set equal to the explored set. */
  lemma AppendFresh(expanded: seq<Grid>, explored: set<Grid>, g: Grid)
    requires explored == set x | x in expanded
    requires forall i, j :: 0 <= i < j < |expanded| ==> expanded[i] != expanded[j]
    requires g !in explored
    ensures explored + {g} == set x | x in expanded + [g]
    ensures forall i, j :: 0 <= i < j < |expanded + [g]| ==> (expanded + [g])[i] != (expanded + [g])[j]
  {
    var e := expanded + [g];
    forall i, j | 0 <= i < j < |e|
      ensures e[i] != e[j]
    {
      if j == |expanded| {
        assert e[i] in explored;
      }
    }
  }

  lemma ExploreShrinks(universe: set<Grid>, explored: set<Grid>, g: Grid)
    requires explored <= universe && g in universe && g !in explored
    ensures explored + {g} <= universe
    ensures |universe - (explored + {g})| < |universe - explored|
  {
    assert universe - explored == (universe - (explored + {g})) + {g};
  }

  /** dfs (hrd.py:660-692): depth-first search with multi-path pruning. A
      result is a solution from s: its last board is a goal and every state
      after s is a successor of the one before it. No grid is expanded twice,
      so the path from s on never shows a grid twice; the ghost `expanded`
      lists the grids in the order they were expanded. */
  method Dfs(s: State, hash: Board -> int) returns (r: Option<seq<State>>, ghost expanded: seq<Grid>)
    requires WellFormed(s.board)
    ensures r.Some? ==> SolutionFrom(s, r.value, hash)
    ensures r.Some? ==> NoRepeatFrom(s, r.value)
    ensures forall i, j :: 0 <= i < j < |expanded| ==> expanded[i] != expanded[j]
  {
    ghost var universe := GridUniverse();
    var frontier := [s];
    var explored: set<Grid> := {};
    expanded := [];
    while |frontier| > 0
      invariant FrontierOk(s, frontier, hash)
      invariant FrontierLines(s, frontier, explored)
      invariant explored <= universe
      invariant explored == set g | g in expanded
      invariant forall i, j :: 0 <= i < j < |expanded| ==> expanded[i] != expanded[j]
      decreases |universe - explored|, |frontier|
    {
      var t := frontier[|frontier| - 1];
      PopOk(s, frontier, |frontier| - 1, hash);
      PopLines(s, frontier, |frontier| - 1, explored);
      frontier := frontier[..|frontier| - 1];
      if t.board.grid !in explored {
        ExploreShrinks(universe, explored, t.board.grid);
        AppendFresh(expanded, explored, t.board.grid);
        expanded := expanded + [t.board.grid];
        if GoalTest(t.board) {
          DescendsLinked(s, t, hash);
          GoalLine(s, t, explored);
          var path := Solution(s, t, hash);
          return Some(path), expanded;
        }
        frontier := PushSuccessors(s, t, frontier, explored, hash);
        explored := explored + {t.board.grid};
      }
    }
    return None, expanded;
  }

  /** The position of a state of least (f, id) in a non-empty frontier: the
      state heapq.heappop returns when the heap holds (f, state) pairs, since
      pairs with equal f are ordered by State.__lt__. Among states with equal
      keys the earliest pushed is taken. */
  function MinIndex(q: seq<State>): (m: nat)
    requires |q| > 0
    ensures m < |q|
    ensures forall j :: 0 <= j < |q| ==> !Less(q[j], q[m])
    decreases |q|
  {
    if |q| == 1 then 0
    else
      var m := MinIndex(q[..|q| - 1]);
      assert forall j :: 0 <= j < |q| - 1 ==> q[..|q| - 1][j] == q[j];
      if Less(q[|q| - 1], q[m]) then |q| - 1 else m
  }

  /** Removing one state from the frontier keeps it well formed and the state
      removed is well formed and descends from the start. */
  lemma PopOk(s: State, q: seq<State>, m: int, hash: Board -> int)
    requires FrontierOk(s, q, hash) && 0 <= m < |q|
    ensures WellFormed(q[m].board) && Descends(s, q[m], hash)
    ensures FrontierOk(s, q[..m] + q[m + 1..], hash)
  {
    assert q[m] in q;
    RemoveKeeps(q, m);
  }

  lemma RemoveKeeps<T>(q: seq<T>, m: int)
    requires 0 <= m < |q|
    ensures forall t :: t in q[..m] + q[m + 1..] ==> t in q
  {
    forall t | t in q[..m] + q[m + 1..]
      ensures t in q
    {
      var i :| 0 <= i < |q[..m] + q[m + 1..]| && (q[..m] + q[m + 1..])[i] == t;
      if i < m {
        assert t == q[i];
      } else {
        assert t == q[i + 1];
      }
    }
  }

  /** astar (hrd.py:695-737): best-first search with multi-path pruning,
      each state taken from the frontier at MinIndex, a least (f, id) key. A
      result is a solution from s whose path from s on never shows a grid
      twice, as no grid is expanded twice. */
  method AStar(s: State, hash: Board -> int) returns (r: Option<seq<State>>, ghost expanded: seq<Grid>)
    requires WellFormed(s.board)
    ensures r.Some? ==> SolutionFrom(s, r.value, hash)
    ensures r.Some? ==> NoRepeatFrom(s, r.value)
    ensures forall i, j :: 0 <= i < j < |expanded| ==> expanded[i] != expanded[j]
  {
    ghost var universe := GridUniverse();
    var frontier := [s];
    var explored: set<Grid> := {};
    expanded := [];
    while |frontier| > 0
      invariant FrontierOk(s, frontier, hash)
      invariant FrontierLines(s, frontier, explored)
      invariant explored <= universe
      invariant explored == set g | g in expanded
      invariant forall i, j :: 0 <= i < j < |expanded| ==> expanded[i] != expanded[j]
      decreases |universe - explored|, |frontier|
    {
      var m := MinIndex(frontier);
      var t := frontier[m];
      PopOk(s, frontier, m, hash);
      PopLines(s, frontier, m, explored);
      frontier := frontier[..m] + frontier[m + 1..];
      if t.board.grid !in explored {
        ExploreShrinks(universe, explored, t.board.grid);
        AppendFresh(expanded, explored, t.board.grid);
        expanded := expanded + [t.board.grid];
        if GoalTest(t.board) {
          DescendsLinked(s, t, hash);
          GoalLine(s, t, explored);
          var path := Solution(s, t, hash);
          return Some(path), expanded;
        }
        frontier := PushSuccessors(s, t, frontier, explored, hash);
        explored := explored + {t.board.grid};
      }
    }
    return None, expanded;
  }
}

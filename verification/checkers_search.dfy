/** Depth-limited alpha-beta search over checkers boards with a value cache
    (checkers.py, max_value, min_value, alpha_beta_search).

    The source's cache is a global dictionary keyed by the board written out
    as a string of its symbols; here it is a map keyed by the board itself,
    passed into each call and returned updated. */
module CheckersSearch {

  import opened Maybe
  import opened Grid
  import opened CheckersBoard
  import opened CheckersSuccessors
  import opened CheckersEval

  type Cache = map<Board, ExtInt>

  /** DEPTH_LIMIT (checkers.py:9): the search stops ten moves below the root. */
  const DepthLimit := 10

  /** A call never changes an entry the cache held when it started. */
  ghost predicate Extends(cache: Cache, cache': Cache) {
    forall k :: k in cache ==> k in cache' && cache'[k] == cache[k]
  }

  /** The result of max_value or min_value at the bottom of the search or on
      a board where the utility is decided: at the depth limit an undecided
      board is scored by the evaluation, stored under the board unless the
      cache already held a value for it, and the cached value is returned; a
      decided board returns its utility and leaves the cache alone. */
  ghost predicate LeafResult(b: Board, depth: int, player: char, cache: Cache, v: ExtInt, cache': Cache)
    requires IsBoard(b)
  {
    var u := Utility(b, NextTurn(player));
    && (u != Fin(0) ==> v == u && cache' == cache)
    && (depth == DepthLimit && u == Fin(0) ==>
          cache' == (if b in cache then cache else cache[b := Fin(Evaluation(b, player))]) && v == cache'[b])
  }

  /** What the loop over successors guarantees: when it ran to the end (the
      value stayed below beta for max_value, above alpha for min_value) every
      successor board is in the cache; the value is the one cached for the
      last successor visited, or the starting infinity when there is none. */
  ghost predicate LoopResult(succs: seq<Board>, complete: bool, start: ExtInt, v: ExtInt, cache': Cache) {
    && (complete ==> forall t :: t in succs ==> t in cache')
    && (|succs| == 0 ==> v == start)
    && (|succs| > 0 ==> exists j :: 0 <= j < |succs| && succs[j] in cache' && cache'[succs[j]] == v)
  }

  /** The cutoff of max_value's loop (checkers.py:628-629): the successors
      are visited in order, the value after each visit is the one cached
      under it, every visit before the k-th left it below beta, and the loop
      stops at the k-th either because the value reached beta or because no
      successor is left; the value returned is the one after the k-th. */
  ghost predicate MaxCutAt(succs: seq<Board>, k: int, beta: ExtInt, v: ExtInt, cache': Cache) {
    && 0 <= k < |succs| && succs[k] in cache' && cache'[succs[k]] == v
    && (forall j :: 0 <= j < k ==> succs[j] in cache' && !Le(beta, cache'[succs[j]]))
    && (k < |succs| - 1 ==> Le(beta, v))
  }

  /** The cutoff of min_value's loop (checkers.py:659-660): as MaxCutAt, with
      the loop stopping once the value falls to alpha or below. */
  ghost predicate MinCutAt(succs: seq<Board>, k: int, alpha: ExtInt, v: ExtInt, cache': Cache) {
    && 0 <= k < |succs| && succs[k] in cache' && cache'[succs[k]] == v
    && (forall j :: 0 <= j < k ==> succs[j] in cache' && !Le(cache'[succs[j]], alpha))
    && (k < |succs| - 1 ==> Le(v, alpha))
  }

  /** max_value (checkers.py:604-631). The utility is taken for the
      opponent of `player`, as in the source; below the depth limit an
      undecided board goes on to the loop over its successors. */
  method MaxValue(b: Board, alpha: ExtInt, beta: ExtInt, depth: int, player: char, cache: Cache)
    returns (v: ExtInt, cache': Cache)
    requires IsBoard(b) && 0 <= depth <= DepthLimit
    ensures Extends(cache, cache')
    ensures LeafResult(b, depth, player, cache, v, cache')
    ensures depth < DepthLimit && Utility(b, NextTurn(player)) == Fin(0) ==>
              LoopResult(GenerateMoves(b, player), !Le(beta, v), NegInf, v, cache')
    ensures depth < DepthLimit && Utility(b, NextTurn(player)) == Fin(0) && |GenerateMoves(b, player)| > 0 ==>
              exists k :: MaxCutAt(GenerateMoves(b, player), k, beta, v, cache')
    decreases DepthLimit - depth, 1
  {
    var u := Utility(b, NextTurn(player));
    if depth == DepthLimit {
      if u == Fin(0) {
        cache' := if b in cache then cache else cache[b := Fin(Evaluation(b, player))];
        v := cache'[b];
      } else {
        v, cache' := u, cache;
      }
    } else if u != Fin(0) {
      v, cache' := u, cache;
    } else {
      v, cache' := MaxLoop(GenerateMoves(b, player), alpha, beta, depth, player, cache);
    }
  }

  /** The successor loop of max_value (checkers.py:618-631). Each successor
      either takes its value from the cache or is searched by MinValue one
      level deeper; then the running value is cached under it. That is the
      greater of the running value and the searched one, or the cached value
      itself, which replaces the running value. A value at or above beta
      cuts the loop short. */
  method MaxLoop(succs: seq<Board>, alpha: ExtInt, beta: ExtInt, depth: int, player: char, cache: Cache)
    returns (v: ExtInt, cache': Cache)
    requires forall t :: t in succs ==> IsBoard(t)
    requires 0 <= depth < DepthLimit
    ensures Extends(cache, cache')
    ensures LoopResult(succs, !Le(beta, v), NegInf, v, cache')
    ensures |succs| > 0 ==> exists k :: MaxCutAt(succs, k, beta, v, cache')
    decreases DepthLimit - depth, 0
  {
    var a := alpha;
    v, cache' := NegInf, cache;
    var i := 0;
    ghost var last := 0;
    while i < |succs|
      invariant 0 <= i <= |succs|
      invariant Extends(cache, cache')
      invariant forall j :: 0 <= j < i ==> succs[j] in cache'
      invariant i == 0 ==> v == NegInf
      invariant i > 0 ==> 0 <= last < i && succs[last] in cache' && cache'[succs[last]] == v
      invariant !Le(beta, v) || i == 0
      invariant i > 0 ==> last == i - 1
      invariant forall j :: 0 <= j < i - 1 ==> !Le(beta, cache'[succs[j]])
    {
      var t := succs[i];
      if t !in cache' {
        var w, c := MinValue(t, a, beta, depth + 1, NextTurn(player), cache');
        v := Max(v, w);
        cache' := c[t := v];
      } else {
        v := cache'[t];
      }
      last := i;
      i := i + 1;
      if Le(beta, v) {
        assert MaxCutAt(succs, i - 1, beta, v, cache');
        return;
      }
      a := Max(a, v);
    }
    if |succs| > 0 {
      assert MaxCutAt(succs, |succs| - 1, beta, v, cache');
    }
  }

  /** min_value (checkers.py:635-662): the mirror image of MaxValue. */
  method MinValue(b: Board, alpha: ExtInt, beta: ExtInt, depth: int, player: char, cache: Cache)
    returns (v: ExtInt, cache': Cache)
    requires IsBoard(b) && 0 <= depth <= DepthLimit
    ensures Extends(cache, cache')
    ensures LeafResult(b, depth, player, cache, v, cache')
    ensures depth < DepthLimit && Utility(b, NextTurn(player)) == Fin(0) ==>
              LoopResult(GenerateMoves(b, player), !Le(v, alpha), PosInf, v, cache')
    ensures depth < DepthLimit && Utility(b, NextTurn(player)) == Fin(0) && |GenerateMoves(b, player)| > 0 ==>
              exists k :: MinCutAt(GenerateMoves(b, player), k, alpha, v, cache')
    decreases DepthLimit - depth, 1
  {
    var u := Utility(b, NextTurn(player));
    if depth == DepthLimit {
      if u == Fin(0) {
        cache' := if b in cache then cache else cache[b := Fin(Evaluation(b, player))];
        v := cache'[b];
      } else {
        v, cache' := u, cache;
      }
    } else if u != Fin(0) {
      v, cache' := u, cache;
    } else {
      v, cache' := MinLoop(GenerateMoves(b, player), alpha, beta, depth, player, cache);
    }
  }

  /** The successor loop of min_value (checkers.py:649-662): +inf as the
      starting value, the lesser of two values kept, and a value at or below
      alpha cutting the loop short. */
  method MinLoop(succs: seq<Board>, alpha: ExtInt, beta: ExtInt, depth: int, player: char, cache: Cache)
    returns (v: ExtInt, cache': Cache)
    requires forall t :: t in succs ==> IsBoard(t)
    requires 0 <= depth < DepthLimit
    ensures Extends(cache, cache')
    ensures LoopResult(succs, !Le(v, alpha), PosInf, v, cache')
    ensures |succs| > 0 ==> exists k :: MinCutAt(succs, k, alpha, v, cache')
    decreases DepthLimit - depth, 0
  {
    var bt := beta;
    v, cache' := PosInf, cache;
    var i := 0;
    ghost var last := 0;
    while i < |succs|
      invariant 0 <= i <= |succs|
      invariant Extends(cache, cache')
      invariant forall j :: 0 <= j < i ==> succs[j] in cache'
      invariant i == 0 ==> v == PosInf
      invariant i > 0 ==> 0 <= last < i && succs[last] in cache' && cache'[succs[last]] == v
      invariant !Le(v, alpha) || i == 0
      invariant i > 0 ==> last == i - 1
      invariant forall j :: 0 <= j < i - 1 ==> !Le(cache'[succs[j]], alpha)
    {
      var t := succs[i];
      if t !in cache' {
        var w, c := MaxValue(t, alpha, bt, depth + 1, NextTurn(player), cache');
        v := Min(v, w);
        cache' := c[t := v];
      } else {
        v := cache'[t];
      }
      last := i;
      i := i + 1;
      if Le(v, alpha) {
        assert MinCutAt(succs, i - 1, alpha, v, cache');
        return;
      }
      bt := Min(bt, v);
    }
    if |succs| > 0 {
      assert MinCutAt(succs, |succs| - 1, alpha, v, cache');
    }
  }

  /** The i-th successor's board is cached with value `best`. */
  ghost predicate CachedAt(succs: seq<State>, i: int, cache: Cache, best: ExtInt) {
    0 <= i < |succs| && succs[i].board in cache && cache[succs[i].board] == best
  }

  /** The scan of alpha_beta_search (checkers.py:670-674): the index of the
      first successor whose board is cached with `best`, or the number of
      successors when there is none. */
  method FirstCached(succs: seq<State>, cache: Cache, best: ExtInt) returns (i: int)
    ensures 0 <= i <= |succs|
    ensures i < |succs| ==> CachedAt(succs, i, cache, best)
    ensures forall j :: 0 <= j < i ==> !CachedAt(succs, j, cache, best)
  {
    i := 0;
    while i < |succs|
      invariant 0 <= i <= |succs|
      invariant forall j :: 0 <= j < i ==> !CachedAt(succs, j, cache, best)
    {
      var t := succs[i].board;
      if t in cache && cache[t] == best {
        return;
      }
      i := i + 1;
    }
  }

  /** alpha_beta_search (checkers.py:666-675): search the root with
      MaxValue (depth 0, alpha -inf, beta +inf), then return the first
      successor whose board is cached with the value found, paired with
      that value, or the root itself with 999 when none is; `best` is the
      value the root search returned. When the root is
      undecided (its utility for the opponent is 0) and the player has a
      move, the second case cannot happen: the search caches the value it
      returns under one of the root's successors. */
  method AlphaBetaSearch(s: State, player: char, cache: Cache)
    returns (move: State, value: ExtInt, cache': Cache, best: ExtInt)
    requires IsBoard(s.board)
    ensures Extends(cache, cache')
    ensures var succs := GenerateSuccessors(s, player);
      || (exists i :: CachedAt(succs, i, cache', best) && move == succs[i] && value == best &&
            forall j :: 0 <= j < i ==> !CachedAt(succs, j, cache', best))
      || (move == s && value == Fin(999) && forall i :: 0 <= i < |succs| ==> !CachedAt(succs, i, cache', best))
    ensures Utility(s.board, NextTurn(player)) == Fin(0) && |GenerateMoves(s.board, player)| > 0 ==>
              move.parent == Some(s) && move.board in GenerateMoves(s.board, player)
  {
    best, cache' := MaxValue(s.board, NegInf, PosInf, 0, player, cache);
    var succs := GenerateSuccessors(s, player);
    var i := FirstCached(succs, cache', best);
    if i < |succs| {
      return succs[i], cache'[succs[i].board], cache', best;
    }
    if Utility(s.board, NextTurn(player)) == Fin(0) && |GenerateMoves(s.board, player)| > 0 {
      SomeSuccessorCached(s, player, cache', best);
      assert false;
    }
    return s, Fin(999), cache', best;
  }

  /** When some generated board is cached with `best`, so is the board of
      the successor state built from it. */
  lemma SomeSuccessorCached(s: State, player: char, cache: Cache, best: ExtInt)
    requires IsBoard(s.board)
    requires exists j :: 0 <= j < |GenerateMoves(s.board, player)| &&
               GenerateMoves(s.board, player)[j] in cache && cache[GenerateMoves(s.board, player)[j]] == best
    ensures exists i :: CachedAt(GenerateSuccessors(s, player), i, cache, best)
  {
    var moves := GenerateMoves(s.board, player);
    var j :| 0 <= j < |moves| && moves[j] in cache && cache[moves[j]] == best;
    assert CachedAt(GenerateSuccessors(s, player), j, cache, best);
  }
}

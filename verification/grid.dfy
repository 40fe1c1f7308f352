/** Rectangular boards of cell symbols, shared by both engines.

    A grid is a sequence of rows and a row is a sequence of cell symbols, so the
    cell in column x of row y is g[y][x], exactly as both programs index their
    nested lists. */
module Grid {

  type Grid = seq<seq<char>>

  /** g has `height` rows of `width` cells each. */
  predicate IsRect(g: Grid, width: nat, height: nat) {
    |g| == height && forall y :: 0 <= y < height ==> |g[y]| == width
  }

  /** The board after writing symbol c into column x of row y (an in-place list
      assignment in the source, a new value here). */
  function Set(g: Grid, x: int, y: int, c: char): (r: Grid)
    requires 0 <= y < |g| && 0 <= x < |g[y]|
    ensures |r| == |g|
    ensures forall i :: 0 <= i < |g| ==> |r[i]| == |g[i]|
    ensures r[y][x] == c
    ensures forall i, j :: 0 <= i < |g| && 0 <= j < |g[i]| && (i != y || j != x) ==> r[i][j] == g[i][j]
  {
    g[y := g[y][x := c]]
  }

  /** Number of cells of a row whose symbol lies in s. */
  function RowCount(row: seq<char>, s: set<char>): nat
  {
    if |row| == 0 then 0
    else RowCount(row[..|row| - 1], s) + (if row[|row| - 1] in s then 1 else 0)
  }

  /** Number of cells of the board whose symbol lies in s (the source's
      row-by-row counting loops). */
  function Count(g: Grid, s: set<char>): nat
  {
    if |g| == 0 then 0
    else Count(g[..|g| - 1], s) + RowCount(g[|g| - 1], s)
  }

  function Ind(b: bool): nat { if b then 1 else 0 }

  lemma {:induction false} RowCountUpdate(row: seq<char>, x: int, c: char, s: set<char>)
    requires 0 <= x < |row|
    ensures RowCount(row[x := c], s) == RowCount(row, s) - Ind(row[x] in s) + Ind(c in s)
    decreases |row|
  {
    var n := |row| - 1;
    var row' := row[x := c];
    assert row'[..n] == if x == n then row[..n] else row[..n][x := c];
    if x < n {
      RowCountUpdate(row[..n], x, c, s);
    }
  }

  /** Writing one cell changes a count by at most the old and the new symbol. */
  lemma {:induction false} CountSet(g: Grid, x: int, y: int, c: char, s: set<char>)
    requires 0 <= y < |g| && 0 <= x < |g[y]|
    ensures Count(Set(g, x, y, c), s) == Count(g, s) - Ind(g[y][x] in s) + Ind(c in s)
    decreases |g|
  {
    var n := |g| - 1;
    var g' := Set(g, x, y, c);
    if y == n {
      assert g'[..n] == g[..n];
      RowCountUpdate(g[n], x, c, s);
    } else {
      assert g'[..n] == Set(g[..n], x, y, c);
      CountSet(g[..n], x, y, c, s);
    }
  }

  lemma {:induction false} RowCountUnion(row: seq<char>, s: set<char>, t: set<char>)
    requires s !! t
    ensures RowCount(row, s + t) == RowCount(row, s) + RowCount(row, t)
    ensures RowCount(row, s) <= |row|
    decreases |row|
  {
    if |row| > 0 {
      RowCountUnion(row[..|row| - 1], s, t);
    }
  }

  /** Counting two disjoint symbol classes together adds their counts, and a
      count never exceeds the number of cells. */
  lemma {:induction false} CountUnion(g: Grid, width: nat, s: set<char>, t: set<char>)
    requires s !! t
    requires forall y :: 0 <= y < |g| ==> |g[y]| == width
    ensures Count(g, s + t) == Count(g, s) + Count(g, t)
    ensures Count(g, s) <= |g| * width
    decreases |g|
  {
    if |g| > 0 {
      var n := |g| - 1;
      CountUnion(g[..n], width, s, t);
      RowCountUnion(g[n], s, t);
      assert n * width + width == |g| * width;
    }
  }
}

/**
 * Rectangular grids as sequences of rows (the source's lists of lists), and
 * occurrence counts over them, used for scores and for the number of undrawn edges.
 */
module Grids {

  /** `g` has `rows` rows of `cols` cells each. */
  predicate IsGrid<T>(g: seq<seq<T>>, rows: int, cols: int) {
    |g| == rows && forall i | 0 <= i < |g| :: |g[i]| == cols
  }

  /** Number of cells of `row` equal to `x`. */
  function CountRow<T(==)>(row: seq<T>, x: T): (n: nat)
    ensures n <= |row|
  {
    if row == [] then 0
    else CountRow(row[..|row| - 1], x) + (if row[|row| - 1] == x then 1 else 0)
  }

  /** Number of cells of `g` equal to `x`, counted row by row. */
  function CountGrid<T(==)>(g: seq<seq<T>>, x: T): nat {
    if g == [] then 0
    else CountGrid(g[..|g| - 1], x) + CountRow(g[|g| - 1], x)
  }

  /** Overwriting one cell moves the count of `x` by at most one. */
  lemma {:induction false} CountRowUpdate<T>(row: seq<T>, c: int, y: T, x: T)
    requires 0 <= c < |row|
    ensures CountRow(row[c := y], x)
            == CountRow(row, x) - (if row[c] == x then 1 else 0) + (if y == x then 1 else 0)
  {
    var last := |row| - 1;
    if c < last {
      assert row[c := y][..last] == row[..last][c := y];
      CountRowUpdate(row[..last], c, y, x);
    } else {
      assert row[c := y][..last] == row[..last];
    }
  }

  lemma {:induction false} CountGridUpdate<T>(g: seq<seq<T>>, r: int, c: int, y: T, x: T)
    requires 0 <= r < |g| && 0 <= c < |g[r]|
    ensures CountGrid(g[r := g[r][c := y]], x)
            == CountGrid(g, x) - (if g[r][c] == x then 1 else 0) + (if y == x then 1 else 0)
  {
    var last := |g| - 1;
    if r < last {
      assert g[r := g[r][c := y]][..last] == g[..last][r := g[r][c := y]];
      CountGridUpdate(g[..last], r, c, y, x);
    } else {
      assert g[r := g[r][c := y]][..last] == g[..last];
      CountRowUpdate(g[r], c, y, x);
    }
  }

  /** A grid in which `x` does not occur counts zero occurrences of it. */
  lemma {:induction false} CountGridAbsent<T>(g: seq<seq<T>>, x: T)
    requires forall i, j | 0 <= i < |g| && 0 <= j < |g[i]| :: g[i][j] != x
    ensures CountGrid(g, x) == 0
  {
    if g != [] {
      CountGridAbsent(g[..|g| - 1], x);
      CountRowAbsent(g[|g| - 1], x);
    }
  }

  lemma {:induction false} CountRowAbsent<T>(row: seq<T>, x: T)
    requires forall j | 0 <= j < |row| :: row[j] != x
    ensures CountRow(row, x) == 0
  {
    if row != [] {
      CountRowAbsent(row[..|row| - 1], x);
    }
  }

  /** Every cell of a three-valued grid is counted under exactly one of the three values. */
  lemma {:induction false} CountRowPartition<T>(row: seq<T>, x: T, y: T, z: T)
    requires x != y && y != z && x != z
    requires forall j | 0 <= j < |row| :: row[j] == x || row[j] == y || row[j] == z
    ensures CountRow(row, x) + CountRow(row, y) + CountRow(row, z) == |row|
  {
    if row != [] {
      CountRowPartition(row[..|row| - 1], x, y, z);
    }
  }

  lemma {:induction false} CountGridPartition<T>(g: seq<seq<T>>, rows: nat, cols: nat, x: T, y: T, z: T)
    requires IsGrid(g, rows, cols)
    requires x != y && y != z && x != z
    requires forall i, j | 0 <= i < |g| && 0 <= j < |g[i]| :: g[i][j] == x || g[i][j] == y || g[i][j] == z
    ensures CountGrid(g, x) + CountGrid(g, y) + CountGrid(g, z) == rows * cols
  {
    if rows > 0 {
      var init := g[..rows - 1];
      assert forall i | 0 <= i < |init| :: init[i] == g[i];
      CountGridPartition(init, rows - 1, cols, x, y, z);
      CountRowPartition(g[rows - 1], x, y, z);
      OneMoreRow(rows, cols);
    }
  }

  lemma OneMoreRow(rows: nat, cols: nat)
    requires rows > 0
    ensures rows * cols == (rows - 1) * cols + cols
  {
  }
}

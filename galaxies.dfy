/**
 * The galaxy image of Advent of Code 2023, day 11: a grid of lines in which
 * `#` marks a galaxy.  Both day-11 solvers list the galaxies row by row,
 * left to right, and add up the Manhattan distances over every pair of
 * them; this module states those two notions once.
 */
module Galaxies {

  /** A cell of the image: (row, column). */
  type Cell = (nat, nat)

  function AbsDiff(a: nat, b: nat): nat
  {
    if a >= b then a - b else b - a
  }

  /** The Manhattan distance: steps up, down, left and right between two cells. */
  function Distance(a: Cell, b: Cell): nat
  {
    AbsDiff(a.0, b.0) + AbsDiff(a.1, b.1)
  }

  /** The distance is symmetric, zero exactly between equal cells, and obeys the triangle inequality. */
  lemma DistanceMetric(a: Cell, b: Cell, c: Cell)
    ensures Distance(a, b) == Distance(b, a)
    ensures Distance(a, b) == 0 <==> a == b
    ensures Distance(a, c) <= Distance(a, b) + Distance(b, c)
  {
  }

  // ---------------------------------------------------------------------
  // The galaxies, row by row

  /** The `#` cells among the first `n` characters of row `y`, left to right. */
  function RowHashes(line: string, y: nat, n: nat): (r: seq<Cell>)
    requires n <= |line|
    ensures forall k :: 0 <= k < |r| ==> r[k].0 == y && r[k].1 < n && line[r[k].1] == '#'
    ensures forall k, l :: 0 <= k < l < |r| ==> r[k].1 < r[l].1
  {
    if n == 0 then [] else RowHashes(line, y, n - 1) + (if line[n - 1] == '#' then [(y, n - 1)] else [])
  }

  /** The `#` cells of the first `n` rows, row by row. */
  function GridHashes(lines: seq<string>, n: nat): (r: seq<Cell>)
    requires n <= |lines|
    ensures forall k :: 0 <= k < |r| ==> r[k].0 < n && r[k].1 < |lines[r[k].0]| && lines[r[k].0][r[k].1] == '#'
  {
    if n == 0 then [] else GridHashes(lines, n - 1) + RowHashes(lines[n - 1], n - 1, |lines[n - 1]|)
  }

  /** Every galaxy of the image, row by row and left to right within a row. */
  function Hashes(lines: seq<string>): seq<Cell>
  {
    GridHashes(lines, |lines|)
  }

  /** Every `#` of the row is listed. */
  lemma {:induction false} RowHashesComplete(line: string, y: nat, n: nat, x: nat)
    requires x < n <= |line| && line[x] == '#'
    ensures (y, x) in RowHashes(line, y, n)
    decreases n
  {
    if x < n - 1 {
      RowHashesComplete(line, y, n - 1, x);
    }
  }

  /** Every `#` of the first `n` rows is listed. */
  lemma {:induction false} GridHashesComplete(lines: seq<string>, n: nat, y: nat, x: nat)
    requires y < n <= |lines| && x < |lines[y]| && lines[y][x] == '#'
    ensures (y, x) in GridHashes(lines, n)
    decreases n
  {
    if y < n - 1 {
      GridHashesComplete(lines, n - 1, y, x);
    } else {
      RowHashesComplete(lines[y], y, |lines[y]|, x);
    }
  }

  /** The listed cells are exactly the `#` cells of the image. */
  lemma HashesExactly(lines: seq<string>, y: nat, x: nat)
    ensures (y, x) in Hashes(lines) <==> y < |lines| && x < |lines[y]| && lines[y][x] == '#'
  {
    if y < |lines| && x < |lines[y]| && lines[y][x] == '#' {
      GridHashesComplete(lines, |lines|, y, x);
    }
  }

  /** One more character of row `y` read: a `#` there is the next cell listed. */
  lemma HashesStep(lines: seq<string>, y: nat, x: nat)
    requires y < |lines| && x < |lines[y]|
    ensures GridHashes(lines, y) + RowHashes(lines[y], y, x + 1)
      == GridHashes(lines, y) + RowHashes(lines[y], y, x) + (if lines[y][x] == '#' then [(y, x)] else [])
  {
  }

  /** Strictly increasing in reading order: by row, then by column. */
  predicate RowMajor(cells: seq<Cell>)
  {
    forall k, l :: 0 <= k < l < |cells| ==>
      cells[k].0 < cells[l].0 || (cells[k].0 == cells[l].0 && cells[k].1 < cells[l].1)
  }

  /** The galaxies are listed in reading order, each once. */
  lemma {:induction false} GridHashesRowMajor(lines: seq<string>, n: nat)
    requires n <= |lines|
    ensures RowMajor(GridHashes(lines, n))
    decreases n
  {
    if n > 0 {
      GridHashesRowMajor(lines, n - 1);
      var before, row := GridHashes(lines, n - 1), RowHashes(lines[n - 1], n - 1, |lines[n - 1]|);
      var all := before + row;
      forall k, l | 0 <= k < l < |all|
        ensures all[k].0 < all[l].0 || (all[k].0 == all[l].0 && all[k].1 < all[l].1)
      {
        if l < |before| {
          assert all[k] == before[k] && all[l] == before[l];
        } else if k >= |before| {
          assert all[k] == row[k - |before|] && all[l] == row[l - |before|];
        } else {
          assert all[k] == before[k] && all[l] == row[l - |before|];
        }
      }
    }
  }

  // ---------------------------------------------------------------------
  // The sum over pairs

  /** The distances from cell `i` to the cells after it, up to (not including) `j`. */
  function RowSum(cells: seq<Cell>, i: nat, j: nat): nat
    requires i < j <= |cells|
    decreases j
  {
    if j == i + 1 then 0 else RowSum(cells, i, j - 1) + Distance(cells[i], cells[j - 1])
  }

  /** The distances over the pairs whose first cell is one of the first `i`. */
  function PairSumUpTo(cells: seq<Cell>, i: nat): nat
    requires i <= |cells|
  {
    if i == 0 then 0 else PairSumUpTo(cells, i - 1) + RowSum(cells, i - 1, |cells|)
  }

  /** The distances over every pair `i < j` of cells. */
  function PairSum(cells: seq<Cell>): nat
  {
    PairSumUpTo(cells, |cells|)
  }
}

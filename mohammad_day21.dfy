/**
 * mohammad/day21: the garden plots a gardener can stand on after exactly
 * 64 steps.  `neighbors` lists the plots next to a cell, and each step
 * replaces the frontier by the union of the neighbours of its cells.  The
 * grid is taken to be square: its number of rows bounds both coordinates.
 */
module MohammadDay21 {
  import Galaxies

  /** A cell: (row, column). */
  type Pos = Galaxies.Cell

  /** `STEPS`. */
  const Steps: nat := 64

  /** The source uses `grid.len()` for both the row and the column bound. */
  predicate Square(grid: seq<seq<char>>)
  {
    forall r :: 0 <= r < |grid| ==> |grid[r]| == |grid|
  }

  predicate InBounds(grid: seq<seq<char>>, p: Pos)
  {
    p.0 < |grid| && p.1 < |grid|
  }

  /** Two cells one step apart, horizontally or vertically. */
  predicate Adjacent(p: Pos, q: Pos)
  {
    (p.0 == q.0 && (p.1 + 1 == q.1 || q.1 + 1 == p.1)) ||
    (p.1 == q.1 && (p.0 + 1 == q.0 || q.0 + 1 == p.0))
  }

  /** Adjacent cells are the cells at Manhattan distance one. */
  lemma AdjacentIsDistanceOne(p: Pos, q: Pos)
    ensures Adjacent(p, q) <==> Galaxies.Distance(p, q) == 1
  {
  }

  /** An in-bounds cell that is not a rock. */
  predicate Open(grid: seq<seq<char>>, q: Pos)
    requires Square(grid)
  {
    InBounds(grid, q) && grid[q.0][q.1] != '#'
  }

  /** The first test of `neighbors`: the cell above, unless on the top row or a rock. */
  function Up(p: Pos, grid: seq<seq<char>>): (r: set<Pos>)
    requires Square(grid) && InBounds(grid, p)
    ensures |r| <= 1
  {
    if p.0 > 0 && grid[p.0 - 1][p.1] != '#' then {(p.0 - 1, p.1)} else {}
  }

  /** The second test: the cell below, unless on row `dim - 1` or a rock. */
  function Down(p: Pos, grid: seq<seq<char>>): (r: set<Pos>)
    requires Square(grid) && InBounds(grid, p)
    ensures |r| <= 1
  {
    if p.0 < |grid| - 1 && grid[p.0 + 1][p.1] != '#' then {(p.0 + 1, p.1)} else {}
  }

  /** The third test: the cell to the left, unless in the first column or a rock. */
  function Left(p: Pos, grid: seq<seq<char>>): (r: set<Pos>)
    requires Square(grid) && InBounds(grid, p)
    ensures |r| <= 1
  {
    if p.1 > 0 && grid[p.0][p.1 - 1] != '#' then {(p.0, p.1 - 1)} else {}
  }

  /** The fourth test: the cell to the right, unless in column `dim - 1` or a rock. */
  function Right(p: Pos, grid: seq<seq<char>>): (r: set<Pos>)
    requires Square(grid) && InBounds(grid, p)
    ensures |r| <= 1
  {
    if p.1 < |grid| - 1 && grid[p.0][p.1 + 1] != '#' then {(p.0, p.1 + 1)} else {}
  }

  /** `neighbors`: the union of the four tests. */
  function Neighbors(p: Pos, grid: seq<seq<char>>): (r: set<Pos>)
    requires Square(grid) && InBounds(grid, p)
    ensures forall q :: q in r ==> Open(grid, q)
  {
    Up(p, grid) + Down(p, grid) + Left(p, grid) + Right(p, grid)
  }

  /** A union of at most one cell per test has at most four cells. */
  lemma NeighborsAtMostFour(p: Pos, grid: seq<seq<char>>)
    requires Square(grid) && InBounds(grid, p)
    ensures |Neighbors(p, grid)| <= 4
  {
    var a, b, c, d := Up(p, grid), Down(p, grid), Left(p, grid), Right(p, grid);
    UnionAtMost(a, b);
    UnionAtMost(a + b, c);
    UnionAtMost(a + b + c, d);
  }

  lemma {:induction false} UnionAtMost(a: set<Pos>, b: set<Pos>)
    ensures |a + b| <= |a| + |b|
    decreases |b|
  {
    if b != {} {
      var x :| x in b;
      UnionAtMost(a, b - {x});
      assert a + b == (a + (b - {x})) + {x};
    }
  }

  /** The neighbours are exactly the open cells adjacent to `p`. */
  lemma NeighborsExactly(p: Pos, grid: seq<seq<char>>, q: Pos)
    requires Square(grid) && InBounds(grid, p)
    ensures q in Neighbors(p, grid) <==> Open(grid, q) && Adjacent(p, q)
  {
  }

  /** One step of the loop in `part1`: every neighbour of every cell of the frontier. */
  function Reach(front: set<Pos>, grid: seq<seq<char>>): (r: set<Pos>)
    requires Square(grid) && forall p :: p in front ==> InBounds(grid, p)
    ensures forall q :: q in r ==> Open(grid, q)
  {
    set p, q | p in front && q in Neighbors(p, grid) :: q
  }

  /** The frontier after `k >= 1` steps from `start`. */
  function Frontier(grid: seq<seq<char>>, start: Pos, k: nat): (r: set<Pos>)
    requires Square(grid) && InBounds(grid, start) && k >= 1
    ensures forall q :: q in r ==> Open(grid, q)
  {
    if k == 1 then Neighbors(start, grid) else Reach(Frontier(grid, start, k - 1), grid)
  }

  /** The union grows one cell's neighbours at a time. */
  lemma ReachAdd(done: set<Pos>, f: Pos, grid: seq<seq<char>>)
    requires Square(grid) && InBounds(grid, f) && forall p :: p in done ==> InBounds(grid, p)
    ensures Reach(done + {f}, grid) == Reach(done, grid) + Neighbors(f, grid)
  {
    var all := done + {f};
    forall q | q in Reach(all, grid) ensures q in Reach(done, grid) + Neighbors(f, grid) {
      var p :| p in all && q in Neighbors(p, grid);
    }
    forall q | q in Neighbors(f, grid) ensures q in Reach(all, grid) {
      assert f in all;
    }
  }

  /** The inner loop of `part1`: `next_front` extended by the neighbours of each cell of `front`. */
  method NextFront(front: set<Pos>, grid: seq<seq<char>>) returns (nextFront: set<Pos>)
    requires Square(grid) && forall p :: p in front ==> InBounds(grid, p)
    ensures nextFront == Reach(front, grid)
  {
    nextFront := {};
    var rest := front;
    while rest != {}
      invariant rest <= front
      invariant nextFront == Reach(front - rest, grid)
      decreases |rest|
    {
      var f :| f in rest;
      ReachAdd(front - rest, f, grid);
      assert front - (rest - {f}) == (front - rest) + {f};
      nextFront := nextFront + Neighbors(f, grid);
      rest := rest - {f};
    }
    assert front - rest == front;
  }

  /** The frontier loop of `part1`; the answer is the size of the last frontier. */
  method Reachable(grid: seq<seq<char>>, start: Pos) returns (count: nat)
    requires Square(grid) && InBounds(grid, start)
    ensures count == |Frontier(grid, start, Steps)|
  {
    var front := Neighbors(start, grid);
    for s := 1 to Steps
      invariant front == Frontier(grid, start, s)
    {
      front := NextFront(front, grid);
    }
    count := |front|;
  }

  /** One step changes the distance from any fixed cell by exactly one. */
  lemma AdjacentDistance(s: Pos, p: Pos, q: Pos)
    requires Adjacent(p, q)
    ensures Galaxies.Distance(s, q) == Galaxies.Distance(s, p) + 1 || Galaxies.Distance(s, q) + 1 == Galaxies.Distance(s, p)
  {
  }

  /** `q` is at most `k` steps from `s`, by a distance of the same parity as `k`. */
  predicate WithinOfParity(s: Pos, q: Pos, k: nat)
  {
    Galaxies.Distance(s, q) <= k && (k - Galaxies.Distance(s, q)) % 2 == 0
  }

  /**
   * Every cell of the `k`-th frontier is at most `k` steps from the start,
   * by a distance of the same parity as `k`: the frontier alternates
   * between the two colours of the checkerboard.
   */
  lemma {:induction false} FrontierParity(grid: seq<seq<char>>, start: Pos, k: nat)
    requires Square(grid) && InBounds(grid, start) && k >= 1
    ensures forall q :: q in Frontier(grid, start, k) ==> WithinOfParity(start, q, k)
    decreases k
  {
    if k == 1 {
      FirstFrontierParity(grid, start);
    } else {
      var j := k - 1;
      FrontierParity(grid, start, j);
      NextFrontierParity(grid, start, j, k);
    }
  }

  lemma FirstFrontierParity(grid: seq<seq<char>>, start: Pos)
    requires Square(grid) && InBounds(grid, start)
    ensures forall q :: q in Frontier(grid, start, 1) ==> WithinOfParity(start, q, 1)
  {
    forall q | q in Neighbors(start, grid) ensures WithinOfParity(start, q, 1) {
      FirstParity(grid, start, q);
    }
  }

  lemma NextFrontierParity(grid: seq<seq<char>>, start: Pos, j: nat, k: nat)
    requires Square(grid) && InBounds(grid, start) && j >= 1 && k == j + 1
    requires forall p :: p in Frontier(grid, start, j) ==> WithinOfParity(start, p, j)
    ensures forall q :: q in Frontier(grid, start, k) ==> WithinOfParity(start, q, k)
  {
    var before := Frontier(grid, start, j);
    forall q | q in Reach(before, grid) ensures WithinOfParity(start, q, k) {
      ReachParity(before, grid, start, k, q);
    }
  }

  /** The first frontier is one step from the start. */
  lemma FirstParity(grid: seq<seq<char>>, start: Pos, q: Pos)
    requires Square(grid) && InBounds(grid, start) && q in Neighbors(start, grid)
    ensures WithinOfParity(start, q, 1)
  {
    assert WithinOfParity(start, start, 0);
    NextStep(grid, start, 1, start, q);
  }

  /** A step from a frontier whose cells keep the invariant at `k - 1` gives cells that keep it at `k`. */
  lemma ReachParity(front: set<Pos>, grid: seq<seq<char>>, start: Pos, k: nat, q: Pos)
    requires Square(grid) && k >= 1
    requires forall p :: p in front ==> InBounds(grid, p) && WithinOfParity(start, p, k - 1)
    requires q in Reach(front, grid)
    ensures WithinOfParity(start, q, k)
  {
    var p :| p in front && q in Neighbors(p, grid);
    NextStep(grid, start, k, p, q);
  }

  /** A neighbour of a cell of the `k - 1`-th frontier keeps the parity invariant at `k`. */
  lemma NextStep(grid: seq<seq<char>>, start: Pos, k: nat, p: Pos, q: Pos)
    requires Square(grid) && InBounds(grid, p) && q in Neighbors(p, grid) && k >= 1
    requires WithinOfParity(start, p, k - 1)
    ensures WithinOfParity(start, q, k)
  {
    NeighborsExactly(p, grid, q);
    AdjacentDistance(start, p, q);
    ParityStep(Galaxies.Distance(start, p), Galaxies.Distance(start, q), k);
  }

  lemma ParityStep(before: nat, after: nat, k: nat)
    requires k >= 1 && before <= k - 1 && (k - 1 - before) % 2 == 0
    requires after == before + 1 || after + 1 == before
    ensures after <= k && (k - after) % 2 == 0
  {
  }

  /** A cell that is walled in by rocks and the border reaches nothing. */
  lemma {:induction false} WalledIn(grid: seq<seq<char>>, start: Pos, k: nat)
    requires Square(grid) && InBounds(grid, start) && k >= 1
    requires Neighbors(start, grid) == {}
    ensures Frontier(grid, start, k) == {}
    decreases k
  {
    if k > 1 {
      WalledIn(grid, start, k - 1);
    }
  }

  /**
   * The start found while reading the grid: the last row holding an `S`,
   * at the first `S` in that row; `(0, 0)` when there is none.
   */
  function StartIn(grid: seq<seq<char>>, n: nat): (p: Pos)
    requires n <= |grid|
    ensures p == (0, 0) || (p.0 < n && p.1 < |grid[p.0]| && grid[p.0][p.1] == 'S')
  {
    if n == 0 then (0, 0)
    else if 'S' in grid[n - 1] then (n - 1, FirstS(grid[n - 1]))
    else StartIn(grid, n - 1)
  }

  /** `position(|c| *c == 'S')`, the first `S` of a row that has one. */
  function FirstS(line: seq<char>): (i: nat)
    requires 'S' in line
    ensures i < |line| && line[i] == 'S' && forall k :: 0 <= k < i ==> line[k] != 'S'
  {
    if line[0] == 'S' then 0 else 1 + FirstS(line[1..])
  }

  /** The row-reading loop of `part1`, keeping the last start seen. */
  method FindStart(grid: seq<seq<char>>) returns (start: Pos)
    ensures start == StartIn(grid, |grid|)
  {
    start := (0, 0);
    for row := 0 to |grid|
      invariant start == StartIn(grid, row)
    {
      if 'S' in grid[row] {
        start := (row, FirstS(grid[row]));
      }
    }
  }

  /** The start is on the last row holding an `S`: no later row has one. */
  lemma {:induction false} StartIsLast(grid: seq<seq<char>>, n: nat, r: nat)
    requires n <= |grid| && StartIn(grid, n).0 < r < n
    ensures 'S' !in grid[r]
    decreases n
  {
    if 'S' !in grid[n - 1] {
      if r < n - 1 {
        StartIsLast(grid, n - 1, r);
      }
    }
  }

  /** `part1`: the number of plots in the 64th frontier from the start found in the grid. */
  method Part1(grid: seq<seq<char>>) returns (count: nat)
    requires Square(grid) && |grid| >= 1
    ensures count == |Frontier(grid, StartIn(grid, |grid|), Steps)|
  {
    var start := FindStart(grid);
    count := Reachable(grid, start);
  }
}

/**
 * mohammad/day16: a beam of light bouncing through a square grid of
 * mirrors ('\\', '/') and splitters ('-', '|').  `energized` follows every
 * beam with a stack of pending beams and a set of visited beams, and
 * counts the cells some beam passes through.
 *
 * The inner loop of `energized` never consults `visited`, so a beam
 * pushed by a splitter onto a loop of mirrors circles forever
 * (`CycleHangs`).  `Energized` below adds that check to the inner loop
 * and is proved to visit exactly the least set of beams that contains the
 * start and is closed under the moves of a beam (`Least`).
 */
module MohammadDay16 {

  datatype Direction = Left | Right | Up | Down

  /** A beam: (row, column) and the direction it travels in. */
  datatype Beam = Beam(loc: (int, int), dir: Direction)

  /** The source uses `grid.len()` for both the row and the column bound. */
  predicate Square(grid: seq<seq<char>>)
  {
    forall r :: 0 <= r < |grid| ==> |grid[r]| == |grid|
  }

  /** `Beam::oob`. */
  predicate Oob(beam: Beam, dim: nat)
  {
    !(0 <= beam.loc.0 < dim && 0 <= beam.loc.1 < dim)
  }

  function Reverse(d: Direction): Direction
  {
    match d
    case Left => Right
    case Right => Left
    case Up => Down
    case Down => Up
  }

  /** `Beam::next`: one cell on in the beam's direction. */
  function Next(beam: Beam): (r: Beam)
    ensures r.dir == beam.dir
    ensures r.loc.0 == beam.loc.0 || r.loc.1 == beam.loc.1
  {
    var (row, col) := beam.loc;
    match beam.dir
    case Left => Beam((row, col - 1), beam.dir)
    case Right => Beam((row, col + 1), beam.dir)
    case Up => Beam((row - 1, col), beam.dir)
    case Down => Beam((row + 1, col), beam.dir)
  }

  /** `next` moves by exactly one cell, and moving back the other way undoes it. */
  lemma NextOneCell(beam: Beam)
    ensures Next(beam) != beam
    ensures Next(Beam(Next(beam).loc, Reverse(beam.dir))).loc == beam.loc
    ensures !Oob(beam, 1) ==> Oob(Next(beam), 1)
  {
  }

  /** The turn at a '\\' mirror. */
  function Backslash(d: Direction): Direction
  {
    match d
    case Left => Up
    case Right => Down
    case Up => Left
    case Down => Right
  }

  /** The turn at a '/' mirror. */
  function Slash(d: Direction): Direction
  {
    match d
    case Left => Down
    case Right => Up
    case Up => Right
    case Down => Left
  }

  /** Each mirror undoes its own turn, and the two mirrors turn opposite ways. */
  lemma MirrorTurns(d: Direction)
    ensures Backslash(Backslash(d)) == d && Slash(Slash(d)) == d
    ensures Slash(d) == Reverse(Backslash(d))
    ensures Backslash(d) != d && Backslash(d) != Reverse(d)
    ensures Slash(d) != d && Slash(d) != Reverse(d)
  {
  }

  predicate Horizontal(d: Direction)
  {
    d == Left || d == Right
  }

  /** The beams that carry on from `beam` once the cell under it is handled. */
  function Successors(grid: seq<seq<char>>, beam: Beam): (r: set<Beam>)
    requires Square(grid) && !Oob(beam, |grid|)
    ensures 1 <= |r| <= 2
  {
    var c := grid[beam.loc.0][beam.loc.1];
    if c == '.' then {Next(beam)}
    else if c == '\\' then {Next(Beam(beam.loc, Backslash(beam.dir)))}
    else if c == '/' then {Next(Beam(beam.loc, Slash(beam.dir)))}
    else if c == '-' then
      if Horizontal(beam.dir) then {Next(beam)} else {Beam(beam.loc, Left), Beam(beam.loc, Right)}
    else if c == '|' then
      if Horizontal(beam.dir) then {Beam(beam.loc, Up), Beam(beam.loc, Down)} else {Next(beam)}
    else {beam}
  }

  /** A splitter hit on its flat side stops the beam and starts two beams across it, on the same cell. */
  lemma SplitterSides(grid: seq<seq<char>>, beam: Beam)
    requires Square(grid) && !Oob(beam, |grid|)
    ensures grid[beam.loc.0][beam.loc.1] == '-' && !Horizontal(beam.dir) ==>
      Successors(grid, beam) == {Beam(beam.loc, Left), Beam(beam.loc, Right)}
    ensures grid[beam.loc.0][beam.loc.1] == '|' && Horizontal(beam.dir) ==>
      Successors(grid, beam) == {Beam(beam.loc, Up), Beam(beam.loc, Down)}
    ensures grid[beam.loc.0][beam.loc.1] in {'-', '|'} && (grid[beam.loc.0][beam.loc.1] == '-') == Horizontal(beam.dir) ==>
      Successors(grid, beam) == {Next(beam)}
  {
  }

  /** A set of in-bounds beams that holds every in-bounds successor of each of its beams. */
  ghost predicate Closed(grid: seq<seq<char>>, s: set<Beam>)
    requires Square(grid)
  {
    forall b :: b in s ==> !Oob(b, |grid|) && forall n :: n in Successors(grid, b) && !Oob(n, |grid|) ==> n in s
  }

  /** The start beam is in `s` whenever it is on the grid. */
  predicate Seeded(grid: seq<seq<char>>, start: Beam, s: set<Beam>)
  {
    !Oob(start, |grid|) ==> start in s
  }

  /** `s` holds exactly the beams that light reaches from `start`: it is the least closed, seeded set. */
  ghost predicate Least(grid: seq<seq<char>>, start: Beam, s: set<Beam>)
    requires Square(grid)
  {
    Closed(grid, s) && Seeded(grid, start, s) &&
    forall c :: Closed(grid, c) && Seeded(grid, start, c) ==> s <= c
  }

  /** The cells the beams of `s` stand on. */
  function Cells(s: set<Beam>): set<(int, int)>
  {
    set b | b in s :: b.loc
  }

  /** Every beam on a `dim` by `dim` grid. */
  function States(dim: nat): set<Beam>
  {
    set r: int, c: int, d: Direction | 0 <= r < dim && 0 <= c < dim && d in {Left, Right, Up, Down} :: Beam((r, c), d)
  }

  lemma InStates(beam: Beam, dim: nat)
    requires !Oob(beam, dim)
    ensures beam in States(dim)
  {
    var (r, c) := beam.loc;
    match beam.dir {
      case Left => assert beam.dir in {Left, Right, Up, Down};
      case Right => assert beam.dir in {Left, Right, Up, Down};
      case Up => assert beam.dir in {Left, Right, Up, Down};
      case Down => assert beam.dir in {Left, Right, Up, Down};
    }
    assert Beam((r, c), beam.dir) == beam;
  }

  /** A beam never handled: the stack of `energized` together with the beam being followed. */
  const Nowhere := Beam((-1, -1), Up)

  /**
   * The bookkeeping of `Energized`: each successor of a visited beam is
   * visited, waiting on the stack, or the beam being followed (`current`);
   * and so is the start.
   */
  ghost predicate Frontier(grid: seq<seq<char>>, start: Beam, visited: set<Beam>, beams: seq<Beam>, current: Beam)
    requires Square(grid)
  {
    (forall b :: b in visited ==> !Oob(b, |grid|)) &&
    (forall b, n :: b in visited && n in Successors(grid, b) && !Oob(n, |grid|) ==>
      n in visited || n in beams || n == current) &&
    (!Oob(start, |grid|) ==> start in visited || start in beams || start == current)
  }

  /** Nothing outside the least closed set is ever visited, stacked or followed. */
  ghost predicate Sound(grid: seq<seq<char>>, start: Beam, visited: set<Beam>, beams: seq<Beam>, current: Beam)
    requires Square(grid)
  {
    forall c :: Closed(grid, c) && Seeded(grid, start, c) ==>
      visited <= c && (forall b :: b in beams && !Oob(b, |grid|) ==> b in c) && (!Oob(current, |grid|) ==> current in c)
  }

  lemma Pop(grid: seq<seq<char>>, start: Beam, visited: set<Beam>, beams: seq<Beam>)
    requires Square(grid) && |beams| > 0
    requires Frontier(grid, start, visited, beams, Nowhere) && Sound(grid, start, visited, beams, Nowhere)
    ensures Frontier(grid, start, visited, beams[..|beams| - 1], beams[|beams| - 1])
    ensures Sound(grid, start, visited, beams[..|beams| - 1], beams[|beams| - 1])
  {
    var rest, top := beams[..|beams| - 1], beams[|beams| - 1];
    assert beams == rest + [top];
    assert forall b :: b in beams ==> b in rest || b == top;
    forall c | Closed(grid, c) && Seeded(grid, start, c)
      ensures visited <= c && (forall b :: b in rest && !Oob(b, |grid|) ==> b in c) && (!Oob(top, |grid|) ==> top in c)
    {
      assert forall b :: b in beams && !Oob(b, |grid|) ==> b in c;
    }
  }

  /** The followed beam left the grid or reached a visited beam: nothing is pending besides the stack. */
  lemma Settle(grid: seq<seq<char>>, start: Beam, visited: set<Beam>, beams: seq<Beam>, current: Beam)
    requires Square(grid) && (Oob(current, |grid|) || current in visited)
    requires Frontier(grid, start, visited, beams, current) && Sound(grid, start, visited, beams, current)
    ensures Frontier(grid, start, visited, beams, Nowhere) && Sound(grid, start, visited, beams, Nowhere)
  {
  }

  /** Visiting `current`: it joins `visited`, and its successors are on `beams` or become the followed beam `next`. */
  lemma Visit(grid: seq<seq<char>>, start: Beam, visited: set<Beam>, beams: seq<Beam>, current: Beam,
              beams': seq<Beam>, next: Beam)
    requires Square(grid) && !Oob(current, |grid|)
    requires Frontier(grid, start, visited, beams, current) && Sound(grid, start, visited, beams, current)
    requires forall b :: b in beams ==> b in beams'
    requires forall b :: b in beams' ==> b in beams || b in Successors(grid, current)
    requires forall n :: n in Successors(grid, current) ==> n in beams' || n == next
    requires next in Successors(grid, current) || next == current
    ensures Frontier(grid, start, visited + {current}, beams', next)
    ensures Sound(grid, start, visited + {current}, beams', next)
  {
    forall c | Closed(grid, c) && Seeded(grid, start, c)
      ensures visited + {current} <= c && (forall b :: b in beams' && !Oob(b, |grid|) ==> b in c) && (!Oob(next, |grid|) ==> next in c)
    {
      assert current in c;
    }
  }

  /** The beams of a closed set reached from `start` are exactly the least such set. */
  lemma Finish(grid: seq<seq<char>>, start: Beam, visited: set<Beam>)
    requires Square(grid)
    requires Frontier(grid, start, visited, [], Nowhere) && Sound(grid, start, visited, [], Nowhere)
    ensures Least(grid, start, visited)
  {
  }

  lemma CellsAdd(visited: set<Beam>, beam: Beam)
    ensures Cells(visited + {beam}) == Cells(visited) + {beam.loc}
  {
    assert beam.loc in Cells(visited + {beam});
  }

  /**
   * The inner loop of `energized` for one popped beam, with the check
   * against `visited` that the source lacks.
   */
  method Follow(grid: seq<seq<char>>, ghost start: Beam, beam0: Beam, visited0: set<Beam>, beams0: seq<Beam>,
                energized0: set<(int, int)>)
    returns (visited: set<Beam>, beams: seq<Beam>, energized: set<(int, int)>)
    requires Square(grid)
    requires Frontier(grid, start, visited0, beams0, beam0) && Sound(grid, start, visited0, beams0, beam0)
    requires energized0 == Cells(visited0)
    ensures Frontier(grid, start, visited, beams, Nowhere) && Sound(grid, start, visited, beams, Nowhere)
    ensures energized == Cells(visited)
    ensures visited0 <= visited
    ensures visited == visited0 ==> beams == beams0
    ensures !Oob(beam0, |grid|) && beam0 !in visited0 ==> beam0 in visited
  {
    var dim := |grid|;
    var beam := beam0;
    visited, beams, energized := visited0, beams0, energized0;
    while !Oob(beam, dim) && beam !in visited
      invariant Frontier(grid, start, visited, beams, beam) && Sound(grid, start, visited, beams, beam)
      invariant energized == Cells(visited)
      invariant visited0 <= visited
      invariant visited == visited0 ==> beams == beams0 && beam == beam0
      invariant !Oob(beam0, dim) && beam0 !in visited0 ==> beam0 in visited || beam == beam0
      decreases States(dim) - visited
    {
      InStates(beam, dim);
      CellsAdd(visited, beam);
      var (row, col) := beam.loc;
      var c := grid[row][col];
      var next := beam;
      var beams' := beams;
      if c == '.' {
        next := Next(beam);
      } else if c == '\\' {
        next := Next(Beam(beam.loc, Backslash(beam.dir)));
      } else if c == '/' {
        next := Next(Beam(beam.loc, Slash(beam.dir)));
      } else if c == '-' {
        if Horizontal(beam.dir) {
          next := Next(beam);
        } else {
          beams' := beams + [Beam(beam.loc, Left), Beam(beam.loc, Right)];
        }
      } else if c == '|' {
        if Horizontal(beam.dir) {
          beams' := beams + [Beam(beam.loc, Up), Beam(beam.loc, Down)];
        } else {
          next := Next(beam);
        }
      }
      Visit(grid, start, visited, beams, beam, beams', next);
      visited := visited + {beam};
      energized := energized + {beam.loc};
      beams := beams';
      if next == beam {
        break;
      }
      beam := next;
    }
    Settle(grid, start, visited, beams, beam);
  }

  /** `energized` with the inner loop stopping at visited beams; `visited` is returned for the proof. */
  method Energized(grid: seq<seq<char>>, start: Beam) returns (count: nat, ghost visited: set<Beam>)
    requires Square(grid)
    ensures Least(grid, start, visited)
    ensures count == |Cells(visited)|
  {
    var dim := |grid|;
    var beams := [start];
    var energized: set<(int, int)> := {};
    var seen: set<Beam> := {};
    while |beams| > 0
      invariant Frontier(grid, start, seen, beams, Nowhere) && Sound(grid, start, seen, beams, Nowhere)
      invariant energized == Cells(seen)
      invariant seen <= States(dim)
      decreases States(dim) - seen, |beams|
    {
      Pop(grid, start, seen, beams);
      var beam := beams[|beams| - 1];
      beams := beams[..|beams| - 1];
      if beam in seen {
        Settle(grid, start, seen, beams, beam);
        continue;
      }
      ghost var before := seen;
      seen, beams, energized := Follow(grid, start, beam, seen, beams, energized);
      forall b | b in seen ensures b in States(dim) {
        InStates(b, dim);
      }
      assert !Oob(beam, dim) ==> before < seen;
    }
    Finish(grid, start, seen);
    visited := seen;
    count := |energized|;
  }

  // The count is at most the number of cells.

  lemma {:induction false} SubsetCard<T>(a: set<T>, b: set<T>)
    requires a <= b
    ensures |a| <= |b|
    decreases |a|
  {
    if a != {} {
      var x :| x in a;
      SubsetCard(a - {x}, b - {x});
    }
  }

  /** The cells of the first `rows` rows, `cols` wide. */
  function Block(rows: nat, cols: nat): set<(int, int)>
  {
    set r: int, c: int | 0 <= r < rows && 0 <= c < cols :: (r, c)
  }

  /** The first `cols` cells of row `r`. */
  function RowCells(r: int, cols: nat): set<(int, int)>
  {
    set c: int | 0 <= c < cols :: (r, c)
  }

  lemma {:induction false} BlockCard(rows: nat, cols: nat)
    ensures |Block(rows, cols)| == rows * cols
  {
    if rows == 0 {
      assert Block(rows, cols) == {};
    } else {
      RowCard(rows - 1, cols);
      BlockCard(rows - 1, cols);
      BlockSplit(rows, cols);
      assert (rows - 1) * cols + cols == rows * cols;
    }
  }

  /** A block is the block one row shorter plus its last row, which it does not overlap. */
  lemma BlockSplit(rows: nat, cols: nat)
    requires rows > 0
    ensures |Block(rows, cols)| == |Block(rows - 1, cols)| + |RowCells(rows - 1, cols)|
  {
    var above, row := Block(rows - 1, cols), RowCells(rows - 1, cols);
    assert Block(rows, cols) == above + row by {
      forall p | p in Block(rows, cols) ensures p in above + row {
        if p.0 < rows - 1 {
          assert p in above;
        } else {
          assert p in row;
        }
      }
    }
    assert above * row == {} by {
      forall p | p in above ensures p !in row {
      }
    }
  }

  lemma {:induction false} RowCard(r: int, cols: nat)
    ensures |RowCells(r, cols)| == cols
  {
    if cols > 0 {
      RowCard(r, cols - 1);
      assert RowCells(r, cols) == RowCells(r, cols - 1) + {(r, cols - 1)};
    }
  }

  /** At most `dim * dim` cells are energized; none when the start is off the grid. */
  lemma EnergizedBound(grid: seq<seq<char>>, start: Beam, visited: set<Beam>)
    requires Square(grid) && Least(grid, start, visited)
    ensures |Cells(visited)| <= |grid| * |grid|
    ensures Oob(start, |grid|) ==> |Cells(visited)| == 0
  {
    assert Cells(visited) <= Block(|grid|, |grid|);
    SubsetCard(Cells(visited), Block(|grid|, |grid|));
    BlockCard(|grid|, |grid|);
    if Oob(start, |grid|) {
      assert Closed(grid, {}) && Seeded(grid, start, {});
      assert visited == {};
    }
  }

  // The inner loop as written.

  /**
   * One pass of the inner loop of `energized`: the beam it carries on
   * with, or `None` where it `break`s at a splitter.
   */
  function Advance(grid: seq<seq<char>>, beam: Beam): (r: Option<Beam>)
    requires Square(grid) && !Oob(beam, |grid|)
    ensures r.Some? ==> Successors(grid, beam) == {r.value}
    ensures r.None? ==> |Successors(grid, beam)| == 2
  {
    var c := grid[beam.loc.0][beam.loc.1];
    if c == '.' then Some(Next(beam))
    else if c == '\\' then Some(Next(Beam(beam.loc, Backslash(beam.dir))))
    else if c == '/' then Some(Next(Beam(beam.loc, Slash(beam.dir))))
    else if c == '-' then (if Horizontal(beam.dir) then Some(Next(beam)) else None)
    else if c == '|' then (if Horizontal(beam.dir) then None else Some(Next(beam)))
    else Some(beam)
  }

  datatype Option<T> = None | Some(value: T)

  /**
   * The inner loop of `energized` as written, run for at most `fuel`
   * passes: `None` once it has left the loop, else the beam it is still
   * following.
   */
  function InnerLoop(grid: seq<seq<char>>, beam: Beam, fuel: nat): (r: Option<Beam>)
    requires Square(grid)
    ensures r.Some? ==> !Oob(r.value, |grid|)
    decreases fuel
  {
    if Oob(beam, |grid|) then None
    else if fuel == 0 then Some(beam)
    else match Advance(grid, beam)
      case None => None
      case Some(next) => InnerLoop(grid, next, fuel - 1)
  }

  /** A 4 by 4 grid whose lower right corner holds a loop of mirrors through a '-' splitter. */
  const Trap: seq<seq<char>> := ["..\\.", "./.\\", ".\\-/", "...."]

  /** The beams of the loop, each moving on to the next. */
  const Loop: seq<Beam> := [
    Beam((2, 2), Right), Beam((2, 3), Right), Beam((1, 3), Up),
    Beam((1, 2), Left), Beam((1, 1), Left), Beam((2, 1), Down)]

  /** Light from the top left corner reaches the splitter from above, which starts the beam `Loop[0]`. */
  lemma LoopReached(c: set<Beam>)
    requires Square(Trap) && Closed(Trap, c) && Seeded(Trap, Beam((0, 0), Right), c)
    ensures Loop[0] in c
  {
    assert Beam((0, 1), Right) in c;
    assert Beam((0, 2), Right) in c;
    assert Beam((1, 2), Down) in c;
    assert Beam((2, 2), Down) in c;
  }

  /** The inner loop as written never leaves the loop of mirrors: `energized` does not return on `Trap`. */
  lemma {:induction false} CycleHangs(k: nat, fuel: nat)
    requires k < 6
    ensures Square(Trap) && InnerLoop(Trap, Loop[k], fuel).Some?
    decreases fuel
  {
    assert Square(Trap);
    if fuel > 0 {
      assert Advance(Trap, Loop[k]) == Some(Loop[(k + 1) % 6]);
      CycleHangs((k + 1) % 6, fuel - 1);
    }
  }
}

/**
 * mattdamachine/Day10/part_01: find the start `S` and walk the pipe loop
 * from it, always taking the first unvisited connecting pipe in the order
 * north, east, south, west, and count the steps.  Tiles are read as
 * one-character strings, and a side outside the grid reads as the empty
 * string, which no test accepts.
 */
module MattdamachineDay10 {
  import opened Text

  /** A cell: (row, column). */
  type Pos = (nat, nat)

  /** `Day10Error`, without the file-reading case. */
  datatype Day10Error = NoStartingIndexFound

  // ---------------------------------------------------------------------
  // find_starting_index

  /** `find_starting_index`: the first line holding an `S`, at its first `S`. */
  method FindStartingIndex(lines: seq<string>) returns (r: Result<Pos, Day10Error>)
    ensures r.Ok? ==>
      var (i, j) := r.value;
      i < |lines| && j < |lines[i]| && lines[i][j] == 'S' &&
      (forall k :: 0 <= k < j ==> lines[i][k] != 'S') &&
      (forall l :: 0 <= l < i ==> 'S' !in lines[l])
    ensures r.Err? <==> forall l :: 0 <= l < |lines| ==> 'S' !in lines[l]
  {
    for i := 0 to |lines|
      invariant forall l :: 0 <= l < i ==> 'S' !in lines[l]
    {
      if 'S' in lines[i] {
        var j := IndexOf(lines[i], 'S');
        return Ok((i, j));
      }
    }
    return Err(NoStartingIndexFound);
  }

  // ---------------------------------------------------------------------
  // The eight tests

  predicate CurrentPipeCanGoNorth(p: string) { p == "S" || p == "|" || p == "L" || p == "J" }
  predicate NorthPipeCanBeTravelled(p: string) { p == "|" || p == "7" || p == "F" }
  predicate CurrentPipeCanGoEast(p: string) { p == "S" || p == "-" || p == "L" || p == "F" }
  predicate EastPipeCanBeTravelled(p: string) { p == "-" || p == "J" || p == "7" }
  predicate CurrentPipeCanGoSouth(p: string) { p == "S" || p == "|" || p == "7" || p == "F" }
  predicate SouthPipeCanBeTravelled(p: string) { p == "|" || p == "L" || p == "J" }
  predicate CurrentPipeCanGoWest(p: string) { p == "S" || p == "-" || p == "J" || p == "7" }
  predicate WestPipeCanBeTravelled(p: string) { p == "-" || p == "L" || p == "F" }

  /** No neighbour test accepts the start, so the walk never steps back onto `S`. */
  lemma NeverEntersStart(p: string)
    requires NorthPipeCanBeTravelled(p) || EastPipeCanBeTravelled(p) || SouthPipeCanBeTravelled(p) || WestPipeCanBeTravelled(p)
    ensures |p| == 1 && p != "S"
  {
  }

  // ---------------------------------------------------------------------
  // traverse_the_pipes

  /** Every line as wide as the first, which is not empty: `pipes[0].len() - 1` is the east boundary. */
  predicate Rectangular(pipes: seq<string>)
  {
    |pipes| >= 1 && |pipes[0]| >= 1 && forall r :: 0 <= r < |pipes| ==> |pipes[r]| == |pipes[0]|
  }

  predicate InGrid(pipes: seq<string>, p: Pos)
  {
    p.0 < |pipes| && p.1 < |pipes[p.0]|
  }

  /** Every cell of the grid. */
  function AllCells(pipes: seq<string>): (r: set<Pos>)
    requires Rectangular(pipes)
    ensures forall p :: p in r <==> InGrid(pipes, p)
  {
    set i: nat, j: nat | i < |pipes| && j < |pipes[0]| :: (i, j)
  }

  /** The one-character string at a cell. */
  function Tile(pipes: seq<string>, p: Pos): (t: string)
    requires InGrid(pipes, p)
    ensures |t| == 1
  {
    pipes[p.0][p.1..p.1 + 1]
  }

  function NorthTile(pipes: seq<string>, p: Pos): string
    requires Rectangular(pipes) && InGrid(pipes, p)
  {
    if p.0 > 0 then pipes[p.0 - 1][p.1..p.1 + 1] else ""
  }

  function EastTile(pipes: seq<string>, p: Pos): string
    requires Rectangular(pipes) && InGrid(pipes, p)
  {
    if p.1 < |pipes[0]| - 1 then pipes[p.0][p.1 + 1..p.1 + 2] else ""
  }

  function SouthTile(pipes: seq<string>, p: Pos): string
    requires Rectangular(pipes) && InGrid(pipes, p)
  {
    if p.0 < |pipes| - 1 then pipes[p.0 + 1][p.1..p.1 + 1] else ""
  }

  function WestTile(pipes: seq<string>, p: Pos): string
    requires Rectangular(pipes) && InGrid(pipes, p)
  {
    if p.1 > 0 then pipes[p.0][p.1 - 1..p.1] else ""
  }

  /** The cell the walk enters next from `index`: the first test of the four that passes. */
  function Next(pipes: seq<string>, index: Pos, visited: set<Pos>): (r: Option<Pos>)
    requires Rectangular(pipes) && InGrid(pipes, index)
    ensures r.Some? ==> InGrid(pipes, r.value) && r.value !in visited
  {
    var current := Tile(pipes, index);
    if NorthPipeCanBeTravelled(NorthTile(pipes, index)) && CurrentPipeCanGoNorth(current) && (index.0 - 1, index.1) !in visited then
      Some((index.0 - 1, index.1))
    else if EastPipeCanBeTravelled(EastTile(pipes, index)) && CurrentPipeCanGoEast(current) && (index.0, index.1 + 1) !in visited then
      Some((index.0, index.1 + 1))
    else if SouthPipeCanBeTravelled(SouthTile(pipes, index)) && CurrentPipeCanGoSouth(current) && (index.0 + 1, index.1) !in visited then
      Some((index.0 + 1, index.1))
    else if WestPipeCanBeTravelled(WestTile(pipes, index)) && CurrentPipeCanGoWest(current) && (index.0, index.1 - 1) !in visited then
      Some((index.0, index.1 - 1))
    else
      None
  }

  /** The cells of the walk from `index`, which is in `visited`, to where no test passes. */
  function Path(pipes: seq<string>, index: Pos, visited: set<Pos>): (r: seq<Pos>)
    requires Rectangular(pipes) && InGrid(pipes, index) && visited <= AllCells(pipes)
    ensures |r| >= 1 && r[0] == index
    decreases |AllCells(pipes) - visited|
  {
    match Next(pipes, index, visited)
    case None => [index]
    case Some(q) =>
      assert AllCells(pipes) - (visited + {q}) == (AllCells(pipes) - visited) - {q};
      [index] + Path(pipes, q, visited + {q})
  }

  /** Each step enters an orthogonal neighbour whose pipe connects back. */
  predicate Connects(pipes: seq<string>, p: Pos, q: Pos)
    requires InGrid(pipes, p) && InGrid(pipes, q)
  {
    var here, there := Tile(pipes, p), Tile(pipes, q);
    (q.1 == p.1 && q.0 + 1 == p.0 && CurrentPipeCanGoNorth(here) && NorthPipeCanBeTravelled(there)) ||
    (q.0 == p.0 && q.1 == p.1 + 1 && CurrentPipeCanGoEast(here) && EastPipeCanBeTravelled(there)) ||
    (q.1 == p.1 && q.0 == p.0 + 1 && CurrentPipeCanGoSouth(here) && SouthPipeCanBeTravelled(there)) ||
    (q.0 == p.0 && q.1 + 1 == p.1 && CurrentPipeCanGoWest(here) && WestPipeCanBeTravelled(there))
  }

  /** The cells of a path. */
  function Elements(path: seq<Pos>): set<Pos>
  {
    set x | x in path
  }

  /** The step from `path[k]` to the cell after it follows a connecting pipe. */
  predicate StepConnects(pipes: seq<string>, path: seq<Pos>, k: nat)
    requires k + 1 < |path|
  {
    InGrid(pipes, path[k]) && InGrid(pipes, path[k + 1]) && Connects(pipes, path[k], path[k + 1])
  }

  /** A walk: every cell in the grid, consecutive cells connected, no cell twice. */
  predicate IsWalk(pipes: seq<string>, path: seq<Pos>)
  {
    (forall k :: 0 <= k < |path| ==> InGrid(pipes, path[k])) &&
    (forall k: nat :: k + 1 < |path| ==> StepConnects(pipes, path, k)) &&
    (forall k, l :: 0 <= k < l < |path| ==> path[k] != path[l])
  }

  /** A step the walk takes connects the two cells. */
  lemma NextConnects(pipes: seq<string>, index: Pos, visited: set<Pos>)
    requires Rectangular(pipes) && InGrid(pipes, index)
    requires Next(pipes, index, visited).Some?
    ensures Connects(pipes, index, Next(pipes, index, visited).value)
  {
  }

  /** Where a test passes, the path takes that step and goes on with the cell marked visited. */
  lemma PathStep(pipes: seq<string>, index: Pos, visited: set<Pos>, q: Pos)
    requires Rectangular(pipes) && InGrid(pipes, index) && visited <= AllCells(pipes)
    requires Next(pipes, index, visited) == Some(q)
    ensures visited + {q} <= AllCells(pipes) && InGrid(pipes, q)
    ensures |AllCells(pipes) - (visited + {q})| < |AllCells(pipes) - visited|
    ensures Path(pipes, index, visited) == [index] + Path(pipes, q, visited + {q})
  {
    assert AllCells(pipes) - (visited + {q}) == (AllCells(pipes) - visited) - {q};
  }

  /** The cells of `[x] + rest` after the first are those of `rest`. */
  lemma ConsIndex(path: seq<Pos>, x: Pos, rest: seq<Pos>)
    requires path == [x] + rest
    ensures |path| == |rest| + 1 && path[0] == x
    ensures forall k :: 1 <= k < |path| ==> path[k] == rest[k - 1]
  {
  }

  /** `[x] + rest` ends where `rest` does, and adds `x` to its cells. */
  lemma ConsEnds(path: seq<Pos>, x: Pos, rest: seq<Pos>, visited: set<Pos>)
    requires path == [x] + rest && rest != [] && x in visited
    ensures path[|path| - 1] == rest[|rest| - 1]
    ensures visited + Elements(path) == visited + {rest[0]} + Elements(rest)
  {
    assert Elements(path) == {x} + Elements(rest);
    assert rest[0] in Elements(rest);
  }

  /** Every cell after the first is new, and the cells are in the grid. */
  lemma {:induction false} PathAvoids(pipes: seq<string>, index: Pos, visited: set<Pos>)
    requires Rectangular(pipes) && InGrid(pipes, index) && visited <= AllCells(pipes)
    ensures var path := Path(pipes, index, visited);
      (forall k :: 1 <= k < |path| ==> path[k] !in visited) &&
      (forall k :: 0 <= k < |path| ==> InGrid(pipes, path[k]))
    decreases |AllCells(pipes) - visited|
  {
    var path := Path(pipes, index, visited);
    match Next(pipes, index, visited)
    case None =>
    case Some(q) =>
      PathStep(pipes, index, visited, q);
      var rest := Path(pipes, q, visited + {q});
      PathAvoids(pipes, q, visited + {q});
      ConsIndex(path, index, rest);
  }

  /** No cell of the path is listed twice. */
  lemma {:induction false} PathDistinct(pipes: seq<string>, index: Pos, visited: set<Pos>)
    requires Rectangular(pipes) && InGrid(pipes, index) && visited <= AllCells(pipes) && index in visited
    ensures var path := Path(pipes, index, visited);
      forall k, l :: 0 <= k < l < |path| ==> path[k] != path[l]
    decreases |AllCells(pipes) - visited|
  {
    var path := Path(pipes, index, visited);
    match Next(pipes, index, visited)
    case None =>
    case Some(q) =>
      PathStep(pipes, index, visited, q);
      var rest := Path(pipes, q, visited + {q});
      PathDistinct(pipes, q, visited + {q});
      PathAvoids(pipes, q, visited + {q});
      ConsIndex(path, index, rest);
      forall k, l | 0 <= k < l < |path| ensures path[k] != path[l] {
        if k == 0 && l > 1 {
          assert rest[l - 1] !in visited + {q};
        }
      }
  }

  /** Consecutive cells of the path are joined by connecting pipes. */
  lemma {:induction false} PathConnects(pipes: seq<string>, index: Pos, visited: set<Pos>)
    requires Rectangular(pipes) && InGrid(pipes, index) && visited <= AllCells(pipes)
    ensures var path := Path(pipes, index, visited);
      forall k: nat :: k + 1 < |path| ==> StepConnects(pipes, path, k)
    decreases |AllCells(pipes) - visited|
  {
    var path := Path(pipes, index, visited);
    match Next(pipes, index, visited)
    case None =>
    case Some(q) =>
      PathStep(pipes, index, visited, q);
      var rest := Path(pipes, q, visited + {q});
      PathConnects(pipes, q, visited + {q});
      NextConnects(pipes, index, visited);
      ConsIndex(path, index, rest);
      forall k: nat | k + 1 < |path| ensures StepConnects(pipes, path, k) {
        if k > 0 {
          assert StepConnects(pipes, rest, k - 1);
        }
      }
  }

  /** The walk ends at its last cell, where no test passes with every cell of the walk visited. */
  predicate Stuck(pipes: seq<string>, path: seq<Pos>, visited: set<Pos>)
    requires Rectangular(pipes)
  {
    path != [] && InGrid(pipes, path[|path| - 1]) && Next(pipes, path[|path| - 1], visited + Elements(path)) == None
  }

  /** The path ends where no test passes once its own cells are visited too. */
  lemma {:induction false} PathEnds(pipes: seq<string>, index: Pos, visited: set<Pos>)
    requires Rectangular(pipes) && InGrid(pipes, index) && visited <= AllCells(pipes) && index in visited
    ensures Stuck(pipes, Path(pipes, index, visited), visited)
    decreases |AllCells(pipes) - visited|
  {
    match Next(pipes, index, visited)
    case None =>
      EndsAtStart(pipes, index, visited);
    case Some(q) =>
      PathStep(pipes, index, visited, q);
      PathEnds(pipes, q, visited + {q});
      EndsStep(pipes, index, visited, q, Path(pipes, index, visited), Path(pipes, q, visited + {q}));
  }

  /** Where no test passes at the start, the walk is that one cell and ends there. */
  lemma EndsAtStart(pipes: seq<string>, index: Pos, visited: set<Pos>)
    requires Rectangular(pipes) && InGrid(pipes, index) && visited <= AllCells(pipes) && index in visited
    requires Next(pipes, index, visited) == None
    ensures Stuck(pipes, Path(pipes, index, visited), visited)
  {
    var path := Path(pipes, index, visited);
    assert path == [index];
    assert visited + Elements(path) == visited;
  }

  /** `[index] + rest` ends where `rest` does, with the same cells visited. */
  lemma EndsStep(pipes: seq<string>, index: Pos, visited: set<Pos>, q: Pos, path: seq<Pos>, rest: seq<Pos>)
    requires Rectangular(pipes) && index in visited
    requires path == [index] + rest && rest != [] && rest[0] == q
    requires Stuck(pipes, rest, visited + {q})
    ensures Stuck(pipes, path, visited)
  {
    ConsEnds(path, index, rest, visited);
  }

  /**
   * The path is a walk along connected pipes that never revisits a cell,
   * avoids the cells already visited, and stops where no test passes.
   */
  lemma PathIsWalk(pipes: seq<string>, index: Pos, visited: set<Pos>)
    requires Rectangular(pipes) && InGrid(pipes, index) && visited <= AllCells(pipes) && index in visited
    ensures var path := Path(pipes, index, visited);
      IsWalk(pipes, path) &&
      (forall k :: 1 <= k < |path| ==> path[k] !in visited) &&
      Stuck(pipes, path, visited)
  {
    PathAvoids(pipes, index, visited);
    PathDistinct(pipes, index, visited);
    PathConnects(pipes, index, visited);
    PathEnds(pipes, index, visited);
  }

  /** A step of the walk extends the cells walked so far by the cell it leaves. */
  lemma WalkStep(pipes: seq<string>, whole: seq<Pos>, walked: seq<Pos>, index: Pos, visited: set<Pos>, q: Pos)
    requires Rectangular(pipes) && InGrid(pipes, index) && visited <= AllCells(pipes)
    requires whole == walked + Path(pipes, index, visited)
    requires Next(pipes, index, visited) == Some(q)
    ensures visited + {q} <= AllCells(pipes) && InGrid(pipes, q)
    ensures |AllCells(pipes) - (visited + {q})| < |AllCells(pipes) - visited|
    ensures whole == (walked + [index]) + Path(pipes, q, visited + {q})
  {
    PathStep(pipes, index, visited, q);
  }

  /** Before the first step, the whole walk lies ahead. */
  lemma NothingWalked(whole: seq<Pos>)
    ensures whole == [] + whole
  {
  }

  /** Where no test passes, the walk ends at the current cell. */
  lemma WalkEnd(pipes: seq<string>, whole: seq<Pos>, walked: seq<Pos>, index: Pos, visited: set<Pos>)
    requires Rectangular(pipes) && InGrid(pipes, index) && visited <= AllCells(pipes)
    requires whole == walked + Path(pipes, index, visited)
    requires Next(pipes, index, visited) == None
    ensures |whole| - 1 == |walked|
  {
  }

  /**
   * One pass of the body of `traverse_the_pipes`' loop: the four tests in
   * the order north, east, south, west, each on the neighbouring tile (the
   * empty string past the boundary).  No test accepts `"S"`, so the tile
   * entered is never the start.
   */
  method ChooseNext(pipes: seq<string>, index: Pos, visited: set<Pos>) returns (next: Option<Pos>, nextPipe: string)
    requires Rectangular(pipes) && InGrid(pipes, index)
    ensures next == Next(pipes, index, visited)
    ensures next.Some? ==> nextPipe == Tile(pipes, next.value) && nextPipe != "S"
  {
    var eastBoundary := |pipes[0]| - 1;
    var southBoundary := |pipes| - 1;
    var currentPipe := pipes[index.0][index.1..index.1 + 1];
    var nPipe := if index.0 > 0 then pipes[index.0 - 1][index.1..index.1 + 1] else "";
    var ePipe := if index.1 < eastBoundary then pipes[index.0][index.1 + 1..index.1 + 2] else "";
    var sPipe := if index.0 < southBoundary then pipes[index.0 + 1][index.1..index.1 + 1] else "";
    var wPipe := if index.1 > 0 then pipes[index.0][index.1 - 1..index.1] else "";
    assert currentPipe == Tile(pipes, index) && nPipe == NorthTile(pipes, index) && ePipe == EastTile(pipes, index);
    assert sPipe == SouthTile(pipes, index) && wPipe == WestTile(pipes, index);
    if NorthPipeCanBeTravelled(nPipe) && CurrentPipeCanGoNorth(currentPipe) && (index.0 - 1, index.1) !in visited {
      NeverEntersStart(nPipe);
      return Some((index.0 - 1, index.1)), nPipe;
    } else if EastPipeCanBeTravelled(ePipe) && CurrentPipeCanGoEast(currentPipe) && (index.0, index.1 + 1) !in visited {
      NeverEntersStart(ePipe);
      return Some((index.0, index.1 + 1)), ePipe;
    } else if SouthPipeCanBeTravelled(sPipe) && CurrentPipeCanGoSouth(currentPipe) && (index.0 + 1, index.1) !in visited {
      NeverEntersStart(sPipe);
      return Some((index.0 + 1, index.1)), sPipe;
    } else if WestPipeCanBeTravelled(wPipe) && CurrentPipeCanGoWest(currentPipe) && (index.0, index.1 - 1) !in visited {
      NeverEntersStart(wPipe);
      return Some((index.0, index.1 - 1)), wPipe;
    }
    return None, "";
  }

  /**
   * `traverse_the_pipes`.  `next_pipe` never becomes `"S"`, so the loop
   * ends only at the `break`, when no test passes; it ends because every
   * step enters an unvisited cell of the finite grid.
   */
  method TraverseThePipes(startingIndex: Pos, pipes: seq<string>) returns (stepCounter: nat)
    requires Rectangular(pipes) && InGrid(pipes, startingIndex)
    ensures stepCounter == |Path(pipes, startingIndex, {startingIndex})| - 1
  {
    var index: Pos := startingIndex;
    var nextPipe := "";
    stepCounter := 0;
    var visited := {index};
    ghost var walked: seq<Pos> := [];
    NothingWalked(Path(pipes, startingIndex, {startingIndex}));
    while nextPipe != "S"
      invariant InGrid(pipes, index) && index in visited && visited <= AllCells(pipes)
      invariant nextPipe != "S"
      invariant Path(pipes, startingIndex, {startingIndex}) == walked + Path(pipes, index, visited)
      invariant stepCounter == |walked|
      decreases |AllCells(pipes) - visited|
    {
      var next, pipe := ChooseNext(pipes, index, visited);
      if next.None? {
        WalkEnd(pipes, Path(pipes, startingIndex, {startingIndex}), walked, index, visited);
        break;
      }
      WalkStep(pipes, Path(pipes, startingIndex, {startingIndex}), walked, index, visited, next.value);
      walked := walked + [index];
      nextPipe := pipe;
      index := next.value;
      stepCounter := stepCounter + 1;
      visited := visited + {index};
    }
  }

  /** `run`, after reading the file: the start, then the number of steps of the walk from it. */
  method Run(lines: seq<string>) returns (r: Result<nat, Day10Error>)
    requires Rectangular(lines)
    ensures r.Err? <==> forall l :: 0 <= l < |lines| ==> 'S' !in lines[l]
    ensures r.Ok? ==> exists s: Pos :: InGrid(lines, s) && lines[s.0][s.1] == 'S' && r.value == |Path(lines, s, {s})| - 1
  {
    var start := FindStartingIndex(lines);
    if start.Err? {
      return Err(start.error);
    }
    var steps := TraverseThePipes(start.value, lines);
    return Ok(steps);
  }
}

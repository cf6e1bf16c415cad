/**
 * lethalgem/day_11/part_2: the galaxies of the image are numbered in
 * reading order, every empty row and every empty column is widened to a
 * million (each gap coordinate adds 999999 to everything after it), and the
 * answer is the sum of the Manhattan distances over all pairs of galaxies.
 */
module LethalgemDay11Part2 {
  import opened Text
  import Galaxies
  import Sorting
  import Counting

  /** The solver's error type; it keeps the name it has in the source. */
  datatype Day9Error = UnableToLoadFile | ParseIntFailed | MissingXMapCoord | MissingYMapCoord | MissingNextGalaxy

  /** `x` is the column and `y` the row. */
  datatype Location = Location(x: nat, y: nat)

  datatype Galaxy = Galaxy(id: nat, location: Location)

  datatype GalaxyPair = GalaxyPair(start: Galaxy, end: Galaxy, shortestDistance: nat)

  /** What one empty row or column adds: it becomes a million of them. */
  const ExtraPerEmpty: nat := 999999

  function CellOf(l: Location): Galaxies.Cell
  {
    (l.y, l.x)
  }

  function Abs(v: int): nat
  {
    if v < 0 then -v else v
  }

  /** `calculate_shortest_distance`: the signed steps along each axis, their absolute values added. */
  function ShortestDistance(start: Location, end: Location): (r: nat)
    ensures r == Galaxies.Distance(CellOf(start), CellOf(end))
  {
    var xSteps: int := start.x - end.x;
    var ySteps: int := start.y - end.y;
    Abs(xSteps) + Abs(ySteps)
  }

  /** `GalaxyPair::new`: the pair with its distance filled in. */
  function NewPair(start: Galaxy, end: Galaxy): GalaxyPair
  {
    GalaxyPair(start, end, ShortestDistance(start.location, end.location))
  }

  /** `sum_shortest_distances`. */
  function SumShortestDistances(pairs: seq<GalaxyPair>): int
  {
    if pairs == [] then 0
    else SumShortestDistances(pairs[..|pairs| - 1]) + pairs[|pairs| - 1].shortestDistance
  }

  lemma {:induction false} SumAppend(a: seq<GalaxyPair>, b: seq<GalaxyPair>)
    ensures SumShortestDistances(a + b) == SumShortestDistances(a) + SumShortestDistances(b)
    decreases |b|
  {
    if b == [] {
      assert a + b == a;
    } else {
      assert (a + b)[..|a + b| - 1] == a + b[..|b| - 1];
      assert (a + b)[|a + b| - 1] == b[|b| - 1];
      SumAppend(a, b[..|b| - 1]);
    }
  }

  // ---------------------------------------------------------------------
  // create_pairs

  /** Galaxy `i` paired with galaxies `i + 1` up to (not including) `j`, in that order. */
  function PairsBetween(galaxies: seq<Galaxy>, i: nat, j: nat): (r: seq<GalaxyPair>)
    requires i < j <= |galaxies|
    ensures |r| == j - i - 1
    decreases j
  {
    if j == i + 1 then [] else PairsBetween(galaxies, i, j - 1) + [NewPair(galaxies[i], galaxies[j - 1])]
  }

  /** The `k`-th pair of galaxy `i` is the one with galaxy `i + 1 + k`. */
  lemma {:induction false} PairsBetweenAt(galaxies: seq<Galaxy>, i: nat, j: nat, k: nat)
    requires i < j <= |galaxies| && k < j - i - 1
    ensures PairsBetween(galaxies, i, j)[k] == NewPair(galaxies[i], galaxies[i + 1 + k])
    decreases j
  {
    if k < j - i - 2 {
      PairsBetweenAt(galaxies, i, j - 1, k);
    }
  }

  /** Every pair whose first galaxy is one of the first `i`, grouped by that galaxy. */
  function PairsUpTo(galaxies: seq<Galaxy>, i: nat): seq<GalaxyPair>
    requires i <= |galaxies|
  {
    if i == 0 then [] else PairsUpTo(galaxies, i - 1) + PairsBetween(galaxies, i - 1, |galaxies|)
  }

  /** Every pair `i < j` of galaxies, by `i` and then by `j`. */
  function AllPairs(galaxies: seq<Galaxy>): seq<GalaxyPair>
  {
    PairsUpTo(galaxies, |galaxies|)
  }

  /**
   * `create_pairs`.  The index `j` is always below the length, so the
   * `MissingNextGalaxy` error is never returned.
   */
  method CreatePairs(galaxies: seq<Galaxy>) returns (r: Result<seq<GalaxyPair>, Day9Error>)
    ensures r == Ok(AllPairs(galaxies))
  {
    var galaxyPairs: seq<GalaxyPair> := [];
    for i := 0 to |galaxies|
      invariant galaxyPairs == PairsUpTo(galaxies, i)
    {
      for j := i + 1 to |galaxies|
        invariant galaxyPairs == PairsUpTo(galaxies, i) + PairsBetween(galaxies, i, j)
      {
        galaxyPairs := galaxyPairs + [NewPair(galaxies[i], galaxies[j])];
      }
    }
    return Ok(galaxyPairs);
  }

  lemma CountStep(p: int, i: int, n: int)
    requires 2 * p == (i - 1) * (2 * n - i)
    ensures 2 * (p + (n - i)) == i * (2 * n - i - 1)
  {
  }

  lemma {:induction false} PairsUpToCount(galaxies: seq<Galaxy>, i: nat)
    requires i <= |galaxies|
    ensures 2 * |PairsUpTo(galaxies, i)| == i * (2 * |galaxies| - i - 1)
  {
    if i > 0 {
      PairsUpToCount(galaxies, i - 1);
      var p := |PairsUpTo(galaxies, i - 1)|;
      assert |PairsUpTo(galaxies, i)| == p + (|galaxies| - i);
      CountStep(p, i, |galaxies|);
    }
  }

  /** `n` galaxies make `n (n - 1) / 2` pairs. */
  lemma AllPairsCount(galaxies: seq<Galaxy>)
    ensures 2 * |AllPairs(galaxies)| == |galaxies| * (|galaxies| - 1)
  {
    PairsUpToCount(galaxies, |galaxies|);
  }

  /** Nine galaxies, as in the example image, make 36 pairs. */
  lemma NineGalaxiesPairs(galaxies: seq<Galaxy>)
    requires |galaxies| == 9
    ensures |AllPairs(galaxies)| == 36
  {
    AllPairsCount(galaxies);
  }

  lemma {:induction false} PairsUpToComplete(galaxies: seq<Galaxy>, n: nat, i: nat, j: nat)
    requires i < n <= |galaxies| && i < j < |galaxies|
    ensures NewPair(galaxies[i], galaxies[j]) in PairsUpTo(galaxies, n)
  {
    if i < n - 1 {
      PairsUpToComplete(galaxies, n - 1, i, j);
    } else {
      PairsBetweenAt(galaxies, i, |galaxies|, j - i - 1);
    }
  }

  /** Every pair `i < j` of galaxies is among the pairs created. */
  lemma AllPairsComplete(galaxies: seq<Galaxy>, i: nat, j: nat)
    requires i < j < |galaxies|
    ensures NewPair(galaxies[i], galaxies[j]) in AllPairs(galaxies)
  {
    PairsUpToComplete(galaxies, |galaxies|, i, j);
  }

  /** The cells of the galaxies, as (row, column). */
  function Cells(galaxies: seq<Galaxy>): (r: seq<Galaxies.Cell>)
    ensures |r| == |galaxies|
  {
    seq(|galaxies|, k requires 0 <= k < |galaxies| => CellOf(galaxies[k].location))
  }

  lemma {:induction false} PairsBetweenSum(galaxies: seq<Galaxy>, i: nat, j: nat)
    requires i < j <= |galaxies|
    ensures SumShortestDistances(PairsBetween(galaxies, i, j)) == Galaxies.RowSum(Cells(galaxies), i, j)
    decreases j
  {
    if j > i + 1 {
      PairsBetweenSum(galaxies, i, j - 1);
      var r := PairsBetween(galaxies, i, j);
      assert r[..|r| - 1] == PairsBetween(galaxies, i, j - 1);
    }
  }

  lemma {:induction false} PairsUpToSum(galaxies: seq<Galaxy>, i: nat)
    requires i <= |galaxies|
    ensures SumShortestDistances(PairsUpTo(galaxies, i)) == Galaxies.PairSumUpTo(Cells(galaxies), i)
  {
    if i > 0 {
      var front, row := PairsUpTo(galaxies, i - 1), PairsBetween(galaxies, i - 1, |galaxies|);
      var cells := Cells(galaxies);
      assert PairsUpTo(galaxies, i) == front + row;
      assert Galaxies.PairSumUpTo(cells, i) == Galaxies.PairSumUpTo(cells, i - 1) + Galaxies.RowSum(cells, i - 1, |galaxies|);
      PairsUpToSum(galaxies, i - 1);
      SumAppend(front, row);
      PairsBetweenSum(galaxies, i - 1, |galaxies|);
    }
  }

  /** The sum over the created pairs is the sum of distances over every pair of galaxy cells. */
  lemma AllPairsSum(galaxies: seq<Galaxy>)
    ensures SumShortestDistances(AllPairs(galaxies)) == Galaxies.PairSum(Cells(galaxies))
  {
    PairsUpToSum(galaxies, |galaxies|);
  }

  // ---------------------------------------------------------------------
  // find_galaxies

  /** The cells as galaxies numbered from 1. */
  function Numbered(cells: seq<Galaxies.Cell>): (r: seq<Galaxy>)
    ensures |r| == |cells|
    ensures forall k :: 0 <= k < |r| ==> r[k].id == k + 1 && CellOf(r[k].location) == cells[k]
  {
    seq(|cells|, k requires 0 <= k < |cells| => Galaxy(k + 1, Location(cells[k].1, cells[k].0)))
  }

  lemma NumberedSnoc(cells: seq<Galaxies.Cell>, c: Galaxies.Cell)
    ensures Numbered(cells + [c]) == Numbered(cells) + [Galaxy(|cells| + 1, Location(c.1, c.0))]
  {
  }

  /** One more character of row `y` read: a `#` adds the next galaxy. */
  lemma FoundStep(lines: seq<string>, y: nat, x: nat)
    requires y < |lines| && x < |lines[y]|
    ensures var before := Numbered(Galaxies.GridHashes(lines, y) + Galaxies.RowHashes(lines[y], y, x));
      Numbered(Galaxies.GridHashes(lines, y) + Galaxies.RowHashes(lines[y], y, x + 1))
        == before + (if lines[y][x] == '#' then [Galaxy(|before| + 1, Location(x, y))] else [])
  {
    var before := Galaxies.GridHashes(lines, y) + Galaxies.RowHashes(lines[y], y, x);
    Galaxies.HashesStep(lines, y, x);
    if lines[y][x] == '#' {
      NumberedSnoc(before, (y, x));
    }
  }

  /** `find_galaxies`: every `#`, row by row, numbered from 1 in the order found. */
  method FindGalaxies(universe: string) returns (galaxies: seq<Galaxy>)
    ensures galaxies == Numbered(Galaxies.Hashes(Lines(universe)))
  {
    var lines := Lines(universe);
    galaxies := [];
    for y := 0 to |lines|
      invariant galaxies == Numbered(Galaxies.GridHashes(lines, y))
    {
      var line := lines[y];
      assert Galaxies.GridHashes(lines, y) + Galaxies.RowHashes(line, y, 0) == Galaxies.GridHashes(lines, y);
      for x := 0 to |line|
        invariant galaxies == Numbered(Galaxies.GridHashes(lines, y) + Galaxies.RowHashes(line, y, x))
      {
        FoundStep(lines, y, x);
        if line[x] == '#' {
          galaxies := galaxies + [Galaxy(|galaxies| + 1, Location(x, y))];
        }
      }
    }
  }

  function Locations(galaxies: seq<Galaxy>): seq<Location>
  {
    seq(|galaxies|, k requires 0 <= k < |galaxies| => galaxies[k].location)
  }

  /**
   * What `find_galaxies` finds: galaxies numbered 1, 2, ... in reading
   * order, standing exactly on the `#` characters of the image.
   */
  lemma FoundGalaxies(lines: seq<string>)
    ensures var g := Numbered(Galaxies.Hashes(lines));
      (forall k :: 0 <= k < |g| ==> g[k].id == k + 1) &&
      (forall x: nat, y: nat :: Location(x, y) in Locations(g) <==> y < |lines| && x < |lines[y]| && lines[y][x] == '#') &&
      Galaxies.RowMajor(Cells(g))
  {
    var cells := Galaxies.Hashes(lines);
    var g := Numbered(cells);
    forall x: nat, y: nat
      ensures Location(x, y) in Locations(g) <==> y < |lines| && x < |lines[y]| && lines[y][x] == '#'
    {
      Galaxies.HashesExactly(lines, y, x);
      if (y, x) in cells {
        var k :| 0 <= k < |cells| && cells[k] == (y, x);
        assert Locations(g)[k] == Location(x, y);
      }
    }
    Galaxies.GridHashesRowMajor(lines, |lines|);
    assert Cells(g) == cells;
  }

  // ---------------------------------------------------------------------
  // build_map

  /** The coordinates below `i` that no galaxy has: the empty rows or columns before `i`. */
  function MissingBelow(coords: seq<nat>, i: nat): (r: nat)
    ensures r <= i
  {
    if i == 0 then 0 else MissingBelow(coords, i - 1) + (if i - 1 in coords then 0 else 1)
  }

  lemma {:induction false} MissingBelowMonotone(coords: seq<nat>, a: nat, b: nat)
    requires a <= b
    ensures MissingBelow(coords, a) <= MissingBelow(coords, b)
    decreases b
  {
    if a < b {
      MissingBelowMonotone(coords, a, b - 1);
    }
  }

  /** Only which coordinates occur matters, not their order or repetition. */
  lemma {:induction false} MissingBelowSameMembers(c1: seq<nat>, c2: seq<nat>, i: nat)
    requires forall v :: v in c1 <==> v in c2
    ensures MissingBelow(c1, i) == MissingBelow(c2, i)
  {
    if i > 0 {
      MissingBelowSameMembers(c1, c2, i - 1);
    }
  }

  /** `last().unwrap_or(&0)`. */
  function LastOr0(coords: seq<nat>): nat
  {
    if coords == [] then 0 else coords[|coords| - 1]
  }

  /** A coordinate moved past the widened gaps before it. */
  function Stretch(coords: seq<nat>, v: nat): nat
  {
    v + ExtraPerEmpty * MissingBelow(coords, v)
  }

  /**
   * The map `build_map` fills: every coordinate with a galaxy, up to the last
   * one listed, moved past the widened gaps before it.
   */
  function ExpansionMap(coords: seq<nat>): map<nat, nat>
  {
    map i | i in coords && i <= LastOr0(coords) :: Stretch(coords, i)
  }

  /** `build_map`: one pass over `0..=last`, counting the gaps passed so far. */
  method BuildMap(coordWithGalaxies: seq<nat>) returns (expandedMap: map<nat, nat>)
    ensures expandedMap == ExpansionMap(coordWithGalaxies)
  {
    var expansionCount: nat := 0;
    expandedMap := map[];
    var last := LastOr0(coordWithGalaxies);
    for i := 0 to last + 1
      invariant expansionCount == ExtraPerEmpty * MissingBelow(coordWithGalaxies, i)
      invariant expandedMap == map k | k in coordWithGalaxies && k < i :: Stretch(coordWithGalaxies, k)
    {
      if i !in coordWithGalaxies {
        expansionCount := expansionCount + ExtraPerEmpty;
      } else {
        expandedMap := expandedMap[i := i + expansionCount];
      }
    }
  }

  /** Stretching keeps order, and the distance grows by the widened gaps in between. */
  lemma StretchDiff(coords: seq<nat>, a: nat, b: nat)
    ensures Galaxies.AbsDiff(Stretch(coords, a), Stretch(coords, b))
      == Galaxies.AbsDiff(a, b) + ExtraPerEmpty * Galaxies.AbsDiff(MissingBelow(coords, a), MissingBelow(coords, b))
  {
    if a <= b {
      MissingBelowMonotone(coords, a, b);
    } else {
      MissingBelowMonotone(coords, b, a);
    }
  }

  // ---------------------------------------------------------------------
  // expand_universe

  /** `Vec::dedup`: runs of equal neighbours collapsed to one. */
  function Dedup(s: seq<nat>): (r: seq<nat>)
    ensures forall v :: v in r <==> v in s
    ensures s != [] ==> r != [] && r[0] == s[0] && r[|r| - 1] == s[|s| - 1]
    ensures forall k :: 0 <= k < |r| - 1 ==> r[k] != r[k + 1]
  {
    if |s| <= 1 then s
    else if s[0] == s[1] then Dedup(s[1..])
    else [s[0]] + Dedup(s[1..])
  }

  function Ys(galaxies: seq<Galaxy>): seq<nat>
  {
    seq(|galaxies|, k requires 0 <= k < |galaxies| => galaxies[k].location.y)
  }

  function Xs(galaxies: seq<Galaxy>): seq<nat>
  {
    seq(|galaxies|, k requires 0 <= k < |galaxies| => galaxies[k].location.x)
  }

  /** The rows with galaxies, deduplicated in the order the galaxies come. */
  function RowsWithGalaxies(galaxies: seq<Galaxy>): seq<nat>
  {
    Dedup(Ys(galaxies))
  }

  /** The columns with galaxies, sorted and deduplicated. */
  function ColsWithGalaxies(galaxies: seq<Galaxy>): seq<nat>
  {
    Dedup(Sorting.SortBy(Xs(galaxies), Counting.Single, false))
  }

  /**
   * Each galaxy relocated through the two maps, in order; the first galaxy
   * whose column, or else whose row, has no entry ends it with that error.
   */
  function ExpandWith(galaxies: seq<Galaxy>, colsMap: map<nat, nat>, rowsMap: map<nat, nat>): Result<seq<Galaxy>, Day9Error>
  {
    if galaxies == [] then Ok([])
    else
      match ExpandWith(galaxies[..|galaxies| - 1], colsMap, rowsMap)
      case Err(e) => Err(e)
      case Ok(done) =>
        var g := galaxies[|galaxies| - 1];
        if g.location.x !in colsMap then Err(MissingXMapCoord)
        else if g.location.y !in rowsMap then Err(MissingYMapCoord)
        else Ok(done + [Galaxy(g.id, Location(colsMap[g.location.x], rowsMap[g.location.y]))])
  }

  /** Once a prefix fails, the whole fails with the same error. */
  lemma {:induction false} ExpandErrPersists(galaxies: seq<Galaxy>, k: nat, colsMap: map<nat, nat>, rowsMap: map<nat, nat>)
    requires k <= |galaxies| && ExpandWith(galaxies[..k], colsMap, rowsMap).Err?
    ensures ExpandWith(galaxies, colsMap, rowsMap) == ExpandWith(galaxies[..k], colsMap, rowsMap)
    decreases |galaxies|
  {
    if k < |galaxies| {
      assert galaxies[..|galaxies| - 1][..k] == galaxies[..k];
      ExpandErrPersists(galaxies[..|galaxies| - 1], k, colsMap, rowsMap);
    } else {
      assert galaxies[..k] == galaxies;
    }
  }

  /** A galaxy moved through the two maps, its number kept. */
  function Relocate(g: Galaxy, colsMap: map<nat, nat>, rowsMap: map<nat, nat>): Galaxy
    requires g.location.x in colsMap && g.location.y in rowsMap
  {
    Galaxy(g.id, Location(colsMap[g.location.x], rowsMap[g.location.y]))
  }

  /** One more galaxy relocated after an expanded prefix. */
  lemma ExpandStep(galaxies: seq<Galaxy>, k: nat, colsMap: map<nat, nat>, rowsMap: map<nat, nat>, expanded: seq<Galaxy>)
    requires k < |galaxies| && ExpandWith(galaxies[..k], colsMap, rowsMap) == Ok(expanded)
    requires galaxies[k].location.x in colsMap && galaxies[k].location.y in rowsMap
    ensures ExpandWith(galaxies[..k + 1], colsMap, rowsMap) == Ok(expanded + [Relocate(galaxies[k], colsMap, rowsMap)])
  {
    assert galaxies[..k + 1][..k] == galaxies[..k];
  }

  /** A galaxy after an expanded prefix whose column, or else whose row, has no entry ends the expansion with that error. */
  lemma ExpandFailsAt(galaxies: seq<Galaxy>, k: nat, colsMap: map<nat, nat>, rowsMap: map<nat, nat>, expanded: seq<Galaxy>)
    requires k < |galaxies| && ExpandWith(galaxies[..k], colsMap, rowsMap) == Ok(expanded)
    requires galaxies[k].location.x !in colsMap || galaxies[k].location.y !in rowsMap
    ensures ExpandWith(galaxies, colsMap, rowsMap) ==
      if galaxies[k].location.x !in colsMap then Err(MissingXMapCoord) else Err(MissingYMapCoord)
  {
    assert galaxies[..k + 1][..k] == galaxies[..k];
    ExpandErrPersists(galaxies, k + 1, colsMap, rowsMap);
  }

  /** `expand_universe`. */
  method ExpandUniverse(galaxies: seq<Galaxy>) returns (r: Result<seq<Galaxy>, Day9Error>)
    ensures r == ExpandWith(galaxies, ExpansionMap(ColsWithGalaxies(galaxies)), ExpansionMap(RowsWithGalaxies(galaxies)))
  {
    var expandedRowsMap := BuildMap(RowsWithGalaxies(galaxies));
    var expandedColsMap := BuildMap(ColsWithGalaxies(galaxies));
    var expanded: seq<Galaxy> := [];
    for k := 0 to |galaxies|
      invariant ExpandWith(galaxies[..k], expandedColsMap, expandedRowsMap) == Ok(expanded)
    {
      var g := galaxies[k];
      if g.location.x !in expandedColsMap {
        ExpandFailsAt(galaxies, k, expandedColsMap, expandedRowsMap, expanded);
        return Err(MissingXMapCoord);
      }
      if g.location.y !in expandedRowsMap {
        ExpandFailsAt(galaxies, k, expandedColsMap, expandedRowsMap, expanded);
        return Err(MissingYMapCoord);
      }
      ExpandStep(galaxies, k, expandedColsMap, expandedRowsMap, expanded);
      expanded := expanded + [Galaxy(g.id, Location(expandedColsMap[g.location.x], expandedRowsMap[g.location.y]))];
    }
    assert galaxies[..|galaxies|] == galaxies;
    return Ok(expanded);
  }

  /** Galaxies listed with their rows never decreasing, as `find_galaxies` lists them. */
  predicate RowsInOrder(galaxies: seq<Galaxy>)
  {
    forall k, l :: 0 <= k < l < |galaxies| ==> galaxies[k].location.y <= galaxies[l].location.y
  }

  /** Each galaxy moved past the widened rows and columns before it, its number kept. */
  function Stretched(galaxies: seq<Galaxy>): (r: seq<Galaxy>)
    ensures |r| == |galaxies|
  {
    seq(|galaxies|, k requires 0 <= k < |galaxies| =>
      Galaxy(galaxies[k].id, Location(Stretch(Xs(galaxies), galaxies[k].location.x), Stretch(Ys(galaxies), galaxies[k].location.y))))
  }

  lemma {:induction false} ExpandAllPresent(galaxies: seq<Galaxy>, colsMap: map<nat, nat>, rowsMap: map<nat, nat>)
    requires forall k :: 0 <= k < |galaxies| ==> galaxies[k].location.x in colsMap && galaxies[k].location.y in rowsMap
    ensures var r := ExpandWith(galaxies, colsMap, rowsMap);
      r.Ok? && |r.value| == |galaxies| &&
      forall k :: 0 <= k < |galaxies| ==> r.value[k] == Relocate(galaxies[k], colsMap, rowsMap)
    decreases |galaxies|
  {
    if galaxies != [] {
      var front := galaxies[..|galaxies| - 1];
      ExpandAllPresent(front, colsMap, rowsMap);
    }
  }

  /** The last of an ascending sequence is its largest element. */
  lemma SortedLastIsMax(s: seq<nat>, v: nat)
    requires Sorting.SortedBy(s, Counting.Single, false) && v in s
    ensures v <= s[|s| - 1]
  {
    var k :| 0 <= k < |s| && s[k] == v;
    if k < |s| - 1 {
      assert Sorting.Before(Counting.Single, false, s[k], s[|s| - 1]);
      assert Sorting.LexLe([s[k]], [s[|s| - 1]]);
    }
  }

  /** Every galaxy's column has an entry, which moves it past the empty columns left of it. */
  lemma ColsMapEntry(galaxies: seq<Galaxy>, k: nat)
    requires k < |galaxies|
    ensures var x, colsMap := galaxies[k].location.x, ExpansionMap(ColsWithGalaxies(galaxies));
      x in colsMap && colsMap[x] == Stretch(Xs(galaxies), x)
  {
    var x := galaxies[k].location.x;
    var sorted := Sorting.SortBy(Xs(galaxies), Counting.Single, false);
    var cols := ColsWithGalaxies(galaxies);
    assert forall v :: v in sorted <==> v in Xs(galaxies) by {
      assert forall v :: v in sorted <==> v in multiset(sorted);
      assert multiset(sorted) == multiset(Xs(galaxies));
    }
    assert Xs(galaxies)[k] == x;
    SortedLastIsMax(sorted, x);
    MissingBelowSameMembers(cols, Xs(galaxies), x);
  }

  /** For galaxies in row order, every galaxy's row has an entry, which moves it past the empty rows above it. */
  lemma RowsMapEntry(galaxies: seq<Galaxy>, k: nat)
    requires RowsInOrder(galaxies) && k < |galaxies|
    ensures var y, rowsMap := galaxies[k].location.y, ExpansionMap(RowsWithGalaxies(galaxies));
      y in rowsMap && rowsMap[y] == Stretch(Ys(galaxies), y)
  {
    var y := galaxies[k].location.y;
    var rows := RowsWithGalaxies(galaxies);
    assert Ys(galaxies)[k] == y;
    assert y in rows;
    var n := |galaxies|;
    assert LastOr0(rows) == galaxies[n - 1].location.y by {
      assert Ys(galaxies)[n - 1] == galaxies[n - 1].location.y;
    }
    if k < n - 1 {
      assert y <= galaxies[n - 1].location.y;
    }
    MissingBelowSameMembers(rows, Ys(galaxies), y);
  }

  /**
   * For galaxies listed row by row, `expand_universe` succeeds, and each
   * galaxy moves past the empty rows above it and the empty columns left of
   * it, each widened to a million.
   */
  lemma ExpandUniverseOk(galaxies: seq<Galaxy>)
    requires RowsInOrder(galaxies)
    ensures ExpandWith(galaxies, ExpansionMap(ColsWithGalaxies(galaxies)), ExpansionMap(RowsWithGalaxies(galaxies)))
      == Ok(Stretched(galaxies))
  {
    var colsMap, rowsMap := ExpansionMap(ColsWithGalaxies(galaxies)), ExpansionMap(RowsWithGalaxies(galaxies));
    forall k | 0 <= k < |galaxies|
      ensures galaxies[k].location.x in colsMap && galaxies[k].location.y in rowsMap
      ensures Relocate(galaxies[k], colsMap, rowsMap) == Stretched(galaxies)[k]
    {
      ColsMapEntry(galaxies, k);
      RowsMapEntry(galaxies, k);
    }
    ExpandAllPresent(galaxies, colsMap, rowsMap);
    var r := ExpandWith(galaxies, colsMap, rowsMap);
    assert r.value == Stretched(galaxies);
  }

  /** Galaxies out of row order: a row past the last galaxy's row has no entry. */
  lemma ExpandRowsOutOfOrder()
    ensures var g := [Galaxy(1, Location(0, 1)), Galaxy(2, Location(0, 0))];
      ExpandWith(g, ExpansionMap(ColsWithGalaxies(g)), ExpansionMap(RowsWithGalaxies(g))) == Err(MissingYMapCoord)
  {
    var g := [Galaxy(1, Location(0, 1)), Galaxy(2, Location(0, 0))];
    assert Ys(g) == [1, 0];
    var rows := RowsWithGalaxies(g);
    assert rows == [1] + Dedup([0]);
    var rowsMap := ExpansionMap(rows);
    assert 1 !in rowsMap;
    assert Xs(g)[0] == 0;
    var sorted := Sorting.SortBy(Xs(g), Counting.Single, false);
    assert 0 in sorted by {
      assert 0 in multiset(Xs(g));
    }
    var colsMap := ExpansionMap(ColsWithGalaxies(g));
    assert 0 in colsMap;
    assert g[..1][..0] == [];
    assert ExpandWith(g[..1], colsMap, rowsMap) == Err(MissingYMapCoord);
  }

  /** The distance between two expanded galaxies: the original one plus a million minus one per empty row or column between them. */
  lemma ExpandedDistance(galaxies: seq<Galaxy>, i: nat, j: nat)
    requires i < |galaxies| && j < |galaxies|
    ensures var a, b := galaxies[i].location, galaxies[j].location;
      var e := Stretched(galaxies);
      ShortestDistance(e[i].location, e[j].location) == ShortestDistance(a, b)
        + ExtraPerEmpty * (Galaxies.AbsDiff(MissingBelow(Xs(galaxies), a.x), MissingBelow(Xs(galaxies), b.x))
          + Galaxies.AbsDiff(MissingBelow(Ys(galaxies), a.y), MissingBelow(Ys(galaxies), b.y)))
  {
    var a, b := galaxies[i].location, galaxies[j].location;
    StretchDiff(Xs(galaxies), a.x, b.x);
    StretchDiff(Ys(galaxies), a.y, b.y);
  }

  /**
   * The whole run on an image: the galaxies found are in row order, so
   * expanding them succeeds, and the answer is the sum of distances over
   * every pair of the expanded galaxies.
   */
  lemma RunSucceeds(lines: seq<string>)
    ensures var g := Numbered(Galaxies.Hashes(lines));
      ExpandWith(g, ExpansionMap(ColsWithGalaxies(g)), ExpansionMap(RowsWithGalaxies(g))) == Ok(Stretched(g)) &&
      SumShortestDistances(AllPairs(Stretched(g))) == Galaxies.PairSum(Cells(Stretched(g)))
  {
    var g := Numbered(Galaxies.Hashes(lines));
    FoundGalaxies(lines);
    assert RowsInOrder(g) by {
      forall k, l | 0 <= k < l < |g| ensures g[k].location.y <= g[l].location.y {
        assert Cells(g)[k] == CellOf(g[k].location) && Cells(g)[l] == CellOf(g[l].location);
      }
    }
    ExpandUniverseOk(g);
    AllPairsSum(Stretched(g));
  }
}

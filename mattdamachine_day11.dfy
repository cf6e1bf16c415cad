/**
 * mattdamachine/Day11/part_01: the image is expanded in place, a row of dots
 * inserted before every row without a galaxy and a dot before every column
 * without one, then the galaxies of the expanded image are listed row by row
 * and the Manhattan distances over every pair of them are added up.
 */
module MattdamachineDay11 {
  import opened Text
  import Galaxies

  datatype Day11Error = FailedToReadFile

  // ---------------------------------------------------------------------
  // Inserting a filler before selected positions

  /** `Vec::insert` and `String::insert`: `x` placed at index `p`, everything from `p` on shifted right. */
  function InsertAt<T>(s: seq<T>, p: nat, x: T): (r: seq<T>)
    requires p <= |s|
    ensures |r| == |s| + 1 && r[p] == x
    ensures forall k :: 0 <= k < p ==> r[k] == s[k]
    ensures forall k :: p <= k < |s| ==> r[k + 1] == s[k]
  {
    s[..p] + [x] + s[p..]
  }

  /** Strictly increasing positions, all inside `s`. */
  predicate Selects<T>(s: seq<T>, sel: seq<nat>)
  {
    (forall j :: 0 <= j < |sel| ==> sel[j] < |s|) &&
    (forall j, k :: 0 <= j < k < |sel| ==> sel[j] < sel[k])
  }

  /**
   * The first `i` insertions as the source does them: the `j`-th filler goes
   * to `sel[j] + j`, past the `j` fillers already inserted before it.
   */
  function InsertedFirst<T>(s: seq<T>, sel: seq<nat>, filler: T, i: nat): (r: seq<T>)
    requires Selects(s, sel) && i <= |sel|
    ensures |r| == |s| + i
  {
    if i == 0 then s else InsertAt(InsertedFirst(s, sel, filler, i - 1), sel[i - 1] + i - 1, filler)
  }

  /** The first `n` elements of `s`, each selected one preceded by a filler. */
  function DoubledUpTo<T>(s: seq<T>, sel: seq<nat>, filler: T, n: nat): seq<T>
    requires n <= |s|
  {
    if n == 0 then []
    else DoubledUpTo(s, sel, filler, n - 1) + (if n - 1 in sel then [filler, s[n - 1]] else [s[n - 1]])
  }

  /** `s` with a filler in front of every selected element. */
  function Doubled<T>(s: seq<T>, sel: seq<nat>, filler: T): seq<T>
  {
    DoubledUpTo(s, sel, filler, |s|)
  }

  /** Over a stretch with nothing selected, the elements are copied as they are. */
  lemma {:induction false} DoubledCopies<T>(s: seq<T>, sel: seq<nat>, filler: T, a: nat, c: nat)
    requires a <= c <= |s|
    requires forall k :: a <= k < c ==> k !in sel
    ensures DoubledUpTo(s, sel, filler, c) == DoubledUpTo(s, sel, filler, a) + s[a..c]
    decreases c
  {
    if a < c {
      DoubledCopies(s, sel, filler, a, c - 1);
      assert s[a..c] == s[a..c - 1] + [s[c - 1]];
    }
  }

  /** Where the insertions have got to after `i` of them. */
  function Reached(sel: seq<nat>, i: nat): nat
    requires i <= |sel|
  {
    if i == 0 then 0 else sel[i - 1] + 1
  }

  /** Nothing is selected between where `i` insertions have got to and the next selected position. */
  lemma NoneSelectedBefore<T>(s: seq<T>, sel: seq<nat>, i: nat, c: nat, k: nat)
    requires Selects(s, sel) && i <= |sel|
    requires c == (if i < |sel| then sel[i] else |s|)
    requires Reached(sel, i) <= k < c
    ensures k !in sel
  {
    forall j | 0 <= j < |sel| ensures sel[j] != k {
      if j < i {
        if j < i - 1 {
          assert sel[j] < sel[i - 1];
        }
      } else if i < j {
        assert sel[i] < sel[j];
      }
    }
  }

  lemma Reaches<T>(s: seq<T>, sel: seq<nat>, i: nat)
    requires Selects(s, sel) && i <= |sel|
    ensures Reached(sel, i) <= (if i < |sel| then sel[i] else |s|)
  {
    if 0 < i < |sel| {
      assert sel[i - 1] < sel[i];
    }
  }

  /** Before the `i`-th insertion, the doubled part reaches up to the `i`-th selected position. */
  lemma DoubledUpToNext<T>(s: seq<T>, sel: seq<nat>, filler: T, i: nat, prev: seq<T>)
    requires Selects(s, sel) && 0 < i <= |sel|
    requires Reached(sel, i - 1) <= |s|
    requires prev == DoubledUpTo(s, sel, filler, Reached(sel, i - 1)) + s[Reached(sel, i - 1)..]
    requires |DoubledUpTo(s, sel, filler, Reached(sel, i - 1))| == Reached(sel, i - 1) + i - 1
    ensures var c := sel[i - 1];
      prev == DoubledUpTo(s, sel, filler, c) + s[c..] && |DoubledUpTo(s, sel, filler, c)| == c + i - 1
  {
    var b, c := Reached(sel, i - 1), sel[i - 1];
    Reaches(s, sel, i - 1);
    forall k | b <= k < c ensures k !in sel {
      NoneSelectedBefore(s, sel, i - 1, c, k);
    }
    DoubledCopies(s, sel, filler, b, c);
    assert s[b..] == s[b..c] + s[c..];
  }

  /** Inserting right after a prefix puts the element between the prefix and the rest. */
  lemma InsertAfter<T>(front: seq<T>, rest: seq<T>, x: T)
    ensures InsertAt(front + rest, |front|, x) == front + [x] + rest
  {
    assert (front + rest)[..|front|] == front && (front + rest)[|front|..] == rest;
  }

  /** The `i`-th insertion, made after the part reached so far has been doubled. */
  lemma InsertedStep<T>(s: seq<T>, sel: seq<nat>, filler: T, i: nat, prev: seq<T>)
    requires Selects(s, sel) && 0 < i <= |sel|
    requires Reached(sel, i - 1) <= |s|
    requires prev == DoubledUpTo(s, sel, filler, Reached(sel, i - 1)) + s[Reached(sel, i - 1)..]
    requires |DoubledUpTo(s, sel, filler, Reached(sel, i - 1))| == Reached(sel, i - 1) + i - 1
    ensures var c := sel[i - 1];
      InsertAt(prev, c + i - 1, filler) == DoubledUpTo(s, sel, filler, c + 1) + s[c + 1..] &&
      |DoubledUpTo(s, sel, filler, c + 1)| == c + 1 + i
  {
    var c := sel[i - 1];
    DoubledUpToNext(s, sel, filler, i, prev);
    var front := DoubledUpTo(s, sel, filler, c);
    InsertAfter(front, s[c..], filler);
    assert c in sel;
    assert DoubledUpTo(s, sel, filler, c + 1) == front + [filler, s[c]];
    assert s[c..] == [s[c]] + s[c + 1..];
  }

  /** After `i` insertions, the part reached is doubled and the rest is untouched. */
  lemma {:induction false} InsertedSoFar<T>(s: seq<T>, sel: seq<nat>, filler: T, i: nat)
    requires Selects(s, sel) && i <= |sel|
    ensures var b := Reached(sel, i);
      b <= |s| &&
      InsertedFirst(s, sel, filler, i) == DoubledUpTo(s, sel, filler, b) + s[b..] &&
      |DoubledUpTo(s, sel, filler, b)| == b + i
  {
    if i > 0 {
      InsertedSoFar(s, sel, filler, i - 1);
      InsertedStep(s, sel, filler, i, InsertedFirst(s, sel, filler, i - 1));
    }
  }

  /** Doing every insertion as the source does puts a filler in front of every selected element. */
  lemma InsertedAll<T>(s: seq<T>, sel: seq<nat>, filler: T)
    requires Selects(s, sel)
    ensures InsertedFirst(s, sel, filler, |sel|) == Doubled(s, sel, filler)
    ensures |Doubled(s, sel, filler)| == |s| + |sel|
  {
    InsertedSoFar(s, sel, filler, |sel|);
    var b := Reached(sel, |sel|);
    forall k | b <= k < |s| ensures k !in sel {
      NoneSelectedBefore(s, sel, |sel|, |s|, k);
    }
    DoubledCopies(s, sel, filler, b, |s|);
    assert s[b..] == s[b..|s|];
  }

  /** Fillers add no other element: every value but the filler occurs as often as before. */
  lemma {:induction false} DoubledKeeps<T>(s: seq<T>, sel: seq<nat>, filler: T, x: T, n: nat)
    requires n <= |s| && x != filler
    ensures multiset(DoubledUpTo(s, sel, filler, n))[x] == multiset(s[..n])[x]
  {
    if n > 0 {
      DoubledKeeps(s, sel, filler, x, n - 1);
      assert s[..n] == s[..n - 1] + [s[n - 1]];
    }
  }

  /** Somewhere in `d`, `x` comes right after a filler. */
  ghost predicate FillerBefore<T>(d: seq<T>, filler: T, x: T)
  {
    exists p :: 0 < p < |d| && d[p - 1] == filler && d[p] == x
  }

  /** Every selected element ends up right after a filler. */
  lemma {:induction false} DoubledBefore<T>(s: seq<T>, sel: seq<nat>, filler: T, n: nat, k: nat)
    requires k < n <= |s| && k in sel
    ensures FillerBefore(DoubledUpTo(s, sel, filler, n), filler, s[k])
  {
    var d := DoubledUpTo(s, sel, filler, n);
    var front := DoubledUpTo(s, sel, filler, n - 1);
    assert d == front + (if n - 1 in sel then [filler, s[n - 1]] else [s[n - 1]]);
    if k < n - 1 {
      DoubledBefore(s, sel, filler, n - 1, k);
      var p :| 0 < p < |front| && front[p - 1] == filler && front[p] == s[k];
      assert d[p - 1] == filler && d[p] == s[k];
    } else {
      var p := |front| + 1;
      assert d[p - 1] == filler && d[p] == s[k];
    }
  }

  // ---------------------------------------------------------------------
  // expand_universe

  /** `".".repeat(w)`. */
  function Dots(w: nat): (r: string)
    ensures |r| == w && '#' !in r
  {
    seq(w, _ => '.')
  }

  /** The rows below `n` without a galaxy, in order. */
  function EmptyRowsBelow(lines: seq<string>, n: nat): (r: seq<nat>)
    requires n <= |lines|
    ensures forall j :: 0 <= j < |r| ==> r[j] < n
    ensures Selects(lines, r)
    ensures forall k :: k in r <==> 0 <= k < n && '#' !in lines[k]
  {
    if n == 0 then []
    else
      var front := EmptyRowsBelow(lines, n - 1);
      if '#' !in lines[n - 1] then front + [n - 1] else front
  }

  /** Every line at least as long as the first: nothing the column scan reads is missing. */
  predicate WideEnough(lines: seq<string>)
  {
    |lines| >= 1 && forall l :: 0 <= l < |lines| ==> |lines[l]| >= |lines[0]|
  }

  /** No `#` at column `c` in the first `k` lines. */
  predicate ClearAbove(lines: seq<string>, c: nat, k: nat)
    requires WideEnough(lines) && c < |lines[0]| && k <= |lines|
  {
    k == 0 || (ClearAbove(lines, c, k - 1) && lines[k - 1][c] != '#')
  }

  lemma {:induction false} ClearAboveMeans(lines: seq<string>, c: nat, k: nat)
    requires WideEnough(lines) && c < |lines[0]| && k <= |lines|
    ensures ClearAbove(lines, c, k) <==> forall l :: 0 <= l < k ==> lines[l][c] != '#'
  {
    if k > 0 {
      ClearAboveMeans(lines, c, k - 1);
    }
  }

  /** A `#` in line `k` at column `c` makes the column not clear from there on. */
  lemma {:induction false} ClearAboveStops(lines: seq<string>, c: nat, k: nat, n: nat)
    requires WideEnough(lines) && c < |lines[0]| && k < n <= |lines| && lines[k][c] == '#'
    ensures !ClearAbove(lines, c, n)
    decreases n
  {
    if k < n - 1 {
      ClearAboveStops(lines, c, k, n - 1);
    }
  }

  /** A column is taken as empty when the first line has a `.` there and no line a `#`. */
  predicate EmptyColumn(lines: seq<string>, c: nat)
    requires WideEnough(lines) && c < |lines[0]|
  {
    lines[0][c] == '.' && ClearAbove(lines, c, |lines|)
  }

  /** The same positions selected in every line. */
  predicate SelectsAll(lines: seq<string>, sel: seq<nat>)
  {
    forall l :: 0 <= l < |lines| ==> Selects(lines[l], sel)
  }

  /** The empty columns below `n`, in order. */
  function EmptyColumnsBelow(lines: seq<string>, n: nat): (r: seq<nat>)
    requires WideEnough(lines) && n <= |lines[0]|
    ensures forall j :: 0 <= j < |r| ==> r[j] < n
    ensures SelectsAll(lines, r)
    ensures forall k :: k in r <==> 0 <= k < n && EmptyColumn(lines, k)
  {
    if n == 0 then []
    else
      var front := EmptyColumnsBelow(lines, n - 1);
      if EmptyColumn(lines, n - 1) then front + [n - 1] else front
  }

  /** Every line after its first `i` column insertions. */
  function EveryLineInserted(lines: seq<string>, sel: seq<nat>, i: nat): (r: seq<string>)
    requires SelectsAll(lines, sel) && i <= |sel|
    ensures |r| == |lines|
  {
    seq(|lines|, l requires 0 <= l < |lines| => InsertedFirst(lines[l], sel, '.', i))
  }

  /** Every line after its first `i` column insertions, and the `i + 1`-th made in the lines before `k`. */
  function PartlyInserted(lines: seq<string>, sel: seq<nat>, i: nat, k: nat): (r: seq<string>)
    requires SelectsAll(lines, sel) && i < |sel|
    ensures |r| == |lines|
  {
    seq(|lines|, l requires 0 <= l < |lines| => InsertedFirst(lines[l], sel, '.', if l < k then i + 1 else i))
  }

  /** A round of column insertions starts from every line with `i` insertions and ends with `i + 1`. */
  lemma PartlyInsertedEnds(lines: seq<string>, sel: seq<nat>, i: nat)
    requires SelectsAll(lines, sel) && i < |sel|
    ensures PartlyInserted(lines, sel, i, 0) == EveryLineInserted(lines, sel, i)
    ensures PartlyInserted(lines, sel, i, |lines|) == EveryLineInserted(lines, sel, i + 1)
  {
  }

  /** The `i`-th column insertion made in line `k`, the lines before it already done. */
  lemma ColumnStep(rows: seq<string>, sel: seq<nat>, i: nat, k: nat, lines: seq<string>)
    requires SelectsAll(rows, sel) && i < |sel| && k < |rows|
    requires lines == PartlyInserted(rows, sel, i, k)
    ensures sel[i] + i <= |lines[k]|
    ensures lines[k := InsertAt(lines[k], sel[i] + i, '.')] == PartlyInserted(rows, sel, i, k + 1)
  {
    assert lines[k] == InsertedFirst(rows[k], sel, '.', i);
    assert Selects(rows[k], sel);
  }

  /** The image with a row of dots, as wide as the first line, before every row without a galaxy. */
  function RowsExpanded(lines: seq<string>): seq<string>
    requires |lines| >= 1
  {
    Doubled(lines, EmptyRowsBelow(lines, |lines|), Dots(|lines[0]|))
  }

  /** The image with a dot before every empty column, on every line. */
  function ColumnsExpanded(lines: seq<string>): (r: seq<string>)
    requires WideEnough(lines)
    ensures |r| == |lines|
  {
    var cols := EmptyColumnsBelow(lines, |lines[0]|);
    seq(|lines|, l requires 0 <= l < |lines| => Doubled(lines[l], cols, '.'))
  }

  /** Rows of dots as wide as the first line keep every line at least as long as the first. */
  lemma {:induction false} RowsExpandedWide(lines: seq<string>, n: nat)
    requires WideEnough(lines) && 1 <= n <= |lines|
    ensures var d := DoubledUpTo(lines, EmptyRowsBelow(lines, |lines|), Dots(|lines[0]|), n);
      |d| >= 1 && |d[0]| == |lines[0]| && forall l :: 0 <= l < |d| ==> |d[l]| >= |lines[0]|
  {
    if n > 1 {
      RowsExpandedWide(lines, n - 1);
    }
  }

  /** The column expansion adds no galaxy and loses none, line by line. */
  lemma ColumnsKeepGalaxies(lines: seq<string>, l: nat)
    requires WideEnough(lines) && l < |lines|
    ensures multiset(ColumnsExpanded(lines)[l])['#'] == multiset(lines[l])['#']
  {
    DoubledKeeps(lines[l], EmptyColumnsBelow(lines, |lines[0]|), '.', '#', |lines[l]|);
    assert lines[l][..|lines[l]|] == lines[l];
  }

  /** The image after both expansions. */
  function ExpandedUniverse(lines: seq<string>): seq<string>
    requires WideEnough(lines)
  {
    RowsExpandedWide(lines, |lines|);
    ColumnsExpanded(RowsExpanded(lines))
  }

  /**
   * `expand_universe`.  It reads `lines[0]` and, for each column where the
   * first line has a dot, the character at that column of every line up to
   * the first `#`, so the image must have a line and no line may be
   * narrower than the first.
   */
  method ExpandUniverse(image: seq<string>) returns (lines: seq<string>)
    requires WideEnough(image)
    ensures lines == ExpandedUniverse(image)
  {
    lines := InsertEmptyRows(image);
    RowsExpandedWide(image, |image|);
    var emptyColumns := FindEmptyColumns(lines);
    lines := InsertColumns(lines, emptyColumns);
  }

  /** The row half of `expand_universe`: a row of dots before every row without a galaxy. */
  method InsertEmptyRows(image: seq<string>) returns (lines: seq<string>)
    requires |image| >= 1
    ensures lines == RowsExpanded(image)
  {
    var emptyRows := FindEmptyRows(image);
    var lineLength := |image[0]|;
    lines := image;
    for i := 0 to |emptyRows|
      invariant lines == InsertedFirst(image, emptyRows, Dots(lineLength), i)
    {
      lines := InsertAt(lines, emptyRows[i] + i, Dots(lineLength));
    }
    InsertedAll(image, emptyRows, Dots(lineLength));
  }

  /** The row scan of `expand_universe`: the rows without a `#`, in order. */
  method FindEmptyRows(lines: seq<string>) returns (emptyRows: seq<nat>)
    ensures emptyRows == EmptyRowsBelow(lines, |lines|)
  {
    emptyRows := [];
    for i := 0 to |lines|
      invariant emptyRows == EmptyRowsBelow(lines, i)
    {
      if '#' !in lines[i] {
        emptyRows := emptyRows + [i];
      }
    }
  }

  /** The column scan of `expand_universe`: the columns where no line has a `#`, the first line a dot. */
  method FindEmptyColumns(lines: seq<string>) returns (emptyColumns: seq<nat>)
    requires WideEnough(lines)
    ensures emptyColumns == EmptyColumnsBelow(lines, |lines[0]|)
  {
    var isEmptyColumn := true;
    emptyColumns := [];
    for i := 0 to |lines[0]|
      invariant emptyColumns == EmptyColumnsBelow(lines, i)
    {
      if lines[0][i] == '.' {
        for k := 0 to |lines|
          invariant isEmptyColumn == ClearAbove(lines, i, k)
        {
          if lines[k][i] == '#' {
            isEmptyColumn := false;
            ClearAboveStops(lines, i, k, |lines|);
            break;
          }
        }
        if isEmptyColumn {
          emptyColumns := emptyColumns + [i];
        }
      }
      isEmptyColumn := true;
    }
  }

  /** The column insertion of `expand_universe`: a dot at each selected column, shifted by the dots before it. */
  method InsertColumns(rows: seq<string>, emptyColumns: seq<nat>) returns (lines: seq<string>)
    requires SelectsAll(rows, emptyColumns)
    ensures |lines| == |rows|
    ensures forall l :: 0 <= l < |lines| ==> lines[l] == Doubled(rows[l], emptyColumns, '.')
  {
    lines := rows;
    for i := 0 to |emptyColumns|
      invariant lines == EveryLineInserted(rows, emptyColumns, i)
    {
      PartlyInsertedEnds(rows, emptyColumns, i);
      for k := 0 to |lines|
        invariant lines == PartlyInserted(rows, emptyColumns, i, k)
      {
        ColumnStep(rows, emptyColumns, i, k, lines);
        lines := lines[k := InsertAt(lines[k], emptyColumns[i] + i, '.')];
      }
    }
    forall l | 0 <= l < |lines|
      ensures lines[l] == Doubled(rows[l], emptyColumns, '.')
    {
      InsertedAll(rows[l], emptyColumns, '.');
    }
  }

  // ---------------------------------------------------------------------
  // locate_galaxy_indices and calculate_distances

  /** `locate_galaxy_indices`: every `#` as (row, column), row by row. */
  method LocateGalaxyIndices(universe: seq<string>) returns (galaxyIndices: seq<Galaxies.Cell>)
    ensures galaxyIndices == Galaxies.Hashes(universe)
  {
    galaxyIndices := [];
    for i := 0 to |universe|
      invariant galaxyIndices == Galaxies.GridHashes(universe, i)
    {
      var line := universe[i];
      assert Galaxies.GridHashes(universe, i) + Galaxies.RowHashes(line, i, 0) == Galaxies.GridHashes(universe, i);
      for j := 0 to |line|
        invariant galaxyIndices == Galaxies.GridHashes(universe, i) + Galaxies.RowHashes(line, i, j)
      {
        Galaxies.HashesStep(universe, i, j);
        if line[j] == '#' {
          galaxyIndices := galaxyIndices + [(i, j)];
        }
      }
    }
  }

  /** `calculate_distances`: for each galaxy, the distances to every galaxy listed after it. */
  method CalculateDistances(indices: seq<Galaxies.Cell>) returns (sum: nat)
    ensures sum == Galaxies.PairSum(indices)
    ensures |indices| < 2 ==> sum == 0
  {
    sum := 0;
    for i := 0 to |indices|
      invariant sum == Galaxies.PairSumUpTo(indices, i)
    {
      var location := indices[i];
      for j := i + 1 to |indices|
        invariant sum == Galaxies.PairSumUpTo(indices, i) + Galaxies.RowSum(indices, i, j)
      {
        var nextLocation := indices[j];
        var yDiff := Galaxies.AbsDiff(nextLocation.1, location.1);
        var xDiff := Galaxies.AbsDiff(nextLocation.0, location.0);
        sum := sum + yDiff + xDiff;
      }
    }
  }
}

/**
 * lethalgem, 2023 day 3, part 2: gear ratios.  A gear is a `*` with exactly
 * two numbers next to it; its ratio is their product, and the answer is the
 * sum of the ratios.  The scan of a line for numbers is the same code as in
 * part 1 and is reused from there; the scan for symbols keeps only `*`.
 */
module LethalgemDay3Part2 {
  import opened Text
  import P1 = LethalgemDay3Part1

  type SchematicNumber = P1.SchematicNumber
  type SchematicSymbol = P1.SchematicSymbol

  // ---------------------------------------------------------------------
  // Scanning

  /** Only a `*` can be a gear. */
  predicate IsGear(c: char) { c == '*' }

  /** `scan_for_symbols_in_line`: the columns holding `*`. */
  method ScanForSymbolsInLine(line: string, lineNumber: nat) returns (symbols: seq<SchematicSymbol>)
    ensures symbols == P1.SymbolsUpTo(line, lineNumber, |line|, IsGear)
  {
    symbols := [];
    for i := 0 to |line|
      invariant symbols == P1.SymbolsUpTo(line, lineNumber, i, IsGear)
    {
      if line[i] == '*' {
        symbols := symbols + [P1.SchematicSymbol(lineNumber, i)];
      }
    }
  }

  /** The symbols of a line are exactly its `*` columns, left to right. */
  lemma GearsOfLine(line: string, lineNumber: nat)
    ensures var r := P1.SymbolsUpTo(line, lineNumber, |line|, IsGear);
      (forall sym :: sym in r <==> sym.line == lineNumber && sym.index < |line| && line[sym.index] == '*') &&
      (forall i, j :: 0 <= i < j < |r| ==> r[i].index < r[j].index)
  {
    P1.SymbolsExact(line, lineNumber, |line|, IsGear);
  }

  /** `scan_schematic`: the numbers of every line, and the `*` of every line. */
  method ScanSchematic(fullSchematic: string) returns (r: Result<P1.Schematic, P1.Day3Error>)
    ensures r == P1.SchematicOf(Lines(fullSchematic), |Lines(fullSchematic)|, IsGear)
  {
    var lines := Lines(fullSchematic);
    var numbers: seq<SchematicNumber> := [];
    var symbols: seq<SchematicSymbol> := [];
    for lineNumber := 0 to |lines|
      invariant P1.SchematicOf(lines, lineNumber, IsGear) == Ok(P1.Schematic(numbers, symbols))
    {
      var found := P1.ScanForNumbersInLine(lines[lineNumber], lineNumber);
      if found.Err? {
        P1.SchematicOfPrefixFails(lines, lineNumber + 1, |lines|, IsGear);
        return Err(found.error);
      }
      numbers := numbers + found.value;
      var lineSymbols := ScanForSymbolsInLine(lines[lineNumber], lineNumber);
      symbols := symbols + lineSymbols;
    }
    r := Ok(P1.Schematic(numbers, symbols));
  }

  // ---------------------------------------------------------------------
  // Adjacency as `find_gear_ratio` tests it

  /**
   * The number's line lies within one of the gear's line, and the number's
   * first or last column lies within one of the gear's column (the lower
   * bounds stopping at 0).
   */
  predicate GearAdjacent(number: SchematicNumber, symbol: SchematicSymbol)
  {
    var previousLine := if symbol.line == 0 then 0 else symbol.line - 1;
    var previousIndex := if symbol.index == 0 then 0 else symbol.index - 1;
    previousLine <= number.line <= symbol.line + 1 &&
    (previousIndex <= number.span.start <= symbol.index + 1 || previousIndex <= number.span.end <= symbol.index + 1)
  }

  /** The positions, in order, of the first `n` numbers that touch the gear. */
  function AdjacentIndices(numbers: seq<SchematicNumber>, symbol: SchematicSymbol, n: nat): seq<nat>
    requires n <= |numbers|
  {
    if n == 0 then []
    else AdjacentIndices(numbers, symbol, n - 1) + (if GearAdjacent(numbers[n - 1], symbol) then [n - 1] else [])
  }

  /** The values `find_gear_ratio` collects from the first `n` numbers. */
  function AdjacentValues(numbers: seq<SchematicNumber>, symbol: SchematicSymbol, n: nat): seq<int>
    requires n <= |numbers|
  {
    if n == 0 then []
    else AdjacentValues(numbers, symbol, n - 1) + (if GearAdjacent(numbers[n - 1], symbol) then [numbers[n - 1].value] else [])
  }

  /** The collected positions are exactly those of the touching numbers, increasing. */
  lemma {:induction false} AdjacentIndicesExact(numbers: seq<SchematicNumber>, symbol: SchematicSymbol, n: nat)
    requires n <= |numbers|
    ensures var idx := AdjacentIndices(numbers, symbol, n);
      (forall k :: k in idx <==> 0 <= k < n && GearAdjacent(numbers[k], symbol)) &&
      (forall a, b :: 0 <= a < b < |idx| ==> idx[a] < idx[b])
    decreases n
  {
    if n > 0 {
      AdjacentIndicesExact(numbers, symbol, n - 1);
      var idx := AdjacentIndices(numbers, symbol, n);
      var before := AdjacentIndices(numbers, symbol, n - 1);
      if GearAdjacent(numbers[n - 1], symbol) {
        assert idx == before + [n - 1];
        forall a | 0 <= a < |before|
          ensures before[a] < n - 1
        {
          assert before[a] in before;
        }
      } else {
        assert idx == before;
      }
    }
  }

  /** The collected values are the values at the collected positions. */
  lemma {:induction false} AdjacentValuesAtIndices(numbers: seq<SchematicNumber>, symbol: SchematicSymbol, n: nat)
    requires n <= |numbers|
    ensures var idx := AdjacentIndices(numbers, symbol, n);
      var values := AdjacentValues(numbers, symbol, n);
      |values| == |idx| && forall t :: 0 <= t < |idx| ==> idx[t] < |numbers| && values[t] == numbers[idx[t]].value
    decreases n
  {
    if n > 0 {
      AdjacentValuesAtIndices(numbers, symbol, n - 1);
      var idx := AdjacentIndices(numbers, symbol, n);
      var values := AdjacentValues(numbers, symbol, n);
      var before := AdjacentIndices(numbers, symbol, n - 1);
      if GearAdjacent(numbers[n - 1], symbol) {
        assert idx == before + [n - 1];
        assert values == AdjacentValues(numbers, symbol, n - 1) + [numbers[n - 1].value];
      }
    }
  }

  /** The ratio of a gear with exactly two numbers collected, the product of the two. */
  function GearRatio(numbers: seq<SchematicNumber>, symbol: SchematicSymbol): Option<int>
  {
    var found := AdjacentValues(numbers, symbol, |numbers|);
    if |found| == 2 then Some(found[0] * found[1]) else None
  }

  /** `find_gear_ratio`. */
  method FindGearRatio(numbers: seq<SchematicNumber>, symbol: SchematicSymbol) returns (r: Option<int>)
    ensures r == GearRatio(numbers, symbol)
  {
    var found: seq<int> := [];
    for i := 0 to |numbers|
      invariant found == AdjacentValues(numbers, symbol, i)
    {
      var number := numbers[i];
      var previousLine := if symbol.line == 0 then 0 else symbol.line - 1;
      var previousIndex := if symbol.index == 0 then 0 else symbol.index - 1;
      if previousLine <= number.line <= symbol.line + 1 &&
         (previousIndex <= number.span.start <= symbol.index + 1 || previousIndex <= number.span.end <= symbol.index + 1)
      {
        found := found + [number.value];
      }
    }
    if |found| == 2 {
      r := Some(found[0] * found[1]);
    } else {
      r := None;
    }
  }

  /** Two touching numbers at `i` and `j`, and no third one. */
  predicate ExactlyTwo(numbers: seq<SchematicNumber>, symbol: SchematicSymbol, i: int, j: int)
  {
    0 <= i < j < |numbers| && GearAdjacent(numbers[i], symbol) && GearAdjacent(numbers[j], symbol) &&
    forall k :: 0 <= k < |numbers| && GearAdjacent(numbers[k], symbol) ==> k == i || k == j
  }

  /** With exactly two touching numbers, the scan collects their two positions. */
  lemma {:induction false} TwoIndices(numbers: seq<SchematicNumber>, symbol: SchematicSymbol, i: int, j: int, n: nat)
    requires ExactlyTwo(numbers, symbol, i, j) && n <= |numbers|
    ensures AdjacentIndices(numbers, symbol, n) == if n <= i then [] else if n <= j then [i] else [i, j]
    decreases n
  {
    if n > 0 {
      TwoIndices(numbers, symbol, i, j, n - 1);
    }
  }

  /** With exactly two touching numbers, the ratio is their product. */
  lemma GearRatioOfTwo(numbers: seq<SchematicNumber>, symbol: SchematicSymbol, i: int, j: int)
    requires ExactlyTwo(numbers, symbol, i, j)
    ensures GearRatio(numbers, symbol) == Some(numbers[i].value * numbers[j].value)
  {
    TwoIndices(numbers, symbol, i, j, |numbers|);
    AdjacentValuesAtIndices(numbers, symbol, |numbers|);
  }

  /** With one touching number only, the scan collects that one position. */
  lemma {:induction false} OneIndex(numbers: seq<SchematicNumber>, symbol: SchematicSymbol, i: int, n: nat)
    requires 0 <= i < |numbers| && n <= |numbers|
    requires forall k :: 0 <= k < |numbers| && GearAdjacent(numbers[k], symbol) <==> k == i
    ensures AdjacentIndices(numbers, symbol, n) == if n <= i then [] else [i]
    decreases n
  {
    if n > 0 {
      OneIndex(numbers, symbol, i, n - 1);
    }
  }

  /** A `*` next to a single number is not a gear. */
  lemma NoRatioForOne(numbers: seq<SchematicNumber>, symbol: SchematicSymbol, i: int)
    requires 0 <= i < |numbers|
    requires forall k :: 0 <= k < |numbers| && GearAdjacent(numbers[k], symbol) <==> k == i
    ensures GearRatio(numbers, symbol) == None
  {
    OneIndex(numbers, symbol, i, |numbers|);
    AdjacentValuesAtIndices(numbers, symbol, |numbers|);
  }

  /** A gear has a ratio only when exactly two numbers touch it. */
  lemma GearRatioNeedsTwo(numbers: seq<SchematicNumber>, symbol: SchematicSymbol)
    requires GearRatio(numbers, symbol).Some?
    ensures var idx := AdjacentIndices(numbers, symbol, |numbers|);
      |idx| == 2 && ExactlyTwo(numbers, symbol, idx[0], idx[1]) &&
      GearRatio(numbers, symbol).value == numbers[idx[0]].value * numbers[idx[1]].value
  {
    var idx := AdjacentIndices(numbers, symbol, |numbers|);
    AdjacentIndicesExact(numbers, symbol, |numbers|);
    AdjacentValuesAtIndices(numbers, symbol, |numbers|);
    assert idx[0] in idx && idx[1] in idx;
    forall k | 0 <= k < |numbers| && GearAdjacent(numbers[k], symbol)
      ensures k == idx[0] || k == idx[1]
    {
      assert k in idx;
    }
  }

  // ---------------------------------------------------------------------
  // The answer

  /** The ratios of the first `n` symbols that are gears, added up. */
  function GearTotal(numbers: seq<SchematicNumber>, symbols: seq<SchematicSymbol>): int
  {
    if symbols == [] then 0
    else
      GearTotal(numbers, symbols[..|symbols| - 1]) +
      match GearRatio(numbers, symbols[|symbols| - 1])
      case Some(ratio) => ratio
      case None => 0
  }

  /** `determine_gear_ratio`. */
  method DetermineGearRatio(numbers: seq<SchematicNumber>, symbols: seq<SchematicSymbol>) returns (total: int)
    ensures total == GearTotal(numbers, symbols)
  {
    total := 0;
    for i := 0 to |symbols|
      invariant total == GearTotal(numbers, symbols[..i])
    {
      assert symbols[..i + 1][..i] == symbols[..i];
      var ratio := FindGearRatio(numbers, symbols[i]);
      if ratio.Some? {
        total := total + ratio.value;
      }
    }
    assert symbols[..|symbols|] == symbols;
  }

  /** The total adds up over consecutive stretches of symbols. */
  lemma {:induction false} GearTotalAppend(numbers: seq<SchematicNumber>, a: seq<SchematicSymbol>, b: seq<SchematicSymbol>)
    ensures GearTotal(numbers, a + b) == GearTotal(numbers, a) + GearTotal(numbers, b)
    decreases |b|
  {
    if b == [] {
      assert a + b == a;
    } else {
      GearTotalAppend(numbers, a, b[..|b| - 1]);
      assert (a + b)[..|a + b| - 1] == a + b[..|b| - 1];
    }
  }

  /** Symbols without exactly two touching numbers add nothing. */
  lemma {:induction false} NonGearsAddNothing(numbers: seq<SchematicNumber>, symbols: seq<SchematicSymbol>)
    requires forall k :: 0 <= k < |symbols| ==> GearRatio(numbers, symbols[k]).None?
    ensures GearTotal(numbers, symbols) == 0
    decreases |symbols|
  {
    if symbols != [] {
      NonGearsAddNothing(numbers, symbols[..|symbols| - 1]);
    }
  }

  // ---------------------------------------------------------------------
  // Wide numbers

  /**
   * Adjacency as the puzzle means it: some digit of the number is a
   * neighbour of the gear, diagonals included.
   */
  predicate Touches(number: SchematicNumber, symbol: SchematicSymbol)
  {
    number.line as int - 1 <= symbol.line <= number.line + 1 &&
    number.span.start as int - 1 <= symbol.index <= number.span.end + 1
  }

  /** Column `index` is column `c` or one of its two neighbours. */
  predicate NextToColumn(c: int, index: int) { c - 1 <= index <= c + 1 }

  /** `Touches` holds exactly when some column of the number is within one of the gear's. */
  lemma TouchesSomeDigit(number: SchematicNumber, symbol: SchematicSymbol)
    requires number.span.start <= number.span.end
    ensures Touches(number, symbol) <==>
      number.line as int - 1 <= symbol.line <= number.line + 1 &&
      exists c :: number.span.start <= c <= number.span.end && NextToColumn(c, symbol.index)
  {
    if Touches(number, symbol) {
      var c := if symbol.index < number.span.start then number.span.start
        else if symbol.index > number.span.end then number.span.end
        else symbol.index;
      assert number.span.start <= c <= number.span.end && NextToColumn(c, symbol.index);
    }
  }

  /** For numbers of at most four digits, testing the first and last column is enough. */
  lemma NarrowNumbersAgree(number: SchematicNumber, symbol: SchematicSymbol)
    requires number.span.start <= number.span.end <= number.span.start + 3
    ensures GearAdjacent(number, symbol) <==> Touches(number, symbol)
  {
  }

  /**
   * A five-digit number whose middle digit sits above the gear touches it,
   * but neither its first nor its last column is within one of the gear's.
   */
  lemma WideNumberMissed()
    ensures Touches(P1.SchematicNumber(12345, 0, P1.Span(0, 4)), P1.SchematicSymbol(1, 2))
    ensures !GearAdjacent(P1.SchematicNumber(12345, 0, P1.Span(0, 4)), P1.SchematicSymbol(1, 2))
  {
  }

  // ---------------------------------------------------------------------
  // The examples of the test module

  /** 467 above and 4 below-left of the gear at line 1, column 3; 3 is too far left. */
  lemma ExampleGearRatio(numbers: seq<SchematicNumber>)
    requires numbers == [P1.SchematicNumber(467, 0, P1.Span(0, 2)), P1.SchematicNumber(3, 2, P1.Span(1, 1)),
                         P1.SchematicNumber(4, 2, P1.Span(3, 3))]
    ensures GearRatio(numbers, P1.SchematicSymbol(1, 3)) == Some(467 * 4)
  {
    var symbol := P1.SchematicSymbol(1, 3);
    assert GearAdjacent(numbers[0], symbol);
    assert !GearAdjacent(numbers[1], symbol);
    assert GearAdjacent(numbers[2], symbol);
    GearRatioOfTwo(numbers, symbol, 0, 2);
  }

  /** Of "467.3..*.@" only the `*` at column 7 is kept; the `@` at column 9 is not a gear. */
  lemma ExampleGearsInLine()
    ensures P1.SymbolsUpTo("467.3..*.@", 1, 10, IsGear) == [P1.SchematicSymbol(1, 7)]
  {
    var s := "467.3..*.@";
    assert P1.SymbolsUpTo(s, 1, 7, IsGear) == [] by {
      P1.SymbolsExact(s, 1, 7, IsGear);
      assert forall i :: 0 <= i < 7 ==> !IsGear(s[i]);
    }
  }

  /** The `*` of the example engine schematic: at line 1 column 3, line 4 column 3 and line 8 column 5. */
  function ExampleGears(): seq<SchematicSymbol>
  {
    [P1.SchematicSymbol(1, 3), P1.SchematicSymbol(4, 3), P1.SchematicSymbol(8, 5)]
  }
  /** In the example, the `*` at line 1, column 3 joins 467 and 35. */
  lemma ExampleFirstGear(numbers: seq<SchematicNumber>)
    requires numbers == P1.ExampleNumbersTop() + P1.ExampleNumbersBottom()
    ensures GearRatio(numbers, P1.SchematicSymbol(1, 3)) == Some(467 * 35)
  {
    var symbol := P1.SchematicSymbol(1, 3);
    assert !GearAdjacent(numbers[1], symbol);
    assert !GearAdjacent(numbers[3], symbol);
    assert !GearAdjacent(numbers[4], symbol);
    assert !GearAdjacent(numbers[5], symbol);
    assert !GearAdjacent(numbers[6], symbol);
    assert !GearAdjacent(numbers[7], symbol);
    assert !GearAdjacent(numbers[8], symbol);
    assert !GearAdjacent(numbers[9], symbol);
    GearRatioOfTwo(numbers, symbol, 0, 2);
  }

  /** In the example, the `*` at line 4, column 3 touches 617 only. */
  lemma ExampleLoneStar(numbers: seq<SchematicNumber>)
    requires numbers == P1.ExampleNumbersTop() + P1.ExampleNumbersBottom()
    ensures GearRatio(numbers, P1.SchematicSymbol(4, 3)) == None
  {
    var symbol := P1.SchematicSymbol(4, 3);
    assert !GearAdjacent(numbers[0], symbol);
    assert !GearAdjacent(numbers[1], symbol);
    assert !GearAdjacent(numbers[2], symbol);
    assert !GearAdjacent(numbers[3], symbol);
    assert !GearAdjacent(numbers[5], symbol);
    assert !GearAdjacent(numbers[6], symbol);
    assert !GearAdjacent(numbers[7], symbol);
    assert !GearAdjacent(numbers[8], symbol);
    assert !GearAdjacent(numbers[9], symbol);
    NoRatioForOne(numbers, symbol, 4);
  }

  /** In the example, the `*` at line 8, column 5 joins 755 and 598. */
  lemma ExampleLastGear(numbers: seq<SchematicNumber>)
    requires numbers == P1.ExampleNumbersTop() + P1.ExampleNumbersBottom()
    ensures GearRatio(numbers, P1.SchematicSymbol(8, 5)) == Some(755 * 598)
  {
    var symbol := P1.SchematicSymbol(8, 5);
    assert !GearAdjacent(numbers[0], symbol);
    assert !GearAdjacent(numbers[1], symbol);
    assert !GearAdjacent(numbers[2], symbol);
    assert !GearAdjacent(numbers[3], symbol);
    assert !GearAdjacent(numbers[4], symbol);
    assert !GearAdjacent(numbers[5], symbol);
    assert !GearAdjacent(numbers[6], symbol);
    assert !GearAdjacent(numbers[8], symbol);
    GearRatioOfTwo(numbers, symbol, 7, 9);
  }

  /** The ratios of the example add up to 467835. */
  lemma ExampleGearTotal(numbers: seq<SchematicNumber>, gears: seq<SchematicSymbol>)
    requires numbers == P1.ExampleNumbersTop() + P1.ExampleNumbersBottom() && gears == ExampleGears()
    ensures GearTotal(numbers, gears) == 467835
  {
    ExampleFirstGear(numbers);
    ExampleLoneStar(numbers);
    ExampleLastGear(numbers);
    assert gears[..2][..1] == [gears[0]] && gears[..1][..0] == [];
    assert GearTotal(numbers, gears[..1]) == 467 * 35;
    assert GearTotal(numbers, gears[..2]) == 467 * 35;
  }
}

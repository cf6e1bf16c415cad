/**
 * lethalgem/day_3/part_1: the engine schematic.  Each line is scanned for
 * its numbers (maximal runs of decimal digits, with the span of columns they
 * cover) and its symbols (any character that is neither a digit nor '.');
 * a part number is a number with a symbol in one of the cells around it.
 */
module LethalgemDay3Part1 {
  import opened Text

  datatype Day3Error = ParseIntFailed

  /** The first and last column of a number, both inclusive. */
  datatype Span = Span(start: nat, end: nat)

  datatype SchematicNumber = SchematicNumber(value: int, line: nat, span: Span)

  datatype SchematicSymbol = SchematicSymbol(line: nat, index: nat)

  const I32Limit: nat := 0x8000_0000

  // ---------------------------------------------------------------------
  // The numbers of a line, defined run by run

  /** The first digit at or after `from`, or `|s|`. */
  function NextDigit(s: string, from: nat): (k: nat)
    requires from <= |s|
    ensures from <= k <= |s|
    ensures k < |s| ==> IsDigit(s[k])
    decreases |s| - from
  {
    if from == |s| || IsDigit(s[from]) then from else NextDigit(s, from + 1)
  }

  /** No digit is skipped on the way to the next digit. */
  lemma {:induction false} NextDigitSkips(s: string, from: nat)
    requires from <= |s|
    ensures forall j :: from <= j < NextDigit(s, from) ==> !IsDigit(s[j])
    decreases |s| - from
  {
    if from < |s| && !IsDigit(s[from]) {
      NextDigitSkips(s, from + 1);
    }
  }

  /** The first non-digit at or after `from`, or `|s|`. */
  function RunEnd(s: string, from: nat): (e: nat)
    requires from <= |s|
    ensures from <= e <= |s|
    ensures e < |s| ==> !IsDigit(s[e])
    decreases |s| - from
  {
    if from == |s| || !IsDigit(s[from]) then from else RunEnd(s, from + 1)
  }

  /** Everything before the end of a run is a digit. */
  lemma {:induction false} RunEndDigits(s: string, from: nat)
    requires from <= |s|
    ensures forall j :: from <= j < RunEnd(s, from) ==> IsDigit(s[j])
    decreases |s| - from
  {
    if from < |s| && IsDigit(s[from]) {
      RunEndDigits(s, from + 1);
    }
  }

  /** The decimal value of the digits in columns `k` up to `e`, most significant first. */
  function DigitsValue(s: string, k: nat, e: nat): nat
    requires k <= e <= |s|
    decreases e - k
  {
    if e == k then 0 else DigitsValue(s, k, e - 1) * 10 + (if IsDigit(s[e - 1]) then DigitValue(s[e - 1]) else 0)
  }

  /** On a run of digits this is the value `str::parse` reads from them. */
  lemma {:induction false} DigitsValueIsDecimal(s: string, k: nat, e: nat)
    requires k <= e <= |s| && forall j :: k <= j < e ==> IsDigit(s[j])
    ensures AllDigits(s[k..e]) && DigitsValue(s, k, e) == DecimalValue(s[k..e])
    decreases e - k
  {
    if e > k {
      DigitsValueIsDecimal(s, k, e - 1);
      assert s[k..e][..e - k - 1] == s[k..e - 1];
    }
  }

  /** The digit runs of `s` that start at or after `from`, left to right. */
  function RunsFrom(s: string, lineNumber: nat, from: nat): seq<SchematicNumber>
    requires from <= |s|
    decreases |s| - from
  {
    var k := NextDigit(s, from);
    if k == |s| then []
    else
      var e := RunEnd(s, k);
      [SchematicNumber(DigitsValue(s, k, e), lineNumber, Span(k, e - 1))] + RunsFrom(s, lineNumber, e)
  }

  /** The numbers of a line, or an error when one of them does not fit in an `i32`. */
  function NumbersInLine(s: string, lineNumber: nat): Result<seq<SchematicNumber>, Day3Error>
  {
    var runs := RunsFrom(s, lineNumber, 0);
    if forall i :: 0 <= i < |runs| ==> runs[i].value < I32Limit then Ok(runs) else Err(ParseIntFailed)
  }

  /** The columns of `span` hold digits, and the characters on either side do not. */
  predicate MaximalRun(s: string, span: Span)
  {
    span.start <= span.end < |s| &&
    (forall j :: span.start <= j <= span.end ==> IsDigit(s[j])) &&
    (span.start == 0 || !IsDigit(s[span.start - 1])) &&
    (span.end + 1 == |s| || !IsDigit(s[span.end + 1]))
  }

  function RunValue(s: string, span: Span): nat
    requires MaximalRun(s, span)
  {
    DigitsValue(s, span.start, span.end + 1)
  }

  /** `x` is a number of line `lineNumber`: a maximal digit run of `s`, with the value of its digits. */
  predicate IsRunOf(s: string, lineNumber: nat, x: SchematicNumber)
  {
    x.line == lineNumber && MaximalRun(s, x.span) && x.value == RunValue(s, x.span)
  }

  lemma SkipNonDigit(s: string, lineNumber: nat, i: nat)
    requires i < |s| && !IsDigit(s[i])
    ensures RunsFrom(s, lineNumber, i) == RunsFrom(s, lineNumber, i + 1)
  {
    assert NextDigit(s, i) == NextDigit(s, i + 1);
  }

  /** A run of digits from `k` up to `e` is the first run found from `k`. */
  lemma RunAt(s: string, lineNumber: nat, k: nat, e: nat)
    requires k < e <= |s|
    requires forall j :: k <= j < e ==> IsDigit(s[j])
    requires e == |s| || !IsDigit(s[e])
    ensures RunsFrom(s, lineNumber, k) == [SchematicNumber(DigitsValue(s, k, e), lineNumber, Span(k, e - 1))] + RunsFrom(s, lineNumber, e)
  {
    assert NextDigit(s, k) == k;
    RunEndDigits(s, k);
    var end := RunEnd(s, k);
    assert end == e;
  }

  /** `from` is not inside a run: a run found from there starts a number of the line. */
  predicate RunBoundary(s: string, from: nat)
    requires from <= |s|
  {
    from == 0 || from == |s| || !IsDigit(s[from - 1]) || !IsDigit(s[from])
  }

  /** The first run found from `from`, and the runs after it. */
  lemma RunsFromUnfold(s: string, lineNumber: nat, from: nat) returns (k: nat, e: nat)
    requires from <= |s| && NextDigit(s, from) < |s|
    ensures k == NextDigit(s, from) && e == RunEnd(s, k) && from <= k < e <= |s|
    ensures forall j :: from <= j < k ==> !IsDigit(s[j])
    ensures forall j :: k <= j < e ==> IsDigit(s[j])
    ensures RunsFrom(s, lineNumber, from) == [SchematicNumber(DigitsValue(s, k, e), lineNumber, Span(k, e - 1))] + RunsFrom(s, lineNumber, e)
  {
    k := NextDigit(s, from);
    e := RunEnd(s, k);
    NextDigitSkips(s, from);
    RunEndDigits(s, k);
  }

  /** Every number found is a maximal digit run of its line, with the value of those digits. */
  lemma {:induction false} RunsAreMaximal(s: string, lineNumber: nat, from: nat)
    requires from <= |s| && RunBoundary(s, from)
    ensures var r := RunsFrom(s, lineNumber, from);
      forall i :: 0 <= i < |r| ==> from <= r[i].span.start && IsRunOf(s, lineNumber, r[i])
    decreases |s| - from
  {
    if NextDigit(s, from) < |s| {
      var k, e := RunsFromUnfold(s, lineNumber, from);
      RunsAreMaximal(s, lineNumber, e);
      assert k == 0 || !IsDigit(s[k - 1]) by {
        if k > from {
          assert !IsDigit(s[k - 1]);
        }
      }
      assert MaximalRun(s, Span(k, e - 1));
      var r := RunsFrom(s, lineNumber, from);
      var tail := RunsFrom(s, lineNumber, e);
      forall i | 0 <= i < |r|
        ensures from <= r[i].span.start && IsRunOf(s, lineNumber, r[i])
      {
        if i > 0 {
          assert r[i] == tail[i - 1];
        }
      }
    }
  }

  /** The runs found from just past a non-digit start after it. */
  lemma RunsStartAfter(s: string, lineNumber: nat, e: nat)
    requires e <= |s| && (e == |s| || !IsDigit(s[e]))
    ensures forall j :: 0 <= j < |RunsFrom(s, lineNumber, e)| ==> e < RunsFrom(s, lineNumber, e)[j].span.start
  {
    RunsAreMaximal(s, lineNumber, e);
    forall j | 0 <= j < |RunsFrom(s, lineNumber, e)|
      ensures e < RunsFrom(s, lineNumber, e)[j].span.start
    {
      var x := RunsFrom(s, lineNumber, e)[j];
      assert e <= x.span.start && IsRunOf(s, lineNumber, x);
      assert IsDigit(s[x.span.start]);
    }
  }

  /** The numbers come left to right, each separated from the next by a non-digit. */
  lemma {:induction false} RunsAreOrdered(s: string, lineNumber: nat, from: nat)
    requires from <= |s| && RunBoundary(s, from)
    ensures var r := RunsFrom(s, lineNumber, from);
      forall i, j :: 0 <= i < j < |r| ==> r[i].span.end + 1 < r[j].span.start
    decreases |s| - from
  {
    if NextDigit(s, from) < |s| {
      var k, e := RunsFromUnfold(s, lineNumber, from);
      RunsAreOrdered(s, lineNumber, e);
      RunsStartAfter(s, lineNumber, e);
      var r := RunsFrom(s, lineNumber, from);
      var tail := RunsFrom(s, lineNumber, e);
      forall i, j | 0 <= i < j < |r|
        ensures r[i].span.end + 1 < r[j].span.start
      {
        assert r[j] == tail[j - 1];
        if i > 0 {
          assert r[i] == tail[i - 1];
        }
      }
    }
  }

  /** Every digit of the line belongs to one of the numbers found. */
  lemma {:induction false} RunsCoverDigits(s: string, lineNumber: nat, from: nat)
    requires from <= |s|
    ensures var r := RunsFrom(s, lineNumber, from);
      forall j :: from <= j < |s| && IsDigit(s[j]) ==>
        exists i :: 0 <= i < |r| && r[i].span.start <= j <= r[i].span.end
    decreases |s| - from
  {
    if NextDigit(s, from) < |s| {
      var k, e := RunsFromUnfold(s, lineNumber, from);
      RunsCoverDigits(s, lineNumber, e);
      var r := RunsFrom(s, lineNumber, from);
      var tail := RunsFrom(s, lineNumber, e);
      forall j | from <= j < |s| && IsDigit(s[j])
        ensures exists i :: 0 <= i < |r| && r[i].span.start <= j <= r[i].span.end
      {
        if j < e {
          assert r[0].span.start <= j <= r[0].span.end;
        } else {
          var i :| 0 <= i < |tail| && tail[i].span.start <= j <= tail[i].span.end;
          assert r[i + 1] == tail[i];
        }
      }
    } else {
      NextDigitSkips(s, from);
    }
  }

  /** `construct_schematic_number`: parse the collected digits and push the number. */
  method ConstructSchematicNumber(numbers: seq<SchematicNumber>, constructed: string, lineNumber: nat, span: Span)
    returns (r: Result<seq<SchematicNumber>, Day3Error>)
    ensures r.Err? <==> ParseI32(constructed).None?
    ensures r.Err? ==> r.error == ParseIntFailed
    ensures r.Ok? ==> r.value == numbers + [SchematicNumber(ParseI32(constructed).value, lineNumber, span)]
  {
    var value := ParseI32(constructed);
    if value.None? {
      return Err(ParseIntFailed);
    }
    r := Ok(numbers + [SchematicNumber(value.value, lineNumber, span)]);
  }

  /** Every number emitted so far fits in an `i32`. */
  predicate Fits(numbers: seq<SchematicNumber>)
  {
    forall k :: 0 <= k < |numbers| ==> numbers[k].value < I32Limit
  }

  /** The scan at column `i` outside a run: the runs from `i` on complete the line. */
  ghost predicate Idle(line: string, lineNumber: nat, i: nat, numbers: seq<SchematicNumber>, all: seq<SchematicNumber>)
  {
    i <= |line| && RunBoundary(line, i) && numbers + RunsFrom(line, lineNumber, i) == all && Fits(numbers)
  }

  /** The scan at column `i` inside a run that began at `span.start`, with its digits collected. */
  ghost predicate Running(line: string, lineNumber: nat, i: nat, numbers: seq<SchematicNumber>, constructed: string,
                          span: Span, all: seq<SchematicNumber>)
  {
    span.start < i <= |line| && span.end == i - 1 && constructed == line[span.start..i] &&
    (forall j :: span.start <= j < i ==> IsDigit(line[j])) &&
    (span.start == 0 || !IsDigit(line[span.start - 1])) &&
    numbers + RunsFrom(line, lineNumber, span.start) == all && Fits(numbers)
  }

  lemma SkipStep(line: string, lineNumber: nat, i: nat, numbers: seq<SchematicNumber>, all: seq<SchematicNumber>)
    requires Idle(line, lineNumber, i, numbers, all) && i < |line| && !IsDigit(line[i])
    ensures Idle(line, lineNumber, i + 1, numbers, all)
  {
    SkipNonDigit(line, lineNumber, i);
  }

  lemma StartStep(line: string, lineNumber: nat, i: nat, numbers: seq<SchematicNumber>, all: seq<SchematicNumber>)
    requires Idle(line, lineNumber, i, numbers, all) && i < |line| && IsDigit(line[i])
    ensures Running(line, lineNumber, i + 1, numbers, [line[i]], Span(i, i), all)
  {
  }

  lemma ExtendStep(line: string, lineNumber: nat, i: nat, numbers: seq<SchematicNumber>, constructed: string,
                   span: Span, all: seq<SchematicNumber>)
    requires Running(line, lineNumber, i, numbers, constructed, span, all) && i < |line| && IsDigit(line[i])
    ensures Running(line, lineNumber, i + 1, numbers, constructed + [line[i]], span.(end := i), all)
  {
    assert line[span.start..i + 1] == line[span.start..i] + [line[i]];
  }

  /** At the end of a run the collected digits are the next number of the line. */
  lemma EmitStep(line: string, lineNumber: nat, e: nat, numbers: seq<SchematicNumber>, constructed: string,
                 span: Span, all: seq<SchematicNumber>)
    requires Running(line, lineNumber, e, numbers, constructed, span, all) && (e == |line| || !IsDigit(line[e]))
    ensures |numbers| < |all| && all[|numbers|] == SchematicNumber(DigitsValue(line, span.start, e), lineNumber, span)
    ensures DigitsValue(line, span.start, e) < I32Limit ==>
      Idle(line, lineNumber, e, numbers + [SchematicNumber(DigitsValue(line, span.start, e), lineNumber, span)], all)
  {
    RunAt(line, lineNumber, span.start, e);
    var head := SchematicNumber(DigitsValue(line, span.start, e), lineNumber, span);
    var rest := RunsFrom(line, lineNumber, e);
    assert all == numbers + ([head] + rest);
    assert all[|numbers|] == ([head] + rest)[0];
    assert (numbers + [head]) + rest == all;
  }

  /** One number too large for an `i32` fails the whole line. */
  lemma TooLarge(line: string, lineNumber: nat, i: nat)
    requires i < |RunsFrom(line, lineNumber, 0)| && RunsFrom(line, lineNumber, 0)[i].value >= I32Limit
    ensures NumbersInLine(line, lineNumber) == Err(ParseIntFailed)
  {
  }

  /** What the scan of a line carries from one character to the next. */
  datatype Scan = Scan(numbers: seq<SchematicNumber>, constructed: string, span: Span)

  /** `construct_schematic_number` on the scan state: push the parsed number and clear the digits. */
  function Emit(st: Scan, lineNumber: nat): Result<Scan, Day3Error>
  {
    match ParseI32(st.constructed)
    case None => Err(ParseIntFailed)
    case Some(value) => Ok(Scan(st.numbers + [SchematicNumber(value, lineNumber, st.span)], [], st.span))
  }

  /** One character of `scan_for_numbers_in_line`. */
  function ScanChar(line: string, lineNumber: nat, i: nat, st: Scan): Result<Scan, Day3Error>
    requires i < |line|
  {
    if IsDigit(line[i]) then
      var span := if st.constructed == [] then st.span.(start := i) else st.span;
      var next := Scan(st.numbers, st.constructed + [line[i]], span.(end := i));
      if i == |line| - 1 then Emit(next, lineNumber) else Ok(next)
    else if st.constructed != [] then Emit(st, lineNumber)
    else Ok(st)
  }

  /** The scan state after the first `i` characters, or the first parse failure. */
  function ScanPrefix(line: string, lineNumber: nat, i: nat): Result<Scan, Day3Error>
    requires i <= |line|
  {
    if i == 0 then Ok(Scan([], [], Span(0, 0)))
    else match ScanPrefix(line, lineNumber, i - 1)
      case Err(e) => Err(e)
      case Ok(st) => ScanChar(line, lineNumber, i - 1, st)
  }

  lemma {:induction false} ScanPrefixFails(line: string, lineNumber: nat, i: nat, m: nat)
    requires i <= m <= |line| && ScanPrefix(line, lineNumber, i).Err?
    ensures ScanPrefix(line, lineNumber, m) == ScanPrefix(line, lineNumber, i)
    decreases m
  {
    if i < m {
      ScanPrefixFails(line, lineNumber, i, m - 1);
    }
  }

  /**
   * The scan after `i` characters is either between runs, with the numbers
   * emitted so far followed by the runs still ahead making up the whole
   * line, or inside a run whose digits it has collected; and it has failed
   * only if the line has a number too large for an `i32`.
   */
  ghost predicate Tracks(line: string, lineNumber: nat, i: nat, r: Result<Scan, Day3Error>)
  {
    match r
    case Err(e) => e == ParseIntFailed && NumbersInLine(line, lineNumber) == Err(ParseIntFailed)
    case Ok(st) => TracksOk(line, lineNumber, i, st)
  }

  ghost predicate TracksOk(line: string, lineNumber: nat, i: nat, st: Scan)
  {
    var all := RunsFrom(line, lineNumber, 0);
    i <= |line| &&
    (st.constructed == [] ==> Idle(line, lineNumber, i, st.numbers, all)) &&
    (st.constructed != [] ==> i < |line| && Running(line, lineNumber, i, st.numbers, st.constructed, st.span, all))
  }

  /** A digit starts or extends the run being collected. */
  lemma CollectDigit(line: string, lineNumber: nat, j: nat, st: Scan) returns (next: Scan)
    requires j < |line| && IsDigit(line[j]) && TracksOk(line, lineNumber, j, st)
    ensures next == Scan(st.numbers, st.constructed + [line[j]], (if st.constructed == [] then st.span.(start := j) else st.span).(end := j))
    ensures Running(line, lineNumber, j + 1, next.numbers, next.constructed, next.span, RunsFrom(line, lineNumber, 0))
  {
    var all := RunsFrom(line, lineNumber, 0);
    next := Scan(st.numbers, st.constructed + [line[j]], (if st.constructed == [] then st.span.(start := j) else st.span).(end := j));
    if st.constructed == [] {
      StartStep(line, lineNumber, j, st.numbers, all);
      assert next.span == Span(j, j);
    } else {
      ExtendStep(line, lineNumber, j, st.numbers, st.constructed, st.span, all);
    }
  }

  /** Emitting at the end of a run keeps the scan on track. */
  lemma TrackEmit(line: string, lineNumber: nat, e: nat, st: Scan)
    requires Running(line, lineNumber, e, st.numbers, st.constructed, st.span, RunsFrom(line, lineNumber, 0))
    requires e == |line| || !IsDigit(line[e])
    ensures Tracks(line, lineNumber, e, Emit(st, lineNumber))
  {
    var all := RunsFrom(line, lineNumber, 0);
    EmitStep(line, lineNumber, e, st.numbers, st.constructed, st.span, all);
    DigitsValueIsDecimal(line, st.span.start, e);
    if ParseI32(st.constructed).None? {
      TooLarge(line, lineNumber, |st.numbers|);
    } else {
      assert Emit(st, lineNumber) == Ok(Scan(st.numbers + [SchematicNumber(DigitsValue(line, st.span.start, e), lineNumber, st.span)], [], st.span));
    }
  }

  lemma TrackDigit(line: string, lineNumber: nat, i: nat)
    requires 0 < i <= |line| && IsDigit(line[i - 1]) && ScanPrefix(line, lineNumber, i - 1).Ok?
    requires TracksOk(line, lineNumber, i - 1, ScanPrefix(line, lineNumber, i - 1).value)
    ensures Tracks(line, lineNumber, i, ScanPrefix(line, lineNumber, i))
  {
    var st := ScanPrefix(line, lineNumber, i - 1).value;
    var next := CollectDigit(line, lineNumber, i - 1, st);
    if i == |line| {
      TrackEmit(line, lineNumber, i, next);
      assert ScanPrefix(line, lineNumber, i) == Emit(next, lineNumber);
    } else {
      assert ScanPrefix(line, lineNumber, i) == Ok(next);
    }
  }

  lemma TrackNonDigit(line: string, lineNumber: nat, i: nat)
    requires 0 < i <= |line| && !IsDigit(line[i - 1]) && ScanPrefix(line, lineNumber, i - 1).Ok?
    requires TracksOk(line, lineNumber, i - 1, ScanPrefix(line, lineNumber, i - 1).value)
    ensures Tracks(line, lineNumber, i, ScanPrefix(line, lineNumber, i))
  {
    var all := RunsFrom(line, lineNumber, 0);
    var st := ScanPrefix(line, lineNumber, i - 1).value;
    if st.constructed != [] {
      TrackEmit(line, lineNumber, i - 1, st);
      var emitted := Emit(st, lineNumber);
      if emitted.Ok? {
        SkipStep(line, lineNumber, i - 1, emitted.value.numbers, all);
      }
      assert ScanPrefix(line, lineNumber, i) == emitted;
    } else {
      SkipStep(line, lineNumber, i - 1, st.numbers, all);
      assert ScanPrefix(line, lineNumber, i) == Ok(st);
    }
  }

  /** One character of the loop keeps the scan on track. */
  lemma TrackStep(line: string, lineNumber: nat, i: nat)
    requires 0 < i <= |line| && Tracks(line, lineNumber, i - 1, ScanPrefix(line, lineNumber, i - 1))
    ensures Tracks(line, lineNumber, i, ScanPrefix(line, lineNumber, i))
  {
    var prev := ScanPrefix(line, lineNumber, i - 1);
    if prev.Err? {
      assert ScanPrefix(line, lineNumber, i) == prev;
    } else if IsDigit(line[i - 1]) {
      TrackDigit(line, lineNumber, i);
    } else {
      TrackNonDigit(line, lineNumber, i);
    }
  }

  lemma {:induction false} ScanTracksRuns(line: string, lineNumber: nat, i: nat)
    requires i <= |line|
    ensures Tracks(line, lineNumber, i, ScanPrefix(line, lineNumber, i))
    decreases i
  {
    if i > 0 {
      ScanTracksRuns(line, lineNumber, i - 1);
      TrackStep(line, lineNumber, i);
    }
  }

  /** The scan of the whole line finds exactly its digit runs, or fails on one too large. */
  lemma ScanFindsRuns(line: string, lineNumber: nat)
    ensures NumbersInLine(line, lineNumber) ==
      match ScanPrefix(line, lineNumber, |line|)
      case Err(e) => Err(e)
      case Ok(st) => Ok(st.numbers)
  {
    ScanTracksRuns(line, lineNumber, |line|);
    if ScanPrefix(line, lineNumber, |line|).Ok? {
      var st := ScanPrefix(line, lineNumber, |line|).value;
      var all := RunsFrom(line, lineNumber, 0);
      assert RunsFrom(line, lineNumber, |line|) == [];
      assert st.numbers == all && Fits(all);
    }
  }

  /**
   * `scan_for_numbers_in_line`: a pass over the characters that collects
   * digits into `constructed` and emits a number at the first non-digit or
   * at the last character.
   */
  method ScanForNumbersInLine(line: string, lineNumber: nat) returns (r: Result<seq<SchematicNumber>, Day3Error>)
    ensures r == NumbersInLine(line, lineNumber)
  {
    ScanFindsRuns(line, lineNumber);
    var numbers: seq<SchematicNumber> := [];
    var constructed: string := [];
    var span := Span(0, 0);
    for i := 0 to |line|
      invariant ScanPrefix(line, lineNumber, i) == Ok(Scan(numbers, constructed, span))
    {
      var c := line[i];
      if IsDigit(c) {
        if constructed == [] {
          span := span.(start := i);
        }
        constructed := constructed + [c];
        span := span.(end := i);
        if i == |line| - 1 && constructed != [] {
          var built := ConstructSchematicNumber(numbers, constructed, lineNumber, span);
          if built.Err? {
            ScanPrefixFails(line, lineNumber, i + 1, |line|);
            return Err(ParseIntFailed);
          }
          numbers := built.value;
          constructed := [];
        }
      } else if constructed != [] {
        var built := ConstructSchematicNumber(numbers, constructed, lineNumber, span);
        if built.Err? {
          ScanPrefixFails(line, lineNumber, i + 1, |line|);
          return Err(ParseIntFailed);
        }
        numbers := built.value;
        constructed := [];
      }
    }
    r := Ok(numbers);
  }

  // ---------------------------------------------------------------------
  // The symbols of a line

  /** A symbol of part 1: neither a digit nor a '.'. */
  predicate IsSymbol(c: char)
  {
    !IsDigit(c) && c != '.'
  }

  /** The positions among the first `k` characters that `isSymbol` accepts, left to right. */
  function SymbolsUpTo(s: string, lineNumber: nat, k: nat, isSymbol: char -> bool): seq<SchematicSymbol>
    requires k <= |s|
  {
    if k == 0 then []
    else SymbolsUpTo(s, lineNumber, k - 1, isSymbol) + (if isSymbol(s[k - 1]) then [SchematicSymbol(lineNumber, k - 1)] else [])
  }

  /** Exactly the accepted positions are recorded, in increasing column order. */
  lemma {:induction false} SymbolsExact(s: string, lineNumber: nat, k: nat, isSymbol: char -> bool)
    requires k <= |s|
    ensures var r := SymbolsUpTo(s, lineNumber, k, isSymbol);
      (forall sym :: sym in r <==> sym.line == lineNumber && sym.index < k && isSymbol(s[sym.index])) &&
      (forall i, j :: 0 <= i < j < |r| ==> r[i].index < r[j].index)
  {
    if k > 0 {
      SymbolsExact(s, lineNumber, k - 1, isSymbol);
    }
  }

  /** `scan_for_symbols_in_line`. */
  method ScanForSymbolsInLine(line: string, lineNumber: nat) returns (symbols: seq<SchematicSymbol>)
    ensures symbols == SymbolsUpTo(line, lineNumber, |line|, IsSymbol)
  {
    symbols := [];
    for i := 0 to |line|
      invariant symbols == SymbolsUpTo(line, lineNumber, i, IsSymbol)
    {
      if IsSymbol(line[i]) {
        symbols := symbols + [SchematicSymbol(lineNumber, i)];
      }
    }
  }

  // ---------------------------------------------------------------------
  // The whole schematic

  datatype Schematic = Schematic(numbers: seq<SchematicNumber>, symbols: seq<SchematicSymbol>)

  /** The numbers and symbols of the first `k` lines, or the first line's error. */
  function SchematicOf(lines: seq<string>, k: nat, isSymbol: char -> bool): Result<Schematic, Day3Error>
    requires k <= |lines|
  {
    if k == 0 then Ok(Schematic([], []))
    else match SchematicOf(lines, k - 1, isSymbol)
      case Err(e) => Err(e)
      case Ok(found) =>
        match NumbersInLine(lines[k - 1], k - 1)
        case Err(e) => Err(e)
        case Ok(numbers) =>
          Ok(Schematic(found.numbers + numbers, found.symbols + SymbolsUpTo(lines[k - 1], k - 1, |lines[k - 1]|, isSymbol)))
  }

  lemma {:induction false} SchematicOfPrefixFails(lines: seq<string>, k: nat, m: nat, isSymbol: char -> bool)
    requires k <= m <= |lines| && SchematicOf(lines, k, isSymbol).Err?
    ensures SchematicOf(lines, m, isSymbol) == SchematicOf(lines, k, isSymbol)
    decreases m
  {
    if k < m {
      SchematicOfPrefixFails(lines, k, m - 1, isSymbol);
    }
  }

  /** The scan fails exactly when some line holds a number too large for an `i32`. */
  lemma {:induction false} SchematicFails(lines: seq<string>, k: nat, isSymbol: char -> bool)
    requires k <= |lines|
    ensures SchematicOf(lines, k, isSymbol).Err? <==> exists l :: 0 <= l < k && NumbersInLine(lines[l], l).Err?
    decreases k
  {
    if k > 0 {
      SchematicFails(lines, k - 1, isSymbol);
    }
  }

  /** Every number of the schematic is a maximal digit run of the line it names, with that run's value. */
  lemma {:induction false} SchematicNumbersAreRuns(lines: seq<string>, k: nat, isSymbol: char -> bool)
    requires k <= |lines| && SchematicOf(lines, k, isSymbol).Ok?
    ensures var numbers := SchematicOf(lines, k, isSymbol).value.numbers;
      forall i :: 0 <= i < |numbers| ==> numbers[i].line < k && IsRunOf(lines[numbers[i].line], numbers[i].line, numbers[i])
    decreases k
  {
    if k > 0 {
      SchematicNumbersAreRuns(lines, k - 1, isSymbol);
      var before := SchematicOf(lines, k - 1, isSymbol).value.numbers;
      var line := RunsFrom(lines[k - 1], k - 1, 0);
      RunsAreMaximal(lines[k - 1], k - 1, 0);
      var numbers := SchematicOf(lines, k, isSymbol).value.numbers;
      assert numbers == before + line;
      forall i | 0 <= i < |numbers|
        ensures numbers[i].line < k && IsRunOf(lines[numbers[i].line], numbers[i].line, numbers[i])
      {
        if i < |before| {
          assert numbers[i] == before[i];
        } else {
          assert numbers[i] == RunsFrom(lines[k - 1], k - 1, 0)[i - |before|];
        }
      }
    }
  }

  /** Every symbol of the schematic is an accepted character of the line it names. */
  lemma {:induction false} SchematicSymbolsAccepted(lines: seq<string>, k: nat, isSymbol: char -> bool)
    requires k <= |lines| && SchematicOf(lines, k, isSymbol).Ok?
    ensures var symbols := SchematicOf(lines, k, isSymbol).value.symbols;
      forall i :: 0 <= i < |symbols| ==>
        symbols[i].line < k && symbols[i].index < |lines[symbols[i].line]| &&
        isSymbol(lines[symbols[i].line][symbols[i].index])
    decreases k
  {
    if k > 0 {
      SchematicSymbolsAccepted(lines, k - 1, isSymbol);
      var before := SchematicOf(lines, k - 1, isSymbol).value.symbols;
      var line := SymbolsUpTo(lines[k - 1], k - 1, |lines[k - 1]|, isSymbol);
      SymbolsExact(lines[k - 1], k - 1, |lines[k - 1]|, isSymbol);
      var symbols := SchematicOf(lines, k, isSymbol).value.symbols;
      assert symbols == before + line;
      forall i | 0 <= i < |symbols|
        ensures symbols[i].line < k && symbols[i].index < |lines[symbols[i].line]| &&
          isSymbol(lines[symbols[i].line][symbols[i].index])
      {
        if i >= |before| {
          assert symbols[i] == line[i - |before|];
          assert line[i - |before|] in line;
        }
      }
    }
  }

  /** `scan_schematic`: the numbers and then the symbols of each line, in line order. */
  method ScanSchematic(fullSchematic: string) returns (r: Result<Schematic, Day3Error>)
    ensures r == SchematicOf(Lines(fullSchematic), |Lines(fullSchematic)|, IsSymbol)
  {
    var lines := Lines(fullSchematic);
    var numbers: seq<SchematicNumber> := [];
    var symbols: seq<SchematicSymbol> := [];
    for lineNumber := 0 to |lines|
      invariant SchematicOf(lines, lineNumber, IsSymbol) == Ok(Schematic(numbers, symbols))
    {
      var found := ScanForNumbersInLine(lines[lineNumber], lineNumber);
      if found.Err? {
        SchematicOfPrefixFails(lines, lineNumber + 1, |lines|, IsSymbol);
        return Err(found.error);
      }
      numbers := numbers + found.value;
      var lineSymbols := ScanForSymbolsInLine(lines[lineNumber], lineNumber);
      symbols := symbols + lineSymbols;
    }
    r := Ok(Schematic(numbers, symbols));
  }

  // ---------------------------------------------------------------------
  // Part numbers

  /**
   * The test of `is_adjacent_to_symbol`: the symbol's line lies within the
   * number's line plus or minus one, and its column within the span widened
   * by one on each side, the lower bounds stopping at 0.
   */
  predicate Adjacent(number: SchematicNumber, symbol: SchematicSymbol)
  {
    var previousLine := if number.line == 0 then 0 else number.line - 1;
    var previousIndex := if number.span.start == 0 then 0 else number.span.start - 1;
    previousLine <= symbol.line <= number.line + 1 && previousIndex <= symbol.index <= number.span.end + 1
  }

  /** Stopping the lower bounds at 0 changes nothing: the symbol lies in the ring of cells around the number. */
  lemma AdjacentMeansTouching(number: SchematicNumber, symbol: SchematicSymbol)
    ensures Adjacent(number, symbol) <==>
      number.line as int - 1 <= symbol.line <= number.line + 1 &&
      number.span.start as int - 1 <= symbol.index <= number.span.end + 1
  {
  }

  /** `is_adjacent_to_symbol`: stops at the first adjacent symbol. */
  method IsAdjacentToSymbol(number: SchematicNumber, symbols: seq<SchematicSymbol>) returns (b: bool)
    ensures b <==> exists i :: 0 <= i < |symbols| && Adjacent(number, symbols[i])
  {
    for i := 0 to |symbols|
      invariant forall k :: 0 <= k < i ==> !Adjacent(number, symbols[k])
    {
      if Adjacent(number, symbols[i]) {
        return true;
      }
    }
    return false;
  }

  predicate IsPartNumber(number: SchematicNumber, symbols: seq<SchematicSymbol>)
  {
    exists i :: 0 <= i < |symbols| && Adjacent(number, symbols[i])
  }

  /** The numbers with an adjacent symbol, in their original order. */
  function PartNumbers(numbers: seq<SchematicNumber>, symbols: seq<SchematicSymbol>): seq<SchematicNumber>
  {
    if numbers == [] then []
    else
      var last := numbers[|numbers| - 1];
      PartNumbers(numbers[..|numbers| - 1], symbols) + (if IsPartNumber(last, symbols) then [last] else [])
  }

  /** The filter keeps exactly the numbers with an adjacent symbol. */
  lemma {:induction false} PartNumbersMembers(numbers: seq<SchematicNumber>, symbols: seq<SchematicSymbol>)
    ensures forall x :: x in PartNumbers(numbers, symbols) <==> x in numbers && IsPartNumber(x, symbols)
  {
    if numbers != [] {
      PartNumbersMembers(numbers[..|numbers| - 1], symbols);
      assert numbers == numbers[..|numbers| - 1] + [numbers[|numbers| - 1]];
    }
  }

  /** The filter keeps order: it distributes over concatenation. */
  lemma {:induction false} PartNumbersAppend(a: seq<SchematicNumber>, b: seq<SchematicNumber>, symbols: seq<SchematicSymbol>)
    ensures PartNumbers(a + b, symbols) == PartNumbers(a, symbols) + PartNumbers(b, symbols)
    decreases |b|
  {
    if b == [] {
      assert a + b == a;
    } else {
      PartNumbersAppend(a, b[..|b| - 1], symbols);
      assert (a + b)[..|a + b| - 1] == a + b[..|b| - 1];
    }
  }

  /** `determine_part_numbers`: never fails. */
  method DeterminePartNumbers(numbers: seq<SchematicNumber>, symbols: seq<SchematicSymbol>)
    returns (r: Result<seq<SchematicNumber>, Day3Error>)
    ensures r == Ok(PartNumbers(numbers, symbols))
  {
    var partNumbers: seq<SchematicNumber> := [];
    for i := 0 to |numbers|
      invariant partNumbers == PartNumbers(numbers[..i], symbols)
    {
      assert numbers[..i + 1][..i] == numbers[..i];
      var adjacent := IsAdjacentToSymbol(numbers[i], symbols);
      if adjacent {
        partNumbers := partNumbers + [numbers[i]];
      }
    }
    assert numbers[..|numbers|] == numbers;
    r := Ok(partNumbers);
  }

  /** `sum_part_numbers`. */
  function SumValues(numbers: seq<SchematicNumber>): int
  {
    if numbers == [] then 0 else SumValues(numbers[..|numbers| - 1]) + numbers[|numbers| - 1].value
  }

  lemma SumOfFour(a: seq<SchematicNumber>)
    requires |a| == 4
    ensures SumValues(a) == a[0].value + a[1].value + a[2].value + a[3].value
  {
    assert a[..3][..2] == a[..2] && a[..2][..1] == a[..1] && a[..1][..0] == [];
    assert SumValues(a[..1]) == a[0].value;
    assert SumValues(a[..2]) == a[0].value + a[1].value;
    assert SumValues(a[..3]) == a[0].value + a[1].value + a[2].value;
    assert a[..4] == a;
  }

  lemma {:induction false} SumValuesAppend(a: seq<SchematicNumber>, b: seq<SchematicNumber>)
    ensures SumValues(a + b) == SumValues(a) + SumValues(b)
    decreases |b|
  {
    if b == [] {
      assert a + b == a;
    } else {
      SumValuesAppend(a, b[..|b| - 1]);
      assert (a + b)[..|a + b| - 1] == a + b[..|b| - 1];
    }
  }

  // ---------------------------------------------------------------------
  // The examples of the test module

  /** All twelve cells around 467 on line 1, columns 1 to 3, count as adjacent. */
  lemma ExampleRing()
    ensures forall line: nat, index: nat :: 0 <= line <= 2 && 0 <= index <= 4 && !(line == 1 && 1 <= index <= 3) ==>
      Adjacent(SchematicNumber(467, 1, Span(1, 3)), SchematicSymbol(line, index))
    ensures !Adjacent(SchematicNumber(467, 1, Span(1, 3)), SchematicSymbol(3, 2))
    ensures !Adjacent(SchematicNumber(467, 1, Span(1, 3)), SchematicSymbol(1, 5))
  {
  }

  /** The line "467.*114.1" opens with 467 ... */
  lemma ExampleLineHead(s: string)
    requires s == "467.*114.1"
    ensures RunsFrom(s, 1, 0) == [SchematicNumber(467, 1, Span(0, 2))] + RunsFrom(s, 1, 5)
  {
    assert s[0] == '4' && s[1] == '6' && s[2] == '7' && s[3] == '.' && s[4] == '*';
    RunAt(s, 1, 0, 3);
    SkipNonDigit(s, 1, 3);
    SkipNonDigit(s, 1, 4);
    assert DigitsValue(s, 0, 3) == 467;
  }

  /** ... and goes on with 114 and 1, the last one ending the line. */
  lemma ExampleLineTail(s: string)
    requires s == "467.*114.1"
    ensures RunsFrom(s, 1, 5) == [SchematicNumber(114, 1, Span(5, 7)), SchematicNumber(1, 1, Span(9, 9))]
  {
    assert |s| == 10 && s[5] == '1' && s[6] == '1' && s[7] == '4' && s[8] == '.' && s[9] == '1';
    RunAt(s, 1, 5, 8);
    SkipNonDigit(s, 1, 8);
    RunAt(s, 1, 9, 10);
    assert RunsFrom(s, 1, 10) == [];
    assert DigitsValue(s, 5, 8) == 114;
    assert DigitsValue(s, 9, 10) == 1;
  }

  /** The line "467.*114.1" holds 467, 114 and 1. */
  lemma ExampleNumbersInLine(s: string)
    requires s == "467.*114.1"
    ensures NumbersInLine(s, 1) ==
      Ok([SchematicNumber(467, 1, Span(0, 2)), SchematicNumber(114, 1, Span(5, 7)), SchematicNumber(1, 1, Span(9, 9))])
  {
    ExampleLineHead(s);
    ExampleLineTail(s);
    var runs := [SchematicNumber(467, 1, Span(0, 2)), SchematicNumber(114, 1, Span(5, 7)), SchematicNumber(1, 1, Span(9, 9))];
    assert RunsFrom(s, 1, 0) == runs;
    assert Fits(runs);
  }

  /** The symbols of "467.3..*.@" are at columns 7 and 9. */
  lemma ExampleSymbolsInLine()
    ensures SymbolsUpTo("467.3..*.@", 1, 10, IsSymbol) == [SchematicSymbol(1, 7), SchematicSymbol(1, 9)]
  {
    var s := "467.3..*.@";
    assert SymbolsUpTo(s, 1, 7, IsSymbol) == [] by {
      SymbolsExact(s, 1, 7, IsSymbol);
      assert forall i :: 0 <= i < 7 ==> !IsSymbol(s[i]);
    }
  }

  /** The numbers of the example engine schematic of the puzzle, lines 0 to 4 ... */
  function ExampleNumbersTop(): seq<SchematicNumber>
  {
    [SchematicNumber(467, 0, Span(0, 2)),
     SchematicNumber(114, 0, Span(5, 7)),
     SchematicNumber(35, 2, Span(2, 3)),
     SchematicNumber(633, 2, Span(6, 8)),
     SchematicNumber(617, 4, Span(0, 2))]
  }

  /** ... and lines 5 to 9. */
  function ExampleNumbersBottom(): seq<SchematicNumber>
  {
    [SchematicNumber(58, 5, Span(7, 8)),
     SchematicNumber(592, 6, Span(2, 4)),
     SchematicNumber(755, 7, Span(6, 8)),
     SchematicNumber(664, 9, Span(1, 3)),
     SchematicNumber(598, 9, Span(5, 7))]
  }

  /** The symbols of the example engine schematic. */
  function ExampleSymbols(): seq<SchematicSymbol>
  {
    [SchematicSymbol(1, 3), SchematicSymbol(3, 6), SchematicSymbol(4, 3),
     SchematicSymbol(5, 5), SchematicSymbol(8, 3), SchematicSymbol(8, 5)]
  }

  /** Of lines 0 to 4, all but 114 are part numbers. */
  lemma ExampleTopParts(numbers: seq<SchematicNumber>, symbols: seq<SchematicSymbol>)
    requires numbers == ExampleNumbersTop() && symbols == ExampleSymbols()
    ensures PartNumbers(numbers, symbols) == [numbers[0], numbers[2], numbers[3], numbers[4]]
  {
    assert Adjacent(numbers[0], symbols[0]);
    assert numbers[..1][..0] == numbers[..0];
    assert PartNumbers(numbers[..1], symbols) == PartNumbers(numbers[..0], symbols) + [numbers[0]];
    assert !IsPartNumber(numbers[1], symbols);
    assert numbers[..2][..1] == numbers[..1];
    assert PartNumbers(numbers[..2], symbols) == PartNumbers(numbers[..1], symbols);
    assert Adjacent(numbers[2], symbols[0]);
    assert numbers[..3][..2] == numbers[..2];
    assert PartNumbers(numbers[..3], symbols) == PartNumbers(numbers[..2], symbols) + [numbers[2]];
    assert Adjacent(numbers[3], symbols[1]);
    assert numbers[..4][..3] == numbers[..3];
    assert PartNumbers(numbers[..4], symbols) == PartNumbers(numbers[..3], symbols) + [numbers[3]];
    assert Adjacent(numbers[4], symbols[2]);
    assert numbers[..5][..4] == numbers[..4];
    assert PartNumbers(numbers[..5], symbols) == PartNumbers(numbers[..4], symbols) + [numbers[4]];
    assert numbers[..5] == numbers;
  }

  /** Of lines 5 to 9, all but 58 are part numbers. */
  lemma ExampleBottomParts(numbers: seq<SchematicNumber>, symbols: seq<SchematicSymbol>)
    requires numbers == ExampleNumbersBottom() && symbols == ExampleSymbols()
    ensures PartNumbers(numbers, symbols) == [numbers[1], numbers[2], numbers[3], numbers[4]]
  {
    assert !IsPartNumber(numbers[0], symbols);
    assert numbers[..1][..0] == numbers[..0];
    assert PartNumbers(numbers[..1], symbols) == PartNumbers(numbers[..0], symbols);
    assert Adjacent(numbers[1], symbols[3]);
    assert numbers[..2][..1] == numbers[..1];
    assert PartNumbers(numbers[..2], symbols) == PartNumbers(numbers[..1], symbols) + [numbers[1]];
    assert Adjacent(numbers[2], symbols[5]);
    assert numbers[..3][..2] == numbers[..2];
    assert PartNumbers(numbers[..3], symbols) == PartNumbers(numbers[..2], symbols) + [numbers[2]];
    assert Adjacent(numbers[3], symbols[4]);
    assert numbers[..4][..3] == numbers[..3];
    assert PartNumbers(numbers[..4], symbols) == PartNumbers(numbers[..3], symbols) + [numbers[3]];
    assert Adjacent(numbers[4], symbols[5]);
    assert numbers[..5][..4] == numbers[..4];
    assert PartNumbers(numbers[..5], symbols) == PartNumbers(numbers[..4], symbols) + [numbers[4]];
    assert numbers[..5] == numbers;
  }

  /** Every number of the example but 114 and 58 is a part number, and they add up to 4361. */
  lemma ExamplePartNumbersSum(top: seq<SchematicNumber>, bottom: seq<SchematicNumber>, symbols: seq<SchematicSymbol>)
    requires top == ExampleNumbersTop() && bottom == ExampleNumbersBottom() && symbols == ExampleSymbols()
    ensures PartNumbers(top + bottom, symbols) ==
      [top[0], top[2], top[3], top[4], bottom[1], bottom[2], bottom[3], bottom[4]]
    ensures SumValues(PartNumbers(top + bottom, symbols)) == 4361
  {
    ExampleTopParts(top, symbols);
    ExampleBottomParts(bottom, symbols);
    PartNumbersAppend(top, bottom, symbols);
    var a := [top[0], top[2], top[3], top[4]];
    var b := [bottom[1], bottom[2], bottom[3], bottom[4]];
    SumValuesAppend(a, b);
    SumOfFour(a);
    SumOfFour(b);
  }
}

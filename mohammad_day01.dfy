/**
 * Day 1 (mohammad): calibration values.  Part 1 reads the first and the
 * last ASCII digit of each line; part 2 first rewrites the line twice —
 * once replacing the spelled digit that occurs earliest, once the one that
 * occurs latest — and reads the digits of the two rewrites put together.
 * A line without digits makes the solver panic (`unwrap` on `None`); the
 * model returns `None` there.
 */
module MohammadDay01 {
  import opened Text
  import Lethalgem = LethalgemDay1Part1

  /** The spelled digits, in the order the solver lists them. */
  function Word(i: nat): (w: string)
    requires i < 9
    ensures |w| >= 3
  {
    match i
    case 0 => "one"
    case 1 => "two"
    case 2 => "three"
    case 3 => "four"
    case 4 => "five"
    case 5 => "six"
    case 6 => "seven"
    case 7 => "eight"
    case _ => "nine"
  }

  /** The numeral that replaces `Word(i)`. */
  function Numeral(i: nat): (n: string)
    requires i < 9
    ensures |n| == 1 && IsDigit(n[0]) && DigitValue(n[0]) == i + 1
  {
    [('1' as int + i) as char]
  }

  /** No two spelled digits begin with the same two letters. */
  lemma WordsDiffer(i: nat, j: nat)
    requires i < 9 && j < 9
    ensures Word(i)[0] == Word(j)[0] && Word(i)[1] == Word(j)[1] ==> i == j
  {
  }

  /** Two different spelled digits never start at the same place. */
  lemma OneWordAt(s: string, i: nat, j: nat, p: nat)
    requires i < 9 && j < 9
    requires OccursAt(s, Word(i), p) && OccursAt(s, Word(j), p)
    ensures i == j
  {
    WordsDiffer(i, j);
    assert s[p..p + |Word(i)|][0] == s[p] == s[p..p + |Word(j)|][0];
    assert s[p..p + |Word(i)|][1] == s[p + 1] == s[p..p + |Word(j)|][1];
  }

  /** `opt.unwrap_or(default)`. */
  function UnwrapOr(opt: Option<nat>, default: nat): (n: nat)
    ensures opt.Some? ==> n == opt.value
    ensures opt.None? ==> n == default
  {
    match opt
    case Some(v) => v
    case None => default
  }

  /** Where each spelled digit first occurs, or the line's length when it does not. */
  function FirstIndices(line: string): (r: seq<nat>)
    ensures |r| == 9
  {
    seq(9, i requires 0 <= i < 9 => UnwrapOr(Find(line, Word(i)), |line|))
  }

  /** Where each spelled digit last occurs, or 0 when it does not. */
  function LastIndices(line: string): (r: seq<nat>)
    ensures |r| == 9
  {
    seq(9, i requires 0 <= i < 9 => UnwrapOr(RFind(line, Word(i)), 0))
  }

  /** The position of the minimum; on ties the last such position (the solver compares with `<=`). */
  function LastArgMin(xs: seq<nat>): (k: nat)
    requires |xs| > 0
    ensures k < |xs|
    decreases |xs|
  {
    if |xs| == 1 then 0
    else
      var k := LastArgMin(xs[..|xs| - 1]);
      if xs[|xs| - 1] <= xs[k] then |xs| - 1 else k
  }

  /** `LastArgMin` picks a minimum, and no later position holds it. */
  lemma {:induction false} LastArgMinIsMin(xs: seq<nat>)
    requires |xs| > 0
    ensures forall j :: 0 <= j < |xs| ==> xs[LastArgMin(xs)] <= xs[j]
    ensures forall j :: LastArgMin(xs) < j < |xs| ==> xs[LastArgMin(xs)] < xs[j]
    decreases |xs|
  {
    if |xs| > 1 {
      var front := xs[..|xs| - 1];
      LastArgMinIsMin(front);
      assert forall j :: 0 <= j < |front| ==> front[j] == xs[j];
    }
  }

  /**
   * The running choice of `replace_last`: a position replaces the current
   * maximum when it is at least as large and smaller than the line length.
   */
  function MaxChoice(xs: seq<nat>, len: nat): (c: (nat, nat))
    requires |xs| > 0
    ensures c.1 < |xs| && c.0 == xs[c.1]
    decreases |xs|
  {
    if |xs| == 1 then (xs[0], 0)
    else
      var c := MaxChoice(xs[..|xs| - 1], len);
      var x := xs[|xs| - 1];
      if x >= c.0 && x < len then (x, |xs| - 1) else c
  }

  /** When every position is below `len`, `MaxChoice` picks a maximum, and no later position holds it. */
  lemma {:induction false} MaxChoiceIsMax(xs: seq<nat>, len: nat)
    requires |xs| > 0
    requires forall j :: 0 <= j < |xs| ==> xs[j] < len
    ensures forall j :: 0 <= j < |xs| ==> xs[j] <= MaxChoice(xs, len).0
    ensures forall j :: MaxChoice(xs, len).1 < j < |xs| ==> xs[j] < MaxChoice(xs, len).0
    decreases |xs|
  {
    if |xs| > 1 {
      var front := xs[..|xs| - 1];
      assert forall j :: 0 <= j < |front| ==> front[j] == xs[j];
      MaxChoiceIsMax(front, len);
    }
  }

  /** What `replace_first` returns: the line with the earliest spelled digit replaced everywhere, or "". */
  function ReplacedFirst(line: string): string
  {
    var indices := FirstIndices(line);
    var k := LastArgMin(indices);
    if indices[k] < |line| then Replace(line, Word(k), Numeral(k)) else ""
  }

  /** What `replace_last` returns: the line with the latest spelled digit replaced everywhere, or "". */
  function ReplacedLast(line: string): string
  {
    var c := MaxChoice(LastIndices(line), |line|);
    if c.0 < |line| then Replace(line, Word(c.1), Numeral(c.1)) else ""
  }

  /** The loop of `replace_first`: keep the smallest position seen so far, the later one on ties. */
  method SmallestPosition(indices: seq<nat>) returns (min: nat, minIndex: nat)
    requires |indices| > 0
    ensures minIndex == LastArgMin(indices) && min == indices[minIndex]
  {
    min, minIndex := indices[0], 0;
    for i := 0 to |indices|
      invariant minIndex == LastArgMin(indices[..if i == 0 then 1 else i])
      invariant min == indices[minIndex]
    {
      assert indices[..i + 1][..i] == indices[..i];
      if indices[i] <= min {
        min, minIndex := indices[i], i;
      }
    }
    assert indices[..|indices|] == indices;
  }

  /** `replace_first`: the earliest spelled digit, replaced everywhere by its numeral. */
  method ReplaceFirst(line: string) returns (r: string)
    ensures r == ReplacedFirst(line)
  {
    var min, minIndex := SmallestPosition(FirstIndices(line));
    if min < |line| {
      r := Replace(line, Word(minIndex), Numeral(minIndex));
    } else {
      r := "";
    }
  }

  /** The loop of `replace_last`: keep the largest position below `len` seen so far, the later one on ties. */
  method LargestPosition(indices: seq<nat>, len: nat) returns (max: nat, maxIndex: nat)
    requires |indices| > 0
    ensures (max, maxIndex) == MaxChoice(indices, len)
  {
    max, maxIndex := indices[0], 0;
    for i := 0 to |indices|
      invariant (max, maxIndex) == MaxChoice(indices[..if i == 0 then 1 else i], len)
    {
      assert indices[..i + 1][..i] == indices[..i];
      if indices[i] >= max && indices[i] < len {
        max, maxIndex := indices[i], i;
      }
    }
    assert indices[..|indices|] == indices;
  }

  /** `replace_last`: the latest spelled digit, replaced everywhere by its numeral. */
  method ReplaceLast(line: string) returns (r: string)
    ensures r == ReplacedLast(line)
  {
    var max, maxIndex := LargestPosition(LastIndices(line), |line|);
    if max < |line| {
      r := Replace(line, Word(maxIndex), Numeral(maxIndex));
    } else {
      r := "";
    }
  }

  /** `replace_first` gives "" exactly when no spelled digit occurs in the line. */
  lemma ReplacedFirstEmpty(line: string)
    ensures ReplacedFirst(line) == [] <==> forall i :: 0 <= i < 9 ==> Find(line, Word(i)).None?
  {
    var indices := FirstIndices(line);
    var k := LastArgMin(indices);
    LastArgMinIsMin(indices);
    if exists i :: 0 <= i < 9 && Find(line, Word(i)).Some? {
      var i :| 0 <= i < 9 && Find(line, Word(i)).Some?;
      assert indices[i] < |line|;
      assert Find(line, Word(k)).Some?;
      ReplaceFirstOccurrence(line, Word(k), Numeral(k), indices[k]);
    } else {
      assert indices[k] == |line|;
    }
  }

  /**
   * When `Word(k)` is the spelled digit that occurs first, `replace_first`
   * replaces every occurrence of it by its numeral.
   */
  lemma ReplacedFirstEarliest(line: string, k: nat)
    requires k < 9 && Find(line, Word(k)).Some?
    requires forall j :: 0 <= j < 9 && Find(line, Word(j)).Some? ==> Find(line, Word(k)).value <= Find(line, Word(j)).value
    ensures ReplacedFirst(line) == Replace(line, Word(k), Numeral(k))
  {
    var indices := FirstIndices(line);
    var m := LastArgMin(indices);
    LastArgMinIsMin(indices);
    assert indices[k] == Find(line, Word(k)).value < |line|;
    assert indices[m] <= indices[k];
    assert Find(line, Word(m)).Some?;
    assert indices[m] == indices[k];
    OneWordAt(line, m, k, indices[k]);
  }

  /**
   * When `Word(k)` is the spelled digit whose last occurrence is the latest
   * and lies after the first character, `replace_last` replaces every
   * occurrence of it by its numeral.
   */
  lemma ReplacedLastLatest(line: string, k: nat)
    requires k < 9 && RFind(line, Word(k)).Some? && RFind(line, Word(k)).value > 0
    requires forall j :: 0 <= j < 9 && RFind(line, Word(j)).Some? ==> RFind(line, Word(j)).value <= RFind(line, Word(k)).value
    ensures ReplacedLast(line) == Replace(line, Word(k), Numeral(k))
  {
    var indices := LastIndices(line);
    var p := RFind(line, Word(k)).value;
    assert forall j :: 0 <= j < 9 ==> indices[j] < |line|;
    var c := MaxChoice(indices, |line|);
    MaxChoiceIsMax(indices, |line|);
    assert indices[k] == p && p <= c.0;
    assert RFind(line, Word(c.1)).Some?;
    assert c.0 == p;
    OneWordAt(line, c.1, k, p);
  }

  /**
   * Ties go to the later word: when every spelled digit that occurs at all
   * last occurs at the very start, `rfind`'s fallback of 0 ties with it and
   * `replace_last` replaces "nine".
   */
  lemma ReplacedLastTies(line: string)
    requires line != []
    requires forall j :: 0 <= j < 9 && RFind(line, Word(j)).Some? ==> RFind(line, Word(j)).value == 0
    ensures ReplacedLast(line) == Replace(line, Word(8), Numeral(8))
  {
    var indices := LastIndices(line);
    assert forall j :: 0 <= j < 9 ==> indices[j] == 0;
    var c := MaxChoice(indices, |line|);
    MaxChoiceIsMax(indices, |line|);
    assert c.1 == 8;
  }

  /** A non-empty line without spelled digits comes back from `replace_last` unchanged. */
  lemma ReplacedLastUnchanged(line: string)
    requires line != []
    requires forall j :: 0 <= j < 9 ==> RFind(line, Word(j)).None?
    ensures ReplacedLast(line) == line
  {
    ReplacedLastTies(line);
    ReplaceAbsent(line, Word(8), Numeral(8));
  }

  /** An empty line comes back from both rewrites as "". */
  lemma EmptyLine()
    ensures ReplacedFirst([]) == [] && ReplacedLast([]) == []
  {
    var c := MaxChoice(LastIndices([]), 0);
    assert c.0 == 0;
  }

  /** The calibration value of a line: ten times its first digit plus its last; `None` where the solver panics. */
  function Calibration(line: string): (r: Option<nat>)
  {
    var digits := FilterDigits(line);
    if digits == [] then None
    else Some(10 * DigitValue(digits[0]) + DigitValue(digits[|digits| - 1]))
  }

  /** With `i` the first and `j` the last digit of the line, the value is ten times the one plus the other. */
  lemma CalibrationFirstAndLast(line: string, i: nat, j: nat)
    requires i < |line| && IsDigit(line[i]) && forall k :: 0 <= k < i ==> !IsDigit(line[k])
    requires j < |line| && IsDigit(line[j]) && forall k :: j < k < |line| ==> !IsDigit(line[k])
    ensures Calibration(line) == Some(10 * DigitValue(line[i]) + DigitValue(line[j]))
  {
    FilterDigitsFirst(line, i);
    FilterDigitsLast(line, j);
  }

  /** Part 1 agrees with lethalgem's `extract_number_from_line`: the same value, and a panic where that reports an error. */
  lemma AgreesWithLethalgem(line: string)
    ensures Calibration(line).Some? <==> Lethalgem.LineValue(line).Ok?
    ensures Calibration(line).Some? ==> Calibration(line).value == Lethalgem.LineValue(line).value
  {
    var digits := FilterDigits(line);
    if digits != [] {
      TwoDigits(digits[0], digits[|digits| - 1]);
    }
  }

  /** The value part 2 reads from a line: the digits of both rewrites, one after the other. */
  function Part2Value(line: string): Option<nat>
  {
    Calibration(ReplacedFirst(line) + ReplacedLast(line))
  }

  /** Without spelled digits, part 2 reads the same value as part 1. */
  lemma Part2WithoutWords(line: string)
    requires forall j :: 0 <= j < 9 ==> Find(line, Word(j)).None?
    ensures Part2Value(line) == Calibration(line)
  {
    ReplacedFirstEmpty(line);
    if line == [] {
      EmptyLine();
    } else {
      forall j | 0 <= j < 9 ensures RFind(line, Word(j)).None? {
        FindRFindAgree(line, Word(j));
      }
      ReplacedLastUnchanged(line);
      assert ReplacedFirst(line) + ReplacedLast(line) == line;
    }
  }

  /** The sum of the per-line values, or `None` when some line makes the solver panic. */
  function Total(values: seq<Option<nat>>): (r: Option<nat>)
    decreases |values|
  {
    if values == [] then Some(0)
    else
      match Total(values[..|values| - 1])
      case None => None
      case Some(t) =>
        match values[|values| - 1]
        case None => None
        case Some(v) => Some(t + v)
  }

  /** The total is defined exactly when every line has a value. */
  lemma {:induction false} TotalDefined(values: seq<Option<nat>>)
    ensures Total(values).Some? <==> forall k :: 0 <= k < |values| ==> values[k].Some?
    decreases |values|
  {
    if values != [] {
      var front := values[..|values| - 1];
      TotalDefined(front);
      assert forall k :: 0 <= k < |front| ==> front[k] == values[k];
    }
  }

  /** The part 1 value of every line, in order. */
  function Part1Values(lines: seq<string>): (r: seq<Option<nat>>)
    ensures |r| == |lines|
  {
    seq(|lines|, k requires 0 <= k < |lines| => Calibration(lines[k]))
  }

  /** A line without a value leaves the whole total undefined: the solver panics there. */
  lemma TotalStops(values: seq<Option<nat>>, i: nat)
    requires i < |values| && values[i] == None
    ensures Total(values) == None
  {
    TotalDefined(values);
  }

  /** The total of the first `n` values is the total of the first `n - 1` plus the `n`-th. */
  lemma TotalAdd(values: seq<Option<nat>>, n: nat, prev: nat, x: nat, sum: nat)
    requires 0 < n <= |values| && Total(values[..n - 1]) == Some(prev)
    requires values[n - 1] == Some(x) && sum == prev + x
    ensures Total(values[..n]) == Some(sum)
  {
    assert values[..n][..n - 1] == values[..n - 1];
  }

  /** `part1`: add up the calibration value of every line. */
  method Part1(lines: seq<string>) returns (total: Option<nat>)
    ensures total == Total(Part1Values(lines))
  {
    ghost var values := Part1Values(lines);
    var sum: nat := 0;
    var i := 0;
    while i < |lines|
      invariant i <= |lines|
      invariant Total(values[..i]) == Some(sum)
    {
      var digits := FilterDigits(lines[i]);
      if digits == [] {
        TotalStops(values, i);
        return None;
      }
      var v := 10 * DigitValue(digits[0]) + DigitValue(digits[|digits| - 1]);
      ghost var prev := sum;
      sum := sum + v;
      i := i + 1;
      TotalAdd(values, i, prev, v, sum);
    }
    assert values[..|lines|] == values;
    return Some(sum);
  }

  /** One line of `part2`: both rewrites joined, then the first and the last digit. */
  method Part2Line(line: string) returns (v: Option<nat>)
    ensures v == Part2Value(line)
  {
    var replaced1 := ReplaceFirst(line);
    var replaced2 := ReplaceLast(line);
    v := Calibration(replaced1 + replaced2);
  }

  /** The part 2 value of every line, in order. */
  function Part2Values(lines: seq<string>): (r: seq<Option<nat>>)
    ensures |r| == |lines|
  {
    seq(|lines|, k requires 0 <= k < |lines| => Part2Value(lines[k]))
  }

  /**
   * `part2`: add up the part 2 value of every line.  `values` stands for the
   * value of each line; `Part2Values(lines)` is the one sequence that
   * qualifies (`Part2ValuesQualify`).
   */
  method Part2(lines: seq<string>, ghost values: seq<Option<nat>>) returns (total: Option<nat>)
    requires |values| == |lines|
    requires forall k {:trigger Part2Value(lines[k])} :: 0 <= k < |lines| ==> values[k] == Part2Value(lines[k])
    ensures total == Total(values)
  {
    var sum: nat := 0;
    var i := 0;
    while i < |lines|
      invariant i <= |lines|
      invariant Total(values[..i]) == Some(sum)
    {
      var v := Part2Line(lines[i]);
      if v.None? {
        TotalStops(values, i);
        return None;
      }
      ghost var prev := sum;
      sum := sum + v.value;
      i := i + 1;
      TotalAdd(values, i, prev, v.value, sum);
    }
    assert values[..|lines|] == values;
    return Some(sum);
  }

  /** `Part2Values` meets the precondition of `Part2`, and is the only sequence that does. */
  lemma Part2ValuesQualify(lines: seq<string>, values: seq<Option<nat>>)
    ensures forall k {:trigger Part2Value(lines[k])} :: 0 <= k < |lines| ==> Part2Values(lines)[k] == Part2Value(lines[k])
    ensures |values| == |lines| && (forall k {:trigger Part2Value(lines[k])} :: 0 <= k < |lines| ==> values[k] == Part2Value(lines[k]))
      ==> values == Part2Values(lines)
  {
  }
}

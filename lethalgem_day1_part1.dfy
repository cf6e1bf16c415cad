/**
 * Day 1, part 1 (lethalgem): the calibration value of a line is the number
 * written by its first and its last ASCII digit; the calibration document
 * is read line by line and every line must yield a value.
 */
module LethalgemDay1Part1 {
  import opened Text

  /** The failures `extract_number_from_line` can report (reading the file is not modelled). */
  datatype Part1Error = ParseIntFailed | NoFirstNum | NoLastNum

  /**
   * The value of one line: the first and the last digit, written side by
   * side and parsed as an `i32`.
   */
  function LineValue(line: string): (r: Result<int, Part1Error>)
  {
    var nums := FilterDigits(line);
    if nums == [] then Err(NoFirstNum)
    else
      match ParseI32([nums[0], nums[|nums| - 1]])
      case Some(n) => Ok(n)
      case None => Err(ParseIntFailed)
  }

  /** `extract_number_from_line`: collect the digits in a loop, then compose the first and the last. */
  method ExtractNumberFromLine(line: string) returns (r: Result<int, Part1Error>)
    ensures r == LineValue(line)
  {
    var nums: seq<char> := [];
    for i := 0 to |line|
      invariant nums == FilterDigits(line[..i])
    {
      assert line[..i + 1][..i] == line[..i];
      if IsDigit(line[i]) {
        nums := nums + [line[i]];
      }
    }
    assert line[..|line|] == line;
    if nums == [] {
      return Err(NoFirstNum);
    }
    var firstNum := nums[0];
    var lastNum := nums[|nums| - 1];
    var composed := ParseI32([firstNum, lastNum]);
    if composed.None? {
      return Err(ParseIntFailed);
    }
    return Ok(composed.value);
  }

  /** With `i` the first and `j` the last digit of the line, the value is ten times the one plus the other. */
  lemma FirstAndLast(line: string, i: nat, j: nat)
    requires i < |line| && IsDigit(line[i]) && forall k :: 0 <= k < i ==> !IsDigit(line[k])
    requires j < |line| && IsDigit(line[j]) && forall k :: j < k < |line| ==> !IsDigit(line[k])
    ensures LineValue(line) == Ok(10 * DigitValue(line[i]) + DigitValue(line[j]))
  {
    FilterDigitsFirst(line, i);
    FilterDigitsLast(line, j);
    TwoDigits(line[i], line[j]);
  }

  /** A line fails with `NoFirstNum` exactly when it holds no digit; no other error ever occurs. */
  lemma NoDigitsFails(line: string)
    ensures LineValue(line) == Err(NoFirstNum) <==> forall k :: 0 <= k < |line| ==> !IsDigit(line[k])
    ensures LineValue(line).Err? ==> LineValue(line).error == NoFirstNum
  {
    FilterDigitsEmpty(line);
    var nums := FilterDigits(line);
    if nums != [] {
      TwoDigits(nums[0], nums[|nums| - 1]);
    }
  }

  /** Every value is a two-digit decimal number, at most 99. */
  lemma ValueRange(line: string)
    ensures LineValue(line).Ok? ==> 0 <= LineValue(line).value <= 99
  {
    var nums := FilterDigits(line);
    if nums != [] {
      TwoDigits(nums[0], nums[|nums| - 1]);
    }
  }

  /** A line with a single digit `d` gives `11 * d`. */
  lemma SingleDigit(line: string, i: nat)
    requires i < |line| && IsDigit(line[i])
    requires forall k :: 0 <= k < |line| && k != i ==> !IsDigit(line[k])
    ensures LineValue(line) == Ok(11 * DigitValue(line[i]))
  {
    FirstAndLast(line, i, i);
  }

  /** The values of all lines in order, or the error of the first line that has none. */
  function AllNumbers(lines: seq<string>): (r: Result<seq<int>, Part1Error>)
    decreases |lines|
  {
    if lines == [] then Ok([])
    else
      match AllNumbers(lines[..|lines| - 1])
      case Err(e) => Err(e)
      case Ok(numbers) =>
        match LineValue(lines[|lines| - 1])
        case Err(e) => Err(e)
        case Ok(n) => Ok(numbers + [n])
  }

  /** `extract_all_numbers`: one value per line of the input, stopping at the first line without digits. */
  method ExtractAllNumbers(input: string) returns (r: Result<seq<int>, Part1Error>)
    ensures r == AllNumbers(Lines(input))
  {
    var lines := Lines(input);
    var numbers: seq<int> := [];
    for i := 0 to |lines|
      invariant AllNumbers(lines[..i]) == Ok(numbers)
    {
      assert lines[..i + 1][..i] == lines[..i];
      var extracted := ExtractNumberFromLine(lines[i]);
      if extracted.Err? {
        AllNumbersPerLine(lines[..i]);
        assert forall j :: 0 <= j < i ==> lines[..i][j] == lines[j];
        AllNumbersFirstError(lines, i);
        return Err(extracted.error);
      }
      numbers := numbers + [extracted.value];
    }
    assert lines[..|lines|] == lines;
    return Ok(numbers);
  }

  /** Success means one value per line, each the value of its own line, in order. */
  lemma {:induction false} AllNumbersPerLine(lines: seq<string>)
    ensures AllNumbers(lines).Ok? <==> forall k :: 0 <= k < |lines| ==> LineValue(lines[k]).Ok?
    ensures AllNumbers(lines).Ok? ==>
      |AllNumbers(lines).value| == |lines| &&
      forall k :: 0 <= k < |lines| ==> AllNumbers(lines).value[k] == LineValue(lines[k]).value
    decreases |lines|
  {
    if lines != [] {
      var front := lines[..|lines| - 1];
      AllNumbersPerLine(front);
      assert forall k :: 0 <= k < |front| ==> front[k] == lines[k];
    }
  }

  /** A failure is the failure of the first line without a value. */
  lemma {:induction false} AllNumbersFirstError(lines: seq<string>, k: nat)
    requires k < |lines| && LineValue(lines[k]).Err?
    requires forall j :: 0 <= j < k ==> LineValue(lines[j]).Ok?
    ensures AllNumbers(lines) == Err(LineValue(lines[k]).error)
    decreases |lines|
  {
    var front := lines[..|lines| - 1];
    if k < |front| {
      AllNumbersFirstError(front, k);
    } else {
      AllNumbersPerLine(front);
      assert forall j :: 0 <= j < |front| ==> front[j] == lines[j];
    }
  }

  function Sum(values: seq<int>): int
  {
    if values == [] then 0 else Sum(values[..|values| - 1]) + values[|values| - 1]
  }

  lemma ExampleFirstLine(line: string)
    requires line == "1abc2"
    ensures LineValue(line) == Ok(12)
  {
    assert line[0] == '1' && line[1] == 'a' && line[2] == 'b' && line[3] == 'c' && line[4] == '2';
    FirstAndLast(line, 0, 4);
  }

  lemma ExampleSecondLine(line: string)
    requires line == "pqr3stu8vwx"
    ensures LineValue(line) == Ok(38)
  {
    assert line[0] == 'p' && line[1] == 'q' && line[2] == 'r' && line[3] == '3';
    assert line[7] == '8' && line[8] == 'v' && line[9] == 'w' && line[10] == 'x';
    FirstAndLast(line, 3, 7);
  }

  lemma ExampleThirdLine(line: string)
    requires line == "a1b2c3d4e5f"
    ensures LineValue(line) == Ok(15)
  {
    assert line[0] == 'a' && line[1] == '1' && line[9] == '5' && line[10] == 'f';
    FirstAndLast(line, 1, 9);
  }

  /** The single digit 7 makes 77. */
  lemma ExampleFourthLine(line: string)
    requires line == "treb7uchet"
    ensures LineValue(line) == Ok(77)
  {
    assert line[0] == 't' && line[1] == 'r' && line[2] == 'e' && line[3] == 'b' && line[4] == '7';
    assert line[5] == 'u' && line[6] == 'c' && line[7] == 'h' && line[8] == 'e' && line[9] == 't';
    SingleDigit(line, 4);
  }

  /** The four example lines give 12, 38, 15 and 77, which sum to 142. */
  lemma ExampleDocument(lines: seq<string>)
    requires lines == ["1abc2", "pqr3stu8vwx", "a1b2c3d4e5f", "treb7uchet"]
    ensures AllNumbers(lines) == Ok([12, 38, 15, 77])
    ensures Sum(AllNumbers(lines).value) == 142
  {
    ExampleFirstLine(lines[0]);
    ExampleSecondLine(lines[1]);
    ExampleThirdLine(lines[2]);
    ExampleFourthLine(lines[3]);
    AllNumbersPerLine(lines);
    assert AllNumbers(lines).value == [12, 38, 15, 77];
    ExampleSum([12, 38, 15, 77]);
  }

  lemma ExampleSum(values: seq<int>)
    requires values == [12, 38, 15, 77]
    ensures Sum(values) == 142
  {
    assert Sum([12]) == 12 by { assert [12][..0] == []; }
    assert Sum([12, 38]) == 50 by { assert [12, 38][..1] == [12]; }
    assert Sum([12, 38, 15]) == 65 by { assert [12, 38, 15][..2] == [12, 38]; }
    assert values[..3] == [12, 38, 15];
  }
}

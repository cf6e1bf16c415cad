/**
 * lethalgem/day_9/part_2: extrapolating every history of the OASIS report
 * backwards.  The first reading of each row of the difference table is
 * collected on the way down; working back up, the value before a row's
 * first reading is that reading minus the value before the first reading
 * of the row below.  The answer is the sum of the predictions.
 */
module LethalgemDay9Part2 {
  import opened Text
  import opened Extrapolation

  datatype Day8Error = UnableToLoadFile | ParseIntFailed | NoLastValueInSequence(sequence: seq<int>)

  /**
   * `find_next_sequence`: one push per reading after the first, of its
   * step from the reading before it, and a flag that stays set while every
   * step is zero (so it is set for fewer than two readings).
   */
  method FindNextSequence(sequence: seq<int>) returns (next: seq<int>, isZeroSequence: bool)
    ensures next == Diffs(sequence)
    ensures |next| == if sequence == [] then 0 else |sequence| - 1
    ensures forall i :: 0 <= i < |next| ==> next[i] == sequence[i + 1] - sequence[i]
    ensures isZeroSequence <==> AllZero(next)
  {
    isZeroSequence := true;
    next := [];
    for i := 0 to |sequence|
      invariant |next| == if i == 0 then 0 else i - 1
      invariant forall j :: 0 <= j < |next| ==> next[j] == sequence[j + 1] - sequence[j]
      invariant isZeroSequence <==> AllZero(next)
    {
      if i > 0 {
        var step := sequence[i] - sequence[i - 1];
        ghost var before := next;
        next := next + [step];
        assert forall j :: 0 <= j < |before| ==> next[j] == before[j];
        if step != 0 {
          isZeroSequence := false;
        }
      }
    }
    DiffsUnique(sequence, next);
  }

  /** `steps[0] - (steps[1] - (... - (steps[m - 1] - bottom)))`: working up from `bottom`. */
  ghost function Unwind(steps: seq<int>, bottom: int): int
    decreases |steps|
  {
    if steps == [] then bottom else steps[0] - Unwind(steps[1..], bottom)
  }

  /** Going one row further down moves the subtraction of the new first reading inside. */
  lemma {:induction false} UnwindSnoc(steps: seq<int>, x: int, bottom: int)
    ensures Unwind(steps + [x], bottom) == Unwind(steps, x - bottom)
    decreases |steps|
  {
    if steps != [] {
      assert (steps + [x])[1..] == steps[1..] + [x];
      UnwindSnoc(steps[1..], x, bottom);
    }
  }

  /**
   * What `predict_first_reading` returns: an error for an empty history,
   * and otherwise the first reading minus the backward extrapolation of
   * its differences, or an error when those cannot be extrapolated.  The
   * error always carries the empty sequence whose first element was missing.
   */
  ghost function PredictFirst(s: seq<int>): Result<int, Day8Error>
  {
    if s == [] then Err(NoLastValueInSequence([]))
    else match Previous(Diffs(s))
      case None => Err(NoLastValueInSequence([]))
      case Some(p) => Ok(s[0] - p)
  }

  /** The first readings collected so far lead to the answer once the rows below are extrapolated. */
  ghost function Pending(steps: seq<int>, below: Option<int>): Result<int, Day8Error>
  {
    match below
    case None => Err(NoLastValueInSequence([]))
    case Some(p) => Ok(Unwind(steps, p))
  }

  /** One round of the descent: the row `d` below `next` is not all zero, so the pending answer moves down to it. */
  lemma DescendStep(steps: seq<int>, d: seq<int>)
    requires d != [] && !AllZero(d)
    ensures Pending(steps, Previous(d)) == Pending(steps + [d[0]], Previous(Diffs(d)))
  {
    PreviousStep(d);
    PendingStep(steps, d[0], Previous(d), Previous(Diffs(d)));
  }

  /** A reading `x` whose row's extrapolation `here` is `x` minus the one `below` moves into the steps. */
  lemma PendingStep(steps: seq<int>, x: int, here: Option<int>, below: Option<int>)
    requires here.None? <==> below.None?
    requires here.Some? ==> here.value == x - below.value
    ensures Pending(steps, here) == Pending(steps + [x], below)
  {
    if below.Some? {
      UnwindSnoc(steps, x, below.value);
    }
  }

  /** The last round of the descent: the row `d` is all zero, and its first reading ends the steps. */
  lemma DescendLast(steps: seq<int>, d: seq<int>)
    requires d != [] && AllZero(d)
    ensures Pending(steps, Previous(d)) == Ok(Unwind(steps, d[0]))
  {
  }

  /** The readings in the opposite order: Rust's in-place `Vec::reverse`. */
  method ReverseSteps(s: seq<int>) returns (r: seq<int>)
    ensures r == Reverse(s)
  {
    r := [];
    for i := 0 to |s|
      invariant |r| == i
      invariant forall j :: 0 <= j < i ==> r[j] == s[|s| - 1 - j]
    {
      r := r + [s[|s| - 1 - i]];
    }
  }

  /**
   * `predict_first_reading`: descend through the difference rows,
   * collecting each row's first reading, until a row is all zero; then
   * reverse the readings and work back up.  `rounds` counts the rounds of
   * the descent, which never exceed the number of readings.
   */
  method PredictFirstReading(sequence: seq<int>) returns (r: Result<int, Day8Error>, ghost rounds: nat)
    ensures r == PredictFirst(sequence)
    ensures rounds <= |sequence|
  {
    rounds := 0;
    if sequence == [] {
      return Err(NoLastValueInSequence(sequence)), rounds;
    }
    var foundZeroSequence := false;
    var firstSteps := [sequence[0]];
    var nextSequence := sequence;
    if Previous(Diffs(sequence)).Some? {
      var p := Previous(Diffs(sequence)).value;
      assert [sequence[0]][1..] == [];
      assert Unwind([sequence[0]], p) == sequence[0] - p;
      assert PredictFirst(sequence) == Ok(sequence[0] - p);
    }
    while !foundZeroSequence
      invariant nextSequence != [] && |nextSequence| + rounds == |sequence|
      invariant firstSteps != []
      invariant !foundZeroSequence ==> PredictFirst(sequence) == Pending(firstSteps, Previous(Diffs(nextSequence)))
      invariant foundZeroSequence ==>
        PredictFirst(sequence) == Ok(Unwind(firstSteps[..|firstSteps| - 1], firstSteps[|firstSteps| - 1]))
      decreases |nextSequence| + (if foundZeroSequence then 0 else 1)
    {
      rounds := rounds + 1;
      var steps, isZero := FindNextSequence(nextSequence);
      if steps == [] {
        return Err(NoLastValueInSequence(steps)), rounds;
      }
      ghost var before := firstSteps;
      firstSteps := firstSteps + [steps[0]];
      assert firstSteps[..|firstSteps| - 1] == before;
      if isZero {
        DescendLast(before, steps);
      } else {
        DescendStep(before, steps);
      }
      foundZeroSequence := isZero;
      nextSequence := steps;
    }

    ghost var collected := firstSteps;
    ghost var n := |collected|;
    firstSteps := ReverseSteps(firstSteps);
    var predictedFirstStep := firstSteps[0];
    for i := 0 to |firstSteps|
      invariant i < n
      invariant predictedFirstStep == Unwind(collected[n - 1 - i..n - 1], collected[n - 1])
    {
      if i + 1 == |firstSteps| {
        break;
      }
      assert collected[n - 2 - i..n - 1][1..] == collected[n - 1 - i..n - 1];
      predictedFirstStep := firstSteps[i + 1] - predictedFirstStep;
    }
    assert collected[0..n - 1] == collected[..n - 1];
    r := Ok(predictedFirstStep);
  }

  // ---------------------------------------------------------------------
  // What the prediction is

  /** An empty history has no first reading. */
  lemma PredictFirstEmpty()
    ensures PredictFirst([]) == Err(NoLastValueInSequence([]))
  {
  }

  /** A single reading has no differences to extrapolate, even when it is zero. */
  lemma PredictFirstSingle(a: int)
    ensures PredictFirst([a]) == Err(NoLastValueInSequence([]))
  {
    assert Diffs([a]) == [];
  }

  /**
   * From two readings on, the prediction is the backward extrapolation of
   * the history; the two differ only on a single zero reading, which the
   * extrapolation continues with zero.
   */
  lemma PredictFirstIsPrevious(s: seq<int>)
    requires |s| >= 2
    ensures PredictFirst(s).Ok? <==> Previous(s).Some?
    ensures PredictFirst(s).Ok? ==> PredictFirst(s).value == Previous(s).value
  {
    if AllZero(s) {
      var d := Diffs(s);
      forall i | 0 <= i < |d|
        ensures d[i] == 0
      {
        assert d[i] == s[i + 1] - s[i];
      }
    } else {
      PreviousStep(s);
    }
  }

  /** An arithmetic history of three or more readings is preceded by `a - d`. */
  lemma PredictFirstArithmetic(a: int, d: int, n: nat)
    requires n >= 3
    ensures PredictFirst(Arithmetic(a, d, n)) == Ok(a - d)
  {
    ArithmeticExtrapolates(a, d, n);
    PredictFirstIsPrevious(Arithmetic(a, d, n));
  }

  // ---------------------------------------------------------------------
  // Summing over the report

  /** The prediction for one line of the report. */
  ghost function LineResult(line: string): Result<int, Day8Error>
  {
    match Readings(SplitWhitespace(line))
    case None => Err(ParseIntFailed)
    case Some(s) => PredictFirst(s)
  }

  /** The sum of the results, or the first error among them. */
  function Sum(results: seq<Result<int, Day8Error>>): Result<int, Day8Error>
    decreases |results|
  {
    if results == [] then Ok(0)
    else match Sum(results[..|results| - 1])
      case Err(e) => Err(e)
      case Ok(t) =>
        match results[|results| - 1]
        case Err(e) => Err(e)
        case Ok(v) => Ok(t + v)
  }

  /** The sum fails exactly when some result is an error, with the first such error. */
  lemma {:induction false} SumFails(results: seq<Result<int, Day8Error>>)
    ensures Sum(results).Err? <==> exists i :: 0 <= i < |results| && results[i].Err?
    ensures Sum(results).Err? ==>
      exists i :: 0 <= i < |results| && results[i] == Err(Sum(results).error) && (forall j :: 0 <= j < i ==> results[j].Ok?)
    decreases |results|
  {
    if results != [] {
      var init := results[..|results| - 1];
      SumFails(init);
      assert forall i :: 0 <= i < |init| ==> init[i] == results[i];
    }
  }

  ghost function LineResults(lines: seq<string>): (r: seq<Result<int, Day8Error>>)
    ensures |r| == |lines|
    ensures forall k :: 0 <= k < |lines| ==> r[k] == LineResult(lines[k])
  {
    seq(|lines|, k requires 0 <= k < |lines| => LineResult(lines[k]))
  }

  lemma SumStops(results: seq<Result<int, Day8Error>>, i: nat, e: Day8Error)
    requires i < |results| && Sum(results[..i]).Ok? && results[i] == Err(e)
    ensures Sum(results[..i + 1]) == Err(e)
  {
    assert results[..i + 1][..i] == results[..i];
  }

  lemma SumAdds(results: seq<Result<int, Day8Error>>, n: nat, before: int, v: int, sum: int)
    requires 0 < n <= |results| && Sum(results[..n - 1]) == Ok(before)
    requires results[n - 1] == Ok(v) && sum == before + v
    ensures Sum(results[..n]) == Ok(sum)
  {
    assert results[..n][..n - 1] == results[..n - 1];
  }

  /** An error in some line is the error of the whole report. */
  lemma {:induction false} SumKeepsError(results: seq<Result<int, Day8Error>>, n: nat)
    requires n <= |results| && Sum(results[..n]).Err?
    ensures Sum(results) == Sum(results[..n])
    decreases |results| - n
  {
    if n < |results| {
      assert results[..n + 1][..n] == results[..n];
      SumKeepsError(results, n + 1);
    } else {
      assert results[..n] == results;
    }
  }

  /**
   * `extrapolate_all_values`: parse each line into readings, predict the
   * reading before them and add it to the sum, stopping at the first line
   * that does not parse or cannot be extrapolated.
   */
  method ExtrapolateAllValues(input: string) returns (r: Result<int, Day8Error>)
    ensures r == Sum(LineResults(Lines(input)))
  {
    var lines := Lines(input);
    ghost var results := LineResults(lines);
    var sum := 0;
    for i := 0 to |lines|
      invariant Sum(results[..i]) == Ok(sum)
    {
      var predicted := PredictLine(lines[i]);
      assert predicted == results[i];
      if predicted.Err? {
        SumStops(results, i, predicted.error);
        SumKeepsError(results, i + 1);
        return Err(predicted.error);
      }
      ghost var before := sum;
      sum := sum + predicted.value;
      SumAdds(results, i + 1, before, predicted.value, sum);
    }
    assert results[..|lines|] == results;
    r := Ok(sum);
  }

  /** The body of the loop for one line: parse its readings and predict the one before them. */
  method PredictLine(line: string) returns (r: Result<int, Day8Error>)
    ensures r == LineResult(line)
  {
    var sequence := Readings(SplitWhitespace(line));
    if sequence.None? {
      return Err(ParseIntFailed);
    }
    ghost var rounds;
    r, rounds := PredictFirstReading(sequence.value);
  }

  // ---------------------------------------------------------------------
  // The tests

  /** The steps of `0 3 6 9 12 15` are five threes, and those of five threes are four zeros. */
  lemma FindNextSequenceExamples()
    ensures Diffs([0, 3, 6, 9, 12, 15]) == [3, 3, 3, 3, 3] && !AllZero([3, 3, 3, 3, 3])
    ensures Diffs([3, 3, 3, 3, 3]) == [0, 0, 0, 0] && AllZero([0, 0, 0, 0])
  {
    DiffsUnique([0, 3, 6, 9, 12, 15], [3, 3, 3, 3, 3]);
    DiffsUnique([3, 3, 3, 3, 3], [0, 0, 0, 0]);
    assert [3, 3, 3, 3, 3][0] != 0;
  }

  /** The three example histories are preceded by -3, 0 and 5, which sum to 2. */
  lemma PredictFirstExamples()
    ensures PredictFirst([0, 3, 6, 9, 12, 15]) == Ok(-3)
    ensures PredictFirst([1, 3, 6, 10, 15, 21]) == Ok(0)
    ensures PredictFirst([10, 13, 16, 21, 30, 45]) == Ok(5)
    ensures Sum([PredictFirst([0, 3, 6, 9, 12, 15]), PredictFirst([1, 3, 6, 10, 15, 21]),
                 PredictFirst([10, 13, 16, 21, 30, 45])]) == Ok(2)
  {
    PreviousOfFirstExample();
    PreviousOfSecondExample();
    PreviousOfThirdExample();
    ExampleSum();
  }

  lemma ExampleSum()
    ensures Sum([Ok(-3), Ok(0), Ok(5)]) == Ok(2)
  {
    var results: seq<Result<int, Day8Error>> := [Ok(-3), Ok(0), Ok(5)];
    assert results[..2][..1] == [Ok(-3)] && results[..2] == [Ok(-3), Ok(0)];
    assert Sum([Ok(-3)]) == Ok(-3);
  }

  lemma PreviousOfFirstExample()
    ensures PredictFirst([0, 3, 6, 9, 12, 15]) == Ok(-3)
  {
    assert [0, 3, 6, 9, 12, 15] == Arithmetic(0, 3, 6);
    PredictFirstArithmetic(0, 3, 6);
  }

  lemma PreviousOfSecondExample()
    ensures PredictFirst([1, 3, 6, 10, 15, 21]) == Ok(0)
  {
    DiffsUnique([1, 3, 6, 10, 15, 21], [2, 3, 4, 5, 6]);
    assert [2, 3, 4, 5, 6] == Arithmetic(2, 1, 5);
    ArithmeticExtrapolates(2, 1, 5);
  }

  lemma PreviousOfThirdExample()
    ensures PredictFirst([10, 13, 16, 21, 30, 45]) == Ok(5)
  {
    DiffsUnique([10, 13, 16, 21, 30, 45], [3, 3, 5, 9, 15]);
    DiffsUnique([3, 3, 5, 9, 15], [0, 2, 4, 6]);
    assert [0, 2, 4, 6] == Arithmetic(0, 2, 4);
    ArithmeticExtrapolates(0, 2, 4);
    assert [3, 3, 5, 9, 15][1] != 0;
    PreviousStep([3, 3, 5, 9, 15]);
  }
}

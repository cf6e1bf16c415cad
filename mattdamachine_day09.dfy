/**
 * mattdamachine/Day09/part_01: extrapolating every history of the OASIS
 * report forwards.  Each history is kept as the list of rows of its
 * difference table: rows of differences are pushed until the last one is
 * all zero, then, from the bottom up, each row gets its last reading plus
 * the last reading of the row below appended.  The new last reading of the
 * history itself is added to the sum.
 */
module MattdamachineDay09 {
  import opened Text
  import opened Extrapolation

  /** `differences_are_zero`: every entry is zero, which holds for an empty row. */
  function DifferencesAreZero(values: seq<int>): (r: bool)
    ensures r <==> AllZero(values)
    decreases |values|
  {
    if values == [] then true
    else values[0] == 0 && DifferencesAreZero(values[1..])
  }

  /** `create_differences_vector`: one push for each reading but the last, of the step to the next one. */
  method CreateDifferencesVector(values: seq<int>) returns (differences: seq<int>)
    ensures differences == Diffs(values)
    ensures |differences| == if values == [] then 0 else |values| - 1
    ensures forall i :: 0 <= i < |differences| ==> differences[i] == values[i + 1] - values[i]
  {
    differences := [];
    for i := 0 to |values|
      invariant |differences| == if i == |values| then (if i == 0 then 0 else i - 1) else i
      invariant forall j :: 0 <= j < |differences| ==> differences[j] == values[j + 1] - values[j]
    {
      if i != |values| - 1 {
        differences := differences + [values[i + 1] - values[i]];
      }
    }
    DiffsUnique(values, differences);
  }

  /** The rows of one history's difference table, built up and extended in place. */
  class HistoryValues {
    var values: seq<seq<int>>

    /** A history as it is read: its readings are the only row. */
    constructor (row: seq<int>)
      ensures values == [row]
    {
      values := [row];
    }

    /**
     * The loop that pushes difference rows: the rows already there stay,
     * and the last one is followed by the rest of its difference table.
     * From a single row, the rows become that row's table, each one
     * reading shorter than the one above.
     */
    method PushDifferences()
      requires values != []
      modifies this
      ensures values == old(values[..|values| - 1]) + Table(old(values[|values| - 1]))
      ensures old(|values|) == 1 ==> values == Table(old(values[0]))
    {
      ghost var target := values[..|values| - 1] + Table(values[|values| - 1]);
      while !DifferencesAreZero(values[|values| - 1])
        invariant values != []
        invariant values[..|values| - 1] + Table(values[|values| - 1]) == target
        decreases |values[|values| - 1]|
      {
        var last := values[|values| - 1];
        var differenceVector := CreateDifferencesVector(last);
        ghost var before := values;
        values := values + [differenceVector];
        assert values[..|values| - 1] == before;
        assert before == before[..|before| - 1] + [last];
      }
      assert Table(values[|values| - 1]) == [values[|values| - 1]];
      assert values == values[..|values| - 1] + [values[|values| - 1]];
    }

    /**
     * The bottom-up loop over a complete table: every row above the bottom
     * gets the reading that extends it appended, and the reading that
     * extends the history is returned.  `None` stands for the panic when
     * the bottom row is empty, which happens before any row changes.
     */
    method ExtendRows() returns (finalNum: Option<int>)
      requires values != [] && values == Table(values[0])
      modifies this
      ensures finalNum == Next(old(values[0]))
      ensures finalNum.None? ==> values == old(values)
      ensures finalNum.Some? ==> |values| == |old(values)| && values[|values| - 1] == old(values[|values| - 1])
      ensures finalNum.Some? ==> forall k :: 0 <= k < |values| - 1 ==>
        Next(old(values[k])).Some? && values[k] == old(values[k]) + [Next(old(values[k])).value]
    {
      ghost var t := values;
      ghost var row := values[0];
      var historyLength := |values|;
      NextFailsOnEmptyBottom(row);
      if values[historyLength - 1] == [] {
        return None;
      }
      ghost var e := Extensions(row);
      ExtensionsExtend(row);
      finalNum := ExtendFromBottom(t, e);
      ExtendedRows(row, e);
    }

    /**
     * The loop itself, over the table `t` whose extending readings are
     * `e`: from the bottom up, each row above the bottom gets its last
     * reading plus the last reading of the row below appended, and the top
     * row's new last reading is returned.
     */
    method ExtendFromBottom(ghost t: seq<seq<int>>, ghost e: seq<int>) returns (finalNum: Option<int>)
      requires ExtendsTable(t, e) && values == t
      modifies this
      ensures values == Partial(t, e, |t|) && finalNum == Some(e[0])
    {
      var historyLength := |values|;
      finalNum := None;
      for i := 0 to historyLength
        invariant values == Partial(t, e, i)
        invariant i < historyLength ==> finalNum.None?
        invariant i == historyLength ==> finalNum == Some(e[0])
      {
        var currentValues := values[historyLength - (i + 1)];
        PartialRows(t, e, i);
        if i < historyLength - 1 {
          var previousValues := values[historyLength - (i + 2)];
          var newNum := currentValues[|currentValues| - 1] + previousValues[|previousValues| - 1];
          PartialStep(t, e, i, newNum);
          values := values[historyLength - (i + 2) := previousValues + [newNum]];
        } else {
          PartialDone(t, e);
          finalNum := Some(currentValues[|currentValues| - 1]);
        }
      }
    }
  }

  /** Once the loop is through, every row above the bottom ends with the reading that extends it. */
  lemma ExtendedRows(row: seq<int>, e: seq<int>)
    requires Next(row).Some? && e == Extensions(row)
    ensures |Partial(Table(row), e, |Table(row)|)| == |Table(row)|
    ensures Partial(Table(row), e, |Table(row)|)[|Table(row)| - 1] == Table(row)[|Table(row)| - 1]
    ensures forall k :: 0 <= k < |Table(row)| - 1 ==>
      Next(Table(row)[k]).Some? && Partial(Table(row), e, |Table(row)|)[k] == Table(row)[k] + [Next(Table(row)[k]).value]
  {
  }

  /** The reading that extends each row of the table of `row`, top to bottom. */
  ghost function Extensions(row: seq<int>): (e: seq<int>)
    requires Next(row).Some?
    ensures |e| == |Table(row)|
    ensures forall k :: 0 <= k < |e| ==> Next(Table(row)[k]).Some? && e[k] == Next(Table(row)[k]).value
  {
    var t := Table(row);
    var w := seq(|t|, k requires 0 <= k < |t| => EveryRowExtrapolates(row, k); Next(t[k]).value);
    forall k | 0 <= k < |t|
      ensures Next(t[k]).Some? && w[k] == Next(t[k]).value
    {
      EveryRowExtrapolates(row, k);
    }
    assert IsExtensions(t, w);
    var e :| IsExtensions(t, e); e
  }

  ghost predicate IsExtensions(t: seq<seq<int>>, e: seq<int>)
  {
    |e| == |t| && forall k :: 0 <= k < |e| ==> Next(t[k]).Some? && e[k] == Next(t[k]).value
  }

  /**
   * The extending readings, read bottom-up: each row is not empty, and its
   * extending reading is its last reading plus the one below, and the
   * bottom row's is its last reading.
   */
  ghost predicate ExtendsTable(t: seq<seq<int>>, e: seq<int>)
  {
    |t| == |e| && t != [] && (forall k :: 0 <= k < |t| ==> t[k] != []) &&
    e[|t| - 1] == t[|t| - 1][|t[|t| - 1]| - 1] &&
    forall k :: 0 <= k < |t| - 1 ==> e[k] == t[k][|t[k]| - 1] + e[k + 1]
  }

  lemma ExtensionsExtend(row: seq<int>)
    requires Next(row).Some?
    ensures ExtendsTable(Table(row), Extensions(row))
  {
    var t, e := Table(row), Extensions(row);
    forall k | 0 <= k < |t|
      ensures t[k] != []
    {
      NextAlongTable(row, k);
    }
    forall k | 0 <= k < |t| - 1
      ensures e[k] == t[k][|t[k]| - 1] + e[k + 1]
    {
      NextAlongTable(row, k);
    }
    NextAlongTable(row, |t| - 1);
    assert t[|t| - 1][|t[|t| - 1]| - 1] == 0;
  }

  /**
   * The rows after `i` rounds of the bottom-up loop over the table `t`:
   * the `i` rows above the bottom have their extending readings appended
   * and the others are as they were.
   */
  ghost function Partial(t: seq<seq<int>>, e: seq<int>, i: nat): (r: seq<seq<int>>)
    requires |e| == |t|
    ensures |r| == |t|
    ensures forall k :: 0 <= k < |t| ==> r[k] == if |t| - 1 - i <= k < |t| - 1 then t[k] + [e[k]] else t[k]
  {
    var w := seq(|t|, k requires 0 <= k < |t| => if |t| - 1 - i <= k < |t| - 1 then t[k] + [e[k]] else t[k]);
    assert IsPartial(t, e, i, w);
    var r :| IsPartial(t, e, i, r); r
  }

  ghost predicate IsPartial(t: seq<seq<int>>, e: seq<int>, i: nat, r: seq<seq<int>>)
    requires |e| == |t|
  {
    |r| == |t| && forall k :: 0 <= k < |t| ==> r[k] == if |t| - 1 - i <= k < |t| - 1 then t[k] + [e[k]] else t[k]
  }

  /**
   * The rows the bottom-up loop reads in round `i` are not empty, the
   * lower one ends with its extending reading, and the upper one is still
   * the table row whose extending reading is its last reading plus that.
   */
  lemma PartialRows(t: seq<seq<int>>, e: seq<int>, i: nat)
    requires ExtendsTable(t, e) && i < |t|
    ensures Partial(t, e, i)[|t| - (i + 1)] != []
    ensures Partial(t, e, i)[|t| - (i + 1)][|Partial(t, e, i)[|t| - (i + 1)]| - 1] == e[|t| - (i + 1)]
    ensures i < |t| - 1 ==> Partial(t, e, i)[|t| - (i + 2)] == t[|t| - (i + 2)] != []
    ensures i < |t| - 1 ==> e[|t| - (i + 2)] == t[|t| - (i + 2)][|t[|t| - (i + 2)]| - 1] + e[|t| - (i + 1)]
  {
  }

  /** One round of the bottom-up loop appends to the next row up the reading that extends it. */
  lemma PartialStep(t: seq<seq<int>>, e: seq<int>, i: nat, newNum: int)
    requires ExtendsTable(t, e) && i < |t| - 1 && newNum == e[|t| - (i + 2)]
    ensures Partial(t, e, i)[|t| - (i + 2) := Partial(t, e, i)[|t| - (i + 2)] + [newNum]] == Partial(t, e, i + 1)
  {
    var p, q := Partial(t, e, i), Partial(t, e, i + 1);
    var j := |t| - (i + 2);
    var p' := p[j := p[j] + [newNum]];
    forall k | 0 <= k < |t|
      ensures p'[k] == q[k]
    {
      if k == j {
        assert p[k] == t[k] && q[k] == t[k] + [e[k]];
      } else {
        assert p'[k] == p[k];
      }
    }
    assert |p'| == |q|;
  }

  /** The last round appends nothing: the rows stay as they are. */
  lemma PartialDone(t: seq<seq<int>>, e: seq<int>)
    requires |e| == |t| && t != []
    ensures Partial(t, e, |t|) == Partial(t, e, |t| - 1)
  {
    var p, q := Partial(t, e, |t|), Partial(t, e, |t| - 1);
    forall k | 0 <= k < |t|
      ensures p[k] == q[k]
    {
    }
  }

  // ---------------------------------------------------------------------
  // The whole report

  /**
   * `populate_history_vectors`: each line split at single spaces, every
   * piece parsed as an `i32`.  `None` stands for the panic of `unwrap` on
   * a piece that does not parse, which ends the run before any sum.
   */
  function Histories(lines: seq<string>): (r: Option<seq<seq<int>>>)
    ensures r.Some? ==> |r.value| == |lines|
    ensures r.Some? ==> forall k :: 0 <= k < |lines| ==> Readings(Split(lines[k], ' ')) == Some(r.value[k])
    ensures r.None? <==> exists k :: 0 <= k < |lines| && Readings(Split(lines[k], ' ')).None?
    decreases |lines|
  {
    if lines == [] then Some([])
    else match Histories(lines[..|lines| - 1])
      case None => None
      case Some(rows) =>
        match Readings(Split(lines[|lines| - 1], ' '))
        case None => None
        case Some(row) => Some(rows + [row])
  }

  /** The readings that extend each history, in order. */
  ghost function Extrapolations(rows: seq<seq<int>>): (r: seq<Option<int>>)
    ensures |r| == |rows|
    ensures forall k :: 0 <= k < |rows| ==> r[k] == Next(rows[k])
  {
    var w := seq(|rows|, k requires 0 <= k < |rows| => Next(rows[k]));
    assert IsExtrapolations(rows, w);
    var r :| IsExtrapolations(rows, r); r
  }

  ghost predicate IsExtrapolations(rows: seq<seq<int>>, r: seq<Option<int>>)
  {
    |r| == |rows| && forall k :: 0 <= k < |rows| ==> r[k] == Next(rows[k])
  }

  /** The sum of the values, or `None` if one of them is missing. */
  function SumAll(xs: seq<Option<int>>): Option<int>
    decreases |xs|
  {
    if xs == [] then Some(0)
    else match SumAll(xs[..|xs| - 1])
      case None => None
      case Some(total) =>
        match xs[|xs| - 1]
        case None => None
        case Some(x) => Some(total + x)
  }

  /** The sum is missing exactly when some value is. */
  lemma {:induction false} SumAllFails(xs: seq<Option<int>>)
    ensures SumAll(xs).None? <==> exists k :: 0 <= k < |xs| && xs[k].None?
    decreases |xs|
  {
    if xs != [] {
      var init := xs[..|xs| - 1];
      SumAllFails(init);
      assert forall k :: 0 <= k < |init| ==> init[k] == xs[k];
    }
  }

  /**
   * The report's sum fails exactly when some history cannot be extended,
   * which is when its difference table ends in an empty row.
   */
  lemma SumFailsOnEmptyBottom(rows: seq<seq<int>>)
    ensures SumAll(Extrapolations(rows)).None? <==> exists k :: 0 <= k < |rows| && Next(rows[k]).None?
    ensures SumAll(Extrapolations(rows)).None? <==>
      exists k :: 0 <= k < |rows| && Table(rows[k])[|Table(rows[k])| - 1] == []
  {
    SumAllFails(Extrapolations(rows));
    forall k | 0 <= k < |rows| {
      NextFailsOnEmptyBottom(rows[k]);
    }
  }

  /**
   * The body of `run`'s loop for one history: push its difference rows,
   * extend the rows from the bottom up and return the history's new last
   * reading.
   */
  method ExtrapolateHistory(row: seq<int>) returns (finalNum: Option<int>)
    ensures finalNum == Next(row)
  {
    var history := new HistoryValues(row);
    history.PushDifferences();
    finalNum := history.ExtendRows();
  }

  /**
   * `run`: read the histories, then add up the readings that extend them.
   */
  method Run(input: string) returns (sum: Option<int>)
    ensures Histories(Lines(input)).None? ==> sum.None?
    ensures Histories(Lines(input)).Some? ==> sum == SumAll(Extrapolations(Histories(Lines(input)).value))
  {
    var allHistories := Histories(Lines(input));
    if allHistories.None? {
      return None;
    }
    sum := SumHistories(allHistories.value);
  }

  /** `run`'s loop over the histories: the sum of the readings that extend them, stopping at a panic. */
  method SumHistories(rows: seq<seq<int>>) returns (sum: Option<int>)
    ensures sum == SumAll(Extrapolations(rows))
  {
    ghost var extended := Extrapolations(rows);
    var total := 0;
    for i := 0 to |rows|
      invariant SumAll(extended[..i]) == Some(total)
    {
      var finalNum := ExtrapolateHistory(rows[i]);
      assert extended[..i + 1][..i] == extended[..i];
      assert finalNum == extended[i];
      if finalNum.None? {
        SumAllKeepsNone(extended, i + 1);
        return None;
      }
      total := total + finalNum.value;
    }
    assert extended[..|rows|] == extended;
    sum := Some(total);
  }

  /** Once one value is missing, so is the sum of all of them. */
  lemma {:induction false} SumAllKeepsNone(xs: seq<Option<int>>, n: nat)
    requires n <= |xs| && SumAll(xs[..n]).None?
    ensures SumAll(xs).None?
    decreases |xs| - n
  {
    if n < |xs| {
      assert xs[..n + 1][..n] == xs[..n];
      SumAllKeepsNone(xs, n + 1);
    } else {
      assert xs[..n] == xs;
    }
  }

  /** The three example histories are extended by 18, 28 and 68, which sum to 114. */
  lemma NextExamples()
    ensures Next([0, 3, 6, 9, 12, 15]) == Some(18)
    ensures Next([1, 3, 6, 10, 15, 21]) == Some(28)
    ensures Next([10, 13, 16, 21, 30, 45]) == Some(68)
    ensures SumAll(Extrapolations([[0, 3, 6, 9, 12, 15], [1, 3, 6, 10, 15, 21], [10, 13, 16, 21, 30, 45]])) == Some(114)
  {
    FirstExample();
    SecondExample();
    ThirdExample();
    ExtrapolationsOfThree([0, 3, 6, 9, 12, 15], [1, 3, 6, 10, 15, 21], [10, 13, 16, 21, 30, 45]);
    ExampleSum();
  }

  lemma ExtrapolationsOfThree(a: seq<int>, b: seq<int>, c: seq<int>)
    ensures Extrapolations([a, b, c]) == [Next(a), Next(b), Next(c)]
  {
    var xs := Extrapolations([a, b, c]);
    assert xs[0] == Next(a) && xs[1] == Next(b) && xs[2] == Next(c);
  }

  lemma ExampleSum()
    ensures SumAll([Some(18), Some(28), Some(68)]) == Some(114)
  {
    var xs := [Some(18), Some(28), Some(68)];
    assert xs[..2][..1] == [Some(18)] && xs[..2] == [Some(18), Some(28)];
    assert SumAll([Some(18)]) == Some(18);
  }

  lemma FirstExample()
    ensures Next([0, 3, 6, 9, 12, 15]) == Some(18)
  {
    assert [0, 3, 6, 9, 12, 15] == Arithmetic(0, 3, 6);
    ArithmeticExtrapolates(0, 3, 6);
  }

  lemma SecondExample()
    ensures Next([1, 3, 6, 10, 15, 21]) == Some(28)
  {
    DiffsUnique([1, 3, 6, 10, 15, 21], [2, 3, 4, 5, 6]);
    assert [2, 3, 4, 5, 6] == Arithmetic(2, 1, 5);
    ArithmeticExtrapolates(2, 1, 5);
    assert [1, 3, 6, 10, 15, 21][1] != 0;
    NextStep([1, 3, 6, 10, 15, 21]);
  }

  lemma ThirdExample()
    ensures Next([10, 13, 16, 21, 30, 45]) == Some(68)
  {
    DiffsUnique([10, 13, 16, 21, 30, 45], [3, 3, 5, 9, 15]);
    DiffsUnique([3, 3, 5, 9, 15], [0, 2, 4, 6]);
    assert [0, 2, 4, 6] == Arithmetic(0, 2, 4);
    ArithmeticExtrapolates(0, 2, 4);
    assert [3, 3, 5, 9, 15][1] != 0;
    NextStep([3, 3, 5, 9, 15]);
    assert [10, 13, 16, 21, 30, 45][1] != 0;
    NextStep([10, 13, 16, 21, 30, 45]);
  }
}

/**
 * The OASIS report of the mirage-maintenance puzzle (Advent of Code 2023,
 * day 9).  A history of readings is extrapolated by building its
 * difference table: each row holds the differences between neighbouring
 * entries of the row above, until a row is all zero.  Working back up the
 * table gives the value that would come after the last reading (part 1)
 * or before the first one (part 2).  The two solvers of this puzzle share
 * these definitions.
 */
module Extrapolation {
  import opened Text

  /** `d` holds the differences between neighbouring readings of `s`, `s[i + 1] - s[i]`. */
  predicate IsDiffs(s: seq<int>, d: seq<int>)
  {
    |d| == (if s == [] then 0 else |s| - 1) && forall i :: 0 <= i < |d| ==> d[i] == s[i + 1] - s[i]
  }

  /** The differences between neighbouring readings; one fewer than the readings. */
  ghost function Diffs(s: seq<int>): (d: seq<int>)
    ensures |d| == if s == [] then 0 else |s| - 1
    ensures forall i :: 0 <= i < |d| ==> d[i] == s[i + 1] - s[i]
  {
    var w := if s == [] then [] else seq(|s| - 1, i requires 0 <= i < |s| - 1 => s[i + 1] - s[i]);
    assert IsDiffs(s, w);
    var d :| IsDiffs(s, d); d
  }

  /** The differences are the only sequence with that property. */
  lemma DiffsUnique(s: seq<int>, d: seq<int>)
    requires IsDiffs(s, d)
    ensures Diffs(s) == d
  {
    var r := Diffs(s);
    assert |r| == |d|;
    forall i | 0 <= i < |d|
      ensures r[i] == d[i]
    {
      assert r[i] == s[i + 1] - s[i];
    }
  }

  predicate AllZero(s: seq<int>) { forall i :: 0 <= i < |s| ==> s[i] == 0 }

  /**
   * The rows of the difference table: the history, then the differences
   * of each row in turn, ending with the first row that is all zero.  An
   * empty row counts as all zero, so the table always ends.
   */
  ghost function Table(s: seq<int>): (t: seq<seq<int>>)
    ensures 1 <= |t| <= |s| + 1
    ensures t[0] == s && AllZero(t[|t| - 1])
    decreases |s|
  {
    if AllZero(s) then [s] else [s] + Table(Diffs(s))
  }

  /** Each row above the bottom is not all zero, and the row below it holds its differences. */
  lemma {:induction false} TableStep(s: seq<int>, k: nat)
    requires k < |Table(s)| - 1
    ensures !AllZero(Table(s)[k]) && Table(s)[k + 1] == Diffs(Table(s)[k])
    ensures |Table(s)[k + 1]| == |Table(s)[k]| - 1
    decreases |s|
  {
    if k > 0 {
      TableStep(Diffs(s), k - 1);
    }
  }

  /**
   * The reading that extends a history forwards: zero after an all-zero
   * row, and otherwise the last reading plus the value that extends the
   * differences.  `None` when the differences run out (reach an empty
   * row) before any row is all zero.
   */
  ghost function Next(s: seq<int>): Option<int>
    decreases |s|
  {
    if s == [] then None
    else if AllZero(s) then Some(0)
    else match Next(Diffs(s))
      case None => None
      case Some(d) => Some(s[|s| - 1] + d)
  }

  /** The reading that extends a history backwards, before its first reading. */
  ghost function Previous(s: seq<int>): Option<int>
    decreases |s|
  {
    if s == [] then None
    else if AllZero(s) then Some(0)
    else match Previous(Diffs(s))
      case None => None
      case Some(d) => Some(s[0] - d)
  }

  /** Extrapolation fails exactly when the difference table ends in an empty row. */
  lemma {:induction false} NextFailsOnEmptyBottom(s: seq<int>)
    ensures Next(s).None? <==> Table(s)[|Table(s)| - 1] == []
    decreases |s|
  {
    if s != [] && !AllZero(s) {
      NextFailsOnEmptyBottom(Diffs(s));
    }
  }

  /** Above an all-zero row, extrapolating adds the last reading to the differences' extrapolation. */
  lemma NextUnfold(s: seq<int>)
    requires !AllZero(s) && Next(s).Some?
    ensures Next(Diffs(s)).Some? && Next(s) == Some(s[|s| - 1] + Next(Diffs(s)).value)
  {
    assert s != [];
  }

  /** When a history extrapolates, so does every row of its difference table. */
  lemma {:induction false} EveryRowExtrapolates(s: seq<int>, k: nat)
    requires Next(s).Some? && k < |Table(s)|
    ensures Next(Table(s)[k]).Some?
    decreases |s|
  {
    if k > 0 {
      assert Table(s) == [s] + Table(Diffs(s));
      NextUnfold(s);
      EveryRowExtrapolates(Diffs(s), k - 1);
    }
  }

  /**
   * Working up the table of a history that extrapolates: the bottom row
   * extrapolates to zero, every other row to its last entry plus the value
   * extrapolated for the row below it.
   */
  lemma NextAlongTable(s: seq<int>, k: nat)
    requires Next(s).Some? && k < |Table(s)|
    ensures Next(Table(s)[k]).Some?
    ensures k == |Table(s)| - 1 ==> Table(s)[k] != [] && Next(Table(s)[k]) == Some(0)
    ensures k < |Table(s)| - 1 ==> Next(Table(s)[k + 1]).Some?
    ensures k < |Table(s)| - 1 ==>
      Next(Table(s)[k]).value == Table(s)[k][|Table(s)[k]| - 1] + Next(Table(s)[k + 1]).value
  {
    var t := Table(s);
    EveryRowExtrapolates(s, k);
    if k < |t| - 1 {
      TableStep(s, k);
      NextUnfold(t[k]);
    }
  }

  /** The number of rows above the bottom of the difference table. */
  ghost function Depth(s: seq<int>): (n: nat)
    ensures n <= |s|
    decreases |s|
  {
    if AllZero(s) then 0 else 1 + Depth(Diffs(s))
  }

  lemma {:induction false} DepthIsTableHeight(s: seq<int>)
    ensures |Table(s)| == Depth(s) + 1
    decreases |s|
  {
    if !AllZero(s) {
      DepthIsTableHeight(Diffs(s));
    }
  }

  /** The `k`-th row of differences below a history. */
  ghost function DiffsAt(s: seq<int>, k: nat): (d: seq<int>)
    ensures |d| == if |s| < k then 0 else |s| - k
    decreases k
  {
    if k == 0 then s else DiffsAt(Diffs(s), k - 1)
  }

  /** Appending a reading appends one difference. */
  lemma DiffsSnoc(s: seq<int>, x: int)
    requires s != []
    ensures Diffs(s + [x]) == Diffs(s) + [x - s[|s| - 1]]
  {
    var t := s + [x];
    forall i | 0 <= i < |s|
      ensures Diffs(t)[i] == (Diffs(s) + [x - s[|s| - 1]])[i]
    {
      assert t[i] == s[i] && t[i + 1] == if i + 1 < |s| then s[i + 1] else x;
    }
  }

  /**
   * The extrapolated reading is the one value that keeps the bottom row of
   * the difference table at zero: appending `x` to the history leaves the
   * row at the table's depth all zero exactly when `x` is the prediction.
   */
  lemma {:induction false} NextKeepsBottomRowZero(s: seq<int>, x: int)
    requires Next(s).Some?
    ensures Next(s) == Some(x) <==> AllZero(DiffsAt(s + [x], Depth(s)))
    decreases |s|
  {
    if AllZero(s) {
      KeepsZeroRow(s, x);
    } else {
      var last := s[|s| - 1];
      NextUnfold(s);
      NextKeepsBottomRowZero(Diffs(s), x - last);
      KeepsBottomRowAbove(s, x);
    }
  }

  lemma KeepsZeroRow(s: seq<int>, x: int)
    requires s != [] && AllZero(s)
    ensures Next(s) == Some(x) <==> AllZero(DiffsAt(s + [x], Depth(s)))
  {
    assert DiffsAt(s + [x], 0) == s + [x];
    assert (s + [x])[|s|] == x;
    if x == 0 {
      assert forall i :: 0 <= i < |s| + 1 ==> (s + [x])[i] == 0;
    }
  }

  lemma KeepsBottomRowAbove(s: seq<int>, x: int)
    requires s != [] && !AllZero(s) && Next(s).Some? && Next(Diffs(s)).Some?
    requires Next(Diffs(s)) == Some(x - s[|s| - 1]) <==>
      AllZero(DiffsAt(Diffs(s) + [x - s[|s| - 1]], Depth(Diffs(s))))
    ensures Next(s) == Some(x) <==> AllZero(DiffsAt(s + [x], Depth(s)))
  {
    assert DiffsAt(s + [x], Depth(s)) == DiffsAt(Diffs(s + [x]), Depth(Diffs(s)));
    DiffsSnoc(s, x);
    NextUnfold(s);
  }

  // ---------------------------------------------------------------------
  // Backwards is forwards on the reversed history

  /** The readings in the opposite order. */
  ghost function Reverse(s: seq<int>): (r: seq<int>)
    ensures |r| == |s|
    ensures forall i :: 0 <= i < |s| ==> r[i] == s[|s| - 1 - i]
  {
    var w := seq(|s|, i requires 0 <= i < |s| => s[|s| - 1 - i]);
    assert IsReverse(s, w);
    var r :| IsReverse(s, r); r
  }

  predicate IsReverse(s: seq<int>, r: seq<int>)
  {
    |r| == |s| && forall i :: 0 <= i < |s| ==> r[i] == s[|s| - 1 - i]
  }

  predicate IsNegation(s: seq<int>, r: seq<int>)
  {
    |r| == |s| && forall i :: 0 <= i < |s| ==> r[i] == -s[i]
  }

  /** Every reading negated. */
  ghost function Negate(s: seq<int>): (r: seq<int>)
    ensures |r| == |s|
    ensures forall i :: 0 <= i < |s| ==> r[i] == -s[i]
  {
    var w := seq(|s|, i requires 0 <= i < |s| => -s[i]);
    assert IsNegation(s, w);
    var r :| IsNegation(s, r); r
  }

  lemma DiffsNegate(s: seq<int>)
    ensures Diffs(Negate(s)) == Negate(Diffs(s))
  {
    var n := Negate(s);
    forall i | 0 <= i < |s| - 1
      ensures Diffs(n)[i] == Negate(Diffs(s))[i]
    {
      assert Diffs(n)[i] == n[i + 1] - n[i];
      assert Negate(Diffs(s))[i] == -Diffs(s)[i];
    }
  }

  lemma DiffsReverse(s: seq<int>)
    ensures Diffs(Reverse(s)) == Negate(Reverse(Diffs(s)))
  {
    var r, d := Reverse(s), Diffs(s);
    forall i | 0 <= i < |s| - 1
      ensures Diffs(r)[i] == Negate(Reverse(d))[i]
    {
      assert Diffs(r)[i] == r[i + 1] - r[i];
      assert Negate(Reverse(d))[i] == -Reverse(d)[i];
      assert Reverse(d)[i] == d[|d| - 1 - i];
    }
  }

  lemma AllZeroNegate(s: seq<int>)
    ensures AllZero(Negate(s)) <==> AllZero(s)
  {
    if !AllZero(s) {
      var i :| 0 <= i < |s| && s[i] != 0;
      assert Negate(s)[i] != 0;
    }
  }

  lemma AllZeroReverse(s: seq<int>)
    ensures AllZero(Reverse(s)) <==> AllZero(s)
  {
    if !AllZero(s) {
      var i :| 0 <= i < |s| && s[i] != 0;
      assert Reverse(s)[|s| - 1 - i] != 0;
    }
  }

  /** Negating every reading negates the forward extrapolation. */
  lemma {:induction false} NextNegate(s: seq<int>)
    ensures Next(Negate(s)).None? <==> Next(s).None?
    ensures Next(s).Some? ==> Next(Negate(s)) == Some(-Next(s).value)
    decreases |s|
  {
    AllZeroNegate(s);
    if s != [] && !AllZero(s) {
      DiffsNegate(s);
      NextNegate(Diffs(s));
    }
  }

  /**
   * Extrapolating backwards is extrapolating the reversed history
   * forwards: the reading before the first is the one after the last of
   * the history read from the end.
   */
  lemma {:induction false} PreviousIsNextReversed(s: seq<int>)
    ensures Previous(s) == Next(Reverse(s))
    decreases |s|
  {
    AllZeroReverse(s);
    if s != [] && !AllZero(s) {
      var d, r := Diffs(s), Reverse(s);
      DiffsReverse(s);
      PreviousIsNextReversed(d);
      NextNegate(Reverse(d));
      assert Next(Diffs(r)).None? <==> Previous(d).None?;
      assert Previous(d).Some? ==> Next(Diffs(r)).value == -Previous(d).value;
      assert r[|r| - 1] == s[0];
      NextStep(r);
      PreviousStep(s);
    }
  }

  /** One level of forward extrapolation above a row that is not all zero. */
  lemma NextStep(s: seq<int>)
    requires !AllZero(s)
    ensures Next(s).None? <==> Next(Diffs(s)).None?
    ensures Next(s).Some? ==> Next(s).value == s[|s| - 1] + Next(Diffs(s)).value
  {
    assert s != [];
  }

  /** One level of backward extrapolation above a row that is not all zero. */
  lemma PreviousStep(s: seq<int>)
    requires !AllZero(s)
    ensures Previous(s).None? <==> Previous(Diffs(s)).None?
    ensures Previous(s).Some? ==> Previous(s).value == s[0] - Previous(Diffs(s)).value
  {
    assert s != [];
  }

  // ---------------------------------------------------------------------
  // Arithmetic histories

  /** The history `a, a + d, ..., a + (n - 1) d`. */
  ghost function Arithmetic(a: int, d: int, n: nat): (s: seq<int>)
    ensures |s| == n
    ensures forall i :: 0 <= i < n ==> s[i] == a + i * d
  {
    var w := seq(n, i requires 0 <= i < n => a + i * d);
    assert IsArithmetic(a, d, n, w);
    var s :| IsArithmetic(a, d, n, s); s
  }

  predicate IsArithmetic(a: int, d: int, n: nat, s: seq<int>)
  {
    |s| == n && forall i :: 0 <= i < n ==> s[i] == a + i * d
  }

  lemma ArithmeticDiffs(a: int, d: int, n: nat)
    requires n >= 1
    ensures Diffs(Arithmetic(a, d, n)) == Arithmetic(d, 0, n - 1)
  {
    var s, r := Arithmetic(a, d, n), Arithmetic(d, 0, n - 1);
    forall i | 0 <= i < n - 1
      ensures Diffs(s)[i] == r[i]
    {
      assert s[i + 1] == s[i] + d by {
        assert (i + 1) * d == i * d + d;
      }
    }
  }

  /** A constant history of at least two readings extrapolates to its value in both directions. */
  lemma {:induction false} ConstantExtrapolates(a: int, n: nat)
    requires n >= 2
    ensures Next(Arithmetic(a, 0, n)) == Some(a)
    ensures Previous(Arithmetic(a, 0, n)) == Some(a)
  {
    var s := Arithmetic(a, 0, n);
    ArithmeticDiffs(a, 0, n);
    var z := Arithmetic(0, 0, n - 1);
    assert AllZero(z) && z != [];
    if a == 0 {
      assert AllZero(s);
    } else {
      assert s[0] == a;
    }
  }

  /**
   * An arithmetic history of at least three readings continues its
   * progression: `a + n d` comes next and `a - d` came before.
   */
  lemma {:induction false} ArithmeticExtrapolates(a: int, d: int, n: nat)
    requires n >= 3
    ensures Next(Arithmetic(a, d, n)) == Some(a + n * d)
    ensures Previous(Arithmetic(a, d, n)) == Some(a - d)
  {
    var s := Arithmetic(a, d, n);
    if d == 0 {
      ConstantExtrapolates(a, n);
    } else {
      assert s[1] - s[0] == d;
      ArithmeticDiffs(a, d, n);
      ConstantExtrapolates(d, n - 1);
      assert s[|s| - 1] == a + (n - 1) * d;
    }
  }

  /** Two different readings cannot be extrapolated: their one difference is not zero and has no differences of its own. */
  lemma TwoReadingsFail(a: int, b: int)
    requires a != b
    ensures Next([a, b]).None? && Previous([a, b]).None?
  {
    assert [a, b][0] != 0 || [a, b][1] != 0;
    assert Diffs([a, b])[0] == b - a;
    assert Diffs([a, b]) == [b - a];
    assert [b - a][0] != 0;
    assert Diffs([b - a]) == [];
    assert !AllZero([b - a]);
    assert Next([b - a]).None?;
    assert Previous([b - a]).None?;
  }

  /** A history read from its tokens with `parse::<i32>`: every token's value, or `None` when one does not parse. */
  function Readings(tokens: seq<string>): (r: Option<seq<int>>)
    ensures r.Some? ==> |r.value| == |tokens|
    ensures r.Some? ==> forall i :: 0 <= i < |tokens| ==> ParseI32(tokens[i]) == Some(r.value[i])
    ensures r.None? <==> exists i :: 0 <= i < |tokens| && ParseI32(tokens[i]).None?
    decreases |tokens|
  {
    if tokens == [] then Some([])
    else match ParseI32(tokens[|tokens| - 1])
      case None => None
      case Some(n) =>
        match Readings(tokens[..|tokens| - 1])
        case None => None
        case Some(ns) => Some(ns + [n])
  }
}

/**
 * mohammad/day13: points of incidence.  A pattern of ash `.` and rocks `#`
 * may be mirrored along a vertical line between two columns or a
 * horizontal line between two rows.  Each candidate line is checked by
 * comparing the mirrored cell pairs that lie on the pattern and counting
 * the pairs that differ (`smudges`): none make the line `Valid` (part 1),
 * exactly one make it `AlmostValid` (part 2, one smudge on the mirror),
 * more make it `Bad`.
 */
module MohammadDay13 {

  /** `CheckResult`. */
  datatype CheckResult = Valid | AlmostValid | Bad

  /** The verdict for a line with `n` differing pairs. */
  function Classify(n: nat): CheckResult
  {
    if n == 1 then AlmostValid else if n == 0 then Valid else Bad
  }

  /**
   * `min(cols - col - 1, col + 1)`: the number of mirrored pairs of a line
   * of `cols` cells across the gap after `col`.
   */
  function Reach(cols: nat, col: nat): (n: nat)
    requires col < cols
    ensures col + n < cols && n <= col + 1
  {
    if cols - col - 1 < col + 1 then cols - col - 1 else col + 1
  }

  /** The `i`-th mirrored pair across the gap after `col` holds different cells. */
  predicate Differs(line: seq<char>, col: nat, i: nat)
    requires col < |line| && i < Reach(|line|, col)
  {
    line[col + i + 1] != line[col - i]
  }

  /** `col < cols` for every row, so `cols - col - 1` does not underflow. */
  predicate Wider(pattern: seq<seq<char>>, col: nat)
  {
    forall r :: 0 <= r < |pattern| ==> col < |pattern[r]|
  }

  /** The differing pairs `(r, i)` of row `r` among its first `m` mirrored pairs. */
  ghost function RowSmudges(pattern: seq<seq<char>>, col: nat, r: nat, m: nat): set<(nat, nat)>
    requires Wider(pattern, col) && r < |pattern| && m <= Reach(|pattern[r]|, col)
  {
    set i: nat | i < m && Differs(pattern[r], col, i) :: (r, i)
  }

  /** The differing pairs of the first `n` rows. */
  ghost function SmudgesUpTo(pattern: seq<seq<char>>, col: nat, n: nat): set<(nat, nat)>
    requires Wider(pattern, col) && n <= |pattern|
  {
    if n == 0 then {} else SmudgesUpTo(pattern, col, n - 1) + RowSmudges(pattern, col, n - 1, Reach(|pattern[n - 1]|, col))
  }

  /** Every mirrored pair across the vertical line after column `col` that holds different cells. */
  ghost function Smudges(pattern: seq<seq<char>>, col: nat): set<(nat, nat)>
    requires Wider(pattern, col)
  {
    SmudgesUpTo(pattern, col, |pattern|)
  }

  lemma {:induction false} SmudgesUpToMeans(pattern: seq<seq<char>>, col: nat, n: nat, r: nat, i: nat)
    requires Wider(pattern, col) && n <= |pattern|
    ensures (r, i) in SmudgesUpTo(pattern, col, n) <==>
      r < n && i < Reach(|pattern[r]|, col) && Differs(pattern[r], col, i)
  {
    if n > 0 {
      SmudgesUpToMeans(pattern, col, n - 1, r, i);
    }
  }

  /** A pair is a smudge exactly when it is a mirrored pair of some row and its cells differ. */
  lemma SmudgesMeans(pattern: seq<seq<char>>, col: nat, r: nat, i: nat)
    requires Wider(pattern, col)
    ensures (r, i) in Smudges(pattern, col) <==>
      r < |pattern| && i < Reach(|pattern[r]|, col) && Differs(pattern[r], col, i)
  {
    SmudgesUpToMeans(pattern, col, |pattern|, r, i);
  }

  /** The column is a perfect mirror exactly when there are no smudges. */
  lemma NoSmudgesMeansMirror(pattern: seq<seq<char>>, col: nat)
    requires Wider(pattern, col)
    ensures Smudges(pattern, col) == {} <==>
      forall r, i :: 0 <= r < |pattern| && 0 <= i < Reach(|pattern[r]|, col) ==> !Differs(pattern[r], col, i)
  {
    if Smudges(pattern, col) != {} {
      var x :| x in Smudges(pattern, col);
      SmudgesMeans(pattern, col, x.0, x.1);
    }
    forall r, i | 0 <= r < |pattern| && 0 <= i < Reach(|pattern[r]|, col) && Differs(pattern[r], col, i)
      ensures (r, i) in Smudges(pattern, col)
    {
      SmudgesMeans(pattern, col, r, i);
    }
  }

  /** `(r, i)` is a differing mirrored pair, and every other mirrored pair matches. */
  predicate OnlyDiffering(pattern: seq<seq<char>>, col: nat, r: nat, i: nat)
    requires Wider(pattern, col)
  {
    r < |pattern| && i < Reach(|pattern[r]|, col) && Differs(pattern[r], col, i) &&
    forall r', i' :: 0 <= r' < |pattern| && 0 <= i' < Reach(|pattern[r']|, col) && Differs(pattern[r'], col, i') ==> r' == r && i' == i
  }

  /** The column has one smudge exactly when one mirrored pair differs and every other pair matches. */
  lemma OneSmudgeMeans(pattern: seq<seq<char>>, col: nat)
    requires Wider(pattern, col)
    ensures |Smudges(pattern, col)| == 1 <==> exists r: nat, i: nat :: OnlyDiffering(pattern, col, r, i)
  {
    var s := Smudges(pattern, col);
    if |s| == 1 {
      var x :| x in s;
      SingleElement(s, x);
      SmudgesMeans(pattern, col, x.0, x.1);
      forall r', i' | 0 <= r' < |pattern| && 0 <= i' < Reach(|pattern[r']|, col) && Differs(pattern[r'], col, i')
        ensures r' == x.0 && i' == x.1
      {
        SmudgesMeans(pattern, col, r', i');
      }
      assert OnlyDiffering(pattern, col, x.0, x.1);
    }
    if exists r: nat, i: nat :: OnlyDiffering(pattern, col, r, i) {
      var r: nat, i: nat :| OnlyDiffering(pattern, col, r, i);
      OnlyDifferingSmudges(pattern, col, r, i);
    }
  }

  lemma OnlyDifferingSmudges(pattern: seq<seq<char>>, col: nat, r: nat, i: nat)
    requires Wider(pattern, col) && OnlyDiffering(pattern, col, r, i)
    ensures Smudges(pattern, col) == {(r, i)}
  {
    var s := Smudges(pattern, col);
    SmudgesMeans(pattern, col, r, i);
    forall y | y in s ensures y == (r, i) {
      SmudgesMeans(pattern, col, y.0, y.1);
    }
  }

  lemma SingleElement(s: set<(nat, nat)>, x: (nat, nat))
    requires |s| == 1 && x in s
    ensures s == {x}
  {
    forall y | y in s ensures y == x {
      if y != x {
        assert {x, y} <= s;
        Subset({x, y}, s);
      }
    }
  }

  /** The pairs already compared: all of the first `n` rows and the first `m` pairs of row `n`. */
  ghost function Compared(pattern: seq<seq<char>>, col: nat, n: nat, m: nat): set<(nat, nat)>
    requires Wider(pattern, col) && n < |pattern| && m <= Reach(|pattern[n]|, col)
  {
    SmudgesUpTo(pattern, col, n) + RowSmudges(pattern, col, n, m)
  }

  lemma RowSmudgesStep(pattern: seq<seq<char>>, col: nat, n: nat, m: nat)
    requires Wider(pattern, col) && n < |pattern| && m < Reach(|pattern[n]|, col)
    ensures RowSmudges(pattern, col, n, m + 1) ==
      RowSmudges(pattern, col, n, m) + (if Differs(pattern[n], col, m) then {(n, m)} else {})
    ensures (n, m) !in RowSmudges(pattern, col, n, m)
  {
  }

  /** Comparing one more pair adds it to the smudges found when it differs. */
  lemma CompareStep(pattern: seq<seq<char>>, col: nat, n: nat, m: nat)
    requires Wider(pattern, col) && n < |pattern| && m < Reach(|pattern[n]|, col)
    ensures Compared(pattern, col, n, m + 1) ==
      Compared(pattern, col, n, m) + (if Differs(pattern[n], col, m) then {(n, m)} else {})
    ensures (n, m) !in Compared(pattern, col, n, m)
  {
    RowSmudgesStep(pattern, col, n, m);
    SmudgesUpToMeans(pattern, col, n, n, m);
  }

  /** What has been compared are smudges of the column. */
  lemma ComparedSmudges(pattern: seq<seq<char>>, col: nat, n: nat, m: nat)
    requires Wider(pattern, col) && n < |pattern| && m <= Reach(|pattern[n]|, col)
    ensures Compared(pattern, col, n, m) <= Smudges(pattern, col)
  {
    forall x | x in Compared(pattern, col, n, m) ensures x in Smudges(pattern, col) {
      SmudgesUpToMeans(pattern, col, n, x.0, x.1);
      SmudgesMeans(pattern, col, x.0, x.1);
    }
  }

  /** Finishing row `n` is starting row `n + 1`, or all rows. */
  lemma RowDone(pattern: seq<seq<char>>, col: nat, n: nat)
    requires Wider(pattern, col) && n < |pattern|
    ensures Compared(pattern, col, n, Reach(|pattern[n]|, col)) == SmudgesUpTo(pattern, col, n + 1)
  {
  }

  lemma SmudgeFound(pattern: seq<seq<char>>, col: nat, n: nat, m: nat)
    requires Wider(pattern, col) && n < |pattern| && m < Reach(|pattern[n]|, col) && Differs(pattern[n], col, m)
    ensures |Compared(pattern, col, n, m + 1)| == |Compared(pattern, col, n, m)| + 1
  {
    CompareStep(pattern, col, n, m);
  }

  lemma PairMatches(pattern: seq<seq<char>>, col: nat, n: nat, m: nat)
    requires Wider(pattern, col) && n < |pattern| && m < Reach(|pattern[n]|, col) && !Differs(pattern[n], col, m)
    ensures Compared(pattern, col, n, m + 1) == Compared(pattern, col, n, m)
  {
    CompareStep(pattern, col, n, m);
  }

  /** A differing pair after one smudge makes at least two. */
  lemma SecondSmudge(pattern: seq<seq<char>>, col: nat, n: nat, m: nat)
    requires Wider(pattern, col) && n < |pattern| && m < Reach(|pattern[n]|, col)
    requires |Compared(pattern, col, n, m)| == 1 && Differs(pattern[n], col, m)
    ensures |Smudges(pattern, col)| >= 2
  {
    CompareStep(pattern, col, n, m);
    ComparedSmudges(pattern, col, n, m + 1);
    Subset(Compared(pattern, col, n, m + 1), Smudges(pattern, col));
  }

  lemma Subset(a: set<(nat, nat)>, b: set<(nat, nat)>)
    requires a <= b
    ensures |a| <= |b|
  {
    assert b == a + (b - a);
  }

  /**
   * The inner loop of `check_mirror_at_col`: compares the mirrored pairs of
   * row `r`; `bad` when it meets a second smudge.
   */
  method CompareRow(pattern: seq<seq<char>>, col: nat, r: nat, smudges: nat) returns (bad: bool, smudges': nat)
    requires Wider(pattern, col) && r < |pattern|
    requires smudges == |SmudgesUpTo(pattern, col, r)| && smudges <= 1
    ensures bad ==> |Smudges(pattern, col)| >= 2
    ensures !bad ==> smudges' == |SmudgesUpTo(pattern, col, r + 1)| && smudges' <= 1
  {
    smudges' := smudges;
    var row := pattern[r];
    var cols := |row|;
    var reach := if cols - col - 1 < col + 1 then cols - col - 1 else col + 1;
    assert Compared(pattern, col, r, 0) == SmudgesUpTo(pattern, col, r);
    for i := 0 to reach
      invariant smudges' == |Compared(pattern, col, r, i)| && smudges' <= 1
    {
      if row[col + i + 1] != row[col - i] {
        if smudges' == 1 {
          SecondSmudge(pattern, col, r, i);
          return true, smudges';
        }
        SmudgeFound(pattern, col, r, i);
        smudges' := smudges' + 1;
      } else {
        PairMatches(pattern, col, r, i);
      }
    }
    RowDone(pattern, col, r);
    bad := false;
  }

  /**
   * `check_mirror_at_col`: compares the mirrored pairs row by row and
   * stops at the second smudge; the verdict classifies the number of
   * smudges.
   */
  method CheckMirrorAtCol(pattern: seq<seq<char>>, col: nat) returns (result: CheckResult)
    requires Wider(pattern, col)
    ensures result == Classify(|Smudges(pattern, col)|)
  {
    var smudges: nat := 0;
    for r := 0 to |pattern|
      invariant smudges == |SmudgesUpTo(pattern, col, r)| && smudges <= 1
    {
      var bad;
      bad, smudges := CompareRow(pattern, col, r, smudges);
      if bad {
        return Bad;
      }
    }
    if smudges == 1 {
      result := AlmostValid;
    } else if smudges == 0 {
      result := Valid;
    } else {
      result := Bad;
    }
  }

  /** `pattern[0].len()` columns, each within every row. */
  predicate WideEnough(pattern: seq<seq<char>>)
  {
    |pattern| > 0 && forall r :: 0 <= r < |pattern| ==> |pattern[0]| <= |pattern[r]|
  }

  /** Column `j` of the pattern, from top to bottom. */
  function ColumnOf(pattern: seq<seq<char>>, j: nat): (s: seq<char>)
    requires forall r :: 0 <= r < |pattern| ==> j < |pattern[r]|
    ensures |s| == |pattern| && forall r :: 0 <= r < |pattern| ==> s[r] == pattern[r][j]
  {
    seq(|pattern|, r requires 0 <= r < |pattern| && j < |pattern[r]| => pattern[r][j])
  }

  /** The columns of the first `pattern[0].len()` as rows: a horizontal line of `pattern` is a vertical line of this. */
  ghost function Transpose(pattern: seq<seq<char>>): (t: seq<seq<char>>)
    requires WideEnough(pattern)
    ensures IsTranspose(pattern, t)
  {
    var columns := seq(|pattern[0]|, j requires 0 <= j < |pattern[0]| && WideEnough(pattern) => ColumnOf(pattern, j));
    assert IsTranspose(pattern, columns);
    var t :| IsTranspose(pattern, t);
    t
  }

  /** `t` lists the columns of `pattern` (as far as the first row reaches). */
  predicate IsTranspose(pattern: seq<seq<char>>, t: seq<seq<char>>)
    requires WideEnough(pattern)
  {
    |t| == |pattern[0]| && forall j :: 0 <= j < |t| ==> t[j] == ColumnOf(pattern, j)
  }

  lemma TransposeWide(pattern: seq<seq<char>>, row: nat)
    requires WideEnough(pattern) && row < |pattern|
    ensures Wider(Transpose(pattern), row)
  {
  }

  lemma TransposeLine(pattern: seq<seq<char>>, j: nat)
    requires WideEnough(pattern) && j < |pattern[0]|
    ensures var t := Transpose(pattern);
      j < |t| && |t[j]| == |pattern| && forall r :: 0 <= r < |pattern| ==> j < |pattern[r]| && t[j][r] == pattern[r][j]
  {
  }

  /** The inner loop of `check_mirror_at_row`: compares the mirrored pairs of column `j`. */
  method CompareColumn(pattern: seq<seq<char>>, ghost t: seq<seq<char>>, row: nat, j: nat, smudges: nat)
    returns (bad: bool, smudges': nat)
    requires row < |pattern| && j < |t| && Wider(t, row) && |t[j]| == |pattern|
    requires forall r :: 0 <= r < |pattern| ==> j < |pattern[r]| && t[j][r] == pattern[r][j]
    requires smudges == |SmudgesUpTo(t, row, j)| && smudges <= 1
    ensures bad ==> |Smudges(t, row)| >= 2
    ensures !bad ==> smudges' == |SmudgesUpTo(t, row, j + 1)| && smudges' <= 1
  {
    smudges' := smudges;
    var rows := |pattern|;
    var reach := if rows - row - 1 < row + 1 then rows - row - 1 else row + 1;
    ghost var line := t[j];
    assert reach == Reach(|line|, row);
    assert Compared(t, row, j, 0) == SmudgesUpTo(t, row, j);
    for i := 0 to reach
      invariant smudges' == |Compared(t, row, j, i)| && smudges' <= 1
    {
      bad, smudges' := ComparePair(pattern, t, row, j, i, smudges');
      if bad {
        return;
      }
    }
    RowDone(t, row, j);
    bad := false;
  }

  /** One step of that inner loop: the cells `i` above and below the line in column `j`. */
  method ComparePair(pattern: seq<seq<char>>, ghost t: seq<seq<char>>, row: nat, j: nat, i: nat, smudges: nat)
    returns (bad: bool, smudges': nat)
    requires row < |pattern| && j < |t| && Wider(t, row) && |t[j]| == |pattern|
    requires forall r :: 0 <= r < |pattern| ==> j < |pattern[r]| && t[j][r] == pattern[r][j]
    requires i < Reach(|t[j]|, row) && smudges == |Compared(t, row, j, i)| && smudges <= 1
    ensures bad ==> |Smudges(t, row)| >= 2
    ensures !bad ==> smudges' == |Compared(t, row, j, i + 1)| && smudges' <= 1
  {
    smudges' := smudges;
    ghost var line := t[j];
    assert pattern[row + i + 1][j] == line[row + i + 1] && pattern[row - i][j] == line[row - i];
    if pattern[row + i + 1][j] != pattern[row - i][j] {
      if smudges == 1 {
        SecondSmudge(t, row, j, i);
        return true, smudges;
      }
      SmudgeFound(t, row, j, i);
      smudges' := smudges + 1;
    } else {
      PairMatches(t, row, j, i);
    }
    bad := false;
  }

  /**
   * `check_mirror_at_row`: the check of the horizontal line after `row`,
   * column by column; it is the column check of the transposed pattern.
   */
  method CheckMirrorAtRow(pattern: seq<seq<char>>, row: nat) returns (result: CheckResult)
    requires WideEnough(pattern) && row < |pattern|
    ensures result == Classify(|Smudges(Transpose(pattern), row)|)
  {
    ghost var t := Transpose(pattern);
    TransposeWide(pattern, row);
    var smudges: nat := 0;
    for j := 0 to |pattern[0]|
      invariant smudges == |SmudgesUpTo(t, row, j)| && smudges <= 1
    {
      var bad;
      TransposeLine(pattern, j);
      bad, smudges := CompareColumn(pattern, t, row, j, smudges);
      if bad {
        return Bad;
      }
    }
    if smudges == 1 {
      result := AlmostValid;
    } else if smudges == 0 {
      result := Valid;
    } else {
      result := Bad;
    }
  }

  /** A smudge of the horizontal line after `row` is a pair of cells in column `j`, mirrored across it, that differ. */
  lemma RowSmudgesMeans(pattern: seq<seq<char>>, row: nat, j: nat, i: nat)
    requires WideEnough(pattern) && row < |pattern|
    ensures (j, i) in Smudges(Transpose(pattern), row) <==>
      j < |pattern[0]| && i < Reach(|pattern|, row) && pattern[row + i + 1][j] != pattern[row - i][j]
  {
    SmudgesMeans(Transpose(pattern), row, j, i);
  }

  // Reading the patterns

  /** The patterns written one after the other, separated by a blank line. */
  function Joined(patterns: seq<seq<seq<char>>>): (lines: seq<seq<char>>)
    requires |patterns| > 0
  {
    if |patterns| == 1 then patterns[0]
    else Joined(patterns[..|patterns| - 1]) + [""] + patterns[|patterns| - 1]
  }

  /** No pattern holds a blank line. */
  predicate NoBlankRows(patterns: seq<seq<seq<char>>>)
  {
    forall k, r :: 0 <= k < |patterns| && 0 <= r < |patterns[k]| ==> patterns[k][r] != ""
  }

  lemma {:induction false} JoinedBlanks(patterns: seq<seq<seq<char>>>)
    requires |patterns| > 0 && NoBlankRows(patterns)
    ensures |patterns| == 1 <==> "" !in Joined(patterns)
  {
    if |patterns| > 1 {
      var front := patterns[..|patterns| - 1];
      assert Joined(patterns)[|Joined(front)|] == "";
    }
  }

  /** Of two ways to write a line list as a head, a blank line and a tail, the longer tail holds the other blank line. */
  lemma BlankAt(x: seq<seq<char>>, p: seq<seq<char>>, y: seq<seq<char>>, q: seq<seq<char>>)
    requires x + [""] + p == y + [""] + q && |p| < |q|
    ensures q[|q| - |p| - 1] == ""
  {
    var lines := x + [""] + p;
    assert lines[|x|] == "";
    assert q[|q| - |p| - 1] == lines[|x|];
  }

  /** Splitting at blank lines is the inverse of `Joined`: the patterns are determined by their lines. */
  lemma {:induction false} JoinedInjective(a: seq<seq<seq<char>>>, b: seq<seq<seq<char>>>)
    requires |a| > 0 && |b| > 0 && NoBlankRows(a) && NoBlankRows(b) && Joined(a) == Joined(b)
    ensures a == b
    decreases |a|
  {
    JoinedBlanks(a);
    JoinedBlanks(b);
    if |a| > 1 {
      var fa, fb := a[..|a| - 1], b[..|b| - 1];
      var p, q := a[|a| - 1], b[|b| - 1];
      var lines := Joined(a);
      assert lines == Joined(fa) + [""] + p && lines == Joined(fb) + [""] + q;
      if |p| < |q| {
        BlankAt(Joined(fa), p, Joined(fb), q);
        assert false;
      }
      if |q| < |p| {
        BlankAt(Joined(fb), q, Joined(fa), p);
        assert false;
      }
      assert p == lines[|lines| - |p|..] == q;
      assert Joined(fa) == lines[..|lines| - |p| - 1] == Joined(fb);
      JoinedInjective(fa, fb);
      assert a == fa + [p] && b == fb + [q];
    }
  }

  /**
   * The reading loop of `solution`: a blank line closes the current
   * pattern and starts a new one, and the last pattern is pushed at the
   * end, so there is one pattern more than there are blank lines.
   */
  method GroupPatterns(lines: seq<seq<char>>) returns (allPatterns: seq<seq<seq<char>>>)
    ensures |allPatterns| > 0 && NoBlankRows(allPatterns) && Joined(allPatterns) == lines
  {
    allPatterns := [];
    var pattern: seq<seq<char>> := [];
    for k := 0 to |lines|
      invariant NoBlankRows(allPatterns + [pattern])
      invariant Joined(allPatterns + [pattern]) == lines[..k]
    {
      var line := lines[k];
      if line == "" {
        assert (allPatterns + [pattern]) + [[]] == allPatterns + [pattern] + [[]];
        allPatterns := allPatterns + [pattern];
        pattern := [];
        assert (allPatterns + [pattern])[..|allPatterns|] == allPatterns;
      } else {
        ghost var before := allPatterns + [pattern];
        pattern := pattern + [line];
        assert (allPatterns + [pattern])[..|allPatterns|] == before[..|allPatterns|];
      }
      assert lines[..k + 1] == lines[..k] + [line];
    }
    allPatterns := allPatterns + [pattern];
    assert lines[..|lines|] == lines;
  }

  // Summarizing

  /** `p[0]` exists, `p[0].len() - 1` does not underflow, and every row is as wide as the first. */
  predicate Summarizable(p: seq<seq<char>>)
  {
    WideEnough(p) && |p[0]| > 0
  }

  /** The verdict on the vertical line after column `col`. */
  ghost function ColumnVerdict(p: seq<seq<char>>, col: nat): (v: CheckResult)
    requires Wider(p, col)
    ensures v == Classify(|Smudges(p, col)|)
  {
    var v :| v == Classify(|Smudges(p, col)|);
    v
  }

  /** The verdict on the horizontal line after row `row`. */
  ghost function RowVerdict(p: seq<seq<char>>, row: nat): (v: CheckResult)
    requires WideEnough(p) && row < |p|
    ensures v == Classify(|Smudges(Transpose(p), row)|)
  {
    var v :| v == Classify(|Smudges(Transpose(p), row)|);
    v
  }

  /** What the vertical lines after the first `n` columns with the given verdict add: `i + 1` each. */
  ghost function ColumnNotes(p: seq<seq<char>>, verdict: CheckResult, n: nat): nat
    requires Summarizable(p) && n < |p[0]|
  {
    if n == 0 then 0
    else ColumnNotes(p, verdict, n - 1) + (if ColumnVerdict(p, n - 1) == verdict then n else 0)
  }

  /** What the horizontal lines after the first `n` rows with the given verdict add: `100 * (i + 1)` each. */
  ghost function RowNotes(p: seq<seq<char>>, verdict: CheckResult, n: nat): nat
    requires Summarizable(p) && n < |p|
  {
    if n == 0 then 0
    else RowNotes(p, verdict, n - 1) + (if RowVerdict(p, n - 1) == verdict then n * 100 else 0)
  }

  /** The summary of one pattern for one verdict: its vertical lines, then its horizontal lines. */
  ghost function Notes(p: seq<seq<char>>, verdict: CheckResult): nat
    requires Summarizable(p)
  {
    ColumnNotes(p, verdict, |p[0]| - 1) + RowNotes(p, verdict, |p| - 1)
  }

  /** The summary of the first `n` patterns. */
  ghost function TotalNotes(patterns: seq<seq<seq<char>>>, verdict: CheckResult, n: nat): nat
    requires n <= |patterns| && forall k :: 0 <= k < |patterns| ==> Summarizable(patterns[k])
  {
    if n == 0 then 0 else TotalNotes(patterns, verdict, n - 1) + Notes(patterns[n - 1], verdict)
  }

  lemma TotalNotesStep(patterns: seq<seq<seq<char>>>, verdict: CheckResult, k: nat)
    requires k < |patterns| && forall i :: 0 <= i < |patterns| ==> Summarizable(patterns[i])
    ensures TotalNotes(patterns, verdict, k + 1) == TotalNotes(patterns, verdict, k) + Notes(patterns[k], verdict)
  {
  }

  lemma ColumnNotesStep(p: seq<seq<char>>, i: nat, verdict: CheckResult, kind: CheckResult)
    requires Summarizable(p) && i + 1 < |p[0]| && verdict == Classify(|Smudges(p, i)|)
    ensures ColumnNotes(p, kind, i + 1) == ColumnNotes(p, kind, i) + (if verdict == kind then i + 1 else 0)
  {
  }

  lemma RowNotesStep(p: seq<seq<char>>, i: nat, verdict: CheckResult, kind: CheckResult)
    requires Summarizable(p) && i + 1 < |p| && verdict == Classify(|Smudges(Transpose(p), i)|)
    ensures RowNotes(p, kind, i + 1) == RowNotes(p, kind, i) + (if verdict == kind then (i + 1) * 100 else 0)
  {
  }

  /** The first inner loop of `solution`: the vertical lines of one pattern. */
  method SummarizeColumns(p: seq<seq<char>>) returns (part1: nat, part2: nat)
    requires Summarizable(p)
    ensures part1 == ColumnNotes(p, Valid, |p[0]| - 1) && part2 == ColumnNotes(p, AlmostValid, |p[0]| - 1)
  {
    part1, part2 := 0, 0;
    for i := 0 to |p[0]| - 1
      invariant part1 == ColumnNotes(p, Valid, i) && part2 == ColumnNotes(p, AlmostValid, i)
    {
      var verdict := CheckMirrorAtCol(p, i);
      match verdict {
        case Valid => part1 := part1 + (i + 1);
        case AlmostValid => part2 := part2 + (i + 1);
        case Bad =>
      }
      ColumnNotesStep(p, i, verdict, Valid);
      ColumnNotesStep(p, i, verdict, AlmostValid);
    }
  }

  /** The second inner loop of `solution`: the horizontal lines of one pattern. */
  method SummarizeRows(p: seq<seq<char>>) returns (part1: nat, part2: nat)
    requires Summarizable(p)
    ensures part1 == RowNotes(p, Valid, |p| - 1) && part2 == RowNotes(p, AlmostValid, |p| - 1)
  {
    part1, part2 := 0, 0;
    for i := 0 to |p| - 1
      invariant part1 == RowNotes(p, Valid, i) && part2 == RowNotes(p, AlmostValid, i)
    {
      var verdict := CheckMirrorAtRow(p, i);
      match verdict {
        case Valid => part1 := part1 + (i + 1) * 100;
        case AlmostValid => part2 := part2 + (i + 1) * 100;
        case Bad =>
      }
      RowNotesStep(p, i, verdict, Valid);
      RowNotesStep(p, i, verdict, AlmostValid);
    }
  }

  /** The two inner loops of `solution` on one pattern. */
  method SummarizePattern(p: seq<seq<char>>) returns (part1: nat, part2: nat)
    requires Summarizable(p)
    ensures part1 == Notes(p, Valid) && part2 == Notes(p, AlmostValid)
  {
    var cols1, cols2 := SummarizeColumns(p);
    var rows1, rows2 := SummarizeRows(p);
    part1, part2 := cols1 + rows1, cols2 + rows2;
  }

  /** The scoring loop of `solution`: part 1 sums the perfect lines, part 2 the lines with one smudge. */
  method Summarize(allPatterns: seq<seq<seq<char>>>) returns (part1: nat, part2: nat)
    requires forall k :: 0 <= k < |allPatterns| ==> Summarizable(allPatterns[k])
    ensures part1 == TotalNotes(allPatterns, Valid, |allPatterns|)
    ensures part2 == TotalNotes(allPatterns, AlmostValid, |allPatterns|)
  {
    part1, part2 := 0, 0;
    for k := 0 to |allPatterns|
      invariant part1 == TotalNotes(allPatterns, Valid, k) && part2 == TotalNotes(allPatterns, AlmostValid, k)
    {
      var notes1, notes2 := SummarizePattern(allPatterns[k]);
      TotalNotesStep(allPatterns, Valid, k);
      TotalNotesStep(allPatterns, AlmostValid, k);
      part1, part2 := part1 + notes1, part2 + notes2;
    }
  }
}

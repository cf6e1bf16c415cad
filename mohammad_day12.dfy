/**
 * mohammad/day12: hot springs, by brute force.  A record lists springs
 * that are operational `.`, damaged `#` or unknown `?`, with the sizes of
 * the contiguous groups of damaged springs.  `compute_arrangements` tries
 * every way to mark exactly as many unknowns damaged as are missing and
 * counts the candidates whose groups match.
 */
module MohammadDay12 {
  import opened Text
  import Counting

  // is_valid

  /** The length of a piece, dropped when the piece is empty. */
  function PieceLength(piece: string): seq<nat>
  {
    if piece == [] then [] else [|piece|]
  }

  /** `filter_map`: the lengths of the non-empty pieces, in order. */
  function PieceLengths(pieces: seq<string>): seq<nat>
  {
    if pieces == [] then [] else PieceLength(pieces[0]) + PieceLengths(pieces[1..])
  }

  /** The sizes of the groups of `candidate`: its maximal runs between `.` cells. */
  function Groups(candidate: seq<char>): seq<nat>
  {
    PieceLengths(Split(candidate, '.'))
  }

  /** `is_valid`: the groups of the candidate are exactly `amounts`, in order. */
  predicate IsValid(candidate: seq<char>, amounts: seq<nat>)
  {
    Groups(candidate) == amounts
  }

  /** The cells of `s` that are not `.`. */
  function NotDots(s: seq<char>): nat
  {
    |s| - multiset(s)['.']
  }

  lemma NotDotsAppend(a: seq<char>, b: seq<char>)
    ensures NotDots(a + b) == NotDots(a) + NotDots(b)
  {
    assert multiset(a + b) == multiset(a) + multiset(b);
  }

  lemma {:induction false} PieceLengthsAppend(a: seq<string>, b: seq<string>)
    ensures PieceLengths(a + b) == PieceLengths(a) + PieceLengths(b)
    decreases |a|
  {
    if a == [] {
      assert a + b == b;
    } else {
      PieceLengthsAppend(a[1..], b);
      var ab := a + b;
      assert ab[0] == a[0] && ab[1..] == a[1..] + b;
      calc {
        PieceLengths(ab);
        PieceLength(a[0]) + PieceLengths(a[1..] + b);
        PieceLength(a[0]) + (PieceLengths(a[1..]) + PieceLengths(b));
        (PieceLength(a[0]) + PieceLengths(a[1..])) + PieceLengths(b);
      }
    }
  }

  /** The groups cover every cell that is not `.`: their sizes add up to the number of such cells. */
  lemma {:induction false} GroupsCoverNotDots(s: seq<char>)
    ensures Counting.Sum(Groups(s)) == NotDots(s)
    decreases |s|
  {
    var i := IndexOf(s, '.');
    if i == |s| {
      NoDotGroup(s);
    } else {
      var rest := s[i + 1..];
      GroupsCoverNotDots(rest);
      DotGroups(s, i);
    }
  }

  lemma NoDotGroup(s: seq<char>)
    requires IndexOf(s, '.') == |s|
    ensures Counting.Sum(Groups(s)) == NotDots(s)
  {
    assert '.' !in multiset(s);
    SplitNone(s, '.');
    OnePiece(s);
  }

  lemma OnePiece(s: seq<char>)
    ensures PieceLengths([s]) == PieceLength(s)
    ensures Counting.Sum(PieceLength(s)) == |s|
  {
    assert [s][1..] == [];
  }

  /** The groups of `s` are the first piece's, if any, then those after the first `.`. */
  lemma DotGroups(s: seq<char>, i: nat)
    requires i == IndexOf(s, '.') < |s|
    requires Counting.Sum(Groups(s[i + 1..])) == NotDots(s[i + 1..])
    ensures Counting.Sum(Groups(s)) == NotDots(s)
  {
    var head, rest := s[..i], s[i + 1..];
    AroundDot(s, i);
    GroupsAfterDot(head, rest);
    SumAppend(PieceLength(head), Groups(rest));
    OnePiece(head);
    NotDotsAfterDot(head, rest);
  }

  lemma AroundDot(s: seq<char>, i: nat)
    requires i < |s| && s[i] == '.'
    ensures s == s[..i] + ['.'] + s[i + 1..]
  {
    assert s[i..] == [s[i]] + s[i + 1..];
    assert s == s[..i] + s[i..];
  }

  lemma GroupsAfterDot(head: seq<char>, rest: seq<char>)
    requires '.' !in head
    ensures Groups(head + ['.'] + rest) == PieceLength(head) + Groups(rest)
  {
    SplitFirst(head, '.', rest);
    PieceLengthsAppend([head], Split(rest, '.'));
    OnePiece(head);
  }

  lemma NotDotsAfterDot(head: seq<char>, rest: seq<char>)
    requires '.' !in head
    ensures NotDots(head + ['.'] + rest) == |head| + NotDots(rest)
  {
    NotDotsAppend(head + ['.'], rest);
    NotDotsAppend(head, ['.']);
    assert '.' !in multiset(head);
  }

  lemma {:induction false} SumAppend(a: seq<nat>, b: seq<nat>)
    ensures Counting.Sum(a + b) == Counting.Sum(a) + Counting.Sum(b)
    decreases |a|
  {
    if a == [] {
      assert a + b == b;
    } else {
      SumAppend(a[1..], b);
      var ab := a + b;
      assert ab[0] == a[0] && ab[1..] == a[1..] + b;
      assert Counting.Sum(ab) == a[0] + Counting.Sum(ab[1..]);
    }
  }

  /** Every damaged cell of a valid candidate without unknowns lies in a group: they number the sum of the amounts. */
  lemma ValidDamagedCount(candidate: seq<char>, amounts: seq<nat>)
    requires IsValid(candidate, amounts)
    requires forall k :: 0 <= k < |candidate| ==> candidate[k] in {'.', '#'}
    ensures Damaged(candidate) == Counting.Sum(amounts)
  {
    GroupsCoverNotDots(candidate);
    var m := multiset(candidate);
    assert |m| == m['.'] + m['#'] by {
      assert m == multiset(candidate);
      OnlyTwo(candidate);
    }
  }

  lemma {:induction false} OnlyTwo(s: seq<char>)
    requires forall k :: 0 <= k < |s| ==> s[k] in {'.', '#'}
    ensures |s| == multiset(s)['.'] + multiset(s)['#']
    decreases |s|
  {
    if s != [] {
      OnlyTwo(s[1..]);
      assert s == [s[0]] + s[1..];
      assert multiset(s) == multiset([s[0]]) + multiset(s[1..]);
    }
  }

  // compute_arrangements

  /** The damaged cells of a record. */
  function Damaged(record: seq<char>): nat
  {
    multiset(record)['#']
  }

  /** The indices of the unknown cells of the first `n` cells, in order. */
  function UnknownsUpTo(record: seq<char>, n: nat): (r: seq<nat>)
    requires n <= |record|
    ensures forall k :: 0 <= k < |r| ==> r[k] < n && record[r[k]] == '?'
    ensures forall i :: 0 <= i < n && record[i] == '?' ==> i in r
    ensures forall j, k :: 0 <= j < k < |r| ==> r[j] < r[k]
  {
    if n == 0 then [] else UnknownsUpTo(record, n - 1) + (if record[n - 1] == '?' then [n - 1] else [])
  }

  /** The indices of the unknown cells, in order. */
  function Unknowns(record: seq<char>): seq<nat>
  {
    UnknownsUpTo(record, |record|)
  }

  /** `[x] + c` for every `c` of `cs`. */
  function Prepend(x: nat, cs: seq<seq<nat>>): (r: seq<seq<nat>>)
    ensures |r| == |cs| && forall i :: 0 <= i < |cs| ==> r[i] == [x] + cs[i]
  {
    seq(|cs|, i requires 0 <= i < |cs| => [x] + cs[i])
  }

  /**
   * `Itertools::combinations(k)`: the `k`-element selections of `xs` that
   * keep its order, those with the first element first.
   */
  function Combinations(xs: seq<nat>, k: nat): seq<seq<nat>>
    decreases |xs|
  {
    if k == 0 then [[]]
    else if xs == [] then []
    else Prepend(xs[0], Combinations(xs[1..], k - 1)) + Combinations(xs[1..], k)
  }

  /** n choose k, by Pascal's rule. */
  function Binomial(n: nat, k: nat): nat
  {
    if k == 0 then 1 else if n == 0 then 0 else Binomial(n - 1, k - 1) + Binomial(n - 1, k)
  }

  /** There are `|xs|` choose `k` combinations. */
  lemma {:induction false} CombinationsCount(xs: seq<nat>, k: nat)
    ensures |Combinations(xs, k)| == Binomial(|xs|, k)
    decreases |xs|
  {
    if k > 0 && xs != [] {
      CombinationsCount(xs[1..], k - 1);
      CombinationsCount(xs[1..], k);
    }
  }

  /** Strictly increasing, as indices taken in order. */
  predicate Increasing(c: seq<nat>)
  {
    forall i, j :: 0 <= i < j < |c| ==> c[i] < c[j]
  }

  /** `c` is a `k`-element increasing selection from `xs`. */
  predicate Selection(c: seq<nat>, xs: seq<nat>, k: nat)
  {
    |c| == k && Increasing(c) && forall j :: 0 <= j < |c| ==> c[j] in xs
  }

  lemma PrependSelection(x: nat, d: seq<nat>, tail: seq<nat>, k: nat)
    requires Selection(d, tail, k) && forall j :: 0 <= j < |tail| ==> x < tail[j]
    ensures Selection([x] + d, [x] + tail, k + 1)
  {
    var c := [x] + d;
    forall j | 0 <= j < |d| ensures x < d[j] && d[j] in [x] + tail {
      var m :| 0 <= m < |tail| && tail[m] == d[j];
    }
    assert forall j :: 0 < j < |c| ==> c[j] == d[j - 1];
  }

  lemma SelectionWiden(d: seq<nat>, x: nat, tail: seq<nat>, k: nat)
    requires Selection(d, tail, k)
    ensures Selection(d, [x] + tail, k)
  {
  }

  /** Each combination has `k` elements taken from `xs` in increasing order. */
  lemma {:induction false} CombinationsShape(xs: seq<nat>, k: nat)
    requires Increasing(xs)
    ensures forall c :: c in Combinations(xs, k) ==> Selection(c, xs, k)
    decreases |xs|
  {
    if k > 0 && xs != [] {
      var tail := xs[1..];
      assert xs == [xs[0]] + tail;
      CombinationsShape(tail, k - 1);
      CombinationsShape(tail, k);
      var with, without := Combinations(tail, k - 1), Combinations(tail, k);
      forall c | c in Prepend(xs[0], with) ensures Selection(c, xs, k) {
        var i :| 0 <= i < |with| && c == [xs[0]] + with[i];
        assert with[i] in with;
        PrependSelection(xs[0], with[i], tail, k - 1);
      }
      forall c | c in without ensures Selection(c, xs, k) {
        SelectionWiden(c, xs[0], tail, k);
      }
    }
  }

  /** No combination is listed twice. */
  lemma {:induction false} CombinationsDistinct(xs: seq<nat>, k: nat)
    requires Increasing(xs)
    ensures forall a, b :: 0 <= a < b < |Combinations(xs, k)| ==> Combinations(xs, k)[a] != Combinations(xs, k)[b]
    decreases |xs|
  {
    if k > 0 && xs != [] {
      var tail := xs[1..];
      CombinationsDistinct(tail, k - 1);
      CombinationsDistinct(tail, k);
      CombinationsShape(tail, k);
      var with, without := Prepend(xs[0], Combinations(tail, k - 1)), Combinations(tail, k);
      var all := with + without;
      forall a, b | 0 <= a < b < |all| ensures all[a] != all[b] {
        if b >= |with| && a < |with| {
          var c := all[b];
          assert c in without;
          assert c[0] in tail;
          assert all[a][0] == xs[0];
        } else if a >= |with| {
          assert all[a] == without[a - |with|] && all[b] == without[b - |with|];
        } else {
          assert all[a][1..] == Combinations(tail, k - 1)[a];
          assert all[b][1..] == Combinations(tail, k - 1)[b];
        }
      }
    }
  }

  /** The candidate for a combination `c`: its cells damaged, every other unknown operational. */
  function Fill(record: seq<char>, c: seq<nat>): (r: seq<char>)
    ensures |r| == |record|
  {
    seq(|record|, i requires 0 <= i < |record| => if i in c then '#' else if record[i] == '?' then '.' else record[i])
  }

  /** The first loop of a candidate: the cells of `c` marked damaged. */
  function MarkDamaged(record: seq<char>, c: seq<nat>): (r: seq<char>)
    ensures |r| == |record|
  {
    seq(|record|, i requires 0 <= i < |record| => if i in c then '#' else record[i])
  }

  /** How many of the combinations give a valid candidate. */
  function CountValid(record: seq<char>, amounts: seq<nat>, combinations: seq<seq<nat>>): (n: nat)
    ensures n <= |combinations|
  {
    if combinations == [] then 0
    else
      var last := combinations[|combinations| - 1];
      CountValid(record, amounts, combinations[..|combinations| - 1]) + (if IsValid(Fill(record, last), amounts) then 1 else 0)
  }

  /** The result of `compute_arrangements`. */
  function Arrangements(record: seq<char>, amounts: seq<nat>): nat
  {
    var sum := Counting.Sum(amounts);
    if sum < Damaged(record) then 0
    else CountValid(record, amounts, Combinations(Unknowns(record), sum - Damaged(record)))
  }

  /** A record's cells are operational, damaged or unknown. */
  predicate IsRecord(record: seq<char>)
  {
    forall i :: 0 <= i < |record| ==> record[i] in {'.', '#', '?'}
  }

  /** The loop body of `compute_arrangements`: the candidate for one combination, built in a copy of the record. */
  method Candidate(record: seq<char>, c: seq<nat>) returns (candidate: array<char>)
    requires forall j :: 0 <= j < |c| ==> c[j] < |record|
    ensures fresh(candidate) && candidate[..] == Fill(record, c)
  {
    candidate := new char[|record|](i requires 0 <= i < |record| => record[i]);
    assert candidate[..] == MarkDamaged(record, c[..0]);
    for i := 0 to |c|
      invariant candidate[..] == MarkDamaged(record, c[..i])
    {
      candidate[c[i]] := '#';
      assert c[..i + 1] == c[..i] + [c[i]];
      assert candidate[..] == MarkDamaged(record, c[..i + 1]);
    }
    assert c[..|c|] == c;
    ghost var marked := candidate[..];
    for j := 0 to candidate.Length
      invariant forall m :: 0 <= m < j ==> candidate[m] == Fill(record, c)[m]
      invariant forall m :: j <= m < candidate.Length ==> candidate[m] == marked[m]
    {
      if candidate[j] == '?' {
        candidate[j] := '.';
      }
    }
    assert candidate[..] == Fill(record, c);
  }

  /** The first loop of `compute_arrangements`: the unknown cells and the number of damaged cells. */
  method Survey(record: seq<char>) returns (unknowns: seq<nat>, damagedCount: nat)
    ensures unknowns == Unknowns(record) && damagedCount == Damaged(record)
  {
    unknowns, damagedCount := [], 0;
    for idx := 0 to |record|
      invariant unknowns == UnknownsUpTo(record, idx) && damagedCount == Damaged(record[..idx])
    {
      var c := record[idx];
      if c == '?' {
        unknowns := unknowns + [idx];
      } else if c == '#' {
        damagedCount := damagedCount + 1;
      }
      assert record[..idx + 1] == record[..idx] + [c];
    }
    assert record[..|record|] == record;
  }

  /** The last loop of `compute_arrangements`: counts the combinations whose candidate is valid. */
  method CountCandidates(record: seq<char>, amounts: seq<nat>, combinations: seq<seq<nat>>) returns (arrangements: int)
    requires forall c, j :: c in combinations && 0 <= j < |c| ==> c[j] < |record|
    ensures arrangements == CountValid(record, amounts, combinations)
  {
    arrangements := 0;
    for n := 0 to |combinations|
      invariant arrangements == CountValid(record, amounts, combinations[..n])
    {
      var c := combinations[n];
      assert c in combinations;
      var candidate := Candidate(record, c);
      if IsValid(candidate[..], amounts) {
        arrangements := arrangements + 1;
      }
      assert combinations[..n + 1][..n] == combinations[..n];
    }
    assert combinations[..|combinations|] == combinations;
  }

  /** `compute_arrangements`: the number of combinations of unknowns whose candidate is valid. */
  method ComputeArrangements(record: seq<char>, amounts: seq<nat>) returns (arrangements: int)
    ensures arrangements == Arrangements(record, amounts)
  {
    var unknowns, damagedCount := Survey(record);
    var amountsSum := Counting.Sum(amounts);
    if amountsSum < damagedCount {
      return 0;
    }
    var combinations := Combinations(unknowns, amountsSum - damagedCount);
    CombinationsShape(unknowns, amountsSum - damagedCount);
    arrangements := CountCandidates(record, amounts, combinations);
  }

  /** Every candidate is a filled-in record: the combination's cells damaged, every other unknown operational, the rest kept. */
  lemma CandidateShape(record: seq<char>, c: seq<nat>, k: nat)
    requires IsRecord(record) && c in Combinations(Unknowns(record), k)
    ensures |c| == k && Increasing(c)
    ensures '?' !in Fill(record, c)
    ensures forall i :: 0 <= i < |record| ==> (Fill(record, c)[i] == '#' && record[i] == '?' <==> i in c)
    ensures forall i :: 0 <= i < |record| && record[i] != '?' ==> Fill(record, c)[i] == record[i]
  {
    CombinationsShape(Unknowns(record), k);
    forall j | 0 <= j < |c| ensures c[j] < |record| && record[c[j]] == '?' {
      assert c[j] in Unknowns(record);
    }
  }

  /** The result is at most the number of combinations tried: `#unknowns` choose the number of damaged cells missing. */
  lemma ArrangementsBound(record: seq<char>, amounts: seq<nat>)
    ensures Counting.Sum(amounts) < Damaged(record) ==> Arrangements(record, amounts) == 0
    ensures Counting.Sum(amounts) >= Damaged(record) ==>
      Arrangements(record, amounts) <= Binomial(|Unknowns(record)|, Counting.Sum(amounts) - Damaged(record))
  {
    if Counting.Sum(amounts) >= Damaged(record) {
      CombinationsCount(Unknowns(record), Counting.Sum(amounts) - Damaged(record));
    }
  }

  lemma {:induction false} NoUnknownsListed(record: seq<char>, n: nat)
    requires n <= |record| && '?' !in record
    ensures UnknownsUpTo(record, n) == []
  {
    if n > 0 {
      NoUnknownsListed(record, n - 1);
    }
  }

  lemma CountOne(record: seq<char>, amounts: seq<nat>)
    ensures CountValid(record, amounts, [[]]) == if IsValid(Fill(record, []), amounts) then 1 else 0
  {
    var one: seq<seq<nat>> := [[]];
    assert one[..0] == [];
  }

  /** A record without unknowns has one arrangement if its groups match, none otherwise. */
  lemma NoUnknowns(record: seq<char>, amounts: seq<nat>)
    requires IsRecord(record) && '?' !in record
    ensures Arrangements(record, amounts) == if IsValid(record, amounts) then 1 else 0
  {
    NoUnknownsListed(record, |record|);
    assert Fill(record, []) == record;
    if IsValid(record, amounts) {
      ValidDamagedCount(record, amounts);
      CountOne(record, amounts);
    } else if Counting.Sum(amounts) >= Damaged(record) {
      var k := Counting.Sum(amounts) - Damaged(record);
      if k == 0 {
        CountOne(record, amounts);
      }
    }
  }

  // solution

  /** `split(',').map(|c| c.parse::<usize>().unwrap())`: `None` where an `unwrap` panics. */
  function ParseAmounts(pieces: seq<string>): (r: Option<seq<nat>>)
    ensures r.Some? <==> forall k :: 0 <= k < |pieces| ==> ParseU64(pieces[k]).Some?
    ensures r.Some? ==> |r.value| == |pieces| && forall k :: 0 <= k < |pieces| ==> ParseU64(pieces[k]) == Some(r.value[k])
  {
    if pieces == [] then Some([])
    else match (ParseU64(pieces[0]), ParseAmounts(pieces[1..]))
      case (Some(n), Some(rest)) => Some([n] + rest)
      case _ => None
  }

  /** One line of input: the record before the first run of whitespace, the amounts after it; `None` where `solution` panics. */
  function ParseLine(line: string): (r: Option<(seq<char>, seq<nat>)>)
    ensures r.Some? <==> |SplitWhitespace(line)| >= 2 && ParseAmounts(Split(SplitWhitespace(line)[1], ',')).Some?
    ensures r.Some? ==> r.value.0 == SplitWhitespace(line)[0] && r.value.1 == ParseAmounts(Split(SplitWhitespace(line)[1], ',')).value
  {
    var split := SplitWhitespace(line);
    if |split| < 2 then None
    else match ParseAmounts(Split(split[1], ','))
      case Some(amounts) => Some((split[0], amounts))
      case None => None
  }

  /** The arrangements of one line's record, or `None` where parsing the line panics. */
  function LineArrangements(line: string): (r: Option<int>)
    ensures r.Some? <==> ParseLine(line).Some?
    ensures r.Some? ==> r.value == Arrangements(ParseLine(line).value.0, ParseLine(line).value.1)
  {
    var parsed := ParseLine(line);
    if parsed.None? then None else Some(Arrangements(parsed.value.0, parsed.value.1))
  }

  /** The answer to part 1 over the first `n` lines: the arrangements of every record, added up. */
  function TotalArrangements(lines: seq<string>, n: nat): Option<int>
    requires n <= |lines|
  {
    if n == 0 then Some(0)
    else
      var total := TotalArrangements(lines, n - 1);
      var line := LineArrangements(lines[n - 1]);
      if total.None? || line.None? then None else Some(total.value + line.value)
  }

  /** One line of part 1: parse it and count the arrangements of its record. */
  method LineResult(line: string) returns (r: Option<int>)
    ensures r == LineArrangements(line)
  {
    var parsed := ParseLine(line);
    if parsed.None? {
      return None;
    }
    var a := ComputeArrangements(parsed.value.0, parsed.value.1);
    r := Some(a);
  }

  /** Part 1 of `solution` on already-read lines. */
  method Part1(lines: seq<string>) returns (result: Option<int>)
    ensures result == TotalArrangements(lines, |lines|)
  {
    var part1Result := 0;
    for k := 0 to |lines|
      invariant TotalArrangements(lines, k) == Some(part1Result)
    {
      var line := LineResult(lines[k]);
      if line.None? {
        NoTotalFrom(lines, k + 1, |lines|);
        return None;
      }
      TotalStep(lines, k, part1Result, line.value);
      part1Result := part1Result + line.value;
    }
    result := Some(part1Result);
  }

  lemma TotalStep(lines: seq<string>, k: nat, total: int, a: int)
    requires k < |lines| && TotalArrangements(lines, k) == Some(total)
    requires LineArrangements(lines[k]) == Some(a)
    ensures TotalArrangements(lines, k + 1) == Some(total + a)
  {
    var n := k + 1;
    assert lines[n - 1] == lines[k];
  }

  /** A line that panics stops the run: no later total exists. */
  lemma {:induction false} NoTotalAfter(lines: seq<string>, n: nat)
    requires 0 < n <= |lines| && LineArrangements(lines[n - 1]).None?
    ensures forall m :: n <= m <= |lines| ==> TotalArrangements(lines, m).None?
  {
    forall m | n <= m <= |lines| ensures TotalArrangements(lines, m).None? {
      NoTotalFrom(lines, n, m);
    }
  }

  lemma {:induction false} NoTotalFrom(lines: seq<string>, n: nat, m: nat)
    requires 0 < n <= m <= |lines| && LineArrangements(lines[n - 1]).None?
    ensures TotalArrangements(lines, m).None?
  {
    if m > n {
      NoTotalFrom(lines, n, m - 1);
    }
  }
}

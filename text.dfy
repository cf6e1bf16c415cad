/**
 * Models of the few pieces of Rust's standard string library that the
 * puzzle solvers lean on: `char::is_ascii_digit`, `str::split_whitespace`,
 * `str::split(char)`, `str::lines`, `str::trim`, `str::trim_matches`,
 * `str::contains` and `str::parse` for the integer types.  Strings are
 * sequences of `char`; only ASCII whitespace is recognised as whitespace.
 */
module Text {

  datatype Option<T> = None | Some(value: T)

  /** A Rust `Result`: a value or an error of the solver's own error enum. */
  datatype Result<T, E> = Ok(value: T) | Err(error: E)

  /**
   * Rust's `collect::<Result<Vec<_>, _>>()` and the `?` in a loop that
   * pushes: the values of the results in order, or the first error.
   */
  function Collect<T, E>(results: seq<Result<T, E>>): (r: Result<seq<T>, E>)
    ensures r.Ok? <==> forall k :: 0 <= k < |results| ==> results[k].Ok?
    ensures r.Ok? ==> |r.value| == |results| && forall k :: 0 <= k < |results| ==> results[k] == Ok(r.value[k])
    ensures r.Err? ==> exists k :: 0 <= k < |results| && results[k] == Err(r.error) && forall q :: 0 <= q < k ==> results[q].Ok?
    decreases |results|
  {
    if results == [] then Ok([])
    else
      var n := |results| - 1;
      var init := results[..n];
      var previous := Collect(init);
      assert forall q :: 0 <= q < n ==> results[q] == init[q];
      if previous.Err? then previous
      else if results[n].Err? then Err(results[n].error)
      else
        var v := previous.value + [results[n].value];
        assert forall q :: 0 <= q < n ==> v[q] == previous.value[q];
        Ok(v)
  }

  /** Collecting one more result: the error so far stays, or the new one is the first, or its value is appended. */
  lemma {:induction false} CollectSnoc<T, E>(results: seq<Result<T, E>>, last: Result<T, E>)
    ensures Collect(results + [last]) ==
      if Collect(results).Err? then Collect(results)
      else if last.Err? then Err(last.error)
      else Ok(Collect(results).value + [last.value])
  {
    assert (results + [last])[..|results|] == results;
  }

  /** `f` applied to each element, in order. */
  function Each<A, B>(f: A -> B, xs: seq<A>): (r: seq<B>)
    ensures |r| == |xs| && forall k :: 0 <= k < |xs| ==> r[k] == f(xs[k])
  {
    seq(|xs|, k requires 0 <= k < |xs| => f(xs[k]))
  }

  lemma {:induction false} EachAppend<A, B>(f: A -> B, xs: seq<A>, ys: seq<A>)
    ensures Each(f, xs + ys) == Each(f, xs) + Each(f, ys)
  {
    assert forall k :: 0 <= k < |xs| ==> (xs + ys)[k] == xs[k];
    assert forall k :: |xs| <= k < |xs| + |ys| ==> (xs + ys)[k] == ys[k - |xs|];
  }

  /** The sequences one after the other. */
  function Concat<T>(parts: seq<seq<T>>): (r: seq<T>)
    decreases |parts|
  {
    if parts == [] then [] else Concat(parts[..|parts| - 1]) + parts[|parts| - 1]
  }

  /** Collecting two runs of results one after the other: the first error, or both runs' values. */
  lemma {:induction false} CollectAppend<T, E>(a: seq<Result<T, E>>, b: seq<Result<T, E>>)
    ensures Collect(a + b) ==
      if Collect(a).Err? then Collect(a)
      else if Collect(b).Err? then Err(Collect(b).error)
      else Ok(Collect(a).value + Collect(b).value)
    decreases |b|
  {
    if b == [] {
      assert a + b == a;
      if Collect(a).Ok? {
        assert Collect(a).value + [] == Collect(a).value;
      }
    } else {
      var n := |b| - 1;
      var b' := b[..n];
      assert a + b == (a + b') + [b[n]];
      assert b == b' + [b[n]];
      CollectAppend(a, b');
      CollectSnoc(a + b', b[n]);
      CollectSnoc(b', b[n]);
      var left := Collect(a);
      var mid := Collect(b');
      if left.Ok? && mid.Ok? && b[n].Ok? {
        assert Collect(a + b') == Ok(left.value + mid.value);
        assert Collect(b) == Ok(mid.value + [b[n].value]);
        assert left.value + mid.value + [b[n].value] == left.value + (mid.value + [b[n].value]);
      }
    }
  }

  /** Each group collected on its own. */
  function CollectEach<T, E>(groups: seq<seq<Result<T, E>>>): (r: seq<Result<seq<T>, E>>)
    ensures |r| == |groups| && forall i :: 0 <= i < |groups| ==> r[i] == Collect(groups[i])
  {
    seq(|groups|, i requires 0 <= i < |groups| => Collect(groups[i]))
  }

  /**
   * Collecting each group and then the groups gives the same first error as
   * collecting all the results at once, and otherwise the same values.
   */
  lemma {:induction false} CollectGroups<T, E>(groups: seq<seq<Result<T, E>>>)
    ensures Collect(CollectEach(groups)).Ok? <==> Collect(Concat(groups)).Ok?
    ensures Collect(CollectEach(groups)).Err? ==> Collect(CollectEach(groups)).error == Collect(Concat(groups)).error
    ensures Collect(CollectEach(groups)).Ok? ==> Concat(Collect(CollectEach(groups)).value) == Collect(Concat(groups)).value
    decreases |groups|
  {
    if groups != [] {
      var n := |groups| - 1;
      var init := groups[..n];
      CollectGroups(init);
      assert CollectEach(groups) == CollectEach(init) + [Collect(groups[n])];
      CollectSnoc(CollectEach(init), Collect(groups[n]));
      assert Concat(groups) == Concat(init) + groups[n];
      CollectAppend(Concat(init), groups[n]);
      var outer := Collect(CollectEach(groups));
      var inner := Collect(CollectEach(init));
      if inner.Ok? && Collect(groups[n]).Ok? {
        assert outer.value == inner.value + [Collect(groups[n]).value];
        assert outer.value[..n] == inner.value;
      }
    }
  }

  predicate IsDigit(c: char) { '0' <= c <= '9' }

  /** The value of an ASCII decimal digit. */
  function DigitValue(c: char): (d: nat)
    requires IsDigit(c)
    ensures d < 10
    ensures d == 0 <==> c == '0'
  {
    c as int - '0' as int
  }

  /** `char::is_whitespace`, restricted to ASCII: space, tab, LF, VT, FF, CR. */
  predicate IsWhitespace(c: char) { c == ' ' || '\t' <= c <= '\r' }

  predicate AllDigits(s: string) { forall i :: 0 <= i < |s| ==> IsDigit(s[i]) }

  /** The number written by a string of decimal digits, most significant first. */
  function DecimalValue(s: string): (n: nat)
    requires AllDigits(s)
    decreases |s|
  {
    if s == [] then 0 else DecimalValue(s[..|s| - 1]) * 10 + DigitValue(s[|s| - 1])
  }

  /** Appending a digit multiplies by ten and adds the digit. */
  lemma {:induction false} DecimalValueSnoc(s: string, c: char)
    requires AllDigits(s) && IsDigit(c)
    ensures AllDigits(s + [c]) && DecimalValue(s + [c]) == 10 * DecimalValue(s) + DigitValue(c)
  {
    assert (s + [c])[..|s + [c]| - 1] == s;
  }

  /** `10^n`. */
  function Pow10(n: nat): (p: nat)
    ensures p >= 1
  {
    if n == 0 then 1 else 10 * Pow10(n - 1)
  }

  /** Writing the digits of `b` after those of `a` shifts `a` left by `|b|` places. */
  lemma {:induction false} DecimalValueAppend(a: string, b: string)
    requires AllDigits(a) && AllDigits(b)
    ensures AllDigits(a + b) && DecimalValue(a + b) == DecimalValue(a) * Pow10(|b|) + DecimalValue(b)
    decreases |b|
  {
    if b == [] {
      assert a + b == a;
    } else {
      var init, c := b[..|b| - 1], b[|b| - 1];
      assert b == init + [c];
      assert a + b == (a + init) + [c];
      DecimalValueAppend(a, init);
      DecimalValueSnoc(a + init, c);
      DecimalValueSnoc(init, c);
      assert Pow10(|b|) == 10 * Pow10(|init|);
      ShiftStep(DecimalValue(a), Pow10(|init|), DecimalValue(init), DigitValue(c));
    }
  }

  lemma ShiftStep(x: int, p: int, y: int, c: int)
    ensures 10 * (x * p + y) + c == x * (10 * p) + (10 * y + c)
  {
  }

  lemma OneDigitValue(a: char)
    requires IsDigit(a)
    ensures AllDigits([a]) && DecimalValue([a]) == DigitValue(a)
  {
    DecimalValueSnoc([], a);
    assert [] + [a] == [a];
  }

  lemma TwoDigitValue(a: char, b: char)
    requires IsDigit(a) && IsDigit(b)
    ensures AllDigits([a, b]) && DecimalValue([a, b]) == 10 * DigitValue(a) + DigitValue(b)
  {
    OneDigitValue(a);
    DecimalValueSnoc([a], b);
    assert [a] + [b] == [a, b];
  }

  lemma ThreeDigitValue(a: char, b: char, c: char)
    requires IsDigit(a) && IsDigit(b) && IsDigit(c)
    ensures AllDigits([a, b, c])
    ensures DecimalValue([a, b, c]) == 100 * DigitValue(a) + 10 * DigitValue(b) + DigitValue(c)
  {
    TwoDigitValue(a, b);
    DecimalValueSnoc([a, b], c);
    assert [a, b] + [c] == [a, b, c];
  }

  /** A two-digit number without a sign parses to its value. */
  lemma {:induction false} TwoDigits(a: char, b: char)
    requires IsDigit(a) && IsDigit(b)
    ensures ParseUnsigned([a, b]) == Some(10 * DigitValue(a) + DigitValue(b))
    ensures ParseSigned([a, b]) == Some(10 * DigitValue(a) + DigitValue(b))
  {
    assert [a, b][..1] == [a];
    assert [a][..0] == [];
    assert DecimalValue([a]) == DigitValue(a);
    assert DecimalValue([a, b]) == 10 * DigitValue(a) + DigitValue(b);
    assert ParseDigits([a, b]) == Some(10 * DigitValue(a) + DigitValue(b));
  }

  /** Parsing one or more decimal digits without a sign. */
  function ParseDigits(s: string): (r: Option<nat>)
    ensures r.Some? <==> s != [] && AllDigits(s)
  {
    if s != [] && AllDigits(s) then Some(DecimalValue(s)) else None
  }

  /** `str::parse` for an unsigned integer type: an optional `+`, then digits. */
  function ParseUnsigned(s: string): (r: Option<nat>)
    ensures AllDigits(s) && s != [] ==> r == Some(DecimalValue(s))
    ensures s == [] ==> r.None?
  {
    if |s| > 0 && s[0] == '+' then ParseDigits(s[1..]) else ParseDigits(s)
  }

  /** `str::parse` for a signed integer type: an optional `+` or `-`, then digits. */
  function ParseSigned(s: string): (r: Option<int>)
    ensures AllDigits(s) && s != [] ==> r == Some(DecimalValue(s))
    ensures s == [] ==> r.None?
  {
    if |s| > 0 && s[0] == '-' then
      match ParseDigits(s[1..])
      case Some(n) => Some(0 - n)
      case None => None
    else
      match ParseUnsigned(s)
      case Some(n) => Some(n)
      case None => None
  }

  /** `str::parse::<i32>`: a signed decimal that fits in 32 bits. */
  function ParseI32(s: string): (r: Option<int>)
    ensures r.Some? ==> -0x8000_0000 <= r.value < 0x8000_0000
    ensures s != [] && AllDigits(s) ==> r == if DecimalValue(s) < 0x8000_0000 then Some(DecimalValue(s)) else None
  {
    match ParseSigned(s)
    case Some(n) => if -0x8000_0000 <= n < 0x8000_0000 then Some(n) else None
    case None => None
  }

  /** `str::parse::<u64>`: an unsigned decimal that fits in 64 bits. */
  function ParseU64(s: string): (r: Option<nat>)
    ensures r.Some? ==> r.value < 0x1_0000_0000_0000_0000
    ensures s != [] && AllDigits(s) ==> r == if DecimalValue(s) < 0x1_0000_0000_0000_0000 then Some(DecimalValue(s)) else None
  {
    match ParseUnsigned(s)
    case Some(n) => if n < 0x1_0000_0000_0000_0000 then Some(n) else None
    case None => None
  }

  /** `str::parse::<i64>`: a signed decimal that fits in 64 bits. */
  function ParseI64(s: string): (r: Option<int>)
    ensures r.Some? ==> -0x8000_0000_0000_0000 <= r.value < 0x8000_0000_0000_0000
    ensures s != [] && AllDigits(s) ==> r == if DecimalValue(s) < 0x8000_0000_0000_0000 then Some(DecimalValue(s)) else None
  {
    match ParseSigned(s)
    case Some(n) => if -0x8000_0000_0000_0000 <= n < 0x8000_0000_0000_0000 then Some(n) else None
    case None => None
  }

  /** Number of leading characters of `s` that are not whitespace. */
  function TokenLength(s: string): (n: nat)
    ensures n <= |s|
    ensures forall i :: 0 <= i < n ==> !IsWhitespace(s[i])
    ensures n < |s| ==> IsWhitespace(s[n])
  {
    if s == [] || IsWhitespace(s[0]) then 0 else 1 + TokenLength(s[1..])
  }

  /** `str::split_whitespace`: the maximal runs of non-whitespace characters, in order. */
  function SplitWhitespace(s: string): (r: seq<string>)
    ensures forall k :: 0 <= k < |r| ==> r[k] != []
    ensures forall k, i :: 0 <= k < |r| && 0 <= i < |r[k]| ==> !IsWhitespace(r[k][i])
    decreases |s|
  {
    if s == [] then []
    else if IsWhitespace(s[0]) then SplitWhitespace(s[1..])
    else
      var n := TokenLength(s);
      [s[..n]] + SplitWhitespace(s[n..])
  }

  /** Index of the first occurrence of `c` in `s`, or `|s|` when there is none. */
  function IndexOf(s: string, c: char): (i: nat)
    ensures i <= |s|
    ensures i < |s| ==> s[i] == c
    ensures forall k :: 0 <= k < i ==> s[k] != c
  {
    if s == [] then 0 else if s[0] == c then 0 else 1 + IndexOf(s[1..], c)
  }

  /** `str::split(c)`: the pieces between occurrences of `c`; never empty. */
  function Split(s: string, c: char): (r: seq<string>)
    ensures |r| >= 1
    ensures forall k, i :: 0 <= k < |r| && 0 <= i < |r[k]| ==> r[k][i] != c
    decreases |s|
  {
    var i := IndexOf(s, c);
    if i == |s| then [s] else [s[..i]] + Split(s[i + 1..], c)
  }

  /** The pieces put back together with `c` between them: the inverse of `Split`. */
  function Join(pieces: seq<string>, c: char): string
    requires |pieces| >= 1
    decreases |pieces|
  {
    if |pieces| == 1 then pieces[0] else pieces[0] + [c] + Join(pieces[1..], c)
  }

  /** Splitting loses nothing: joining the pieces with the separator gives the input back. */
  lemma {:induction false} SplitJoin(s: string, c: char)
    ensures Join(Split(s, c), c) == s
    decreases |s|
  {
    var i := IndexOf(s, c);
    if i < |s| {
      var rest := Split(s[i + 1..], c);
      SplitJoin(s[i + 1..], c);
      var pieces := [s[..i]] + rest;
      assert pieces[1..] == rest;
      calc {
        Join(Split(s, c), c);
        Join(pieces, c);
        s[..i] + [c] + Join(rest, c);
        s[..i] + [c] + s[i + 1..];
      }
      assert s == s[..i] + [c] + s[i + 1..];
    }
  }

  /** The first piece of a split is everything before the first separator. */
  lemma SplitFirst(a: string, c: char, b: string)
    requires forall i :: 0 <= i < |a| ==> a[i] != c
    ensures Split(a + [c] + b, c) == [a] + Split(b, c)
  {
    var s := a + [c] + b;
    assert s[|a|] == c;
    assert IndexOf(s, c) == |a|;
    assert s[..|a|] == a && s[|a| + 1..] == b;
  }

  /** A split has at least two pieces exactly when the separator occurs. */
  lemma SplitPieces(s: string, c: char)
    ensures |Split(s, c)| >= 2 <==> c in s
    ensures Split(s, c)[0] == s[..IndexOf(s, c)]
    ensures c in s ==> Split(s, c)[1] == Split(s[IndexOf(s, c) + 1..], c)[0]
  {
    var i := IndexOf(s, c);
    if i == |s| {
      assert Split(s, c) == [s];
      assert s[..i] == s;
      assert c !in s by {
        forall k | 0 <= k < |s| ensures s[k] != c {}
      }
    } else {
      var rest := Split(s[i + 1..], c);
      assert Split(s, c) == [s[..i]] + rest;
      assert s[i] == c;
    }
  }

  /** A string with the separator exactly once splits into the parts before and after it. */
  lemma SplitTwo(a: string, c: char, b: string)
    requires c !in a && c !in b
    ensures Split(a + [c] + b, c) == [a, b]
  {
    SplitFirst(a, c, b);
    SplitNone(b, c);
  }

  /** A string without the separator splits into itself alone. */
  lemma SplitNone(b: string, c: char)
    requires forall i :: 0 <= i < |b| ==> b[i] != c
    ensures Split(b, c) == [b]
  {
  }

  /** `str::trim_start`: leading whitespace removed. */
  function TrimStart(s: string): string
    decreases |s|
  {
    if s != [] && IsWhitespace(s[0]) then TrimStart(s[1..]) else s
  }

  /** `str::trim_end`: trailing whitespace removed. */
  function TrimEnd(s: string): string
    decreases |s|
  {
    if s != [] && IsWhitespace(s[|s| - 1]) then TrimEnd(s[..|s| - 1]) else s
  }

  /** `str::trim`: whitespace removed at both ends. */
  function Trim(s: string): string
  {
    TrimEnd(TrimStart(s))
  }

  /** `str::trim_matches(c)`: every leading and trailing `c` removed. */
  function TrimMatches(s: string, c: char): string
    decreases |s|
  {
    if s != [] && s[0] == c then TrimMatches(s[1..], c)
    else if s != [] && s[|s| - 1] == c then TrimMatches(s[..|s| - 1], c)
    else s
  }

  /** No character of `s` is whitespace or one of the separators of a network line. */
  predicate Plain(s: string)
  {
    forall i :: 0 <= i < |s| ==> !IsWhitespace(s[i]) && s[i] !in {'=', ',', '(', ')'}
  }

  lemma TrimPlain(s: string)
    requires Plain(s)
    ensures Trim(s) == s
  {
    assert TrimStart(s) == s;
  }

  /** One leading space goes; a string that starts and ends with a non-space stays. */
  lemma TrimSpaceBefore(s: string)
    requires s != [] && !IsWhitespace(s[0]) && !IsWhitespace(s[|s| - 1])
    ensures Trim([' '] + s) == s
  {
    assert ([' '] + s)[1..] == s;
    assert TrimStart(s) == s;
  }

  /** One trailing space goes; a string that starts and ends with a non-space stays. */
  lemma TrimSpaceAfter(s: string)
    requires s != [] && !IsWhitespace(s[0]) && !IsWhitespace(s[|s| - 1])
    ensures Trim(s + [' ']) == s
  {
    var t := s + [' '];
    assert t[0] == s[0];
    assert TrimStart(t) == t;
    assert t[..|t| - 1] == s;
    assert TrimEnd(t) == TrimEnd(s);
    assert TrimEnd(s) == s;
  }

  /** Index of the first character of `s` in `cs`, or `|s|` when there is none. */
  function IndexOfAny(s: string, cs: set<char>): (i: nat)
    ensures i <= |s|
    ensures i < |s| ==> s[i] in cs
    ensures forall k :: 0 <= k < i ==> s[k] !in cs
  {
    if s == [] then 0 else if s[0] in cs then 0 else 1 + IndexOfAny(s[1..], cs)
  }

  /** `str::split` on a set of characters: the pieces between separators; never empty. */
  function SplitAny(s: string, cs: set<char>): (r: seq<string>)
    ensures |r| >= 1
    ensures forall k, i :: 0 <= k < |r| && 0 <= i < |r[k]| ==> r[k][i] !in cs
    decreases |s|
  {
    var i := IndexOfAny(s, cs);
    if i == |s| then [s] else [s[..i]] + SplitAny(s[i + 1..], cs)
  }

  /** Drops one trailing carriage return, as `str::lines` does. */
  function StripCr(line: string): string
  {
    if |line| > 0 && line[|line| - 1] == '\r' then line[..|line| - 1] else line
  }

  /** `str::lines`: split at line feeds, without a final empty line, each line without its '\r'. */
  function Lines(s: string): (r: seq<string>)
    ensures s == [] ==> r == []
  {
    if s == [] then []
    else
      var pieces := Split(s, '\n');
      var kept := if pieces[|pieces| - 1] == [] then pieces[..|pieces| - 1] else pieces;
      seq(|kept|, k requires 0 <= k < |kept| => StripCr(kept[k]))
  }

  /** `str::contains` for a string pattern. */
  predicate Contains(s: string, pattern: string)
    decreases |s|
  {
    |pattern| <= |s| && (s[..|pattern|] == pattern || (s != [] && Contains(s[1..], pattern)))
  }

  /** `str::contains` for a character pattern. */
  predicate ContainsChar(s: string, c: char)
  {
    exists i :: 0 <= i < |s| && s[i] == c
  }

  /** A non-empty set has an element. */
  lemma {:induction false} SetElement(s: set<int>)
    requires s != {}
    ensures exists x :: x in s
  {
    if !exists x :: x in s {
      assert false;
    }
  }

  /** A finite non-empty set of integers has a least element. */
  lemma {:induction false} MinExists(s: set<int>)
    requires s != {}
    ensures exists x :: x in s && forall y :: y in s ==> x <= y
    decreases |s|
  {
    SetElement(s);
    var x :| x in s;
    if s != {x} {
      MinExists(s - {x});
      var m :| m in s - {x} && forall y :: y in s - {x} ==> m <= y;
      var least := if x < m then x else m;
      forall y | y in s ensures least <= y {
        if y != x {
          assert y in s - {x};
        }
      }
    } else {
      assert forall y :: y in s ==> x <= y;
    }
  }

  /** `Iterator::min` over the values of a non-empty collection. */
  function MinOf(s: set<int>): (r: int)
    requires s != {}
    ensures r in s && forall y :: y in s ==> r <= y
  {
    MinExists(s);
    var x :| x in s && forall y :: y in s ==> x <= y;
    x
  }

  /** The characters of `s` that are ASCII digits, in order: `chars().filter(is_ascii_digit)`. */
  function FilterDigits(s: string): (r: string)
    ensures AllDigits(r) && |r| <= |s|
    decreases |s|
  {
    if s == [] then []
    else
      var rest := FilterDigits(s[..|s| - 1]);
      if IsDigit(s[|s| - 1]) then rest + [s[|s| - 1]] else rest
  }

  /** Nothing is kept exactly when no character is a digit. */
  lemma {:induction false} FilterDigitsEmpty(s: string)
    ensures FilterDigits(s) == [] <==> forall i :: 0 <= i < |s| ==> !IsDigit(s[i])
    decreases |s|
  {
    if s != [] {
      FilterDigitsEmpty(s[..|s| - 1]);
      assert forall i :: 0 <= i < |s| - 1 ==> s[..|s| - 1][i] == s[i];
    }
  }

  /** The first digit kept is the first digit of the line. */
  lemma {:induction false} FilterDigitsFirst(s: string, i: nat)
    requires i < |s| && IsDigit(s[i])
    requires forall j :: 0 <= j < i ==> !IsDigit(s[j])
    ensures FilterDigits(s) != [] && FilterDigits(s)[0] == s[i]
    decreases |s|
  {
    if i < |s| - 1 {
      FilterDigitsFirst(s[..|s| - 1], i);
    } else {
      FilterDigitsEmpty(s[..|s| - 1]);
    }
  }

  /** The last digit kept is the last digit of the line. */
  lemma {:induction false} FilterDigitsLast(s: string, i: nat)
    requires i < |s| && IsDigit(s[i])
    requires forall j :: i < j < |s| ==> !IsDigit(s[j])
    ensures FilterDigits(s) != [] && FilterDigits(s)[|FilterDigits(s)| - 1] == s[i]
    decreases |s|
  {
    if i < |s| - 1 {
      FilterDigitsLast(s[..|s| - 1], i);
    }
  }

  /** `pattern` occurs in `s` starting at index `k`. */
  predicate OccursAt(s: string, pattern: string, k: nat)
  {
    k + |pattern| <= |s| && s[k..k + |pattern|] == pattern
  }

  /** The first occurrence of `pattern` at or after `k`. */
  function FindFrom(s: string, pattern: string, k: nat): (r: Option<nat>)
    ensures r.Some? ==> k <= r.value && OccursAt(s, pattern, r.value)
    ensures r.Some? ==> forall j :: k <= j < r.value ==> !OccursAt(s, pattern, j)
    ensures r.None? ==> forall j :: k <= j ==> !OccursAt(s, pattern, j)
    decreases |s| - k
  {
    if k + |pattern| > |s| then None
    else if OccursAt(s, pattern, k) then Some(k)
    else FindFrom(s, pattern, k + 1)
  }

  /** `str::find`: the index of the first occurrence of `pattern`. */
  function Find(s: string, pattern: string): (r: Option<nat>)
    ensures r.Some? ==> OccursAt(s, pattern, r.value)
    ensures r.Some? ==> forall j :: 0 <= j < r.value ==> !OccursAt(s, pattern, j)
    ensures r.None? ==> forall j :: 0 <= j ==> !OccursAt(s, pattern, j)
  {
    FindFrom(s, pattern, 0)
  }

  /** The last occurrence of `pattern` at or before `k`. */
  function RFindFrom(s: string, pattern: string, k: nat): (r: Option<nat>)
    ensures r.Some? ==> r.value <= k && OccursAt(s, pattern, r.value)
    ensures r.Some? ==> forall j :: r.value < j <= k ==> !OccursAt(s, pattern, j)
    ensures r.None? ==> forall j :: 0 <= j <= k ==> !OccursAt(s, pattern, j)
  {
    if OccursAt(s, pattern, k) then Some(k)
    else if k == 0 then None
    else RFindFrom(s, pattern, k - 1)
  }

  /** `str::rfind`: the index of the last occurrence of `pattern`. */
  function RFind(s: string, pattern: string): (r: Option<nat>)
    ensures r.Some? ==> OccursAt(s, pattern, r.value)
    ensures r.Some? ==> forall j :: r.value < j ==> !OccursAt(s, pattern, j)
    ensures r.None? ==> forall j :: 0 <= j ==> !OccursAt(s, pattern, j)
  {
    if |pattern| > |s| then None else RFindFrom(s, pattern, |s| - |pattern|)
  }

  /** A pattern occurs somewhere exactly when both searches find it. */
  lemma FindRFindAgree(s: string, pattern: string)
    ensures Find(s, pattern).None? <==> RFind(s, pattern).None?
  {
    if Find(s, pattern).Some? {
      assert OccursAt(s, pattern, Find(s, pattern).value);
    }
    if RFind(s, pattern).Some? {
      assert OccursAt(s, pattern, RFind(s, pattern).value);
    }
  }

  /** `str::replace`: every occurrence of `from`, scanning left to right without overlap, becomes `to`. */
  function Replace(s: string, from: string, to: string): (r: string)
    requires from != []
    decreases |s|
  {
    if OccursAt(s, from, 0) then to + Replace(s[|from|..], from, to)
    else if s == [] then []
    else [s[0]] + Replace(s[1..], from, to)
  }

  /** A string without the pattern comes back unchanged. */
  lemma {:induction false} ReplaceAbsent(s: string, from: string, to: string)
    requires from != []
    requires forall j :: 0 <= j ==> !OccursAt(s, from, j)
    ensures Replace(s, from, to) == s
    decreases |s|
  {
    if s != [] {
      assert !OccursAt(s, from, 0);
      forall j | 0 <= j ensures !OccursAt(s[1..], from, j) {
        OccursShift(s, from, j);
      }
      ReplaceAbsent(s[1..], from, to);
      assert s == [s[0]] + s[1..];
    }
  }

  /** Everything before the first occurrence is kept, the occurrence itself becomes `to`. */
  lemma {:induction false} ReplaceFirstOccurrence(s: string, from: string, to: string, k: nat)
    requires from != []
    requires OccursAt(s, from, k) && forall j :: 0 <= j < k ==> !OccursAt(s, from, j)
    ensures Replace(s, from, to) == s[..k] + to + Replace(s[k + |from|..], from, to)
    decreases |s|
  {
    if k > 0 {
      var t := s[1..];
      forall j | 0 <= j < k - 1 ensures !OccursAt(t, from, j) {
        OccursShift(s, from, j);
      }
      OccursShift(s, from, k - 1);
      ReplaceFirstOccurrence(t, from, to, k - 1);
      assert t[k - 1 + |from|..] == s[k + |from|..];
      ReplaceSkip(s, from, to);
      ConsPrefix(s, k, to, Replace(s[k + |from|..], from, to), Replace(t, from, to));
    }
  }

  /** Before an occurrence, the scan keeps the first character and moves on. */
  lemma ReplaceSkip(s: string, from: string, to: string)
    requires from != [] && s != [] && !OccursAt(s, from, 0)
    ensures Replace(s, from, to) == [s[0]] + Replace(s[1..], from, to)
  {
  }

  lemma ConsPrefix(s: string, k: nat, to: string, rest: string, tail: string)
    requires 0 < k <= |s|
    requires tail == s[1..][..k - 1] + to + rest
    ensures [s[0]] + tail == s[..k] + to + rest
  {
    assert s[..k] == [s[0]] + s[1..][..k - 1];
  }

  /** Dropping the first character moves every occurrence one place to the left. */
  lemma OccursShift(s: string, pattern: string, j: nat)
    requires s != []
    ensures OccursAt(s[1..], pattern, j) <==> OccursAt(s, pattern, j + 1)
  {
    if j + 1 + |pattern| <= |s| {
      assert s[1..][j..j + |pattern|] == s[j + 1..j + 1 + |pattern|];
    }
  }
}

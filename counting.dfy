/**
 * Counting the occurrences of each element of a hand, the way the camel-card
 * solvers fill a `HashMap` with `entry(x).and_modify(+1).or_insert(1)`.  The
 * map is kept as a list of entries in order of first insertion; where a
 * solver's result could depend on the map's iteration order, the order is a
 * parameter of the model instead.
 */
module Counting {
  import Sorting

  datatype Entry<T> = Entry(key: T, count: nat)

  /** One occurrence of `x` recorded: its count goes up by one, or a new entry with count 1 is appended. */
  function Bump<T(==)>(entries: seq<Entry<T>>, x: T): seq<Entry<T>>
    decreases |entries|
  {
    if entries == [] then [Entry(x, 1)]
    else if entries[0].key == x then [Entry(x, entries[0].count + 1)] + entries[1..]
    else [entries[0]] + Bump(entries[1..], x)
  }

  /** The counts of the elements of `s`, one entry per distinct element, in order of first occurrence. */
  function Tally<T(==)>(s: seq<T>): seq<Entry<T>>
    decreases |s|
  {
    if s == [] then [] else Bump(Tally(s[..|s| - 1]), s[|s| - 1])
  }

  /** The count recorded for `x`, 0 when it has no entry. */
  function CountIn<T(==)>(entries: seq<Entry<T>>, x: T): nat
    decreases |entries|
  {
    if entries == [] then 0
    else if entries[0].key == x then entries[0].count
    else CountIn(entries[1..], x)
  }

  predicate DistinctKeys<T(==)>(entries: seq<Entry<T>>)
    decreases |entries|
  {
    entries == [] || (CountIn(entries[1..], entries[0].key) == 0 && DistinctKeys(entries[1..]))
  }

  predicate PositiveCounts<T>(entries: seq<Entry<T>>)
  {
    forall i :: 0 <= i < |entries| ==> entries[i].count >= 1
  }

  function SumCounts<T>(entries: seq<Entry<T>>): nat
    decreases |entries|
  {
    if entries == [] then 0 else entries[0].count + SumCounts(entries[1..])
  }

  lemma {:induction false} BumpFacts<T>(entries: seq<Entry<T>>, x: T)
    requires DistinctKeys(entries) && PositiveCounts(entries)
    ensures DistinctKeys(Bump(entries, x)) && PositiveCounts(Bump(entries, x))
    ensures CountIn(Bump(entries, x), x) == CountIn(entries, x) + 1
    ensures forall y :: y != x ==> CountIn(Bump(entries, x), y) == CountIn(entries, y)
    ensures SumCounts(Bump(entries, x)) == SumCounts(entries) + 1
    decreases |entries|
  {
    if entries != [] && entries[0].key != x {
      BumpFacts(entries[1..], x);
      var b := Bump(entries, x);
      assert b[1..] == Bump(entries[1..], x);
    } else if entries != [] {
      var b := Bump(entries, x);
      assert b[1..] == entries[1..];
    }
  }

  /**
   * The tally is a faithful count: distinct keys, positive counts, the
   * recorded count of every value is its number of occurrences, and the
   * counts add up to the length of the hand.
   */
  lemma {:induction false} TallyFacts<T>(s: seq<T>)
    ensures DistinctKeys(Tally(s)) && PositiveCounts(Tally(s))
    ensures forall x :: CountIn(Tally(s), x) == multiset(s)[x]
    ensures SumCounts(Tally(s)) == |s|
    decreases |s|
  {
    if s != [] {
      var init, last := s[..|s| - 1], s[|s| - 1];
      TallyFacts(init);
      BumpFacts(Tally(init), last);
      assert s == init + [last];
    }
  }

  /** The counts alone, in the entries' order (`map.values()`). */
  function Counts<T>(entries: seq<Entry<T>>): (v: seq<nat>)
    ensures |v| == |entries|
  {
    seq(|entries|, i requires 0 <= i < |entries| => entries[i].count)
  }

  function Sum(v: seq<nat>): nat
    decreases |v|
  {
    if v == [] then 0 else v[0] + Sum(v[1..])
  }

  lemma {:induction false} SumOfCounts<T>(entries: seq<Entry<T>>)
    ensures Sum(Counts(entries)) == SumCounts(entries)
    decreases |entries|
  {
    if entries != [] {
      SumOfCounts(entries[1..]);
      assert Counts(entries)[1..] == Counts(entries[1..]);
    }
  }

  /** The sort key of a count: compared as a number. */
  function Single(x: nat): seq<int> { [x] }

  predicate Ascending(v: seq<nat>) { forall i, j :: 0 <= i < j < |v| ==> v[i] <= v[j] }

  predicate AllPositive(v: seq<nat>) { forall i :: 0 <= i < |v| ==> v[i] >= 1 }

  lemma {:induction false} SumInsert(x: nat, s: seq<nat>)
    requires Sorting.SortedBy(s, Single, false)
    ensures Sum(Sorting.Insert(x, s, Single, false)) == x + Sum(s)
    decreases |s|
  {
    if s != [] && !Sorting.Before(Single, false, x, s[0]) {
      SumInsert(x, s[1..]);
      var r := Sorting.Insert(x, s, Single, false);
      assert r[1..] == Sorting.Insert(x, s[1..], Single, false);
    } else {
      var r := Sorting.Insert(x, s, Single, false);
      assert r[1..] == s;
    }
  }

  lemma {:induction false} SumSorted(v: seq<nat>)
    ensures Sum(Sorting.SortBy(v, Single, false)) == Sum(v)
    decreases |v|
  {
    if v != [] {
      SumSorted(v[1..]);
      SumInsert(v[0], Sorting.SortBy(v[1..], Single, false));
    }
  }

  /**
   * The hand's shape: its counts sorted ascending, as `values.sort()` leaves
   * them.  A sorted vector is determined by its multiset of counts, so the
   * map's iteration order does not matter here.
   */
  function Shape<T(==)>(s: seq<T>): seq<nat>
  {
    Sorting.SortBy(Counts(Tally(s)), Single, false)
  }

  /** Sorting positive counts gives an ascending vector of positive counts with the same total. */
  lemma {:induction false} SortedCountsFacts<T>(entries: seq<Entry<T>>)
    requires PositiveCounts(entries)
    ensures Ascending(Sorting.SortBy(Counts(entries), Single, false))
    ensures AllPositive(Sorting.SortBy(Counts(entries), Single, false))
    ensures Sum(Sorting.SortBy(Counts(entries), Single, false)) == SumCounts(entries)
  {
    var v := Counts(entries);
    var r := Sorting.SortBy(v, Single, false);
    SumOfCounts(entries);
    SumSorted(v);
    forall i | 0 <= i < |r| ensures r[i] >= 1 {
      assert r[i] in multiset(v);
      var j :| 0 <= j < |v| && v[j] == r[i];
    }
    forall i, j | 0 <= i < j < |r| ensures r[i] <= r[j] {
      assert Sorting.Before(Single, false, r[i], r[j]);
    }
  }

  lemma {:induction false} ShapeFacts<T>(s: seq<T>)
    ensures Ascending(Shape(s)) && AllPositive(Shape(s))
    ensures Sum(Shape(s)) == |s| && |Shape(s)| == |Tally(s)|
    ensures multiset(Shape(s)) == multiset(Counts(Tally(s)))
  {
    TallyFacts(s);
    SortedCountsFacts(Tally(s));
  }

  lemma {:induction false} SumAtLeastLength(v: seq<nat>)
    requires AllPositive(v)
    ensures Sum(v) >= |v|
    decreases |v|
  {
    if v != [] {
      SumAtLeastLength(v[1..]);
    }
  }

  lemma {:induction false} SumSuffix(v: seq<nat>, i: nat)
    requires i < |v|
    ensures Sum(v[i..]) == v[i] + Sum(v[i + 1..])
  {
    assert v[i..][1..] == v[i + 1..];
  }

  /** A vector of one count, spelled out. */
  lemma {:induction false} Spell1(v: seq<nat>)
    requires |v| == 1
    ensures v == [v[0]] && Sum(v) == v[0]
  {
    SumSuffix(v, 0);
  }

  lemma {:induction false} Spell2(v: seq<nat>)
    requires |v| == 2
    ensures v == [v[0], v[1]] && Sum(v) == v[0] + v[1]
  {
    SumSuffix(v, 1);
    SumSuffix(v, 0);
    assert v[0..] == v;
  }

  lemma {:induction false} Spell3(v: seq<nat>)
    requires |v| == 3
    ensures v == [v[0], v[1], v[2]] && Sum(v) == v[0] + v[1] + v[2]
  {
    SumSuffix(v, 2);
    SumSuffix(v, 1);
    SumSuffix(v, 0);
    assert v[0..] == v;
  }

  lemma {:induction false} Spell4(v: seq<nat>)
    requires |v| == 4
    ensures v == [v[0], v[1], v[2], v[3]] && Sum(v) == v[0] + v[1] + v[2] + v[3]
  {
    SumSuffix(v, 3);
    SumSuffix(v, 2);
    SumSuffix(v, 1);
    SumSuffix(v, 0);
    assert v[0..] == v;
  }

  lemma {:induction false} Spell5(v: seq<nat>)
    requires |v| == 5
    ensures v == [v[0], v[1], v[2], v[3], v[4]] && Sum(v) == v[0] + v[1] + v[2] + v[3] + v[4]
  {
    SumSuffix(v, 4);
    SumSuffix(v, 3);
    SumSuffix(v, 2);
    SumSuffix(v, 1);
    SumSuffix(v, 0);
    assert v[0..] == v;
  }
}

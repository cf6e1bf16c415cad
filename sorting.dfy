/**
 * The library sorts the solvers call (`sort`, `sort_by_key`, `sort_by` on
 * tuples and vectors), as their mathematical specification: a permutation of
 * the input, ordered by a key compared lexicographically the way Rust orders
 * tuples and vectors.
 */
module Sorting {

  /** Lexicographic order on integer sequences; a proper prefix comes first. */
  predicate LexLe(a: seq<int>, b: seq<int>)
    decreases |a|
  {
    a == [] || (b != [] && (a[0] < b[0] || (a[0] == b[0] && LexLe(a[1..], b[1..]))))
  }

  lemma {:induction false} LexTotal(a: seq<int>, b: seq<int>)
    ensures LexLe(a, b) || LexLe(b, a)
    decreases |a|
  {
    if a != [] && b != [] && a[0] == b[0] {
      LexTotal(a[1..], b[1..]);
    }
  }

  lemma {:induction false} LexTransitive(a: seq<int>, b: seq<int>, c: seq<int>)
    requires LexLe(a, b) && LexLe(b, c)
    ensures LexLe(a, c)
    decreases |a|
  {
    if a != [] && a[0] == b[0] && b[0] == c[0] {
      LexTransitive(a[1..], b[1..], c[1..]);
    }
  }

  lemma {:induction false} LexAntisymmetric(a: seq<int>, b: seq<int>)
    requires LexLe(a, b) && LexLe(b, a)
    ensures a == b
    decreases |a|
  {
    if a != [] {
      LexAntisymmetric(a[1..], b[1..]);
      assert a == [a[0]] + a[1..] && b == [b[0]] + b[1..];
    }
  }

  /** Whether `x` may precede `y`: keys ascending, or descending when asked. */
  predicate Before<T>(key: T -> seq<int>, descending: bool, x: T, y: T)
  {
    if descending then LexLe(key(y), key(x)) else LexLe(key(x), key(y))
  }

  lemma {:induction false} BeforeTotal<T>(key: T -> seq<int>, descending: bool, x: T, y: T)
    ensures Before(key, descending, x, y) || Before(key, descending, y, x)
  {
    LexTotal(key(x), key(y));
  }

  lemma {:induction false} BeforeTransitive<T>(key: T -> seq<int>, descending: bool, x: T, y: T, z: T)
    requires Before(key, descending, x, y) && Before(key, descending, y, z)
    ensures Before(key, descending, x, z)
  {
    if descending {
      LexTransitive(key(z), key(y), key(x));
    } else {
      LexTransitive(key(x), key(y), key(z));
    }
  }

  predicate SortedBy<T>(s: seq<T>, key: T -> seq<int>, descending: bool)
  {
    forall i, j :: 0 <= i < j < |s| ==> Before(key, descending, s[i], s[j])
  }

  /** `x` placed in front of the first element it may precede. */
  function Insert<T>(x: T, s: seq<T>, key: T -> seq<int>, descending: bool): (r: seq<T>)
    requires SortedBy(s, key, descending)
    ensures SortedBy(r, key, descending)
    ensures multiset(r) == multiset(s) + multiset{x}
    decreases |s|
  {
    if s == [] then [x]
    else if Before(key, descending, x, s[0]) then
      forall j | 0 <= j < |s| ensures Before(key, descending, x, s[j]) {
        if j > 0 { BeforeTransitive(key, descending, x, s[0], s[j]); }
      }
      PrependSorted(x, s, key, descending);
      assert s == [s[0]] + s[1..];
      [x] + s
    else
      var rest := Insert(x, s[1..], key, descending);
      InsertedAfterHead(x, s, rest, key, descending);
      [s[0]] + rest
  }

  /** An element that may precede every element of a sorted sequence may be put in front of it. */
  lemma {:induction false} PrependSorted<T>(x: T, s: seq<T>, key: T -> seq<int>, descending: bool)
    requires SortedBy(s, key, descending)
    requires forall j :: 0 <= j < |s| ==> Before(key, descending, x, s[j])
    ensures SortedBy([x] + s, key, descending)
  {
    var r := [x] + s;
    forall i, j | 0 <= i < j < |r| ensures Before(key, descending, r[i], r[j]) {
      assert r[j] == s[j - 1];
      if i > 0 { assert r[i] == s[i - 1]; }
    }
  }

  /** The head of `s` stays in front when `x` is inserted after it. */
  lemma {:induction false} InsertedAfterHead<T>(x: T, s: seq<T>, rest: seq<T>, key: T -> seq<int>, descending: bool)
    requires SortedBy(s, key, descending) && s != [] && !Before(key, descending, x, s[0])
    requires SortedBy(rest, key, descending) && multiset(rest) == multiset(s[1..]) + multiset{x}
    ensures SortedBy([s[0]] + rest, key, descending)
    ensures multiset([s[0]] + rest) == multiset(s) + multiset{x}
  {
    assert s == [s[0]] + s[1..];
    BeforeTotal(key, descending, x, s[0]);
    forall j | 0 <= j < |rest| ensures Before(key, descending, s[0], rest[j]) {
      assert rest[j] in multiset(rest);
      if rest[j] != x {
        assert rest[j] in multiset(s[1..]);
        var k :| 0 <= k < |s[1..]| && s[1..][k] == rest[j];
        assert s[k + 1] == rest[j];
      }
    }
    PrependSorted(s[0], rest, key, descending);
  }

  /** The input, reordered so that each element may precede every later one. */
  function SortBy<T>(s: seq<T>, key: T -> seq<int>, descending: bool): (r: seq<T>)
    ensures SortedBy(r, key, descending)
    ensures multiset(r) == multiset(s) && |r| == |s|
    decreases |s|
  {
    if s == [] then []
    else
      assert s == [s[0]] + s[1..];
      Insert(s[0], SortBy(s[1..], key, descending), key, descending)
  }

  /** No two different elements of `s` share a key. */
  predicate KeysDistinct<T(!new)>(s: multiset<T>, key: T -> seq<int>)
  {
    forall x, y :: x in s && y in s && key(x) == key(y) ==> x == y
  }

  /** Two sorted arrangements of the same elements with distinct keys start with the same element. */
  lemma {:induction false} SameHead<T(!new)>(r1: seq<T>, r2: seq<T>, key: T -> seq<int>, descending: bool)
    requires SortedBy(r1, key, descending) && SortedBy(r2, key, descending)
    requires multiset(r1) == multiset(r2) && KeysDistinct(multiset(r1), key)
    requires r1 != [] && r2 != []
    ensures r1[0] == r2[0]
  {
    assert r1[0] in multiset(r2);
    var j :| 0 <= j < |r2| && r2[j] == r1[0];
    assert r2[0] in multiset(r1);
    var k :| 0 <= k < |r1| && r1[k] == r2[0];
    if j > 0 && k > 0 {
      assert Before(key, descending, r2[0], r1[0]) && Before(key, descending, r1[0], r2[0]);
      if descending {
        LexAntisymmetric(key(r2[0]), key(r1[0]));
      } else {
        LexAntisymmetric(key(r1[0]), key(r2[0]));
      }
    }
  }

  /**
   * Sorting is deterministic when keys are distinct: two sorted arrangements
   * of the same elements, no two of which share a key, are the same sequence.
   */
  lemma {:induction false} SortedUnique<T(!new)>(r1: seq<T>, r2: seq<T>, key: T -> seq<int>, descending: bool)
    requires SortedBy(r1, key, descending) && SortedBy(r2, key, descending)
    requires multiset(r1) == multiset(r2) && KeysDistinct(multiset(r1), key)
    ensures r1 == r2
    decreases |r1|
  {
    assert |r1| == |multiset(r1)| == |multiset(r2)| == |r2|;
    if r1 != [] {
      SameHead(r1, r2, key, descending);
      var t1, t2 := r1[1..], r2[1..];
      assert r1 == [r1[0]] + t1 && r2 == [r2[0]] + t2;
      assert multiset(t1) <= multiset(r1);
      SortedUnique(t1, t2, key, descending);
    }
  }
}

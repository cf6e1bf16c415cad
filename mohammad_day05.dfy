/**
 * The interval-rewriting engine of mohammad/day05: one almanac stage is an
 * ordered map from inclusive source intervals to inclusive destination
 * intervals; an inclusive interval of numbers is pushed through the stage
 * with a worklist of pending pieces instead of value by value.
 *
 * The stage is the source's `BTreeMap<(u64, u64), (u64, u64)>`, given as the
 * sequence of its entries in iteration (key) order.  Numbers are unbounded.
 */
module MohammadDay05 {

  /** An inclusive interval `(start, end)`, the source's `(u64, u64)` tuple. */
  datatype Interval = Interval(lo: nat, hi: nat)

  /** One map entry: the key is the source interval, the value the destination interval. */
  datatype Rule = Rule(src: Interval, dst: Interval)

  /** What processing one popped interval against one rule produces. */
  datatype Split = Split(emitted: seq<Interval>, pushed: seq<Interval>)

  /** The source's `in_range` closure: inclusive on both ends. */
  predicate InRange(v: int, r: Interval) { r.lo <= v <= r.hi }

  predicate Overlaps(a: Interval, b: Interval) { a.lo <= b.hi && b.lo <= a.hi }

  function Len(a: Interval): nat { if a.lo <= a.hi then a.hi - a.lo + 1 else 0 }

  predicate NonEmpty(a: Interval) { a.lo <= a.hi }

  predicate AllNonEmpty(s: seq<Interval>) { forall k :: 0 <= k < |s| ==> NonEmpty(s[k]) }

  /**
   * A rule as the source's parser builds it from a line "d s n" with n >= 1:
   * key (s, s+n-1), value (d, d+n-1), so both sides are non-empty and equally long.
   */
  predicate WellFormed(r: Rule)
  {
    r.src.lo <= r.src.hi && r.dst.hi - r.dst.lo == r.src.hi - r.src.lo
  }

  /** The map entry the parser inserts for a line "d s n": key (s, s+n-1), value (d, d+n-1). */
  function RuleOfLine(d: nat, s: nat, n: nat): (r: Rule)
    requires n >= 1
    ensures WellFormed(r) && Len(r.src) == n && Len(r.dst) == n
    ensures InRange(s, r.src) && !InRange(s + n, r.src) && Shift(r, s) == d
  {
    Rule(Interval(s, s + n - 1), Interval(d, d + n - 1))
  }

  predicate AllWellFormed(rules: seq<Rule>) { forall i :: 0 <= i < |rules| ==> WellFormed(rules[i]) }

  /** No two rules of the stage share a source number. */
  predicate Disjoint(rules: seq<Rule>)
  {
    forall i, j :: 0 <= i < j < |rules| ==> !Overlaps(rules[i].src, rules[j].src)
  }

  /** Whether some interval of `s` contains `w`. */
  predicate Covers(s: seq<Interval>, w: int)
  {
    exists k :: 0 <= k < |s| && InRange(w, s[k])
  }

  /** The image of a covered number under one rule. */
  function Shift(r: Rule, v: nat): nat
    requires r.src.lo <= v
  {
    r.dst.lo + (v - r.src.lo)
  }

  /**
   * `get_from_map`: the first rule, in key order, whose source interval
   * contains `v` maps it by its offset; a number no rule contains is returned
   * unchanged.
   */
  function GetFromMap(rules: seq<Rule>, v: nat): (r: nat)
    ensures r == v || exists i :: 0 <= i < |rules| && InRange(v, rules[i].src) && r == Shift(rules[i], v)
    decreases |rules|
  {
    if rules == [] then v
    else if InRange(v, rules[0].src) then Shift(rules[0], v)
    else GetFromMap(rules[1..], v)
  }

  /** `v` is mapped by the first rule whose source holds it, and unchanged when none does. */
  lemma {:induction false} GetFromMapFirst(rules: seq<Rule>, v: nat)
    ensures (forall i :: 0 <= i < |rules| ==> !InRange(v, rules[i].src)) ==> GetFromMap(rules, v) == v
    ensures forall i :: (0 <= i < |rules| && InRange(v, rules[i].src) &&
                         (forall k :: 0 <= k < i ==> !InRange(v, rules[k].src))) ==> GetFromMap(rules, v) == Shift(rules[i], v)
    decreases |rules|
  {
    if rules != [] && !InRange(v, rules[0].src) {
      var tail := rules[1..];
      GetFromMapFirst(tail, v);
      forall i | 1 <= i < |rules| && InRange(v, rules[i].src) && (forall k :: 0 <= k < i ==> !InRange(v, rules[k].src))
        ensures GetFromMap(rules, v) == Shift(rules[i], v)
      {
        forall k | 0 <= k < i - 1 ensures !InRange(v, tail[k].src) {
          assert tail[k] == rules[k + 1];
        }
        assert tail[i - 1] == rules[i];
      }
      if forall i :: 0 <= i < |rules| ==> !InRange(v, rules[i].src) {
        forall k | 0 <= k < |tail| ensures !InRange(v, tail[k].src) {
          assert tail[k] == rules[k + 1];
        }
      }
    }
  }

  /** With disjoint rules, the rule containing `v` is the one that maps it. */
  lemma {:induction false} GetFromMapDisjoint(rules: seq<Rule>, i: nat, v: nat)
    requires Disjoint(rules) && i < |rules| && InRange(v, rules[i].src)
    ensures GetFromMap(rules, v) == Shift(rules[i], v)
  {
    forall k | 0 <= k < i ensures !InRange(v, rules[k].src) {
      if InRange(v, rules[k].src) {
        assert Overlaps(rules[k].src, rules[i].src);
      }
    }
    GetFromMapFirst(rules, v);
  }

  /**
   * One pass of the rule loop body for the popped interval `j` and one rule:
   * the four overlap cases of the source, in the source's order.
   */
  function RuleStep(r: Rule, j: Interval): (s: Split)
    requires WellFormed(r) && NonEmpty(j)
  {
    var x, y := j.lo, j.hi;
    var k0, k1 := r.src.lo, r.src.hi;
    var d0, d1 := r.dst.lo, r.dst.hi;
    if InRange(x, r.src) && InRange(y, r.src) then
      Split([Interval(d0 + (x - k0), d0 + (y - k0))], [])
    else if InRange(x, r.src) && !InRange(y, r.src) then
      Split([Interval(d0 + (x - k0), d1)], [Interval(k1 + 1, y)])
    else if !InRange(x, r.src) && InRange(y, r.src) then
      Split([Interval(d0, d0 + y - k0)], [Interval(x, k0 - 1)])
    else if x <= k0 && y >= k1 then
      Split([Interval(d0, d1)], [Interval(x, k0 - 1), Interval(k1 + 1, y)])
    else
      Split([], [])
  }

  /** `RuleStep` case by case, as the rule loop body computes it. */
  lemma {:induction false} RuleStepCases(r: Rule, j: Interval)
    requires WellFormed(r) && NonEmpty(j)
    ensures var x, y, k, d := j.lo, j.hi, r.src, r.dst;
      var s := RuleStep(r, j);
      (InRange(x, k) && InRange(y, k) ==>
         s == Split([Interval(d.lo + (x - k.lo), d.lo + (y - k.lo))], [])) &&
      (InRange(x, k) && !InRange(y, k) ==>
         s == Split([Interval(d.lo + (x - k.lo), d.hi)], [Interval(k.hi + 1, y)])) &&
      (!InRange(x, k) && InRange(y, k) ==>
         k.lo >= 1 && s == Split([Interval(d.lo, d.lo + y - k.lo)], [Interval(x, k.lo - 1)])) &&
      (!InRange(x, k) && !InRange(y, k) && x <= k.lo && y >= k.hi ==>
         k.lo >= 1 && s == Split([Interval(d.lo, d.hi)], [Interval(x, k.lo - 1), Interval(k.hi + 1, y)])) &&
      (!(!InRange(x, k) && !InRange(y, k) && x <= k.lo && y >= k.hi) && !InRange(x, k) && !InRange(y, k) ==>
         s == Split([], []))
  {
  }

  /** The rule loop run over the first `n` rules, with no `break`: every overlapping rule acts. */
  function RulesStep(rules: seq<Rule>, j: Interval, n: nat): (s: Split)
    requires AllWellFormed(rules) && NonEmpty(j) && n <= |rules|
  {
    if n == 0 then Split([], [])
    else
      var s := RulesStep(rules, j, n - 1);
      var t := RuleStep(rules[n - 1], j);
      Split(s.emitted + t.emitted, s.pushed + t.pushed)
  }

  /** The `found` flag after the first `n` rules. */
  predicate AnyOverlap(rules: seq<Rule>, j: Interval, n: nat)
    requires n <= |rules|
  {
    exists i :: 0 <= i < n && Overlaps(j, rules[i].src)
  }

  /** The `found` flag after one more rule: already set, or that rule overlaps the interval. */
  lemma {:induction false} AnyOverlapNext(rules: seq<Rule>, j: Interval, n: nat)
    requires n < |rules|
    ensures AnyOverlap(rules, j, n + 1) <==> AnyOverlap(rules, j, n) || Overlaps(j, rules[n].src)
  {
    if AnyOverlap(rules, j, n + 1) && !AnyOverlap(rules, j, n) {
      var i :| 0 <= i < n + 1 && Overlaps(j, rules[i].src);
      assert i == n;
    }
    if AnyOverlap(rules, j, n) {
      var i :| 0 <= i < n && Overlaps(j, rules[i].src);
      assert 0 <= i < n + 1;
    }
    if Overlaps(j, rules[n].src) {
      assert 0 <= n < n + 1 && Overlaps(j, rules[n].src);
    }
  }

  /** Everything one popped interval adds to `result`. */
  function Emitted(rules: seq<Rule>, j: Interval): seq<Interval>
    requires AllWellFormed(rules) && NonEmpty(j)
  {
    RulesStep(rules, j, |rules|).emitted + (if AnyOverlap(rules, j, |rules|) then [] else [j])
  }

  /** Everything one popped interval pushes back onto `remaining`. */
  function Pushed(rules: seq<Rule>, j: Interval): seq<Interval>
    requires AllWellFormed(rules) && NonEmpty(j)
  {
    RulesStep(rules, j, |rules|).pushed
  }

  // ---------------------------------------------------------------------
  // Termination: each pushed remainder is a strictly shorter piece of the
  // popped interval, and at most two are pushed per rule.  The weight of a
  // worklist is the sum of B^length with B = 2 * |rules| + 1.
  // ---------------------------------------------------------------------

  function Pow(b: nat, e: nat): (p: nat)
    ensures b >= 1 ==> p >= 1
  {
    if e == 0 then 1 else b * Pow(b, e - 1)
  }

  lemma {:induction false} PowMonotone(b: nat, e1: nat, e2: nat)
    requires b >= 1 && e1 <= e2
    ensures Pow(b, e1) <= Pow(b, e2)
    decreases e2
  {
    if e1 < e2 {
      PowMonotone(b, e1, e2 - 1);
      MulGrows(b, Pow(b, e2 - 1));
    }
  }

  lemma {:induction false} MulGrows(b: nat, p: nat)
    requires b >= 1
    ensures p <= b * p
  {
    assert b * p == (b - 1) * p + p;
  }

  function Base(rules: seq<Rule>): nat { 2 * |rules| + 1 }

  function Weight(b: nat, s: seq<Interval>): nat
  {
    if s == [] then 0 else Weight(b, s[..|s| - 1]) + Pow(b, Len(s[|s| - 1]))
  }

  lemma {:induction false} WeightAppend(b: nat, s: seq<Interval>, t: seq<Interval>)
    ensures Weight(b, s + t) == Weight(b, s) + Weight(b, t)
    decreases |t|
  {
    if t == [] {
      assert s + t == s;
    } else {
      var u := s + t;
      assert u[..|u| - 1] == s + t[..|t| - 1];
      assert u[|u| - 1] == t[|t| - 1];
      WeightAppend(b, s, t[..|t| - 1]);
      calc {
        Weight(b, u);
        Weight(b, u[..|u| - 1]) + Pow(b, Len(u[|u| - 1]));
        Weight(b, s) + Weight(b, t[..|t| - 1]) + Pow(b, Len(t[|t| - 1]));
        Weight(b, s) + Weight(b, t);
      }
    }
  }

  lemma {:induction false} WeightBound(b: nat, s: seq<Interval>, m: nat)
    requires b >= 1
    requires forall k :: 0 <= k < |s| ==> Len(s[k]) <= m
    ensures Weight(b, s) <= |s| * Pow(b, m)
    decreases |s|
  {
    if s != [] {
      var p := Pow(b, m);
      WeightBound(b, s[..|s| - 1], m);
      PowMonotone(b, Len(s[|s| - 1]), m);
      assert Weight(b, s) <= (|s| - 1) * p + p;
      assert (|s| - 1) * p + p == |s| * p;
    }
  }

  /** A remainder is a non-empty piece of `j`, strictly shorter, outside the rule's source. */
  predicate Remainder(p: Interval, j: Interval, r: Rule)
  {
    NonEmpty(p) && j.lo <= p.lo && p.hi <= j.hi && Len(p) < Len(j) && !Overlaps(p, r.src)
  }

  /** Facts about one rule step: what it emits and pushes, case by case. */
  lemma {:induction false} RuleStepFacts(r: Rule, j: Interval)
    requires WellFormed(r) && NonEmpty(j)
    ensures var s := RuleStep(r, j);
      |s.pushed| <= 2 &&
      (forall k :: 0 <= k < |s.pushed| ==> Remainder(s.pushed[k], j, r)) &&
      AllNonEmpty(s.emitted) &&
      (Overlaps(j, r.src) <==> |s.emitted| == 1) &&
      (!Overlaps(j, r.src) ==> s == Split([], [])) &&
      |s.emitted| <= 1
  {
  }

  /** Every number of an emitted piece is the image of a number of `j` inside the rule. */
  lemma {:induction false} RuleStepSound(r: Rule, j: Interval, w: int)
    requires WellFormed(r) && NonEmpty(j)
    requires Covers(RuleStep(r, j).emitted, w)
    ensures exists u: nat :: InRange(u, j) && InRange(u, r.src) && Shift(r, u) == w
  {
    var e := RuleStep(r, j).emitted;
    var k :| 0 <= k < |e| && InRange(w, e[k]);
    var u: nat := w - r.dst.lo + r.src.lo;
    assert InRange(u, j) && InRange(u, r.src) && Shift(r, u) == w;
  }

  /** Every number of `j` inside the rule has its image emitted. */
  lemma {:induction false} RuleStepComplete(r: Rule, j: Interval, u: nat)
    requires WellFormed(r) && NonEmpty(j) && InRange(u, j) && InRange(u, r.src)
    ensures Covers(RuleStep(r, j).emitted, Shift(r, u))
  {
    assert InRange(Shift(r, u), RuleStep(r, j).emitted[0]);
  }

  /** Every number of `j` outside an overlapping rule lies in one of its pushed remainders. */
  lemma {:induction false} RuleStepRemainder(r: Rule, j: Interval, u: nat)
    requires WellFormed(r) && NonEmpty(j) && InRange(u, j) && !InRange(u, r.src) && Overlaps(j, r.src)
    ensures Covers(RuleStep(r, j).pushed, u)
  {
    var p := RuleStep(r, j).pushed;
    if u < r.src.lo {
      assert InRange(u, p[0]);
    } else {
      assert InRange(u, p[|p| - 1]);
    }
  }

  lemma {:induction false} CoversAppend(s: seq<Interval>, t: seq<Interval>, w: int)
    ensures Covers(s + t, w) <==> Covers(s, w) || Covers(t, w)
  {
    if Covers(s + t, w) {
      var k :| 0 <= k < |s + t| && InRange(w, (s + t)[k]);
      if k >= |s| { assert InRange(w, t[k - |s|]); }
    }
    if Covers(t, w) {
      var k :| 0 <= k < |t| && InRange(w, t[k]);
      assert InRange(w, (s + t)[|s| + k]);
    }
    if Covers(s, w) {
      var k :| 0 <= k < |s| && InRange(w, s[k]);
      assert InRange(w, (s + t)[k]);
    }
  }

  /** The rule loop's pushes: at most two per rule, each a remainder for some rule. */
  lemma {:induction false} RulesStepPushed(rules: seq<Rule>, j: Interval, n: nat)
    requires AllWellFormed(rules) && NonEmpty(j) && n <= |rules|
    ensures var p := RulesStep(rules, j, n).pushed;
      |p| <= 2 * n &&
      forall k :: 0 <= k < |p| ==> NonEmpty(p[k]) && j.lo <= p[k].lo && p[k].hi <= j.hi && Len(p[k]) < Len(j)
    decreases n
  {
    if n > 0 {
      RulesStepPushed(rules, j, n - 1);
      RuleStepFacts(rules[n - 1], j);
    }
  }

  lemma {:induction false} BoundArith(n: nat, m: nat, q: nat)
    requires n <= 2 * m && q >= 1
    ensures n * q < (2 * m + 1) * q
  {
    assert n * q <= 2 * m * q;
    assert (2 * m + 1) * q == 2 * m * q + q;
  }

  /** The pushed pieces weigh strictly less than the popped interval. */
  lemma {:induction false} PushedLighter(rules: seq<Rule>, j: Interval)
    requires AllWellFormed(rules) && NonEmpty(j)
    ensures AllNonEmpty(Pushed(rules, j))
    ensures Weight(Base(rules), Pushed(rules, j)) < Pow(Base(rules), Len(j))
  {
    RulesStepPushed(rules, j, |rules|);
    ShorterLighter(|rules|, Pushed(rules, j), Len(j));
  }

  /** At most `2 * m` pieces, each shorter than `e`, weigh less than one piece of length `e`. */
  lemma {:induction false} ShorterLighter(m: nat, p: seq<Interval>, e: nat)
    requires |p| <= 2 * m && e >= 1
    requires forall k :: 0 <= k < |p| ==> Len(p[k]) < e
    ensures Weight(2 * m + 1, p) < Pow(2 * m + 1, e)
  {
    var b := 2 * m + 1;
    WeightBound(b, p, e - 1);
    var q := Pow(b, e - 1);
    assert Pow(b, e) == b * q;
    BoundArith(|p|, m, q);
  }

  /**
   * The worklist loop of `get_range_from_map` as a function: pop the last
   * pending interval, emit what the rule loop emits for it, push its
   * remainders, continue until nothing is pending.
   */
  function Resolve(rules: seq<Rule>, stack: seq<Interval>): seq<Interval>
    requires AllWellFormed(rules) && AllNonEmpty(stack)
    decreases Weight(Base(rules), stack)
  {
    if stack == [] then []
    else
      var j := stack[|stack| - 1];
      var rest := stack[..|stack| - 1];
      PushedLighter(rules, j);
      WeightAppend(Base(rules), rest, Pushed(rules, j));
      Emitted(rules, j) + Resolve(rules, rest + Pushed(rules, j))
  }

  // ---------------------------------------------------------------------
  // The set of numbers the output covers, for disjoint rules.
  // ---------------------------------------------------------------------

  lemma {:induction false} RulesStepEmittedFrom(rules: seq<Rule>, j: Interval, n: nat, w: int)
    requires AllWellFormed(rules) && NonEmpty(j) && n <= |rules|
    requires Covers(RulesStep(rules, j, n).emitted, w)
    ensures exists i :: 0 <= i < n && Covers(RuleStep(rules[i], j).emitted, w)
    decreases n
  {
    var s := RulesStep(rules, j, n - 1);
    var t := RuleStep(rules[n - 1], j);
    CoversAppend(s.emitted, t.emitted, w);
    if Covers(s.emitted, w) {
      RulesStepEmittedFrom(rules, j, n - 1, w);
    }
  }

  lemma {:induction false} RulesStepEmittedInto(rules: seq<Rule>, j: Interval, n: nat, i: nat, w: int)
    requires AllWellFormed(rules) && NonEmpty(j) && i < n <= |rules|
    requires Covers(RuleStep(rules[i], j).emitted, w)
    ensures Covers(RulesStep(rules, j, n).emitted, w)
    decreases n
  {
    var s := RulesStep(rules, j, n - 1);
    var t := RuleStep(rules[n - 1], j);
    CoversAppend(s.emitted, t.emitted, w);
    if i < n - 1 {
      RulesStepEmittedInto(rules, j, n - 1, i, w);
    }
  }

  lemma {:induction false} RulesStepPushedInto(rules: seq<Rule>, j: Interval, n: nat, i: nat, u: int)
    requires AllWellFormed(rules) && NonEmpty(j) && i < n <= |rules|
    requires Covers(RuleStep(rules[i], j).pushed, u)
    ensures Covers(RulesStep(rules, j, n).pushed, u)
    decreases n
  {
    var s := RulesStep(rules, j, n - 1);
    var t := RuleStep(rules[n - 1], j);
    CoversAppend(s.pushed, t.pushed, u);
    if i < n - 1 {
      RulesStepPushedInto(rules, j, n - 1, i, u);
    }
  }

  /** A number in a pushed piece is a number of the popped interval. */
  lemma {:induction false} PushedInside(rules: seq<Rule>, j: Interval, u: int)
    requires AllWellFormed(rules) && NonEmpty(j) && Covers(Pushed(rules, j), u)
    ensures InRange(u, j)
  {
    RulesStepPushed(rules, j, |rules|);
  }

  /** What one popped interval emits is the image of its numbers under `get_from_map`. */
  lemma {:induction false} EmittedSound(rules: seq<Rule>, j: Interval, w: int)
    requires AllWellFormed(rules) && Disjoint(rules) && NonEmpty(j)
    requires Covers(Emitted(rules, j), w)
    ensures exists u: nat :: InRange(u, j) && GetFromMap(rules, u) == w
  {
    var e := RulesStep(rules, j, |rules|).emitted;
    var tail := if AnyOverlap(rules, j, |rules|) then [] else [j];
    CoversAppend(e, tail, w);
    if Covers(e, w) {
      RulesStepEmittedFrom(rules, j, |rules|, w);
      var i :| 0 <= i < |rules| && Covers(RuleStep(rules[i], j).emitted, w);
      RuleStepSound(rules[i], j, w);
      var u: nat :| InRange(u, j) && InRange(u, rules[i].src) && Shift(rules[i], u) == w;
      GetFromMapDisjoint(rules, i, u);
    } else {
      assert InRange(w, j) && w >= 0;
      var u: nat := w;
      forall i | 0 <= i < |rules| ensures !InRange(u, rules[i].src) {
        if InRange(u, rules[i].src) { assert Overlaps(j, rules[i].src); }
      }
      GetFromMapFirst(rules, u);
    }
  }

  /** Each number of the popped interval has its image emitted or is pushed back. */
  lemma {:induction false} EmittedComplete(rules: seq<Rule>, j: Interval, u: nat)
    requires AllWellFormed(rules) && NonEmpty(j) && InRange(u, j)
    ensures Covers(Emitted(rules, j), GetFromMap(rules, u)) || Covers(Pushed(rules, j), u)
  {
    var e := RulesStep(rules, j, |rules|).emitted;
    var tail := if AnyOverlap(rules, j, |rules|) then [] else [j];
    CoversAppend(e, tail, GetFromMap(rules, u));
    if exists i :: 0 <= i < |rules| && InRange(u, rules[i].src) {
      var f := FirstCovering(rules, u);
      GetFromMapFirst(rules, u);
      RuleStepComplete(rules[f], j, u);
      RulesStepEmittedInto(rules, j, |rules|, f, Shift(rules[f], u));
    } else if AnyOverlap(rules, j, |rules|) {
      var i :| 0 <= i < |rules| && Overlaps(j, rules[i].src);
      RuleStepRemainder(rules[i], j, u);
      RulesStepPushedInto(rules, j, |rules|, i, u);
    } else {
      GetFromMapFirst(rules, u);
      assert InRange(u, tail[0]);
    }
  }

  /** The index of the first rule containing `u`. */
  lemma {:induction false} FirstCovering(rules: seq<Rule>, u: nat) returns (f: nat)
    requires exists i :: 0 <= i < |rules| && InRange(u, rules[i].src)
    ensures f < |rules| && InRange(u, rules[f].src)
    ensures forall k :: 0 <= k < f ==> !InRange(u, rules[k].src)
  {
    var i :| 0 <= i < |rules| && InRange(u, rules[i].src);
    f := 0;
    while !InRange(u, rules[f].src)
      invariant f <= i
      decreases i - f
      invariant forall k :: 0 <= k < f ==> !InRange(u, rules[k].src)
    {
      f := f + 1;
    }
  }

  /**
   * For disjoint rules, the numbers covered by the resolved output are
   * exactly the images under `get_from_map` of the numbers pending.
   */
  lemma {:induction false} ResolveCovers(rules: seq<Rule>, stack: seq<Interval>, w: int)
    requires AllWellFormed(rules) && Disjoint(rules) && AllNonEmpty(stack)
    ensures Covers(Resolve(rules, stack), w) <==>
            exists v: nat :: Covers(stack, v) && GetFromMap(rules, v) == w
    decreases Weight(Base(rules), stack)
  {
    if stack != [] {
      var j := stack[|stack| - 1];
      var rest := stack[..|stack| - 1];
      var e, p := Emitted(rules, j), Pushed(rules, j);
      PushedLighter(rules, j);
      WeightAppend(Base(rules), rest, p);
      assert stack == rest + [j];
      var tailOut := Resolve(rules, rest + p);
      assert Resolve(rules, stack) == e + tailOut;
      CoversAppend(e, tailOut, w);
      ResolveCovers(rules, rest + p, w);
      if Covers(Resolve(rules, stack), w) {
        if Covers(e, w) {
          EmittedSound(rules, j, w);
          var u: nat :| InRange(u, j) && GetFromMap(rules, u) == w;
          CoversAppend(rest, [j], u);
        } else {
          var v: nat :| Covers(rest + p, v) && GetFromMap(rules, v) == w;
          CoversAppend(rest, p, v);
          CoversAppend(rest, [j], v);
          if Covers(p, v) { PushedInside(rules, j, v); }
        }
      }
      if exists v: nat :: Covers(stack, v) && GetFromMap(rules, v) == w {
        var v: nat :| Covers(stack, v) && GetFromMap(rules, v) == w;
        CoversAppend(rest, [j], v);
        CoversAppend(rest, p, v);
        if !Covers(rest, v) {
          EmittedComplete(rules, j, v);
        }
      }
    }
  }

  /** Every interval the engine emits is non-empty. */
  lemma {:induction false} ResolveNonEmpty(rules: seq<Rule>, stack: seq<Interval>)
    requires AllWellFormed(rules) && AllNonEmpty(stack)
    ensures AllNonEmpty(Resolve(rules, stack))
    decreases Weight(Base(rules), stack)
  {
    if stack != [] {
      var j, rest := stack[|stack| - 1], stack[..|stack| - 1];
      var next := rest + Pushed(rules, j);
      ResolveUnfold(rules, stack);
      ResolveNonEmpty(rules, next);
      RulesStepEmittedNonEmpty(rules, j, |rules|);
      AllNonEmptyAppend(Emitted(rules, j), Resolve(rules, next));
    }
  }

  lemma {:induction false} AllNonEmptyAppend(s: seq<Interval>, t: seq<Interval>)
    requires AllNonEmpty(s) && AllNonEmpty(t)
    ensures AllNonEmpty(s + t)
  {
    forall k | 0 <= k < |s + t| ensures NonEmpty((s + t)[k]) {
      if k >= |s| { assert (s + t)[k] == t[k - |s|]; }
    }
  }

  lemma {:induction false} RulesStepEmittedNonEmpty(rules: seq<Rule>, j: Interval, n: nat)
    requires AllWellFormed(rules) && NonEmpty(j) && n <= |rules|
    ensures AllNonEmpty(RulesStep(rules, j, n).emitted)
    decreases n
  {
    if n > 0 {
      RulesStepEmittedNonEmpty(rules, j, n - 1);
      RuleStepFacts(rules[n - 1], j);
    }
  }

  // ---------------------------------------------------------------------
  // Exact outputs when at most one rule touches the interval.
  // ---------------------------------------------------------------------

  /** When only rule `i` overlaps `j`, the rule loop does what rule `i` alone does. */
  lemma {:induction false} RulesStepSingle(rules: seq<Rule>, j: Interval, i: nat, n: nat)
    requires AllWellFormed(rules) && NonEmpty(j) && n <= |rules| && i < |rules|
    requires forall k :: 0 <= k < |rules| && k != i ==> !Overlaps(j, rules[k].src)
    ensures RulesStep(rules, j, n) == if i < n then RuleStep(rules[i], j) else Split([], [])
    decreases n
  {
    if n > 0 {
      RulesStepSingle(rules, j, i, n - 1);
      if n - 1 == i {
        RulesStepAfterIdle(rules, j, n);
      } else {
        RulesStepIdleRule(rules, j, n);
      }
    }
  }

  /** A rule that does not overlap `j` leaves the rule loop's output as it was. */
  lemma {:induction false} RulesStepIdleRule(rules: seq<Rule>, j: Interval, n: nat)
    requires AllWellFormed(rules) && NonEmpty(j) && 0 < n <= |rules|
    requires !Overlaps(j, rules[n - 1].src)
    ensures RulesStep(rules, j, n) == RulesStep(rules, j, n - 1)
  {
    var s := RulesStep(rules, j, n - 1);
    RuleStepFacts(rules[n - 1], j);
    assert s.emitted + [] == s.emitted && s.pushed + [] == s.pushed;
  }

  /** After rules that produced nothing, the loop's output is the next rule's alone. */
  lemma {:induction false} RulesStepAfterIdle(rules: seq<Rule>, j: Interval, n: nat)
    requires AllWellFormed(rules) && NonEmpty(j) && 0 < n <= |rules|
    requires RulesStep(rules, j, n - 1) == Split([], [])
    ensures RulesStep(rules, j, n) == RuleStep(rules[n - 1], j)
  {
    var t := RuleStep(rules[n - 1], j);
    assert [] + t.emitted == t.emitted && [] + t.pushed == t.pushed;
  }

  /** When no rule overlaps `j`, the rule loop emits and pushes nothing. */
  lemma {:induction false} RulesStepNone(rules: seq<Rule>, j: Interval, n: nat)
    requires AllWellFormed(rules) && NonEmpty(j) && n <= |rules|
    requires forall k :: 0 <= k < |rules| ==> !Overlaps(j, rules[k].src)
    ensures RulesStep(rules, j, n) == Split([], [])
    decreases n
  {
    if n > 0 {
      RulesStepNone(rules, j, n - 1);
      RulesStepIdleRule(rules, j, n);
    }
  }

  /**
   * An interval inside one rule's source (rules disjoint) comes out as the
   * single shifted interval, of the same length.
   */
  lemma {:induction false} Contained(rules: seq<Rule>, i: nat, j: Interval)
    requires AllWellFormed(rules) && Disjoint(rules) && NonEmpty(j) && i < |rules|
    requires InRange(j.lo, rules[i].src) && InRange(j.hi, rules[i].src)
    ensures Resolve(rules, [j]) == [Interval(Shift(rules[i], j.lo), Shift(rules[i], j.hi))]
    ensures Len(Resolve(rules, [j])[0]) == Len(j)
  {
    forall k | 0 <= k < |rules| && k != i ensures !Overlaps(j, rules[k].src) {
      assert !Overlaps(rules[i].src, rules[k].src) && !Overlaps(rules[k].src, rules[i].src);
    }
    RulesStepSingle(rules, j, i, |rules|);
    assert AnyOverlap(rules, j, |rules|) by { assert Overlaps(j, rules[i].src); }
    assert Pushed(rules, j) == [];
    assert [j][..0] + Pushed(rules, j) == [];
    assert Resolve(rules, [j]) == Emitted(rules, j);
  }

  /** With disjoint rules, a one-number interval comes out as its `get_from_map` image. */
  lemma {:induction false} SinglePoint(rules: seq<Rule>, x: nat)
    requires AllWellFormed(rules) && Disjoint(rules)
    ensures Resolve(rules, [Interval(x, x)]) == [Interval(GetFromMap(rules, x), GetFromMap(rules, x))]
  {
    var j := Interval(x, x);
    if i :| 0 <= i < |rules| && InRange(x, rules[i].src) {
      Contained(rules, i, j);
      GetFromMapDisjoint(rules, i, x);
    } else {
      forall k | 0 <= k < |rules| ensures !Overlaps(j, rules[k].src) { }
      GetFromMapFirst(rules, x);
      RulesStepNone(rules, j, |rules|);
      assert !AnyOverlap(rules, j, |rules|);
      assert Resolve(rules, [j]) == Emitted(rules, j) + Resolve(rules, [] + Pushed(rules, j));
    }
  }

  function TotalLen(s: seq<Interval>): nat
  {
    if s == [] then 0 else TotalLen(s[..|s| - 1]) + Len(s[|s| - 1])
  }

  lemma {:induction false} TotalLenAppend(s: seq<Interval>, t: seq<Interval>)
    ensures TotalLen(s + t) == TotalLen(s) + TotalLen(t)
    decreases |t|
  {
    if t == [] {
      assert s + t == s;
    } else {
      var u := s + t;
      assert u[..|u| - 1] == s + t[..|t| - 1];
      assert u[|u| - 1] == t[|t| - 1];
      TotalLenAppend(s, t[..|t| - 1]);
      calc {
        TotalLen(u);
        TotalLen(u[..|u| - 1]) + Len(u[|u| - 1]);
        TotalLen(s) + TotalLen(t[..|t| - 1]) + Len(t[|t| - 1]);
        TotalLen(s) + TotalLen(t);
      }
    }
  }

  /** Intervals that no rule touches pass through, in worklist (reversed) order, keeping their lengths. */
  lemma {:induction false} ResolveUntouched(rules: seq<Rule>, stack: seq<Interval>)
    requires AllWellFormed(rules) && AllNonEmpty(stack)
    requires forall q, k :: 0 <= q < |stack| && 0 <= k < |rules| ==> !Overlaps(stack[q], rules[k].src)
    ensures TotalLen(Resolve(rules, stack)) == TotalLen(stack)
    decreases |stack|
  {
    if stack != [] {
      var j := stack[|stack| - 1];
      var rest := stack[..|stack| - 1];
      RulesStepNone(rules, j, |rules|);
      assert !AnyOverlap(rules, j, |rules|);
      assert Emitted(rules, j) == [j];
      assert rest + Pushed(rules, j) == rest;
      assert Resolve(rules, stack) == [j] + Resolve(rules, rest);
      ResolveUntouched(rules, rest);
      TotalLenAppend([j], Resolve(rules, rest));
      TotalLenAppend(rest, [j]);
      assert stack == rest + [j];
      assert TotalLen([j]) == Len(j) by { assert [j][..0] == []; }
    }
  }

  /** One overlapping rule step splits the interval without losing or adding length. */
  lemma {:induction false} RuleStepLength(r: Rule, j: Interval)
    requires WellFormed(r) && NonEmpty(j) && Overlaps(j, r.src)
    ensures TotalLen(RuleStep(r, j).emitted) + TotalLen(RuleStep(r, j).pushed) == Len(j)
  {
    var s := RuleStep(r, j);
    assert TotalLen(s.emitted) == Len(s.emitted[0]) by { assert s.emitted[..0] == []; }
    if |s.pushed| == 1 {
      assert s.pushed[..0] == [];
    } else if |s.pushed| == 2 {
      assert s.pushed[..1][..0] == [];
      assert s.pushed[..1] == [s.pushed[0]];
    }
  }

  /**
   * Conservation of length when exactly one rule overlaps the interval:
   * the output lengths add up to the input length.
   */
  lemma {:induction false} SingleRuleConservesLength(rules: seq<Rule>, i: nat, j: Interval)
    requires AllWellFormed(rules) && NonEmpty(j) && i < |rules| && Overlaps(j, rules[i].src)
    requires forall k :: 0 <= k < |rules| && k != i ==> !Overlaps(j, rules[k].src)
    ensures TotalLen(Resolve(rules, [j])) == Len(j)
  {
    var e, p := Emitted(rules, j), Pushed(rules, j);
    SingleRuleStep(rules, i, j);
    ResolveUnfold(rules, [j]);
    assert [j][..0] + p == p;
    ResolveUntouched(rules, p);
    TotalLenAppend(e, Resolve(rules, p));
    RuleStepLength(rules[i], j);
  }

  /**
   * When exactly one rule overlaps the interval, the interval's step is that
   * rule's step, and nothing it pushes overlaps any rule.
   */
  lemma {:induction false} SingleRuleStep(rules: seq<Rule>, i: nat, j: Interval)
    requires AllWellFormed(rules) && NonEmpty(j) && i < |rules| && Overlaps(j, rules[i].src)
    requires forall k :: 0 <= k < |rules| && k != i ==> !Overlaps(j, rules[k].src)
    ensures Emitted(rules, j) == RuleStep(rules[i], j).emitted
    ensures Pushed(rules, j) == RuleStep(rules[i], j).pushed
    ensures forall q, k :: 0 <= q < |Pushed(rules, j)| && 0 <= k < |rules| ==> !Overlaps(Pushed(rules, j)[q], rules[k].src)
  {
    RulesStepSingle(rules, j, i, |rules|);
    RuleStepFacts(rules[i], j);
    assert AnyOverlap(rules, j, |rules|);
    var p := Pushed(rules, j);
    assert RuleStep(rules[i], j).emitted + [] == RuleStep(rules[i], j).emitted;
    forall q, k | 0 <= q < |p| && 0 <= k < |rules| ensures !Overlaps(p[q], rules[k].src) {
      assert Remainder(p[q], j, rules[i]);
      if k != i && Overlaps(p[q], rules[k].src) {
        assert Overlaps(j, rules[k].src);
      }
    }
  }

  /** A stage without rules passes the interval through unchanged. */
  lemma {:induction false} NoRules(j: Interval)
    requires NonEmpty(j)
    ensures Resolve([], [j]) == [j]
  {
    assert Emitted([], j) == [j];
    assert [j][..0] + Pushed([], j) == [];
  }

  /** One pop of the worklist: what the popped interval emits, then the rest with its remainders. */
  lemma {:induction false} ResolveUnfold(rules: seq<Rule>, stack: seq<Interval>)
    requires AllWellFormed(rules) && AllNonEmpty(stack) && stack != []
    ensures var j, rest := stack[|stack| - 1], stack[..|stack| - 1];
      AllNonEmpty(rest + Pushed(rules, j)) &&
      Weight(Base(rules), rest + Pushed(rules, j)) < Weight(Base(rules), stack) &&
      Resolve(rules, stack) == Emitted(rules, j) + Resolve(rules, rest + Pushed(rules, j))
  {
    var j, rest := stack[|stack| - 1], stack[..|stack| - 1];
    PushedLighter(rules, j);
    WeightAppend(Base(rules), rest, Pushed(rules, j));
  }

  /** The coverage property for a worklist that starts with a single interval. */
  lemma {:induction false} ResolveCoversInterval(rules: seq<Rule>, attribute: Interval)
    requires AllWellFormed(rules) && Disjoint(rules) && NonEmpty(attribute)
    ensures forall w :: Covers(Resolve(rules, [attribute]), w) <==>
              exists v: nat :: InRange(v, attribute) && GetFromMap(rules, v) == w
  {
    forall w ensures Covers(Resolve(rules, [attribute]), w) <==>
                     exists v: nat :: InRange(v, attribute) && GetFromMap(rules, v) == w {
      ResolveCovers(rules, [attribute], w);
      if Covers(Resolve(rules, [attribute]), w) {
        var v: nat :| Covers([attribute], v) && GetFromMap(rules, v) == w;
        var k :| 0 <= k < 1 && InRange(v, [attribute][k]);
        assert InRange(v, attribute);
      }
      if exists v: nat :: InRange(v, attribute) && GetFromMap(rules, v) == w {
        var v: nat :| InRange(v, attribute) && GetFromMap(rules, v) == w;
        assert InRange(v, [attribute][0]);
        assert Covers([attribute], v);
      }
    }
  }

  /**
   * The body of the worklist loop of `get_range_from_map` for one popped
   * interval: the rule loop (every rule in key order, no `break`) followed by
   * the identity fallback when no rule set `found`.  What it emits goes to
   * `result` and what it pushes goes to `remaining`, in this order.
   */
  method ProcessPopped(rules: seq<Rule>, popped: Interval) returns (emitted: seq<Interval>, pushed: seq<Interval>)
    requires AllWellFormed(rules) && NonEmpty(popped)
    ensures emitted == Emitted(rules, popped) && pushed == Pushed(rules, popped)
  {
    emitted, pushed := [], [];
    var found := false;
    for n := 0 to |rules|
      invariant emitted == RulesStep(rules, popped, n).emitted
      invariant pushed == RulesStep(rules, popped, n).pushed
      invariant found <==> AnyOverlap(rules, popped, n)
    {
      var e, p, hit := ApplyRule(rules[n], popped);
      emitted, pushed := emitted + e, pushed + p;
      found := found || hit;
      AnyOverlapNext(rules, popped, n);
    }
    if !found {
      emitted := emitted + [popped];
    }
  }

  /**
   * One iteration of the rule loop: the four overlap cases of the source, in
   * the source's order; `found` is set by exactly the rules that overlap.
   */
  method ApplyRule(rule: Rule, popped: Interval) returns (emitted: seq<Interval>, pushed: seq<Interval>, found: bool)
    requires WellFormed(rule) && NonEmpty(popped)
    ensures emitted == RuleStep(rule, popped).emitted && pushed == RuleStep(rule, popped).pushed
    ensures found <==> Overlaps(popped, rule.src)
  {
    emitted, pushed, found := [], [], false;
    var key, value := rule.src, rule.dst;
    if InRange(popped.lo, key) && InRange(popped.hi, key) {
      emitted := emitted + [Interval(value.lo + (popped.lo - key.lo), value.lo + (popped.hi - key.lo))];
      found := true;
    } else if InRange(popped.lo, key) && !InRange(popped.hi, key) {
      emitted := emitted + [Interval(value.lo + (popped.lo - key.lo), value.hi)];
      pushed := pushed + [Interval(key.hi + 1, popped.hi)];
      found := true;
    } else if !InRange(popped.lo, key) && InRange(popped.hi, key) {
      emitted := emitted + [Interval(value.lo, value.lo + popped.hi - key.lo)];
      pushed := pushed + [Interval(popped.lo, key.lo - 1)];
      found := true;
    } else if !InRange(popped.lo, key) && !InRange(popped.hi, key)
           && popped.lo <= key.lo && popped.hi >= key.hi {
      emitted := emitted + [Interval(value.lo, value.hi)];
      pushed := pushed + [Interval(popped.lo, key.lo - 1)];
      pushed := pushed + [Interval(key.hi + 1, popped.hi)];
      found := true;
    }
    RuleStepCases(rule, popped);
  }

  /**
   * `get_range_from_map`: resolves one interval against a stage with the
   * `remaining` worklist (popped from the end).  For disjoint rules the
   * output covers exactly the `get_from_map` images of the input's numbers;
   * with no rules it is the input itself.
   */
  method GetRangeFromMap(rules: seq<Rule>, attribute: Interval) returns (result: seq<Interval>)
    requires AllWellFormed(rules) && NonEmpty(attribute)
    ensures result == Resolve(rules, [attribute])
    ensures AllNonEmpty(result)
    ensures rules == [] ==> result == [attribute]
    ensures Disjoint(rules) ==> forall w :: Covers(result, w) <==>
              exists v: nat :: InRange(v, attribute) && GetFromMap(rules, v) == w
  {
    result := [];
    var remaining := [attribute];
    while remaining != []
      invariant AllNonEmpty(remaining)
      invariant result + Resolve(rules, remaining) == Resolve(rules, [attribute])
      decreases Weight(Base(rules), remaining)
    {
      ResolveUnfold(rules, remaining);
      var popped := remaining[|remaining| - 1];
      remaining := remaining[..|remaining| - 1];
      var emitted, pushed := ProcessPopped(rules, popped);
      result := result + emitted;
      remaining := remaining + pushed;
    }
    assert result == Resolve(rules, [attribute]);
    ResolveNonEmpty(rules, [attribute]);
    if rules == [] {
      NoRules(attribute);
    }
    if Disjoint(rules) {
      ResolveCoversInterval(rules, attribute);
    }
  }

  /** `get_ranges_from_map`'s result: each interval resolved in turn, the results concatenated in order. */
  function StageImage(rules: seq<Rule>, attributes: seq<Interval>): seq<Interval>
    requires AllWellFormed(rules) && AllNonEmpty(attributes)
    decreases |attributes|
  {
    if attributes == [] then []
    else StageImage(rules, attributes[..|attributes| - 1]) + Resolve(rules, [attributes[|attributes| - 1]])
  }

  /** The stage image is made of non-empty intervals. */
  lemma {:induction false} StageImageNonEmpty(rules: seq<Rule>, attributes: seq<Interval>)
    requires AllWellFormed(rules) && AllNonEmpty(attributes)
    ensures AllNonEmpty(StageImage(rules, attributes))
    decreases |attributes|
  {
    if attributes != [] {
      StageImageNonEmpty(rules, attributes[..|attributes| - 1]);
      ResolveNonEmpty(rules, [attributes[|attributes| - 1]]);
    }
  }

  /**
   * For disjoint rules, a number is covered by the stage image exactly when
   * it is the `get_from_map` image of a number covered by the input.
   */
  lemma {:induction false} StageImageCovers(rules: seq<Rule>, attributes: seq<Interval>, w: int)
    requires AllWellFormed(rules) && Disjoint(rules) && AllNonEmpty(attributes)
    ensures Covers(StageImage(rules, attributes), w) <==>
            exists v: nat :: Covers(attributes, v) && GetFromMap(rules, v) == w
  {
    if Covers(StageImage(rules, attributes), w) {
      StageImageSound(rules, attributes, w);
    }
    if exists v: nat :: Covers(attributes, v) && GetFromMap(rules, v) == w {
      var v: nat :| Covers(attributes, v) && GetFromMap(rules, v) == w;
      StageImageComplete(rules, attributes, v);
    }
  }

  lemma {:induction false} StageImageSound(rules: seq<Rule>, attributes: seq<Interval>, w: int)
    requires AllWellFormed(rules) && Disjoint(rules) && AllNonEmpty(attributes)
    requires Covers(StageImage(rules, attributes), w)
    ensures exists v: nat :: Covers(attributes, v) && GetFromMap(rules, v) == w
    decreases |attributes|
  {
    assert attributes != [];
    var init, a := attributes[..|attributes| - 1], attributes[|attributes| - 1];
    CoversAppend(StageImage(rules, init), Resolve(rules, [a]), w);
    if Covers(StageImage(rules, init), w) {
      StageImageSound(rules, init, w);
      var v: nat :| Covers(init, v) && GetFromMap(rules, v) == w;
      var k :| 0 <= k < |init| && InRange(v, init[k]);
      assert InRange(v, attributes[k]);
    } else {
      ResolveCoversInterval(rules, a);
      var v: nat :| InRange(v, a) && GetFromMap(rules, v) == w;
      assert InRange(v, attributes[|attributes| - 1]);
    }
  }

  lemma {:induction false} StageImageComplete(rules: seq<Rule>, attributes: seq<Interval>, v: nat)
    requires AllWellFormed(rules) && Disjoint(rules) && AllNonEmpty(attributes)
    requires Covers(attributes, v)
    ensures Covers(StageImage(rules, attributes), GetFromMap(rules, v))
    decreases |attributes|
  {
    var w := GetFromMap(rules, v);
    var k :| 0 <= k < |attributes| && InRange(v, attributes[k]);
    var init, a := attributes[..|attributes| - 1], attributes[|attributes| - 1];
    CoversAppend(StageImage(rules, init), Resolve(rules, [a]), w);
    if k < |init| {
      assert InRange(v, init[k]);
      StageImageComplete(rules, init, v);
    } else {
      ResolveCoversInterval(rules, a);
      assert InRange(v, a);
    }
  }

  /**
   * `get_ranges_from_map`: extends `result` with the resolution of each
   * input interval in order.
   */
  method GetRangesFromMap(rules: seq<Rule>, attributes: seq<Interval>) returns (result: seq<Interval>)
    requires AllWellFormed(rules) && AllNonEmpty(attributes)
    ensures result == StageImage(rules, attributes)
    ensures AllNonEmpty(result)
    ensures Disjoint(rules) ==> forall w :: Covers(result, w) <==>
              exists v: nat :: Covers(attributes, v) && GetFromMap(rules, v) == w
  {
    result := [];
    for i := 0 to |attributes|
      invariant result == StageImage(rules, attributes[..i])
    {
      assert attributes[..i + 1][..i] == attributes[..i];
      var part := GetRangeFromMap(rules, attributes[i]);
      result := result + part;
    }
    assert attributes[..|attributes|] == attributes;
    StageImageNonEmpty(rules, attributes);
    if Disjoint(rules) {
      forall w ensures Covers(result, w) <==> exists v: nat :: Covers(attributes, v) && GetFromMap(rules, v) == w {
        StageImageCovers(rules, attributes, w);
      }
    }
  }

  /** The seven almanac stages, seed-to-soil first. */
  predicate AllStagesWellFormed(stages: seq<seq<Rule>>)
  {
    forall m :: 0 <= m < |stages| ==> AllWellFormed(stages[m])
  }

  predicate AllStagesDisjoint(stages: seq<seq<Rule>>)
  {
    forall m :: 0 <= m < |stages| ==> Disjoint(stages[m])
  }

  /** A number walked through every stage with `get_from_map`, as Part One does. */
  function PointPipeline(stages: seq<seq<Rule>>, v: nat): nat
    decreases |stages|
  {
    if stages == [] then v else GetFromMap(stages[|stages| - 1], PointPipeline(stages[..|stages| - 1], v))
  }

  /** A list of intervals walked through every stage with `get_ranges_from_map`, as Part Two does. */
  function Pipeline(stages: seq<seq<Rule>>, attributes: seq<Interval>): (r: seq<Interval>)
    requires AllStagesWellFormed(stages) && AllNonEmpty(attributes)
    ensures AllNonEmpty(r)
    decreases |stages|
  {
    if stages == [] then attributes
    else
      var before := Pipeline(stages[..|stages| - 1], attributes);
      StageImageNonEmpty(stages[|stages| - 1], before);
      StageImage(stages[|stages| - 1], before)
  }

  /** Walking one more stage of the prefix applies that stage's `get_ranges_from_map`. */
  lemma {:induction false} PipelineSnoc(stages: seq<seq<Rule>>, m: nat, attributes: seq<Interval>)
    requires AllStagesWellFormed(stages) && AllNonEmpty(attributes) && m < |stages|
    ensures AllStagesWellFormed(stages[..m]) && AllStagesWellFormed(stages[..m + 1])
    ensures Pipeline(stages[..m + 1], attributes) == StageImage(stages[m], Pipeline(stages[..m], attributes))
  {
    assert stages[..m + 1][..m] == stages[..m];
  }

  /**
   * Through disjoint stages, the range walk covers exactly the point-walk
   * images of the numbers the input covers.
   */
  lemma {:induction false} PipelineCovers(stages: seq<seq<Rule>>, attributes: seq<Interval>, w: int)
    requires AllStagesWellFormed(stages) && AllStagesDisjoint(stages) && AllNonEmpty(attributes)
    ensures Covers(Pipeline(stages, attributes), w) <==>
            exists v: nat :: Covers(attributes, v) && PointPipeline(stages, v) == w
    decreases |stages|
  {
    if stages != [] {
      var init, last := stages[..|stages| - 1], stages[|stages| - 1];
      var before := Pipeline(init, attributes);
      StageImageCovers(last, before, w);
      if Covers(Pipeline(stages, attributes), w) {
        var u: nat :| Covers(before, u) && GetFromMap(last, u) == w;
        PipelineCovers(init, attributes, u);
        var v: nat :| Covers(attributes, v) && PointPipeline(init, v) == u;
        assert PointPipeline(stages, v) == w;
      }
      if exists v: nat :: Covers(attributes, v) && PointPipeline(stages, v) == w {
        var v: nat :| Covers(attributes, v) && PointPipeline(stages, v) == w;
        var u := PointPipeline(init, v);
        PipelineCovers(init, attributes, u);
        assert Covers(before, u) && GetFromMap(last, u) == w;
      }
    }
  }

  /** Walking one more stage of the prefix applies that stage's `get_from_map`. */
  lemma {:induction false} PointPipelineSnoc(stages: seq<seq<Rule>>, m: nat, v: nat)
    requires m < |stages|
    ensures PointPipeline(stages[..m + 1], v) == GetFromMap(stages[m], PointPipeline(stages[..m], v))
  {
    assert stages[..m + 1][..m] == stages[..m];
  }

  /** `u64::MAX`, the starting value of both answers. */
  const U64_MAX: nat := 18446744073709551615

  function Min(a: nat, b: nat): nat { if a <= b then a else b }

  /** Part One's answer after the first `n` seeds: the running minimum of their locations. */
  function LowestLocation(seeds: seq<nat>, stages: seq<seq<Rule>>, n: nat): nat
    requires n <= |seeds|
  {
    if n == 0 then U64_MAX else Min(LowestLocation(seeds, stages, n - 1), PointPipeline(stages, seeds[n - 1]))
  }

  /**
   * Part One's answer is at most `u64::MAX`, at most every seed's location,
   * and either `u64::MAX` or the location of one of the seeds.
   */
  lemma {:induction false} LowestLocationIsMinimum(seeds: seq<nat>, stages: seq<seq<Rule>>, n: nat)
    requires n <= |seeds|
    ensures LowestLocation(seeds, stages, n) <= U64_MAX
    ensures forall k :: 0 <= k < n ==> LowestLocation(seeds, stages, n) <= PointPipeline(stages, seeds[k])
    ensures LowestLocation(seeds, stages, n) == U64_MAX ||
            exists k :: 0 <= k < n && LowestLocation(seeds, stages, n) == PointPipeline(stages, seeds[k])
  {
    if n > 0 {
      LowestLocationIsMinimum(seeds, stages, n - 1);
    }
  }

  /** Part One: every seed walked through every stage; the smallest location, capped at `u64::MAX`. */
  method PartOne(seeds: seq<nat>, stages: seq<seq<Rule>>) returns (result: nat)
    ensures result == LowestLocation(seeds, stages, |seeds|)
  {
    result := U64_MAX;
    for n := 0 to |seeds|
      invariant result == LowestLocation(seeds, stages, n)
    {
      var attribute := seeds[n];
      for m := 0 to |stages|
        invariant attribute == PointPipeline(stages[..m], seeds[n])
      {
        PointPipelineSnoc(stages, m, seeds[n]);
        attribute := GetFromMap(stages[m], attribute);
      }
      assert stages[..|stages|] == stages;
      result := Min(result, attribute);
    }
  }

  /**
   * The seed interval Part Two builds from the pair at `2 * i`: it ends at
   * `start + len`, one number past the last seed of the pair.
   */
  function SeedRange(seeds: seq<nat>, i: nat): (r: Interval)
    requires 2 * i + 1 < |seeds|
    ensures NonEmpty(r) && Len(r) == seeds[2 * i + 1] + 1
  {
    Interval(seeds[2 * i], seeds[2 * i] + seeds[2 * i + 1])
  }

  /** The smallest start of `s`, or `acc` when it is smaller. */
  function MinStart(acc: nat, s: seq<Interval>): nat
    decreases |s|
  {
    if s == [] then acc else Min(MinStart(acc, s[..|s| - 1]), s[|s| - 1].lo)
  }

  lemma {:induction false} MinStartIsMinimum(acc: nat, s: seq<Interval>)
    ensures MinStart(acc, s) <= acc
    ensures forall k :: 0 <= k < |s| ==> MinStart(acc, s) <= s[k].lo
    ensures MinStart(acc, s) == acc || exists k :: 0 <= k < |s| && MinStart(acc, s) == s[k].lo
    decreases |s|
  {
    if s != [] {
      MinStartIsMinimum(acc, s[..|s| - 1]);
    }
  }

  /** Part Two's answer after the first `n` seed pairs. */
  function LowestStart(seeds: seq<nat>, stages: seq<seq<Rule>>, n: nat): nat
    requires AllStagesWellFormed(stages) && 2 * n <= |seeds|
  {
    if n == 0 then U64_MAX
    else MinStart(LowestStart(seeds, stages, n - 1), Pipeline(stages, [SeedRange(seeds, n - 1)]))
  }

  /** Every location of a number of the last seed interval is at least the minimum start. */
  lemma {:induction false} LowestStartBelowLast(stages: seq<seq<Rule>>, acc: nat, j: Interval, v: nat)
    requires AllStagesWellFormed(stages) && AllStagesDisjoint(stages) && NonEmpty(j) && InRange(v, j)
    ensures MinStart(acc, Pipeline(stages, [j])) <= PointPipeline(stages, v)
  {
    var out := Pipeline(stages, [j]);
    MinStartIsMinimum(acc, out);
    assert InRange(v, [j][0]);
    PipelineCovers(stages, [j], PointPipeline(stages, v));
    var k :| 0 <= k < |out| && InRange(PointPipeline(stages, v), out[k]);
  }

  /** A minimum start that is not `acc` is the location of a number of the interval. */
  lemma {:induction false} LowestStartAttained(stages: seq<seq<Rule>>, acc: nat, j: Interval)
    requires AllStagesWellFormed(stages) && AllStagesDisjoint(stages) && NonEmpty(j)
    ensures MinStart(acc, Pipeline(stages, [j])) == acc ||
            exists v: nat :: InRange(v, j) && MinStart(acc, Pipeline(stages, [j])) == PointPipeline(stages, v)
  {
    var out := Pipeline(stages, [j]);
    MinStartIsMinimum(acc, out);
    if MinStart(acc, out) != acc {
      var k :| 0 <= k < |out| && MinStart(acc, out) == out[k].lo;
      assert InRange(out[k].lo, out[k]);
      PipelineCovers(stages, [j], out[k].lo);
      var v: nat :| Covers([j], v) && PointPipeline(stages, v) == out[k].lo;
      assert InRange(v, j);
    }
  }

  /**
   * Through disjoint stages, Part Two's answer is at most the location of
   * every number of every seed interval, and is `u64::MAX` or the location
   * of one of them: the range walk finds the true minimum.
   */
  lemma {:induction false} LowestStartIsMinimum(seeds: seq<nat>, stages: seq<seq<Rule>>, n: nat)
    requires AllStagesWellFormed(stages) && AllStagesDisjoint(stages) && 2 * n <= |seeds|
    ensures LowestStart(seeds, stages, n) <= U64_MAX
    ensures forall i, v: nat :: 0 <= i < n && InRange(v, SeedRange(seeds, i)) ==>
              LowestStart(seeds, stages, n) <= PointPipeline(stages, v)
    ensures LowestStart(seeds, stages, n) == U64_MAX ||
            exists i, v: nat :: 0 <= i < n && InRange(v, SeedRange(seeds, i)) &&
              LowestStart(seeds, stages, n) == PointPipeline(stages, v)
  {
    if n > 0 {
      LowestStartIsMinimum(seeds, stages, n - 1);
      var prev := LowestStart(seeds, stages, n - 1);
      var j := SeedRange(seeds, n - 1);
      MinStartIsMinimum(prev, Pipeline(stages, [j]));
      var r := LowestStart(seeds, stages, n);
      assert r == MinStart(prev, Pipeline(stages, [j]));
      forall i, v: nat | 0 <= i < n && InRange(v, SeedRange(seeds, i)) ensures r <= PointPipeline(stages, v) {
        if i == n - 1 {
          LowestStartBelowLast(stages, prev, j, v);
        }
      }
      LowestStartAttained(stages, prev, j);
      if r != U64_MAX {
        if r == prev {
          var i, v: nat :| 0 <= i < n - 1 && InRange(v, SeedRange(seeds, i)) && prev == PointPipeline(stages, v);
          assert 0 <= i < n && InRange(v, SeedRange(seeds, i)) && r == PointPipeline(stages, v);
        } else {
          var v: nat :| InRange(v, j) && r == PointPipeline(stages, v);
          assert 0 <= n - 1 < n && InRange(v, SeedRange(seeds, n - 1)) && r == PointPipeline(stages, v);
        }
      }
    }
  }

  /**
   * Part Two: each seed pair becomes one interval, which is walked through
   * every stage; the answer is the smallest start among the final intervals,
   * capped at `u64::MAX`.
   */
  method PartTwo(seeds: seq<nat>, stages: seq<seq<Rule>>) returns (result: nat)
    requires AllStagesWellFormed(stages)
    ensures result == LowestStart(seeds, stages, |seeds| / 2)
  {
    result := U64_MAX;
    for i := 0 to |seeds| / 2
      invariant result == LowestStart(seeds, stages, i)
    {
      var attributes := WalkStages(stages, SeedRange(seeds, i));
      result := LowerToStarts(result, attributes);
    }
  }

  /** Part Two's walk of one seed interval through every stage, stage by stage. */
  method WalkStages(stages: seq<seq<Rule>>, j: Interval) returns (attributes: seq<Interval>)
    requires AllStagesWellFormed(stages) && NonEmpty(j)
    ensures attributes == Pipeline(stages, [j])
  {
    attributes := [j];
    for m := 0 to |stages|
      invariant AllNonEmpty(attributes)
      invariant attributes == Pipeline(stages[..m], [j])
    {
      PipelineSnoc(stages, m, [j]);
      attributes := GetRangesFromMap(stages[m], attributes);
    }
    assert stages[..|stages|] == stages;
  }

  /** Part Two's `min` over the starts of the final intervals, from `acc`. */
  method LowerToStarts(acc: nat, out: seq<Interval>) returns (result: nat)
    ensures result == MinStart(acc, out)
  {
    result := acc;
    for k := 0 to |out|
      invariant result == MinStart(acc, out[..k])
    {
      assert out[..k + 1][..k] == out[..k];
      result := Min(result, out[k].lo);
    }
    assert out[..|out|] == out;
  }
}

/**
 * The toy boat races (Advent of Code 2023, day 6).  Holding the button for
 * `h` milliseconds of a race lasting `t` gives the boat speed `h` for the
 * remaining `t - h` milliseconds; a hold time wins when the distance
 * travelled beats the record `d`.  The solvers count the winning hold
 * times over a range of candidates; this module defines that count and
 * proves where the winning hold times lie.
 */
module BoatRace {

  /** The distance travelled when the button is held for `h` of `t` milliseconds. */
  function Travelled(t: int, h: int): int { h * (t - h) }

  predicate Wins(t: int, d: int, h: int) { Travelled(t, h) > d }

  /** The number of hold times `h` with `lo <= h < hi` that beat the record `d`. */
  function CountWins(t: int, d: int, lo: int, hi: int): (n: nat)
    ensures n <= if hi <= lo then 0 else hi - lo
    decreases hi - lo
  {
    if hi <= lo then 0 else CountWins(t, d, lo, hi - 1) + (if Wins(t, d, hi - 1) then 1 else 0)
  }

  /** The count is the size of the set of winning hold times. */
  lemma {:induction false} CountIsCardinality(t: int, d: int, lo: int, hi: int)
    ensures CountWins(t, d, lo, hi) == |set h | lo <= h < hi && Wins(t, d, h)|
    decreases hi - lo
  {
    if hi <= lo {
      assert (set h | lo <= h < hi && Wins(t, d, h)) == {};
    } else {
      CountIsCardinality(t, d, lo, hi - 1);
      var below := set h | lo <= h < hi - 1 && Wins(t, d, h);
      if Wins(t, d, hi - 1) {
        assert (set h | lo <= h < hi && Wins(t, d, h)) == below + {hi - 1};
      } else {
        assert (set h | lo <= h < hi && Wins(t, d, h)) == below;
      }
    }
  }

  /** Counting over two adjacent ranges adds up. */
  lemma {:induction false} CountSplit(t: int, d: int, lo: int, mid: int, hi: int)
    requires lo <= mid <= hi
    ensures CountWins(t, d, lo, hi) == CountWins(t, d, lo, mid) + CountWins(t, d, mid, hi)
    decreases hi - mid
  {
    if mid < hi {
      CountSplit(t, d, lo, mid, hi - 1);
    }
  }

  /** A range in which every hold time wins counts all of them. */
  lemma {:induction false} CountAll(t: int, d: int, lo: int, hi: int)
    requires lo <= hi
    requires forall h :: lo <= h < hi ==> Wins(t, d, h)
    ensures CountWins(t, d, lo, hi) == hi - lo
    decreases hi - lo
  {
    if lo < hi {
      CountAll(t, d, lo, hi - 1);
    }
  }

  /** A range in which no hold time wins counts none. */
  lemma {:induction false} CountNone(t: int, d: int, lo: int, hi: int)
    requires forall h :: lo <= h < hi ==> !Wins(t, d, h)
    ensures CountWins(t, d, lo, hi) == 0
    decreases hi - lo
  {
    if lo < hi {
      CountNone(t, d, lo, hi - 1);
    }
  }

  /** Holding for `h` or for `t - h` travels the same distance, so one wins exactly when the other does. */
  lemma WinsSymmetric(t: int, d: int, h: int)
    ensures Travelled(t, h) == Travelled(t, t - h)
    ensures Wins(t, d, h) <==> Wins(t, d, t - h)
  {
    assert h * (t - h) == (t - h) * h;
  }

  /** Reflecting the range of hold times through the middle of the race keeps the count. */
  lemma {:induction false} CountReflect(t: int, d: int, lo: int, hi: int)
    ensures CountWins(t, d, lo, hi) == CountWins(t, d, t - hi + 1, t - lo + 1)
    decreases hi - lo
  {
    if lo < hi {
      CountReflect(t, d, lo, hi - 1);
      CountSplit(t, d, t - hi + 1, t - hi + 2, t - lo + 1);
      WinsSymmetric(t, d, hi - 1);
      assert CountWins(t, d, t - hi + 1, t - hi + 2) == if Wins(t, d, t - hi + 1) then 1 else 0;
    }
  }

  /** The distance grows towards the middle: `h(t - h) - a(t - a) = (h - a)(t - a - h)`. */
  lemma TravelledDifference(t: int, h: int, a: int)
    ensures Travelled(t, h) - Travelled(t, a) == (h - a) * (t - a - h)
  {
    calc {
      (h - a) * (t - a - h);
      h * (t - a - h) - a * (t - a - h);
      h * t - h * a - h * h - a * t + a * a + a * h;
      h * (t - h) - a * (t - a);
    }
  }

  lemma ProductSign(x: int, y: int)
    requires y >= 0
    ensures x >= 0 ==> x * y >= 0
    ensures x <= 0 ==> x * y <= 0
  {
  }

  /** Below the window: a hold time shorter than `a` travels no more than holding for `a - 1`. */
  lemma LosesBelow(t: int, d: int, a: int, h: int)
    requires 0 <= h < a && 2 * a <= t && Travelled(t, a - 1) <= d
    ensures !Wins(t, d, h)
  {
    TravelledDifference(t, h, a - 1);
    ProductSign(h - (a - 1), t - (a - 1) - h);
  }

  /** Inside the window: a hold time from `a` to `t - a` travels at least as far as holding for `a`. */
  lemma WinsInside(t: int, d: int, a: int, h: int)
    requires a <= h <= t - a && d < Travelled(t, a)
    ensures Wins(t, d, h)
  {
    TravelledDifference(t, h, a);
    ProductSign(h - a, t - a - h);
  }

  /**
   * The winning hold times form a window around the middle of the race:
   * when holding for `a` milliseconds beats the record and holding for
   * `a - 1` does not, exactly the hold times from `a` to `t - a` win, and
   * the count over all hold times from 0 to `t` is `t + 1 - 2a`.
   */
  lemma WinningWindow(t: int, d: int, a: int)
    requires 1 <= a && 2 * a <= t
    requires Travelled(t, a - 1) <= d < Travelled(t, a)
    ensures forall h :: 0 <= h <= t ==> (Wins(t, d, h) <==> a <= h <= t - a)
    ensures CountWins(t, d, 0, t + 1) == t + 1 - 2 * a
  {
    forall h | 0 <= h <= t
      ensures Wins(t, d, h) <==> a <= h <= t - a
    {
      if h < a {
        LosesBelow(t, d, a, h);
      } else if h <= t - a {
        WinsInside(t, d, a, h);
      } else {
        WinsSymmetric(t, d, h);
        LosesBelow(t, d, a, t - h);
      }
    }
    CountSplit(t, d, 0, a, t + 1);
    CountSplit(t, d, a, t - a + 1, t + 1);
    CountNone(t, d, 0, a);
    CountAll(t, d, a, t - a + 1);
    CountNone(t, d, t - a + 1, t + 1);
  }
}

/**
 * mohammad/day08/part_2: every ghost's walk takes some number of steps to
 * reach a node ending in `Z`, and the answer is the least common multiple
 * of those step counts, computed by Euclid's algorithm.
 */
module MohammadDay08 {
  import opened Text

  /** `d` divides `n`: `n` is `d` times some natural number. */
  ghost predicate Divides(d: nat, n: nat)
  {
    exists k: nat :: n == d * k
  }

  /** `gcd_of_two_numbers`: Euclid's algorithm; the second argument shrinks at every call. */
  function Gcd(a: nat, b: nat): (g: nat)
    ensures g == 0 <==> a == 0 && b == 0
    ensures (a > 0 ==> g <= a) && (b > 0 ==> g <= b)
    decreases b
  {
    if b == 0 then a
    else
      RemainderFacts(a, b);
      Gcd(b, a % b)
  }

  /** The remainder is below the divisor, is the dividend when that is smaller, and is 0 only for a multiple. */
  lemma RemainderFacts(a: nat, b: nat)
    requires b > 0
    ensures a % b < b
    ensures a < b ==> a % b == a
    ensures a > 0 && a % b == 0 ==> b <= a
  {
    var q, r := a / b, a % b;
    assert a == b * q + r;
  }

  /** The greatest common divisor of `a` and 0 is `a`, and the recursion steps to `(b, a mod b)`. */
  lemma GcdSteps(a: nat, b: nat)
    ensures Gcd(a, 0) == a
    ensures b > 0 ==> Gcd(a, b) == Gcd(b, a % b) && a % b < b
  {
  }

  /** The division identity with both parts named: `a = q b + r`. */
  lemma Quotient(a: nat, b: nat) returns (q: nat, r: nat)
    requires b > 0
    ensures a == q * b + r && r == a % b && q == a / b
  {
    q, r := a / b, a % b;
  }

  lemma Distribute(q: nat, g: nat, x: nat, y: nat)
    ensures q * (g * x) + g * y == g * (q * x + y)
  {
    calc {
      q * (g * x) + g * y;
      g * (q * x) + g * y;
      g * (q * x + y);
    }
  }

  /** The gcd divides both arguments. */
  lemma {:induction false} GcdDivides(a: nat, b: nat)
    ensures Divides(Gcd(a, b), a) && Divides(Gcd(a, b), b)
    decreases b
  {
    var g := Gcd(a, b);
    if b == 0 {
      assert a == g * 1;
      assert 0 == g * 0;
    } else {
      var q, r := Quotient(a, b);
      GcdDivides(b, r);
      var x: nat :| b == g * x;
      var y: nat :| r == g * y;
      Distribute(q, g, x, y);
      assert a == g * (q * x + y);
    }
  }

  /** Every common divisor of `a` and `b` divides their gcd: it is the greatest one. */
  lemma {:induction false} GcdGreatest(a: nat, b: nat, d: nat)
    requires Divides(d, a) && Divides(d, b)
    ensures Divides(d, Gcd(a, b))
    decreases b
  {
    if b > 0 {
      var q, r := Quotient(a, b);
      var x: nat :| a == d * x;
      var y: nat :| b == d * y;
      var z := RemainderMultiple(d, x, y, q, r);
      GcdGreatest(b, r, d);
    }
  }

  /** When `d` divides `a = q b + r` and `b`, it divides `r` too. */
  lemma RemainderMultiple(d: nat, x: nat, y: nat, q: nat, r: nat) returns (z: nat)
    requires d * y > 0 && d * x == q * (d * y) + r
    ensures r == d * z
    ensures Divides(d, r)
  {
    assert d > 0;
    Distribute(q, d, y, 0);
    assert r == d * x - d * (q * y) == d * (x - q * y);
    PositiveFactor(d, x - q * y);
    z := x - q * y;
  }

  lemma PositiveFactor(d: int, z: int)
    requires d > 0 && d * z >= 0
    ensures z >= 0
  {
    if z < 0 {
      assert d * z <= 0 - d by {
        assert d * z == d * (z + 1) - d;
        NonPositiveProduct(d, z + 1);
      }
    }
  }

  lemma NonPositiveProduct(d: int, w: int)
    requires d > 0 && w <= 0
    ensures d * w <= 0
  {
  }

  /**
   * `lcm`: the last element alone, or the first times the lcm of the rest
   * divided by their gcd.  When both are 0 the gcd is 0 and the division
   * panics; that is `None`.
   */
  function Lcm(nums: seq<nat>): (r: Option<nat>)
    requires |nums| >= 1
    ensures r.None? ==> exists i :: 0 <= i < |nums| && nums[i] == 0
    decreases |nums|
  {
    if |nums| == 1 then Some(nums[0])
    else
      match Lcm(nums[1..])
      case None => None
      case Some(b) =>
        var a := nums[0];
        var g := Gcd(a, b);
        if g == 0 then None else Some(a * b / g)
  }

  /** The lcm of one number is that number. */
  lemma LcmSingle(n: nat)
    ensures Lcm([n]) == Some(n)
  {
  }

  /** For positive `a` and `b`, `a b / gcd(a, b)` is a positive common multiple of both. */
  lemma PairMultiple(a: nat, b: nat)
    requires a > 0 && b > 0
    ensures Gcd(a, b) > 0
    ensures var m := a * b / Gcd(a, b); m > 0 && Divides(a, m) && Divides(b, m)
  {
    GcdDivides(a, b);
    var g := Gcd(a, b);
    var x: nat :| a == g * x;
    var y: nat :| b == g * y;
    Regroup(g, x, y);
    var m := x * b;
    assert a * b == g * m;
    DivCancel(g, m);
    assert m == a * y;
    assert m == b * x;
    assert m > 0 by {
      PositiveProduct(x, b);
    }
  }

  /** With `a = g x` and `b = g y`: `a b = g (x b)`, `x b = a y` and `x b = b x`. */
  lemma Regroup(g: nat, x: nat, y: nat)
    ensures (g * x) * (g * y) == g * (x * (g * y))
    ensures x * (g * y) == (g * x) * y
    ensures x * (g * y) == (g * y) * x
  {
  }

  lemma DivCancel(g: nat, m: nat)
    requires g > 0
    ensures g * m / g == m
  {
    var q, r := Quotient(g * m, g);
    assert g * (m - q) == r by {
      assert g * m - q * g == g * (m - q);
    }
    OnlyZeroBelow(g, m - q);
  }

  /** A multiple of `g` in `[0, g)` is zero. */
  lemma OnlyZeroBelow(g: int, w: int)
    requires g > 0 && 0 <= g * w < g
    ensures w == 0
  {
  }

  lemma PositiveProduct(x: int, b: int)
    requires x > 0 && b > 0
    ensures x * b > 0
  {
  }

  lemma DividesTrans(a: nat, b: nat, c: nat)
    requires Divides(a, b) && Divides(b, c)
    ensures Divides(a, c)
  {
    var x: nat :| b == a * x;
    var y: nat :| c == b * y;
    assert c == a * (x * y);
  }

  /**
   * For positive step counts the lcm is defined, positive and a multiple
   * of every count: after that many steps every ghost is on a `Z` node
   * again at the same time.
   */
  lemma {:induction false} LcmIsCommonMultiple(nums: seq<nat>)
    requires |nums| >= 1 && forall k :: 0 <= k < |nums| ==> nums[k] > 0
    ensures Lcm(nums).Some? && Lcm(nums).value > 0
    ensures forall k :: 0 <= k < |nums| ==> Divides(nums[k], Lcm(nums).value)
    decreases |nums|
  {
    if |nums| == 1 {
      assert nums[0] == nums[0] * 1;
    } else {
      var rest := nums[1..];
      LcmIsCommonMultiple(rest);
      var a, b := nums[0], Lcm(rest).value;
      PairMultiple(a, b);
      var m := a * b / Gcd(a, b);
      assert Lcm(nums) == Some(m);
      forall k | 0 <= k < |nums|
        ensures Divides(nums[k], m)
      {
        if k > 0 {
          assert rest[k - 1] == nums[k];
          DividesTrans(nums[k], b, m);
        }
      }
    }
  }

  /** Both step counts 0: the gcd is 0 and the division panics. */
  lemma LcmOfZeros()
    ensures Lcm([0, 0]) == None
  {
    assert [0, 0][1..] == [0];
  }

  /** Examples: gcd(12, 18) = 6, and the lcm of 2, 3 and 4 is 12. */
  lemma Examples()
    ensures Gcd(12, 18) == 6
    ensures Lcm([2, 3, 4]) == Some(12)
  {
    assert [2, 3, 4][1..] == [3, 4];
    assert [3, 4][1..] == [4];
    assert Gcd(3, 4) == 1;
    assert Lcm([3, 4]) == Some(12);
    assert Gcd(2, 12) == 2;
  }
}

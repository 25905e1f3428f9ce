/** Decimal rounding on exact integers.

    A decimal quantity is an integer count of some unit; dividing by `d` moves it to
    a unit `d` times coarser. `HalfUp` is decimal.ROUND_HALF_UP (ties away from zero),
    `HalfEven` is decimal.ROUND_HALF_EVEN, the default of `quantize`. */
module Rounding {

  function HalfUp(n: int, d: int): int
    requires 0 < d
  {
    if 0 <= n then (2 * n + d) / (2 * d) else -((2 * -n + d) / (2 * d))
  }

  function HalfEven(n: int, d: int): int
    requires 0 < d
  {
    var q, r := n / d, n % d;
    if 2 * r < d then q
    else if 2 * r > d then q + 1
    else if q % 2 == 0 then q else q + 1
  }

  function Abs(x: int): nat {
    if x < 0 then -x else x
  }

  /** r is an integer closest to n / d. */
  ghost predicate Nearest(n: int, d: int, r: int) {
    -d <= 2 * (r * d - n) <= d
  }

  /** Multiples of d are at least d apart. */
  lemma StepApart(r: int, s: int, d: int)
    requires 0 < d && r < s
    ensures r * d + d <= s * d
  {
    assert (s - r - 1) * d >= 0;
    assert (s - r - 1) * d == s * d - r * d - d;
  }

  lemma Distribute(a: int, b: int, c: int)
    ensures (a + b) * c == a * c + b * c
    ensures (a - b) * c == a * c - b * c
    ensures (-a) * c == -(a * c)
  {
  }

  lemma ProductOrder(a: int, b: int, c: int)
    requires a <= b && 0 <= c
    ensures a * c <= b * c
  {
    assert (b - a) * c >= 0;
    Distribute(b, a, c);
  }

  lemma QuotientBelow(c: int, p: int, n: int)
    requires 0 < p
    ensures c / p < n <==> c < n * p
  {
    var r := c % p;
    assert c == (c / p) * p + r;
    if c / p < n {
      ProductOrder(c / p + 1, n, p);
      Distribute(c / p, 1, p);
    } else {
      ProductOrder(n, c / p, p);
    }
  }

  /** Each mode returns a nearest integer; on a tie HalfUp takes the one farther from
      zero and HalfEven the even one. Together with Nearest this fixes both modes. */
  lemma RoundsToNearest(n: int, d: int)
    requires 0 < d
    ensures Nearest(n, d, HalfUp(n, d))
    ensures Nearest(n, d, HalfEven(n, d))
    ensures Abs(2 * (HalfUp(n, d) * d - n)) == d ==> Abs(n) < Abs(HalfUp(n, d) * d)
    ensures Abs(2 * (HalfEven(n, d) * d - n)) == d ==> HalfEven(n, d) % 2 == 0
  {
    HalfUpNearest(n, d);
    HalfEvenNearest(n, d);
  }

  lemma HalfUpNearest(n: int, d: int)
    requires 0 < d
    ensures Nearest(n, d, HalfUp(n, d))
    ensures Abs(2 * (HalfUp(n, d) * d - n)) == d ==> Abs(n) < Abs(HalfUp(n, d) * d)
  {
    var m := Abs(n);
    var q, t := (2 * m + d) / (2 * d), (2 * m + d) % (2 * d);
    assert 2 * m + d == q * (2 * d) + t;
    var p := q * d;
    assert q * (2 * d) == 2 * p;
    assert HalfUp(n, d) == if 0 <= n then q else -q;
    assert (-q) * d == -p;
    assert HalfUp(n, d) * d == if 0 <= n then p else -p;
  }

  lemma HalfEvenNearest(n: int, d: int)
    requires 0 < d
    ensures Nearest(n, d, HalfEven(n, d))
    ensures Abs(2 * (HalfEven(n, d) * d - n)) == d ==> HalfEven(n, d) % 2 == 0
  {
    var q, r := n / d, n % d;
    var p := q * d;
    assert n == p + r;
    assert (q + 1) * d == p + d;
  }

  /** A nearest integer that is not a tie is unique. */
  lemma NearestUnique(n: int, d: int, r: int, s: int)
    requires 0 < d && Nearest(n, d, r) && Nearest(n, d, s)
    requires Abs(2 * (r * d - n)) != d
    ensures r == s
  {
    if r < s {
      StepApart(r, s, d);
    } else if s < r {
      StepApart(s, r, d);
    }
  }

  lemma HalfUpOdd(n: int, d: int)
    requires 0 < d
    ensures HalfUp(-n, d) == -HalfUp(n, d)
  {
    if n == 0 {
      assert (2 * n + d) / (2 * d) == 0;
    }
  }

  lemma Monotone(n1: int, n2: int, d: int)
    requires 0 < d && n1 <= n2
    ensures HalfUp(n1, d) <= HalfUp(n2, d)
    ensures HalfEven(n1, d) <= HalfEven(n2, d)
  {
    RoundsToNearest(n1, d);
    RoundsToNearest(n2, d);
    NearestOrder(n1, n2, d, HalfUp(n1, d), HalfUp(n2, d));
    NearestOrder(n1, n2, d, HalfEven(n1, d), HalfEven(n2, d));
  }

  /** Nearest integers can only be out of order when the two inputs coincide. */
  lemma NearestOrder(n1: int, n2: int, d: int, r1: int, r2: int)
    requires 0 < d && n1 <= n2 && Nearest(n1, d, r1) && Nearest(n2, d, r2)
    ensures r1 <= r2 || n1 == n2
  {
    if r1 > r2 {
      StepApart(r2, r1, d);
    }
  }

  /** A value already on the coarse grid is unchanged. */
  lemma Exact(r: int, d: int)
    requires 0 < d
    ensures HalfUp(r * d, d) == r && HalfEven(r * d, d) == r
  {
    RoundsToNearest(r * d, d);
    assert Nearest(r * d, d, r);
    NearestUnique(r * d, d, r, HalfUp(r * d, d));
    NearestUnique(r * d, d, r, HalfEven(r * d, d));
  }

  function Pow10(k: nat): (p: int)
    ensures 0 < p
  {
    if k == 0 then 1 else 10 * Pow10(k - 1)
  }

  lemma {:induction false} Pow10Add(a: nat, b: nat)
    ensures Pow10(a + b) == Pow10(a) * Pow10(b)
  {
    if a == 0 {
      assert a + b == b;
    } else {
      Pow10Add(a - 1, b);
      assert Pow10(a + b) == 10 * Pow10(a - 1 + b);
      assert 10 * (Pow10(a - 1) * Pow10(b)) == (10 * Pow10(a - 1)) * Pow10(b);
    }
  }
}

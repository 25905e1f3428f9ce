/** Decimal strings, and the byte order the database sorts them in. */
module Digits {
  import opened Rounding

  function Digit(d: nat): char
    requires d < 10
  {
    "0123456789"[d]
  }

  predicate IsDigit(c: char) {
    '0' <= c <= '9'
  }

  predicate AllDigits(s: string) {
    forall c <- s :: IsDigit(c)
  }

  /** The last w decimal digits of n. */
  function Padded(n: nat, w: nat): (s: string)
    ensures |s| == w && AllDigits(s)
    decreases w
  {
    if w == 0 then "" else Padded(n / 10, w - 1) + [Digit(n % 10)]
  }

  function Width(n: nat): (w: nat)
    ensures 0 < w
  {
    if n < 10 then 1 else 1 + Width(n / 10)
  }

  /** str(n) */
  function Decimal(n: nat): string {
    Padded(n, Width(n))
  }

  /** f"{n:0wd}" */
  function ZeroPadded(n: nat, w: nat): string {
    Padded(n, if w < Width(n) then Width(n) else w)
  }

  /** int(s) */
  function Value(s: string): nat
    requires AllDigits(s)
  {
    if s == "" then 0
    else
      var c := s[|s| - 1];
      assert IsDigit(c);
      10 * Value(s[..|s| - 1]) + (c as int - '0' as int)
  }

  predicate StartsWith(s: string, prefix: string) {
    |prefix| <= |s| && s[..|prefix|] == prefix
  }

  /** Byte order. */
  predicate Less(a: string, b: string) {
    if b == "" then false
    else if a == "" then true
    else a[0] < b[0] || (a[0] == b[0] && Less(a[1..], b[1..]))
  }

  lemma {:induction false} ValuePadded(n: nat, w: nat)
    requires n < Pow10(w)
    ensures Value(Padded(n, w)) == n
    decreases w
  {
    if w != 0 {
      ValuePadded(n / 10, w - 1);
      assert Padded(n, w)[..w - 1] == Padded(n / 10, w - 1);
    }
  }

  lemma {:induction false} WidthBound(n: nat)
    ensures n < Pow10(Width(n))
    ensures n != 0 ==> Pow10(Width(n) - 1) <= n
  {
    if 10 <= n {
      WidthBound(n / 10);
    }
  }

  /** Printing and reading back. */
  lemma ValueRoundTrip(n: nat, w: nat)
    ensures Value(Decimal(n)) == n && Value(ZeroPadded(n, w)) == n
  {
    WidthBound(n);
    ValuePadded(n, Width(n));
    if Width(n) <= w {
      PowGrows(Width(n), w);
      ValuePadded(n, w);
    }
  }

  lemma {:induction false} PowGrows(v: nat, w: nat)
    requires v <= w
    ensures Pow10(v) <= Pow10(w)
  {
    if v < w {
      PowGrows(v, w - 1);
    }
  }

  lemma {:induction false} LessAppend(a: string, b: string, c: char, d: char)
    requires |a| == |b|
    ensures Less(a + [c], b + [d]) <==> Less(a, b) || (a == b && c < d)
  {
    if a != "" {
      assert (a + [c])[1..] == a[1..] + [c] && (b + [d])[1..] == b[1..] + [d];
      LessAppend(a[1..], b[1..], c, d);
      assert a == [a[0]] + a[1..] && b == [b[0]] + b[1..];
    }
  }

  lemma {:induction false} LessUnderPrefix(p: string, a: string, b: string)
    ensures Less(p + a, p + b) <==> Less(a, b)
  {
    if p == "" {
      assert p + a == a && p + b == b;
    } else {
      assert (p + a)[1..] == p[1..] + a && (p + b)[1..] == p[1..] + b;
      LessUnderPrefix(p[1..], a, b);
    }
  }

  /** Among zero-padded numbers of one width, string order is numeric order. */
  lemma {:induction false} LessIsNumeric(m: nat, n: nat, w: nat)
    requires m < Pow10(w) && n < Pow10(w)
    ensures Less(Padded(m, w), Padded(n, w)) <==> m < n
    decreases w
  {
    if w != 0 {
      LessIsNumeric(m / 10, n / 10, w - 1);
      LessAppend(Padded(m / 10, w - 1), Padded(n / 10, w - 1), Digit(m % 10), Digit(n % 10));
      ValuePadded(m / 10, w - 1);
      ValuePadded(n / 10, w - 1);
    }
  }
}

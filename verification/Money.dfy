/** backend/core/money.py: money at four decimals, rounded half up. */
module MoneyModel {
  import opened Rounding

  /** A Python Decimal: coeff / 10^scale. */
  datatype Decimal = Decimal(coeff: int, scale: nat)

  /** `amount` counts ten-thousandths of a rupee. */
  datatype Money = Money(amount: int)

  const ZERO := Money(0)

  /** Money.from_str and the re-quantizing constructor. */
  function FromDecimal(d: Decimal): Money {
    Money(HalfUp(d.coeff * Pow10(4), Pow10(d.scale)))
  }

  function ToDecimal(m: Money): Decimal {
    Decimal(m.amount, 4)
  }

  function FromPaisa(paisa: int): Money {
    FromDecimal(Decimal(paisa, 2))
  }

  function Add(a: Money, b: Money): Money {
    FromDecimal(Decimal(a.amount + b.amount, 4))
  }

  function Subtract(a: Money, b: Money): Money {
    FromDecimal(Decimal(a.amount - b.amount, 4))
  }

  function Negate(a: Money): Money {
    FromDecimal(Decimal(-a.amount, 4))
  }

  function Times(a: Money, scalar: Decimal): Money {
    FromDecimal(Decimal(a.amount * scalar.coeff, 4 + scalar.scale))
  }

  /** Two-decimal display value, in hundredths. */
  function Display(m: Money): int {
    HalfUp(m.amount, 100)
  }

  /** (gross, tax) for a net amount and a rate in percent. */
  function ApplyTax(net: Money, rate: Decimal): (Money, Money) {
    var tax := Times(net, Decimal(rate.coeff, rate.scale + 2));
    (Add(net, tax), tax)
  }

  /** The exact sum, with no rounding anywhere. */
  ghost function Total(items: seq<Money>): int {
    if items == [] then 0 else Total(items[..|items| - 1]) + items[|items| - 1].amount
  }

  /** Sums of taxes computed line by line. */
  ghost function TaxByLine(nets: seq<Money>, rate: Decimal): int {
    if nets == [] then 0
    else TaxByLine(nets[..|nets| - 1], rate) + ApplyTax(nets[|nets| - 1], rate).1.amount
  }

  /** The re-quantizing constructor never moves a value that has four decimals or fewer,
      so addition, subtraction and negation are exact and a paisa is 100 units. */
  lemma ArithmeticExact(a: Money, b: Money, paisa: int)
    ensures FromDecimal(ToDecimal(a)) == a
    ensures Add(a, b).amount == a.amount + b.amount
    ensures Subtract(a, b).amount == a.amount - b.amount
    ensures Negate(a).amount == -a.amount
    ensures FromPaisa(paisa).amount == 100 * paisa
  {
    var u := Pow10(4);
    Exact(a.amount, u);
    Exact(a.amount + b.amount, u);
    Exact(a.amount - b.amount, u);
    Exact(-a.amount, u);
    Exact(100 * paisa, Pow10(2));
    assert Pow10(2) == 100 && u == 10_000;
  }

  /** Tax is net * rate / 100 to the nearest ten-thousandth, a tie away from zero, and gross minus tax gives
      the net back with no rounding residue. */
  lemma TaxNearest(net: Money, rate: Decimal)
    ensures Nearest(net.amount * rate.coeff, Pow10(rate.scale + 2), ApplyTax(net, rate).1.amount)
    ensures var n, d, tax := net.amount * rate.coeff, Pow10(rate.scale + 2), ApplyTax(net, rate).1.amount;
      Abs(2 * (tax * d - n)) == d ==> Abs(n) < Abs(tax * d)
    ensures Subtract(ApplyTax(net, rate).0, ApplyTax(net, rate).1) == net
  {
    var (gross, tax) := ApplyTax(net, rate);
    ArithmeticExact(net, tax, 0);
    ArithmeticExact(gross, tax, 0);
    TaxRounds(net, rate);
    RoundsToNearest(net.amount * rate.coeff, Pow10(rate.scale + 2));
  }

  /** The four guard decimals carried by a product cancel out of the rounding. */
  lemma TaxRounds(net: Money, rate: Decimal)
    ensures ApplyTax(net, rate).1.amount == HalfUp(net.amount * rate.coeff, Pow10(rate.scale + 2))
  {
    var n, d, u := net.amount * rate.coeff, Pow10(rate.scale + 2), Pow10(4);
    Pow10Add(4, rate.scale + 2);
    assert 4 + (rate.scale + 2) == 4 + Decimal(rate.coeff, rate.scale + 2).scale;
    HalfUpScales(n, d, u);
  }

  lemma HalfUpScales(n: int, d: int, u: int)
    requires 0 < d && 0 < u
    ensures 0 < u * d
    ensures HalfUp(n * u, u * d) == HalfUp(n, d)
  {
    StepApart(0, u, d);
    SignScales(n, u);
    Regroup(Abs(n), d, u);
    QuotientScales(2 * Abs(n) + d, 2 * d, u);
  }

  lemma SignScales(n: int, u: int)
    requires 0 < u
    ensures Abs(n * u) == Abs(n) * u && (0 <= n * u <==> 0 <= n)
  {
    if 0 < n { StepApart(0, n, u); } else if n < 0 { StepApart(n, 0, u); }
    Distribute(n, 0, u);
  }

  lemma Regroup(m: int, d: int, u: int)
    ensures 2 * (m * u) + u * d == (2 * m + d) * u
    ensures 2 * (u * d) == (2 * d) * u
  {
    Distribute(2 * m, d, u);
  }

  lemma QuotientScales(a: int, d: int, u: int)
    requires 0 < d && 0 < u
    ensures 0 < d * u && (a * u) / (d * u) == a / d
  {
    var q, t := a / d, a % d;
    StepApart(0, d, u);
    assert a * u == (d * u) * q + t * u by {
      assert a == d * q + t;
      assert (d * q + t) * u == (d * u) * q + t * u;
    }
    StepApart(t, d, u);
    DivisionUnique(a * u, d * u, q, t * u);
  }

  lemma DivisionUnique(a: int, d: int, q: int, r: int)
    requires 0 <= r < d && a == d * q + r
    ensures a / d == q
  {
    var q', r' := a / d, a % d;
    assert a == d * q' + r';
    if q < q' {
      StepApart(q, q', d);
    } else if q' < q {
      StepApart(q', q, d);
    }
  }

  /** A dearer net never carries less tax at a non-negative rate. */
  lemma TaxMonotone(a: Money, b: Money, rate: Decimal)
    requires a.amount <= b.amount && 0 <= rate.coeff
    ensures ApplyTax(a, rate).1.amount <= ApplyTax(b, rate).1.amount
  {
    TaxRounds(a, rate);
    TaxRounds(b, rate);
    ProductOrder(a.amount, b.amount, rate.coeff);
    Monotone(a.amount * rate.coeff, b.amount * rate.coeff, Pow10(rate.scale + 2));
  }

  /** Refunding a net refunds exactly the tax that selling it charged. */
  lemma TaxOdd(net: Money, rate: Decimal)
    ensures ApplyTax(Negate(net), rate).1 == Negate(ApplyTax(net, rate).1)
    ensures ApplyTax(Negate(net), rate).0 == Negate(ApplyTax(net, rate).0)
  {
    var (gross, tax) := ApplyTax(net, rate);
    ArithmeticExact(net, tax, 0);
    ArithmeticExact(tax, tax, 0);
    ArithmeticExact(gross, tax, 0);
    ArithmeticExact(Negate(net), Negate(tax), 0);
    TaxRounds(net, rate);
    TaxRounds(Negate(net), rate);
    Distribute(net.amount, 0, rate.coeff);
    HalfUpOdd(net.amount * rate.coeff, Pow10(rate.scale + 2));
  }

  /** The receipt shows a value within half a paisa of the stored one, a tie away from zero. */
  lemma DisplayWithinHalfPaisa(m: Money)
    ensures Abs(100 * Display(m) - m.amount) <= 50
    ensures Abs(100 * Display(m) - m.amount) == 50 ==> Abs(m.amount) < Abs(100 * Display(m))
  {
    RoundsToNearest(m.amount, 100);
  }

  /** Rounding line by line and rounding the total differ by at most half a unit for
      each line plus half a unit for the total. */
  lemma TaxByLineDrift(nets: seq<Money>, rate: Decimal)
    ensures 2 * Abs(TaxByLine(nets, rate) - ApplyTax(Money(Total(nets)), rate).1.amount) <= |nets| + 1
  {
    var net := Money(Total(nets));
    TaxNearest(net, rate);
    ByLineWithin(nets, rate);
    Triangle(TaxByLine(nets, rate), ApplyTax(net, rate).1.amount, Total(nets) * rate.coeff,
             Pow10(rate.scale + 2), |nets|);
  }

  /** r within n halves of e / d, and s within one half of it. */
  lemma Triangle(r: int, s: int, e: int, d: int, n: nat)
    requires 0 < d && 2 * Abs(r * d - e) <= n * d && Nearest(e, d, s)
    ensures 2 * Abs(r - s) <= n + 1
  {
    Distribute(r, s, d);
    Distribute(r - s, r - s, d);
    Distribute(n, 1, d);
    Distribute(n + 1, 0, d);
    if 2 * (r - s) > n + 1 {
      StepApart(n + 1, 2 * (r - s), d);
    } else if 2 * (r - s) < -(n + 1) {
      StepApart(2 * (r - s), -(n + 1), d);
    }
  }

  lemma {:induction false} ByLineWithin(nets: seq<Money>, rate: Decimal)
    ensures 2 * Abs(TaxByLine(nets, rate) * Pow10(rate.scale + 2) - Total(nets) * rate.coeff)
            <= |nets| * Pow10(rate.scale + 2)
  {
    var d := Pow10(rate.scale + 2);
    if nets != [] {
      var front, last := nets[..|nets| - 1], nets[|nets| - 1];
      ByLineWithin(front, rate);
      TaxNearest(last, rate);
      Distribute(TaxByLine(front, rate), ApplyTax(last, rate).1.amount, d);
      Distribute(Total(front), last.amount, rate.coeff);
      Distribute(|front|, 1, d);
    }
  }

  /** sum_money: the running total of re-quantized additions is the exact sum. */
  method SumMoney(items: seq<Money>) returns (total: Money)
    ensures total.amount == Total(items)
  {
    total := ZERO;
    for i := 0 to |items|
      invariant total.amount == Total(items[..i])
    {
      ArithmeticExact(total, items[i], 0);
      assert items[..i + 1][..i] == items[..i];
      total := Add(total, items[i]);
    }
    assert items[..|items|] == items;
  }
}

/** backend/apps/fbr/mock_pral.py, lines 132-209: the acceptor for built payloads. */
module MockGateway {
  import opened Environments
  import opened Wrappers
  import opened Rounding
  import opened Calendar
  import opened Digits
  import opened Builder
  import MoneyModel

  function LeadingDigits(s: string): (n: nat)
    ensures n <= |s|
  {
    if s != "" && IsDigit(s[0]) then 1 + LeadingDigits(s[1..]) else 0
  }

  /** One or two digits, optionally a point and more digits, then a percent sign. */
  predicate PercentGrammar(s: string) {
    s != "" && s[|s| - 1] == '%'
    && var body := s[..|s| - 1];
      var n := LeadingDigits(body);
      var rest := body[n..];
      1 <= n <= 2 && (rest == "" || (rest[0] == '.' && 1 < |rest| && AllDigits(rest[1..])))
  }

  predicate RateGrammar(s: string) {
    PercentGrammar(s) || s == "Exempt"
  }

  predicate RatesInGrammar(items: seq<WireItem>) {
    forall item <- items :: RateGrammar(item.rate)
  }

  predicate NtnGrammar(s: string) {
    7 <= |s| <= 13 && AllDigits(s)
  }

  /** The date pattern together with date.fromisoformat. */
  function ParseDate(s: string): Option<Date> {
    if |s| != 10 || s[4] != '-' || s[7] != '-'
       || !AllDigits(s[..4]) || !AllDigits(s[5..7]) || !AllDigits(s[8..]) then None
    else
      var d := Date(Value(s[..4]), Value(s[5..7]), Value(s[8..]));
      if ValidDate(d) && 1 <= d.year then Some(d) else None
  }

  datatype Verdict = Accept | Reject(code: string)

  /** _validate_payload for a payload with all required keys. */
  function Validate(p: Payload, today: Date): Verdict
    requires ValidDate(today)
  {
    var date := ParseDate(p.invoiceDate);
    if date.None? then Reject("0004")
    else if DayNumber(date.value) > DayNumber(today) then Reject("0005")
    else if DayNumber(today) - DayNumber(date.value) > 3 then Reject("0006")
    else if !NtnGrammar(p.sellerNTNCNIC) then Reject("0007")
    else if p.buyerRegistrationType == "Unregistered" && p.buyerNTNCNIC != WALK_IN_NTN_CNIC then Reject("0008")
    else if p.buyerRegistrationType != "Unregistered" && !NtnGrammar(p.buyerNTNCNIC) then Reject("0009")
    else if p.scenarioId.GetOr("") == "" then Reject("0010")
    else if p.items == [] then Reject("0011")
    else if !RatesInGrammar(p.items) then Reject("0014")
    else Accept
  }

  /** can_use_invoice_date (backend/apps/fbr/rules.py, lines 26-41). */
  predicate CanUseInvoiceDate(date: Date, today: Date)
    requires ValidDate(date) && ValidDate(today)
  {
    DayNumber(date) <= DayNumber(today) && DayNumber(today) - DayNumber(date) <= 3
  }

  // ---- Rates ---------------------------------------------------------------

  /** The number a formatted rate spells, as a decimal. */
  function ParsePercent(s: string): MoneyModel.Decimal
    requires PercentGrammar(s)
  {
    var body := s[..|s| - 1];
    var n := LeadingDigits(body);
    LeadingAreDigits(body);
    if n == |body| then MoneyModel.Decimal(Value(body), 0)
    else
      var fraction := body[n + 1..];
      MoneyModel.Decimal(Value(body[..n]) * Pow10(|fraction|) + Value(fraction), |fraction|)
  }

  ghost predicate SameValue(a: MoneyModel.Decimal, b: MoneyModel.Decimal) {
    a.coeff * Pow10(b.scale) == b.coeff * Pow10(a.scale)
  }

  lemma {:induction false} LeadingAreDigits(s: string)
    ensures AllDigits(s[..LeadingDigits(s)])
  {
    if s != "" && IsDigit(s[0]) {
      LeadingAreDigits(s[1..]);
      assert s[..LeadingDigits(s)] == [s[0]] + s[1..][..LeadingDigits(s[1..])];
    }
  }

  /** Digits followed by something that is not one. */
  lemma {:induction false} LeadingIs(digits: string, rest: string)
    requires AllDigits(digits) && (rest == "" || !IsDigit(rest[0]))
    ensures LeadingDigits(digits + rest) == |digits|
  {
    var s := digits + rest;
    if digits == "" {
      assert s == rest;
    } else {
      assert s[1..] == digits[1..] + rest;
      assert IsDigit(digits[0]);
      LeadingIs(digits[1..], rest);
    }
  }

  lemma {:induction false} NormalizedMeans(d: MoneyModel.Decimal)
    ensures Normalized(d).scale <= d.scale
    ensures d.coeff == Normalized(d).coeff * Pow10(d.scale - Normalized(d).scale)
    decreases d.scale
  {
    if d.scale != 0 && d.coeff % 10 == 0 {
      var e := MoneyModel.Decimal(d.coeff / 10, d.scale - 1);
      NormalizedMeans(e);
      var k := e.scale - Normalized(e).scale;
      assert Pow10(k + 1) == 10 * Pow10(k);
      assert d.coeff == 10 * (Normalized(e).coeff * Pow10(k));
    }
  }

  /** The grammar admits an unsigned number exactly when its integer part is below 100. */
  lemma WidthAtMostTwo(n: nat)
    ensures Width(n) <= 2 <==> n < 100
  {
  }

  lemma WholeRate(m: nat)
    ensures PercentGrammar(Decimal(m) + "%") <==> m < 100
    ensures m < 100 ==> ParsePercent(Decimal(m) + "%") == MoneyModel.Decimal(m, 0)
  {
    var s := Decimal(m) + "%";
    assert s[..|s| - 1] == Decimal(m);
    LeadingIs(Decimal(m), "");
    assert Decimal(m) + "" == Decimal(m);
    WidthAtMostTwo(m);
    ValueRoundTrip(m, 0);
  }

  /** digits "." fraction "%" */
  lemma PointedShape(digits: string, fraction: string)
    requires AllDigits(digits) && AllDigits(fraction) && digits != "" && fraction != ""
    ensures var s := digits + "." + fraction + "%";
      && (PercentGrammar(s) <==> |digits| <= 2)
      && (PercentGrammar(s) ==>
            ParsePercent(s) == MoneyModel.Decimal(Value(digits) * Pow10(|fraction|) + Value(fraction), |fraction|))
  {
    var rest := "." + fraction;
    var s := digits + "." + fraction + "%";
    var body := s[..|s| - 1];
    assert body == digits + rest;
    LeadingIs(digits, rest);
    assert body[|digits|..] == rest && rest[1..] == fraction;
    assert body[..|digits|] == digits;
    assert body[|digits| + 1..] == fraction;
  }

  /** A point needs digits after it. */
  lemma BarePoint(digits: string)
    requires AllDigits(digits)
    ensures !PercentGrammar(digits + "." + "%")
  {
    var s := digits + "." + "%";
    assert s[..|s| - 1] == digits + ".";
    LeadingIs(digits, ".");
    assert (digits + ".")[|digits|..] == ".";
  }

  /** Any other payload is rejected for its date exactly when that is not a real one. */
  lemma DateRejected(p: Payload, today: Date)
    requires ValidDate(today)
    ensures Validate(p, today) == Reject("0004") <==> ParseDate(p.invoiceDate).None?
  {
  }

  lemma PointRate(m: nat, p: nat, scale: nat)
    requires 0 < scale && p == Pow10(scale)
    ensures var s := Plain(m, p, scale) + "%";
      && (PercentGrammar(s) <==> m / p < 100)
      && (PercentGrammar(s) ==> ParsePercent(s) == MoneyModel.Decimal(m, scale))
  {
    Split(m, p);
    var whole, part := m / p, m % p;
    var digits, fraction := Decimal(whole), Padded(part, scale);
    PointedShape(digits, fraction);
    WidthAtMostTwo(whole);
    ValueRoundTrip(whole, 0);
    ValuePadded(part, scale);
    assert Plain(m, p, scale) + "%" == digits + "." + fraction + "%";
  }

  lemma Split(m: nat, p: nat)
    requires 0 < p
    ensures 0 <= m / p && 0 <= m % p < p && (m / p) * p + m % p == m
  {
  }

  lemma FormattedRate(d: MoneyModel.Decimal)
    requires 0 <= d.coeff
    ensures var s := Plain(d.coeff, Pow10(d.scale), d.scale) + "%";
      && (PercentGrammar(s) <==> d.coeff / Pow10(d.scale) < 100)
      && (PercentGrammar(s) ==> ParsePercent(s) == d)
  {
    if d.scale == 0 {
      WholeRate(d.coeff);
    } else {
      PointRate(d.coeff, Pow10(d.scale), d.scale);
    }
  }

  /** A formatted rate lies in the gateway's grammar exactly when 0 <= rate < 100, and then
      it reads back as the same number. */
  lemma RateRoundTrip(rate: MoneyModel.Decimal)
    ensures RateGrammar(FormatRate(rate)) <==> 0 <= rate.coeff < 100 * Pow10(rate.scale)
    ensures PercentGrammar(FormatRate(rate)) ==> SameValue(ParsePercent(FormatRate(rate)), rate)
  {
    var d := Normalized(rate);
    var s := FormatRate(rate);
    NormalizedScales(rate);
    assert s[|s| - 1] == '%';
    if d.coeff < 0 {
      assert s[0] == '-';
    } else {
      assert s == Plain(d.coeff, Pow10(d.scale), d.scale) + "%";
      FormattedRate(d);
    }
  }

  /** A negative rate is spelled as the positive one after a minus sign. */
  lemma NegativeRate(rate: MoneyModel.Decimal)
    requires rate.coeff < 0
    ensures FormatRate(rate) == "-" + FormatRate(MoneyModel.Decimal(-rate.coeff, rate.scale))
  {
    NormalizedOdd(rate);
    NormalizedMeans(rate);
  }

  lemma {:induction false} NormalizedOdd(d: MoneyModel.Decimal)
    ensures Normalized(MoneyModel.Decimal(-d.coeff, d.scale))
         == MoneyModel.Decimal(-Normalized(d).coeff, Normalized(d).scale)
    decreases d.scale
  {
    if d.scale != 0 && d.coeff % 10 == 0 {
      assert (-d.coeff) / 10 == -(d.coeff / 10);
      NormalizedOdd(MoneyModel.Decimal(d.coeff / 10, d.scale - 1));
    }
  }

  lemma NormalizedScales(rate: MoneyModel.Decimal)
    ensures var d := Normalized(rate);
      && SameValue(d, rate)
      && (0 <= rate.coeff < 100 * Pow10(rate.scale) <==> 0 <= d.coeff && d.coeff / Pow10(d.scale) < 100)
  {
    var d := Normalized(rate);
    NormalizedMeans(rate);
    var k := rate.scale - d.scale;
    Pow10Add(d.scale, k);
    ScaledRate(rate.coeff, d.coeff, Pow10(d.scale), Pow10(k), Pow10(rate.scale));
  }

  lemma ScaledRate(coeff: int, c: int, p: int, q: int, pq: int)
    requires 0 < p && 0 < q && coeff == c * q && pq == p * q
    ensures c * pq == coeff * p
    ensures 0 <= coeff < 100 * pq <==> 0 <= c && c / p < 100
  {
    RateBounds(coeff, c, p, q);
    Reassociate(c, p, q);
  }

  lemma Reassociate(c: int, p: int, q: int)
    ensures c * (p * q) == (c * q) * p
  {
  }

  lemma RateBounds(coeff: int, c: int, p: int, q: int)
    requires 0 < p && 0 < q && coeff == c * q
    ensures 0 <= coeff < 100 * (p * q) <==> 0 <= c && c / p < 100
  {
    if 0 < c { StepApart(0, c, q); } else if c < 0 { StepApart(c, 0, q); }
    assert 100 * (p * q) == (100 * p) * q;
    if c < 100 * p { StepApart(c, 100 * p, q); } else { ProductOrder(100 * p, c, q); }
    QuotientBelow(c, p, 100);
  }

  // ---- Payloads ------------------------------------------------------------

  predicate RateAcceptable(l: Line) {
    ExemptGoods(SaleType(l)) || 0 <= l.taxRate < 10_000
  }

  lemma LineRateAccepted(l: Line)
    ensures RateGrammar(BuildItem(l).rate) <==> RateAcceptable(l)
  {
    RateRoundTrip(RateOf(l));
    assert Pow10(2) == 100;
  }

  lemma FieldsReadBack(d: Date)
    requires ValidDate(d) && d.year <= 9999
    ensures Value(Padded(d.year, 4)) == d.year
    ensures Value(Padded(d.month, 2)) == d.month && Value(Padded(d.day, 2)) == d.day
  {
    assert Pow10(4) == 10_000 && Pow10(2) == 100;
    ValuePadded(d.year, 4);
    ValuePadded(d.month, 2);
    ValuePadded(d.day, 2);
  }

  lemma DateRoundTrips(d: Date)
    requires ValidDate(d) && 1 <= d.year <= 9999
    ensures ParseDate(IsoFormat(d)) == Some(d)
  {
    var s := IsoFormat(d);
    FieldsReadBack(d);
    assert s[..4] == Padded(d.year, 4) && s[5..7] == Padded(d.month, 2) && s[8..] == Padded(d.day, 2);
  }

  predicate BuyerConsistent(inv: Invoice) {
    var ntn := Otherwise(inv.buyerNtn, WALK_IN_NTN_CNIC);
    if Otherwise(inv.buyerRegistration, "Unregistered") == "Unregistered"
    then ntn == WALK_IN_NTN_CNIC else NtnGrammar(ntn)
  }

  lemma RatesAccepted(lines: seq<Line>)
    ensures RatesInGrammar(BuildItems(lines)) <==> forall l <- lines :: RateAcceptable(l)
  {
    var items := BuildItems(lines);
    forall j | 0 <= j < |lines| ensures RateGrammar(items[j].rate) <==> RateAcceptable(lines[j]) {
      LineRateAccepted(lines[j]);
    }
    if RatesInGrammar(items) {
      forall l <- lines ensures RateAcceptable(l) {
        var j :| 0 <= j < |lines| && lines[j] == l;
        assert items[j] in items;
      }
    } else {
      var item :| item in items && !RateGrammar(item.rate);
      var j :| 0 <= j < |items| && items[j] == item;
      assert lines[j] in lines;
    }
  }

  /** Seven to thirteen ASCII digits. */
  predicate TaxNumber(s: string) {
    7 <= |s| <= 13 && forall c <- s :: '0' <= c <= '9'
  }

  /** The verdict on any built payload, code by code: the first complaint decides. */
  lemma VerdictExactly(inv: Invoice, environment: Environment, scenarioId: string, today: Date)
    requires ValidDate(today) && ValidDate(inv.invoiceDate) && 1 <= inv.invoiceDate.year <= 9999
    requires BuildPayload(inv, environment, scenarioId).Some?
    ensures var age := DayNumber(today) - DayNumber(inv.invoiceDate);
      var walkIn := inv.buyerRegistration in {"", "Unregistered"};
      Validate(BuildPayload(inv, environment, scenarioId).value, today) ==
        if age < 0 then Reject("0005")
        else if 3 < age then Reject("0006")
        else if !TaxNumber(inv.sellerNtn) then Reject("0007")
        else if walkIn && inv.buyerNtn !in {"", "0000000000000"} then Reject("0008")
        else if !walkIn && inv.buyerNtn != "" && !TaxNumber(inv.buyerNtn) then Reject("0009")
        else if environment == Production || scenarioId == "" then Reject("0010")
        else if LiveLines(inv.lines) == [] then Reject("0011")
        else if exists l <- LiveLines(inv.lines) :: !ExemptGoods(SaleType(l)) && !(0 <= l.taxRate < 10_000)
          then Reject("0014")
        else Accept
  {
    DateRoundTrips(inv.invoiceDate);
    RatesAccepted(LiveLines(inv.lines));
  }

  /** Exactly which built sandbox payloads the gateway accepts. */
  lemma SandboxAcceptance(inv: Invoice, scenarioId: string, today: Date)
    requires ValidDate(today) && ValidDate(inv.invoiceDate) && 1 <= inv.invoiceDate.year <= 9999
    requires scenarioId != ""
    ensures Validate(BuildPayload(inv, Sandbox, scenarioId).value, today) == Accept
       <==> && CanUseInvoiceDate(inv.invoiceDate, today)
            && NtnGrammar(inv.sellerNtn) && BuyerConsistent(inv)
            && LiveLines(inv.lines) != []
            && forall l <- LiveLines(inv.lines) :: RateAcceptable(l)
  {
    DateRoundTrips(inv.invoiceDate);
    RatesAccepted(LiveLines(inv.lines));
  }

  /** Every production-shaped payload is refused, so the mock can never accept an edit: the
      edit service builds production payloads, which carry no scenarioId. */
  lemma ProductionRefused(inv: Invoice, scenarioId: string, today: Date)
    requires ValidDate(today)
    ensures Validate(BuildPayload(inv, Production, scenarioId).value, today).Reject?
  {
  }
}

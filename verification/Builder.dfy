/** backend/apps/fbr/builder.py: an invoice as the gateway's wire format. */
module Builder {
  import opened Environments
  import opened Wrappers
  import opened Rounding
  import opened Calendar
  import opened Digits
  import MoneyModel

  /** What build_item reads from a line. Money counts ten-thousandths of a rupee, the tax
      rate hundredths of a percent. */
  datatype Line = Line(
    taxRate: int, lineTotal: int, taxAmount: int, furtherTax: int, fed: int,
    fixedNotified: Option<int>, saleType: string, hsCode: string, cancelled: bool)

  /** The fields of a wire item that depend on arithmetic or on the sale type; money in
      paisa. */
  datatype WireItem = WireItem(
    rate: string, totalValues: int, valueSalesExcludingST: int,
    fixedNotifiedValueOrRetailPrice: int, salesTaxApplicable: int,
    furtherTax: int, fedPayable: int, saleType: string)

  // ---- Money on the wire ---------------------------------------------------

  predicate RetailPriced(l: Line) {
    l.fixedNotified.Some? && 0 < l.fixedNotified.value
  }

  /** value_excl_st, sales_tax and total_values before rounding, in 10^-8 rupees. */
  function Unrounded(l: Line): (int, int, int) {
    if RetailPriced(l) then
      var retail := l.fixedNotified.value;
      (10_000 * retail, retail * l.taxRate, 10_000 * retail + retail * l.taxRate)
    else
      (10_000 * (l.lineTotal - l.taxAmount - l.furtherTax - l.fed), 10_000 * l.taxAmount, 10_000 * l.lineTotal)
  }

  /** _to_money_number: quantize with the Decimal default, half-even. */
  function ToMoneyNumber(value: int): int {
    HalfEven(value, 1_000_000)
  }

  // ---- Rates ---------------------------------------------------------------

  /** Decimal.normalize() down to scale 0: drop trailing zeros after the point. */
  function Normalized(d: MoneyModel.Decimal): MoneyModel.Decimal
    decreases d.scale
  {
    if d.scale != 0 && d.coeff % 10 == 0 then Normalized(MoneyModel.Decimal(d.coeff / 10, d.scale - 1)) else d
  }

  /** m / p in plain notation, p being the scale's power of ten. */
  function Plain(m: nat, p: nat, scale: nat): string
    requires 0 < p
  {
    if scale == 0 then Decimal(m) else Decimal(m / p) + "." + Padded(m % p, scale)
  }

  /** format_rate */
  function FormatRate(percentage: MoneyModel.Decimal): string {
    var d := Normalized(percentage);
    (if d.coeff < 0 then "-" else "") + Plain(Abs(d.coeff), Pow10(d.scale), d.scale) + "%"
  }

  function Lower(s: string): string {
    seq(|s|, j requires 0 <= j < |s| =>
      if 'A' <= s[j] <= 'Z' then (s[j] as int + 32) as char else s[j])
  }

  /** str.isspace, on which strip() is based. */
  predicate IsSpace(c: char) {
    var n := c as int;
    9 <= n <= 13 || 0x1c <= n <= 0x20 || n in {0x85, 0xa0, 0x1680, 0x2028, 0x2029, 0x202f, 0x205f, 0x3000}
    || 0x2000 <= n <= 0x200a
  }

  function Strip(s: string): string
    decreases |s|
  {
    if s != "" && IsSpace(s[0]) then Strip(s[1..])
    else if s != "" && IsSpace(s[|s| - 1]) then Strip(s[..|s| - 1])
    else s
  }

  predicate Contains(s: string, sub: string)
    decreases |s|
  {
    (|sub| <= |s| && s[..|sub|] == sub) || (s != "" && Contains(s[1..], sub))
  }

  /** The sale type a line goes out under. */
  function SaleType(l: Line): string {
    var chosen := if l.saleType != "" then l.saleType
                  else if RetailPriced(l) then "3rd Schedule Goods" else "Goods at standard rate (default)";
    var hs := Strip(l.hsCode);
    var services := 2 <= |hs| && hs[..2] == "98";
    if services && (l.saleType == "" || Contains(Lower(chosen), "goods")) then "Services" else chosen
  }

  predicate ExemptGoods(saleType: string) {
    Lower(Strip(saleType)) == "exempt goods"
  }

  function RateOf(l: Line): MoneyModel.Decimal {
    MoneyModel.Decimal(l.taxRate, 2)
  }

  /** format_line_rate */
  function FormatLineRate(percentage: MoneyModel.Decimal, saleType: string): string {
    if ExemptGoods(saleType) then "Exempt" else FormatRate(percentage)
  }

  function BuildItem(l: Line): WireItem {
    var (value, tax, total) := Unrounded(l);
    WireItem(FormatLineRate(RateOf(l), SaleType(l)),
             ToMoneyNumber(total), ToMoneyNumber(value),
             ToMoneyNumber(10_000 * l.fixedNotified.GetOr(0)), ToMoneyNumber(tax),
             ToMoneyNumber(10_000 * l.furtherTax), ToMoneyNumber(10_000 * l.fed), SaleType(l))
  }

  // ---- Conservation --------------------------------------------------------

  /** The wire parts that a line's wire total stands for; a retail-priced line leaves
      further tax and excise out of its total. */
  function PartsOf(l: Line, w: WireItem): int {
    w.valueSalesExcludingST + w.salesTaxApplicable + if RetailPriced(l) then 0 else w.furtherTax + w.fedPayable
  }

  /** How far the wire's own numbers are from adding up, in paisa. */
  function Mismatch(l: Line): nat {
    Abs(BuildItem(l).totalValues - PartsOf(l, BuildItem(l)))
  }

  /** Two paisa for an ordinary line, one for a retail-priced one. */
  function LineBound(l: Line): nat {
    if RetailPriced(l) then 1 else 2
  }

  /** Wire money is the nearest paisa, ties to even, not half-up. */
  lemma WireRounds(value: int)
    ensures Nearest(value, 1_000_000, ToMoneyNumber(value))
    ensures Abs(2 * (1_000_000 * ToMoneyNumber(value) - value)) == 1_000_000 ==> ToMoneyNumber(value) % 2 == 0
  {
    RoundsToNearest(value, 1_000_000);
  }

  /** `paisa` is the nearest to value / 10^6, the even one on a tie. */
  ghost predicate WirePaisa(value: int, paisa: int) {
    Nearest(value, 1_000_000, paisa) && (Abs(2 * (1_000_000 * paisa - value)) == 1_000_000 ==> paisa % 2 == 0)
  }

  /** Every amount on the wire is the paisa of its own field: for an ordinary line value and
      tax are the line's own, for a retail-priced one they are the retail price and the rate
      applied to it. */
  lemma WireItemExactly(l: Line)
    ensures var w := BuildItem(l);
      && WirePaisa(10_000 * l.furtherTax, w.furtherTax)
      && WirePaisa(10_000 * l.fed, w.fedPayable)
      && WirePaisa(if l.fixedNotified.Some? then 10_000 * l.fixedNotified.value else 0,
                   w.fixedNotifiedValueOrRetailPrice)
      && (if l.fixedNotified.Some? && 0 < l.fixedNotified.value then
            var retail := l.fixedNotified.value;
            && WirePaisa(10_000 * retail, w.valueSalesExcludingST)
            && WirePaisa(retail * l.taxRate, w.salesTaxApplicable)
            && WirePaisa(10_000 * retail + retail * l.taxRate, w.totalValues)
          else
            && WirePaisa(10_000 * (l.lineTotal - l.taxAmount - l.furtherTax - l.fed), w.valueSalesExcludingST)
            && WirePaisa(10_000 * l.taxAmount, w.salesTaxApplicable)
            && WirePaisa(10_000 * l.lineTotal, w.totalValues))
  {
    var (value, tax, total) := Unrounded(l);
    WireRounds(value);
    WireRounds(tax);
    WireRounds(total);
    WireRounds(10_000 * l.furtherTax);
    WireRounds(10_000 * l.fed);
    WireRounds(10_000 * l.fixedNotified.GetOr(0));
  }

  // ---- Sale types ----------------------------------------------------------

  /** The 29 characters that Python calls white space. */
  lemma SpaceExactly(c: char)
    ensures IsSpace(c) <==> c as int in {
      9, 10, 11, 12, 13, 28, 29, 30, 31, 32, 133, 160, 5760,
      8192, 8193, 8194, 8195, 8196, 8197, 8198, 8199, 8200, 8201, 8202, 8232, 8233, 8239, 8287, 12288}
  {
  }

  ghost predicate Blank(s: string) {
    forall c <- s :: IsSpace(c)
  }

  /** strip() takes the blanks off both ends and nothing else. */
  lemma {:induction false} StripExactly(s: string) returns (before: string, after: string)
    ensures s == before + Strip(s) + after && Blank(before) && Blank(after)
    ensures Strip(s) != "" ==> !IsSpace(Strip(s)[0]) && !IsSpace(Strip(s)[|Strip(s)| - 1])
    decreases |s|
  {
    before, after := "", "";
    if s != "" && IsSpace(s[0]) {
      before, after := StripExactly(s[1..]);
      Around([s[0]], s[1..], before, Strip(s[1..]), after, "");
      before := [s[0]] + before;
      assert after + "" == after;
    } else if s != "" && IsSpace(s[|s| - 1]) {
      var last := [s[|s| - 1]];
      before, after := StripExactly(s[..|s| - 1]);
      assert "" + s[..|s| - 1] + last == s;
      Around("", s[..|s| - 1], before, Strip(s[..|s| - 1]), after, last);
      assert "" + before == before;
      after := after + last;
    }
  }

  lemma Around(first: string, s: string, before: string, core: string, after: string, last: string)
    requires s == before + core + after
    ensures first + s + last == (first + before) + core + (after + last)
  {
  }

  predicate FoundAt(s: string, sub: string, i: nat) {
    i + |sub| <= |s| && s[i..i + |sub|] == sub
  }

  lemma FoundLater(s: string, sub: string, i: nat)
    requires s != ""
    ensures FoundAt(s[1..], sub, i) <==> FoundAt(s, sub, i + 1)
  {
    if i + 1 + |sub| <= |s| {
      assert s[1..][i..i + |sub|] == s[i + 1..i + 1 + |sub|];
    }
  }

  lemma {:induction false} FoundContained(s: string, sub: string, i: nat)
    requires FoundAt(s, sub, i)
    ensures Contains(s, sub)
    decreases |s|
  {
    if i == 0 {
      assert s[..|sub|] == s[0..|sub|];
    } else {
      FoundLater(s, sub, i - 1);
      FoundContained(s[1..], sub, i - 1);
    }
  }

  lemma {:induction false} ContainedFound(s: string, sub: string) returns (i: nat)
    requires Contains(s, sub)
    ensures FoundAt(s, sub, i)
    decreases |s|
  {
    if |sub| <= |s| && s[..|sub|] == sub {
      i := 0;
      assert s[0..|sub|] == s[..|sub|];
    } else {
      i := ContainedFound(s[1..], sub);
      FoundLater(s, sub, i);
      i := i + 1;
    }
  }

  /** `sub in s` */
  lemma ContainsExactly(s: string, sub: string)
    ensures Contains(s, sub) <==> exists i: nat :: FoundAt(s, sub, i)
  {
    if Contains(s, sub) {
      var i := ContainedFound(s, sub);
    }
    forall i: nat | FoundAt(s, sub, i) ensures Contains(s, sub) {
      FoundContained(s, sub, i);
    }
  }

  /** The sale type on the wire. A line whose HS code starts with 98 is a service unless it
      was given a sale type that does not speak of goods; any other line keeps the type it
      was given, or gets the one of its kind. */
  lemma SaleTypeExactly(l: Line)
    ensures var service := StartsWith(Strip(l.hsCode), "98");
      var retail := l.fixedNotified.Some? && 0 < l.fixedNotified.value;
      && (service && l.saleType == "" ==> SaleType(l) == "Services")
      && (l.saleType != "" ==>
            SaleType(l) == if service && Contains(Lower(l.saleType), "goods") then "Services" else l.saleType)
      && (!service && l.saleType == "" ==>
            SaleType(l) == if retail then "3rd Schedule Goods" else "Goods at standard rate (default)")
      && BuildItem(l).saleType == SaleType(l)
  {
  }

  /** lower() on ASCII, character by character. */
  lemma LowerExactly(s: string, j: nat)
    requires j < |s|
    ensures |Lower(s)| == |s|
    ensures Lower(s)[j] as int == s[j] as int + (if 65 <= s[j] as int <= 90 then 32 else 0)
  {
  }

  /** The rate on the wire: "Exempt" exactly for exempt goods, else the percentage. */
  lemma RateExactly(l: Line)
    ensures BuildItem(l).rate == if Lower(Strip(SaleType(l))) == "exempt goods" then "Exempt"
                                 else FormatRate(MoneyModel.Decimal(l.taxRate, 2))
  {
  }

  /** The parts add up exactly before rounding; after each is rounded on its own the
      mismatch is at most two paisa, or one for a retail-priced line. */
  lemma WireConserves(l: Line)
    ensures var (value, tax, total) := Unrounded(l);
      total == value + tax + (if RetailPriced(l) then 0 else 10_000 * l.furtherTax + 10_000 * l.fed)
    ensures Mismatch(l) <= LineBound(l) == if l.fixedNotified.Some? && 0 < l.fixedNotified.value then 1 else 2
  {
    var (value, tax, total) := Unrounded(l);
    RoundsToNearest(value, 1_000_000);
    RoundsToNearest(tax, 1_000_000);
    RoundsToNearest(total, 1_000_000);
    RoundsToNearest(10_000 * l.furtherTax, 1_000_000);
    RoundsToNearest(10_000 * l.fed, 1_000_000);
  }

  /** Both bounds are attained: four parts of 0.0049 rupees lose two paisa, and a retail
      price of 0.0049 at 100 per cent loses one. */
  lemma MismatchAttained()
    ensures Mismatch(Line(0, 196, 49, 49, 49, None, "", "", false)) == 2
    ensures Mismatch(Line(10_000, 0, 0, 0, 0, Some(49), "", "", false)) == 1
  {
  }

  function LiveLines(lines: seq<Line>): seq<Line> {
    if lines == [] then []
    else LiveLines(lines[..|lines| - 1]) + (if lines[|lines| - 1].cancelled then [] else [lines[|lines| - 1]])
  }

  function BuildItems(lines: seq<Line>): (r: seq<WireItem>)
    ensures |r| == |lines|
  {
    seq(|lines|, j requires 0 <= j < |lines| => BuildItem(lines[j]))
  }

  ghost function TotalSum(items: seq<WireItem>): int {
    if items == [] then 0 else TotalSum(items[..|items| - 1]) + items[|items| - 1].totalValues
  }

  ghost function PartsSum(lines: seq<Line>, items: seq<WireItem>): int
    requires |lines| == |items|
  {
    if items == [] then 0
    else
      PartsSum(lines[..|lines| - 1], items[..|items| - 1]) + PartsOf(lines[|lines| - 1], items[|items| - 1])
  }

  function Bound(lines: seq<Line>): (b: nat)
    ensures b <= 2 * |lines|
  {
    if lines == [] then 0 else Bound(lines[..|lines| - 1]) + LineBound(lines[|lines| - 1])
  }

  predicate NearlyAdds(l: Line, w: WireItem) {
    Abs(w.totalValues - PartsOf(l, w)) <= LineBound(l)
  }

  lemma {:induction false} SumsStayClose(lines: seq<Line>, items: seq<WireItem>)
    requires |lines| == |items| && forall j :: 0 <= j < |lines| ==> NearlyAdds(lines[j], items[j])
    ensures Abs(TotalSum(items) - PartsSum(lines, items)) <= Bound(lines)
  {
    if lines != [] {
      SumsStayClose(lines[..|lines| - 1], items[..|items| - 1]);
      assert NearlyAdds(lines[|lines| - 1], items[|items| - 1]);
    }
  }

  lemma BuiltItemsAdd(lines: seq<Line>, items: seq<WireItem>)
    requires items == BuildItems(lines)
    ensures forall j :: 0 <= j < |lines| ==> NearlyAdds(lines[j], items[j])
  {
    forall j | 0 <= j < |lines| ensures NearlyAdds(lines[j], items[j]) {
      WireConserves(lines[j]);
    }
  }

  /** Over a payload of any n lines the wire totals are within two paisa an ordinary line
      and one a retail-priced line of the parts, hence within 2n. */
  lemma PayloadConserves(lines: seq<Line>, items: seq<WireItem>)
    requires items == BuildItems(lines)
    ensures Abs(TotalSum(items) - PartsSum(lines, items)) <= Bound(lines) <= 2 * |lines|
  {
    BuiltItemsAdd(lines, items);
    SumsStayClose(lines, items);
  }

  // ---- The payload ---------------------------------------------------------

  datatype Invoice = Invoice(
    invoiceDate: Date, sellerNtn: string, buyerNtn: string, buyerRegistration: string, lines: seq<Line>)

  /** The fields the gateway inspects. The other required keys are always present. */
  datatype Payload = Payload(
    invoiceDate: string, sellerNTNCNIC: string, buyerNTNCNIC: string, buyerRegistrationType: string,
    scenarioId: Option<string>, items: seq<WireItem>)

  const WALK_IN_NTN_CNIC: string := "0000000000000"

  function Otherwise(s: string, default: string): string {
    if s == "" then default else s
  }

  /** date.isoformat() */
  function IsoFormat(d: Date): string {
    Padded(d.year, 4) + "-" + Padded(d.month, 2) + "-" + Padded(d.day, 2)
  }

  /** build_invoice_payload; None for the ValueError on a sandbox payload without scenario. */
  function BuildPayload(inv: Invoice, environment: Environment, scenarioId: string): Option<Payload> {
    if environment == Sandbox && scenarioId == "" then None
    else
      Some(Payload(
        IsoFormat(inv.invoiceDate), inv.sellerNtn,
        Otherwise(inv.buyerNtn, WALK_IN_NTN_CNIC), Otherwise(inv.buyerRegistration, "Unregistered"),
        if environment == Sandbox then Some(scenarioId) else None,
        BuildItems(LiveLines(inv.lines))))
  }

  /** Cancelled lines do not go out, all others do, in order. */
  lemma {:induction false} LiveLinesExactly(lines: seq<Line>, l: Line, rest: seq<Line>)
    ensures LiveLines([]) == []
    ensures LiveLines([l]) == if l.cancelled then [] else [l]
    ensures LiveLines(lines + rest) == LiveLines(lines) + LiveLines(rest)
    decreases |rest|
  {
    assert [l][..0] == [];
    if rest == [] {
      assert lines + rest == lines;
    } else {
      var all := lines + rest;
      assert all[..|all| - 1] == lines + rest[..|rest| - 1];
      LiveLinesExactly(lines, l, rest[..|rest| - 1]);
    }
  }

  /** What a payload carries of an invoice; a walk-in buyer has thirteen zeros. */
  lemma PayloadExactly(inv: Invoice, environment: Environment, scenarioId: string)
    ensures BuildPayload(inv, environment, scenarioId).None? <==> environment == Sandbox && scenarioId == ""
    ensures BuildPayload(inv, environment, scenarioId).Some? ==>
      var p := BuildPayload(inv, environment, scenarioId).value;
      && p.invoiceDate == IsoFormat(inv.invoiceDate) && p.sellerNTNCNIC == inv.sellerNtn
      && p.buyerNTNCNIC == (if inv.buyerNtn != "" then inv.buyerNtn else "0000000000000")
      && p.buyerRegistrationType == (if inv.buyerRegistration != "" then inv.buyerRegistration else "Unregistered")
      && p.scenarioId == (if environment == Sandbox then Some(scenarioId) else None)
      && |p.items| == |LiveLines(inv.lines)|
      && forall j :: 0 <= j < |p.items| ==> p.items[j] == BuildItem(LiveLines(inv.lines)[j])
  {
  }
}

/** The sales rows that the fiscal services read and write (backend/apps/sales/models.py).

    Money and quantities count ten-thousandths, percentages count hundredths; a product of
    a quantity and a price therefore counts 10^-8 rupees. */
module Sales {
  import opened Rounding
  import opened Wrappers

  datatype Status =
    | PendingSync | Submitted | Valid | Failed
    | Edited | PartiallyEdited
    | Cancelled | PartiallyCancelled | PartiallyEditedAndCancelled
    | Finalized

  datatype SaleItem = SaleItem(
    quantity: int, unitPrice: int,
    discountPct: int, discountAmount: int,
    taxRate: int, taxAmount: int,
    lineTotal: int,
    isEdited: bool, isCancelled: bool, editCount: nat)

  /** `number` is None for NULL; the empty string is a value of its own. `subtotal` is
      the unrounded sum of quantity * unitPrice. */
  datatype Invoice = Invoice(
    status: Status, number: Option<string>,
    submittedAt: Option<nat>, editDeadlineAt: Option<int>,
    invoiceDate: nat, annexureLinked: bool, deleted: bool,
    subtotal: int, discountTotal: int, taxTotal: int, grandTotal: int)

  /** bool(invoice.fbr_invoice_number) */
  predicate HasNumber(inv: Invoice) {
    inv.number.Some? && inv.number.value != ""
  }

  /** The editable figures of a line, as SaleItemHistory.previous_data keeps them. */
  datatype Figures = Figures(quantity: int, unitPrice: int, taxRate: int,
                             taxAmount: int, discountAmount: int, lineTotal: int)

  function FiguresOf(it: SaleItem): Figures {
    Figures(it.quantity, it.unitPrice, it.taxRate, it.taxAmount, it.discountAmount, it.lineTotal)
  }

  /** A snapshot row of sale_item_history with change_type "edit". */
  datatype HistoryRow = HistoryRow(item: nat, before: Figures)

  /** An invoice with its lines and history. `portalCancelled` is the audit entry
      "cancelled_on_fbr_portal". */
  datatype InvoiceRecord = InvoiceRecord(row: Invoice, items: seq<SaleItem>, history: seq<HistoryRow>,
                                         portalCancelled: bool)

  datatype Patch = Patch(quantity: Option<int>, unitPrice: Option<int>, taxRate: Option<int>)

  // ---- Edit arithmetic (backend/apps/fbr/services.py, lines 593-637) --------

  /** Apply the patch and recompute the derived figures; `quantize` rounds half even. */
  function Recompute(it: SaleItem, p: Patch): SaleItem {
    var quantity := p.quantity.GetOr(it.quantity);
    var unitPrice := p.unitPrice.GetOr(it.unitPrice);
    var taxRate := p.taxRate.GetOr(it.taxRate);
    var gross := quantity * unitPrice;
    var discount := if it.discountPct != 0 then HalfEven(gross * it.discountPct, 100_000_000) else it.discountAmount;
    var taxable := gross - 10_000 * discount;
    var tax := HalfEven(taxable * taxRate, 100_000_000);
    var total := HalfEven(taxable + 10_000 * tax, 10_000);
    it.(quantity := quantity, unitPrice := unitPrice, taxRate := taxRate,
        discountAmount := discount, taxAmount := tax, lineTotal := total)
  }

  /** gross - discount + tax, unrounded. */
  function ExactTotal(it: SaleItem): int {
    it.quantity * it.unitPrice - 10_000 * it.discountAmount + 10_000 * it.taxAmount
  }

  /** The line total is the exact total rounded to four decimals, in either direction
      on a tie. Checkout establishes it with half-up rounding, an edit with half-even. */
  ghost predicate LineConsistent(it: SaleItem) {
    Nearest(ExactTotal(it), 10_000, it.lineTotal)
  }

  ghost predicate LinesConsistent(items: seq<SaleItem>) {
    forall it <- items :: it.isCancelled || LineConsistent(it)
  }

  function LiveSum(items: seq<SaleItem>, f: SaleItem -> int): int {
    if items == [] then 0
    else LiveSum(items[..|items| - 1], f) + (if items[|items| - 1].isCancelled then 0 else f(items[|items| - 1]))
  }

  function LiveCount(items: seq<SaleItem>): nat {
    if items == [] then 0
    else LiveCount(items[..|items| - 1]) + (if items[|items| - 1].isCancelled then 0 else 1)
  }

  lemma {:induction false} LiveCountIs(items: seq<SaleItem>)
    ensures LiveCount(items) == LiveSum(items, (it: SaleItem) => 1) <= |items|
  {
    if items != [] {
      LiveCountIs(items[..|items| - 1]);
    }
  }

  const Gross: SaleItem -> int := (it: SaleItem) => it.quantity * it.unitPrice
  const Discount: SaleItem -> int := (it: SaleItem) => it.discountAmount
  const Tax: SaleItem -> int := (it: SaleItem) => it.taxAmount
  const LineTotal: SaleItem -> int := (it: SaleItem) => it.lineTotal

  function WithTotals(inv: Invoice, items: seq<SaleItem>): Invoice {
    inv.(subtotal := LiveSum(items, Gross), discountTotal := LiveSum(items, Discount),
         taxTotal := LiveSum(items, Tax), grandTotal := LiveSum(items, LineTotal))
  }

  lemma {:induction false} LiveSumFirst(items: seq<SaleItem>, f: SaleItem -> int)
    requires items != []
    ensures LiveSum(items, f) == (if items[0].isCancelled then 0 else f(items[0])) + LiveSum(items[1..], f)
  {
    if |items| == 1 {
      assert items[..0] == [] && items[1..] == [];
    } else {
      LiveSumFirst(items[..|items| - 1], f);
      assert items[1..][..|items| - 2] == items[..|items| - 1][1..];
    }
  }

  /** Each of the four totals on its own: nothing for no lines, and what the first line adds
      to the totals of the others, which is nothing when it is cancelled. */
  lemma TotalsByLine(inv: Invoice, items: seq<SaleItem>)
    ensures var r := WithTotals(inv, items);
      && r == inv.(subtotal := r.subtotal, discountTotal := r.discountTotal, taxTotal := r.taxTotal,
                   grandTotal := r.grandTotal)
      && (items == [] ==> (r.subtotal, r.discountTotal, r.taxTotal, r.grandTotal) == (0, 0, 0, 0))
      && (items != [] ==>
            var it, rest := items[0], WithTotals(inv, items[1..]);
            if it.isCancelled then r == rest
            else
              && r.subtotal == it.quantity * it.unitPrice + rest.subtotal
              && r.discountTotal == it.discountAmount + rest.discountTotal
              && r.taxTotal == it.taxAmount + rest.taxTotal
              && r.grandTotal == it.lineTotal + rest.grandTotal)
  {
    if items != [] {
      LiveSumFirst(items, Gross);
      LiveSumFirst(items, Discount);
      LiveSumFirst(items, Tax);
      LiveSumFirst(items, LineTotal);
    }
  }

  /** r is n / d to the nearest integer, the even one on a tie. */
  ghost predicate Banker(n: int, d: int, r: int) {
    Nearest(n, d, r) && (Abs(2 * (r * d - n)) == d ==> r % 2 == 0)
  }

  /** What the edit arithmetic means: the tax is the taxable amount times the rate to the
      nearest ten-thousandth, the line total is gross minus discount plus tax to the
      nearest ten-thousandth, ties to even, and nothing outside the figures moves. */
  lemma RecomputeMeans(it: SaleItem, p: Patch)
    ensures var r := Recompute(it, p);
      && LineConsistent(r)
      && Banker(ExactTotal(r), 10_000, r.lineTotal)
      && Banker((r.quantity * r.unitPrice - 10_000 * r.discountAmount) * r.taxRate, 100_000_000, r.taxAmount)
      && (it.discountPct != 0 ==> Banker(r.quantity * r.unitPrice * it.discountPct, 100_000_000, r.discountAmount))
      && (it.discountPct == 0 ==> r.discountAmount == it.discountAmount)
      && r.quantity == p.quantity.GetOr(it.quantity)
      && r.unitPrice == p.unitPrice.GetOr(it.unitPrice)
      && r.taxRate == p.taxRate.GetOr(it.taxRate)
      && r.discountPct == it.discountPct
      && (r.isEdited, r.isCancelled, r.editCount) == (it.isEdited, it.isCancelled, it.editCount)
  {
    var r := Recompute(it, p);
    var gross := r.quantity * r.unitPrice;
    RoundsToNearest(gross * it.discountPct, 100_000_000);
    var taxable := gross - 10_000 * r.discountAmount;
    RoundsToNearest(taxable * r.taxRate, 100_000_000);
    RoundsToNearest(taxable + 10_000 * r.taxAmount, 10_000);
  }

  /** The invoice total is the exact sum of its live lines, and it differs from
      subtotal - discount + tax by at most half a ten-thousandth for each live line. */
  lemma {:induction false} TotalsDrift(inv: Invoice, items: seq<SaleItem>)
    requires LinesConsistent(items)
    ensures var r := WithTotals(inv, items);
      Abs(10_000 * r.grandTotal - (r.subtotal - 10_000 * r.discountTotal + 10_000 * r.taxTotal))
      <= 5_000 * LiveCount(items)
  {
    if items != [] {
      TotalsDrift(inv, items[..|items| - 1]);
      var last := items[|items| - 1];
      assert !last.isCancelled ==> LineConsistent(last);
    }
  }
}

/** A run of the endpoints from an empty tenant after which the month's allowance exceeds
    what the budget leaves. */
module BudgetWitness {
  import opened Wrappers
  import opened Rounding
  import opened Calendar
  import opened Sales
  import opened Rules
  import opened Budget
  import opened Lifecycle
  import opened LifecycleInvariant
  import opened LifecycleTheorems

  /** 1 at 1000.00; 1 at 10.00 under a fixed discount of 10.00; 1 at nothing. */
  const X := SaleItem(10_000, 10_000_000, 0, 0, 0, 0, 10_000_000, false, false, 0)
  const Y := SaleItem(10_000, 100_000, 0, 100_000, 0, 0, 0, false, false, 0)
  const U := SaleItem(10_000, 0, 0, 0, 0, 0, 0, false, false, 0)

  /** X at quantity zero, and Y at quantity zero, where the discount stays. */
  const X0 := SaleItem(0, 10_000_000, 0, 0, 0, 0, 0, true, false, 1)
  const Y0 := SaleItem(0, 100_000, 0, 100_000, 0, 0, -100_000, true, false, 1)

  /** A sale of 9000.00 and the invoice X, Y, U of 1000.00, both of day d. */
  function OldSale(d: nat): InvoiceRecord {
    InvoiceRecord(Invoice(Finalized, None, None, None, d, false, false, 0, 0, 0, 90_000_000), [], [], false)
  }

  function Amended(d: nat): InvoiceRecord {
    InvoiceRecord(Invoice(PendingSync, None, None, None, d, false, false, 0, 0, 0, 10_000_000), [X, Y, U], [], false)
  }

  function Quantity(k: nat, q: int, now: nat): Step {
    EditLine(1, k, [("quantity", Some(q))], now, Prefetched, Skipped)
  }

  function Setup(d: nat, number: string, now: nat): seq<Step> {
    [NewInvoice(OldSale(d)), NewInvoice(Amended(d)), FiscalResult(1, number, now), Persist(0, now)]
  }

  function Overspend(now: nat): seq<Step> {
    [RecomputeBudget(now), Quantity(0, 0, now), Quantity(1, 0, now), RecomputeBudget(now), Quantity(2, 10_000, now)]
  }

  ghost predicate Month(d: nat, now: nat) {
    && now % MICROS == 0 && 0 < MonthIndex(LocalDate(now)) && InPreviousMonth(d, LocalDate(now))
  }

  lemma Sum3(a: SaleItem, b: SaleItem, c: SaleItem)
    requires !a.isCancelled && !b.isCancelled && !c.isCancelled
    ensures LiveSum([a, b, c], LineTotal) == a.lineTotal + b.lineTotal + c.lineTotal
  {
    assert [a, b, c][..2] == [a, b] && [a, b][..1] == [a] && [a][..0] == [];
    assert LiveSum([a], LineTotal) == a.lineTotal;
    assert LiveSum([a, b], LineTotal) == a.lineTotal + b.lineTotal;
  }

  lemma QuantityPatch(q: nat)
    ensures CleanPatch([("quantity", Some(q))]) == Some(Patch(Some(q), None, None))
  {
    var values: seq<(string, Option<int>)> := [("quantity", Some(q))];
    assert values[..|values| - 1] == [];
    assert values[|values| - 1] == ("quantity", Some(q));
    assert CleanFields(values) == Some(Patch(Some(q), None, None));
  }

  /** The second invoice, numbered and amendable at `now`, with these lines and total. */
  ghost predicate Open(w: World, d: nat, now: nat, items: seq<SaleItem>, total: int) {
    && |w.records| == 2 && w.records[0] == OldSale(d)
    && w.records[1].items == items && w.records[1].row.grandTotal == total && !w.records[1].portalCancelled
    && w.records[1].row.invoiceDate == d && w.records[1].row.status in {Valid, PartiallyEdited}
    && HasNumber(w.records[1].row) && !PastDeadline(w.records[1].row, now) && !w.records[1].row.annexureLinked
  }

  ghost predicate HasRow(w: World, now: nat, budget: int, consumed: int, remaining: int) {
    var month := FirstOfMonth(LocalDate(now));
    && month in w.book.budgets
    && var row := w.book.budgets[month];
      row.budget == budget && row.consumed == consumed && row.remaining == remaining
  }

  /** An accepted edit at the endpoint without a gateway. */
  lemma EditIs(w: World, now: nat, k: nat, q: nat, book: Book)
    requires |w.records| == 2 && k < |w.records[1].items|
    requires CanEditItem(w.records[1].row, w.records[1].items[k], now).Allowed?
    requires var rec := w.records[1];
      var rec' := EditedRecord(rec, k, Patch(Some(q), None, None), rec.items);
      Consumed(w.book, w.records[1 := rec'], 1, rec'.row.grandTotal, Action.Edit, LocalDate(now)) == Some(book)
    ensures var rec := w.records[1];
      Apply(w, Quantity(k, q, now))
      == w.(records := w.records[1 := EditedRecord(rec, k, Patch(Some(q), None, None), rec.items)], book := book)
  {
    QuantityPatch(q);
  }

  lemma ChargeIs(w: World, now: nat, records: seq<InvoiceRecord>, sum: int, budget: int, consumed: int,
                 remaining: int) returns (book: Book)
    requires HasRow(w, now, budget, consumed, remaining) && sum <= remaining
    ensures Consumed(w.book, records, 1, sum, Action.Edit, LocalDate(now)) == Some(book)
    ensures HasRow(w.(book := book), now, budget, consumed + sum, remaining - sum)
  {
    book := Consumed(w.book, records, 1, sum, Action.Edit, LocalDate(now)).value;
  }

  /** One edit at the endpoint: the charge is the sum of the lines before it. */
  lemma OneEdit(w: World, d: nat, now: nat, k: nat, q: nat, items: seq<SaleItem>, total: int,
                budget: int, consumed: int, remaining: int)
    requires Open(w, d, now, items, total) && HasRow(w, now, budget, consumed, remaining)
    requires k < |items| && items[k].editCount == 0 && !items[k].isEdited
    requires forall it <- items :: !it.isCancelled
    requires LiveSum(items, LineTotal) <= remaining
    ensures var w', sum := Apply(w, Quantity(k, q, now)), LiveSum(items, LineTotal);
      && Open(w', d, now, EditedItems(items, k, Patch(Some(q), None, None)), sum)
      && HasRow(w', now, budget, consumed + sum, remaining - sum)
  {
    var rec := w.records[1];
    var p := Patch(Some(q), None, None);
    assert items[k] in items;
    EndpointEdit(rec, k, p);
    var rec' := EditedRecord(rec, k, p, rec.items);
    var sum := LiveSum(items, LineTotal);
    var book := ChargeIs(w, now, w.records[1 := rec'], sum, budget, consumed, remaining);
    EditIs(w, now, k, q, book);
  }

  /** Recomputing over the two invoices. */
  lemma RecomputeIs(w: World, d: nat, now: nat, items: seq<SaleItem>, total: int, budget: int)
    requires Open(w, d, now, items, total) && Month(d, now) && 90_000_000 + total == 10 * budget
    ensures var w', month := Apply(w, RecomputeBudget(now)), FirstOfMonth(LocalDate(now));
      && Open(w', d, now, items, total)
      && HasRow(w', now, budget,
                if month in w.book.budgets then w.book.budgets[month].consumed else 0,
                if month in w.book.budgets then Max(0, budget - w.book.budgets[month].consumed) else budget)
  {
    OpenSales(w, d, now, items, total);
    RecomputedRow(w.book, w.records, LocalDate(now), budget);
  }

  lemma OpenSales(w: World, d: nat, now: nat, items: seq<SaleItem>, total: int)
    requires Open(w, d, now, items, total) && Month(d, now)
    ensures SalesTotal(w.records, LocalDate(now)) == 90_000_000 + total
  {
    assert forall j :: 0 <= j < 2 ==> Counted(w.records[j].row.status) && w.records[j].row.invoiceDate == d;
    SalesOf(w.records, d, LocalDate(now));
  }

  lemma RecomputedRow(book: Book, records: seq<InvoiceRecord>, today: Date, budget: int)
    requires ValidDate(today) && SalesTotal(records, today) == 10 * budget
    ensures var month := FirstOfMonth(today);
      var row := Recomputed(book, records, today).budgets[month];
      var consumed := if month in book.budgets then book.budgets[month].consumed else 0;
      && row.budget == budget && row.consumed == consumed
      && row.remaining == if month in book.budgets then Max(0, budget - consumed) else budget
  {
    Exact(budget, 10);
  }

  lemma Dated(row: Invoice, d: nat, today: Date)
    requires ValidDate(today) && 0 < MonthIndex(today) && InPreviousMonth(d, today) && row.invoiceDate == d
    ensures DatedLastMonth(row, today)
  {
  }

  lemma SalesOf(records: seq<InvoiceRecord>, d: nat, today: Date)
    requires ValidDate(today) && 0 < MonthIndex(today) && InPreviousMonth(d, today) && |records| == 2
    requires forall j :: 0 <= j < 2 ==> Counted(records[j].row.status) && records[j].row.invoiceDate == d
    ensures SalesTotal(records, today) == records[0].row.grandTotal + records[1].row.grandTotal
  {
    Dated(records[0].row, d, today);
    Dated(records[1].row, d, today);
    assert records[..1][..0] == [] && records[..1][0] == records[0];
    assert SalesTotal(records[..1], today) == records[0].row.grandTotal;
  }

  lemma RunCons(w: World, s: Step, rest: seq<Step>)
    ensures Run(w, [s] + rest) == Run(Apply(w, s), rest)
  {
    assert ([s] + rest)[1..] == rest;
  }

  lemma RunFour(w: World, a: Step, b: Step, c: Step, e: Step)
    ensures Run(w, [a, b, c, e]) == Apply(Apply(Apply(Apply(w, a), b), c), e)
  {
    assert [a, b, c, e] == [a] + ([b] + ([c] + ([e] + [])));
    RunCons(w, a, [b] + ([c] + ([e] + [])));
    RunCons(Apply(w, a), b, [c] + ([e] + []));
    RunCons(Apply(Apply(w, a), b), c, [e] + []);
    RunCons(Apply(Apply(Apply(w, a), b), c), e, []);
  }

  lemma RunFive(w: World, a: Step, b: Step, c: Step, e: Step, f: Step)
    ensures Run(w, [a, b, c, e, f]) == Apply(Apply(Apply(Apply(Apply(w, a), b), c), e), f)
  {
    assert [a, b, c, e, f] == [a] + [b, c, e, f];
    RunCons(w, a, [b, c, e, f]);
    RunFour(Apply(w, a), b, c, e, f);
  }

  lemma ToZero()
    ensures EditedItems([X, Y, U], 0, Patch(Some(0), None, None)) == [X0, Y, U]
    ensures EditedItems([X0, Y, U], 1, Patch(Some(0), None, None)) == [X0, Y0, U]
  {
    assert EditedItem(X, Patch(Some(0), None, None)) == X0;
    assert EditedItem(Y, Patch(Some(0), None, None)) == Y0;
  }

  lemma Created(d: nat)
    ensures Apply(Apply(EMPTY, NewInvoice(OldSale(d))), NewInvoice(Amended(d)))
         == World([OldSale(d), Amended(d)], Book(map[], []), [], [], {})
  {
    var w := Apply(EMPTY, NewInvoice(OldSale(d)));
    assert w.records == [OldSale(d)];
  }

  lemma Numbered(d: nat, number: string, now: nat)
    requires now % MICROS == 0 && number != ""
    ensures var w0 := World([OldSale(d), Amended(d)], Book(map[], []), [], [], {});
      var w := Apply(Apply(w0, FiscalResult(1, number, now)), Persist(0, now));
      Open(w, d, now, [X, Y, U], 10_000_000) && w.book == EMPTY.book
  {
    DeadlineWindow(now);
  }

  lemma Opened(d: nat, number: string, now: nat)
    requires now % MICROS == 0 && number != ""
    ensures var w := Run(EMPTY, Setup(d, number, now));
      Open(w, d, now, [X, Y, U], 10_000_000) && w.book == EMPTY.book
  {
    RunFour(EMPTY, NewInvoice(OldSale(d)), NewInvoice(Amended(d)), FiscalResult(1, number, now), Persist(0, now));
    Created(d);
    Numbered(d, number, now);
  }

  /** The budget is spent to the last rupee on the first edit, and the second brings the
      stored total down to zero. */
  lemma Spent(w0: World, d: nat, now: nat)
    requires Open(w0, d, now, [X, Y, U], 10_000_000) && w0.book == EMPTY.book && Month(d, now)
    ensures var w := Apply(Apply(Apply(w0, RecomputeBudget(now)), Quantity(0, 0, now)), Quantity(1, 0, now));
      Open(w, d, now, [X0, Y0, U], 0) && HasRow(w, now, 10_000_000, 10_000_000, 0)
  {
    var w1 := Apply(w0, RecomputeBudget(now));
    RecomputeIs(w0, d, now, [X, Y, U], 10_000_000, 10_000_000);
    ToZero();
    Sum3(X, Y, U);
    OneEdit(w1, d, now, 0, 0, [X, Y, U], 10_000_000, 10_000_000, 0, 10_000_000);
    Sum3(X0, Y, U);
    OneEdit(Apply(w1, Quantity(0, 0, now)), d, now, 1, 0, [X0, Y, U], 10_000_000, 10_000_000, 10_000_000, 0);
  }

  /** The smaller base leaves the month overspent; the third edit charges what is now a
      negative sum. */
  lemma Credited(w: World, d: nat, now: nat)
    requires Open(w, d, now, [X0, Y0, U], 0) && HasRow(w, now, 10_000_000, 10_000_000, 0) && Month(d, now)
    ensures var w' := Apply(Apply(w, RecomputeBudget(now)), Quantity(2, 10_000, now));
      |w'.records| == 2 && w'.records[1].row.grandTotal == -100_000
      && HasRow(w', now, 9_000_000, 9_900_000, 100_000)
  {
    RecomputeIs(w, d, now, [X0, Y0, U], 0, 9_000_000);
    Sum3(X0, Y0, U);
    OneEdit(Apply(w, RecomputeBudget(now)), d, now, 2, 10_000, [X0, Y0, U], 0, 9_000_000, 10_000_000, 0);
  }

  /** Such a d and now exist in every month but the first of the calendar. */
  lemma EveryMonth(k: nat, now: nat)
    requires 0 < k && now + PKT_OFFSET == MonthStart(k) * DAY
    ensures 0 < MonthStart(k) && Month(MonthStart(k) - 1, now) && MonthIndex(LocalDate(now)) == k
  {
    Midnight(MonthStart(k), now);
    MonthStartIncreases(k - 1, k);
    MonthStartIncreases(k, k + 1);
    MonthUnique(MonthStart(k), k);
    MonthUnique(MonthStart(k) - 1, k - 1);
    PreviousMonthsTile(MonthStart(k) - 1, LocalDate(now));
  }

  /** In every month, at every whole second of it: the row ends with 10.00 remaining of a
      budget of 900.00 of which 990.00 is consumed. */
  lemma Overcredited(d: nat, number: string, now: nat)
    requires Month(d, now) && number != ""
    ensures var w := Run(Run(EMPTY, Setup(d, number, now)), Overspend(now));
      && |w.records| == 2
      && HasRow(w, now, 9_000_000, 9_900_000, 100_000) && w.records[1].row.grandTotal == -100_000
      && !Balanced(w.book.budgets[FirstOfMonth(LocalDate(now))])
    ensures forall s <- Setup(d, number, now) + Overspend(now) :: AtEndpoint(s)
  {
    var w0 := Run(EMPTY, Setup(d, number, now));
    Opened(d, number, now);
    Spent(w0, d, now);
    Credited(Apply(Apply(Apply(w0, RecomputeBudget(now)), Quantity(0, 0, now)), Quantity(1, 0, now)), d, now);
    RunFive(w0, RecomputeBudget(now), Quantity(0, 0, now), Quantity(1, 0, now), RecomputeBudget(now),
            Quantity(2, 10_000, now));
  }

  /** Such a negative total, as the only counted sale of a month, makes the next month's new
      row unbalanced from the start. */
  lemma NegativeBase(rec: InvoiceRecord, today: Date)
    requires ValidDate(today) && Counted(rec.row.status) && DatedLastMonth(rec.row, today)
    requires rec.row.grandTotal == -100_000
    ensures var row := Recomputed(EMPTY.book, [rec], today).budgets[FirstOfMonth(today)];
      row == BudgetRow(-100_000, -10_000, 0, -10_000) && !Balanced(row)
  {
    assert [rec][..0] == [];
    assert SalesTotal([rec], today) == SalesTotal([], today) - 100_000;
    Exact(-10_000, 10);
  }
}

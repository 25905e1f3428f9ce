/** backend/apps/fbr/budget.py: the monthly cap on edits and cancellations. */
module Budget {
  import opened Rounding
  import opened Wrappers
  import opened Calendar
  import opened Sales

  /** A row of fbr_cancel_budget. */
  datatype BudgetRow = BudgetRow(previousSales: int, budget: int, consumed: int, remaining: int)

  datatype Action = Edit | Cancel

  /** A row of fbr_cancel_budget_consumption. */
  datatype Charge = Charge(month: Date, invoice: nat, action: Action, amount: int)

  /** The two tables, for one tenant; `charges` is append-only. */
  datatype Book = Book(budgets: map<Date, BudgetRow>, charges: seq<Charge>)

  function Max(a: int, b: int): int {
    if a < b then b else a
  }

  /** A status that counts as a sale of its month. */
  predicate Counted(s: Status) {
    s in {Valid, Edited, PartiallyEdited, Cancelled, PartiallyCancelled, PartiallyEditedAndCancelled, Finalized}
  }

  /** Every status counts but the three before validation. */
  lemma CountedExactly(s: Status)
    ensures Counted(s) <==> s !in {PendingSync, Submitted, Failed}
  {
  }

  /** invoice_date between the ends of the previous month. */
  predicate DatedLastMonth(inv: Invoice, today: Date)
    requires ValidDate(today)
  {
    0 < MonthIndex(today)
    && var (first, last) := PreviousMonthRange(today);
      DayNumber(first) <= inv.invoiceDate <= DayNumber(last)
  }

  /** Sum("grand_total") over the previous month's counted invoices. */
  function SalesTotal(invoices: seq<InvoiceRecord>, today: Date): int
    requires ValidDate(today)
  {
    if invoices == [] then 0
    else
      var row := invoices[|invoices| - 1].row;
      SalesTotal(invoices[..|invoices| - 1], today)
      + (if Counted(row.status) && DatedLastMonth(row, today) then row.grandTotal else 0)
  }

  /** recompute_monthly_budget */
  function Recomputed(book: Book, invoices: seq<InvoiceRecord>, today: Date): Book
    requires ValidDate(today)
  {
    var sales := SalesTotal(invoices, today);
    var amount := HalfEven(sales, 10);
    var month := FirstOfMonth(today);
    var row := if month in book.budgets
      then BudgetRow(sales, amount, book.budgets[month].consumed, Max(0, amount - book.budgets[month].consumed))
      else BudgetRow(sales, amount, 0, amount);
    book.(budgets := book.budgets[month := row])
  }

  /** _consume_inner: charge the month's row, or refuse (None) a request that exceeds what
      remains. */
  function Charged(book: Book, charge: Charge): Option<Book>
    requires charge.month in book.budgets
  {
    var row := book.budgets[charge.month];
    if row.remaining < charge.amount then None
    else
      var row' := row.(consumed := row.consumed + charge.amount, remaining := row.remaining - charge.amount);
      Some(Book(book.budgets[charge.month := row'], book.charges + [charge]))
  }

  /** The book with a row for the current month, created on demand. */
  function Ready(book: Book, invoices: seq<InvoiceRecord>, today: Date): (r: Book)
    requires ValidDate(today)
    ensures FirstOfMonth(today) in r.budgets
  {
    if FirstOfMonth(today) in book.budgets then book else Recomputed(book, invoices, today)
  }

  /** consume_cancel_budget */
  function Consumed(book: Book, invoices: seq<InvoiceRecord>, invoice: nat, amount: int,
                    action: Action, today: Date): Option<Book>
    requires ValidDate(today)
  {
    Charged(Ready(book, invoices, today), Charge(FirstOfMonth(today), invoice, action, amount))
  }

  function ChargeSum(charges: seq<Charge>, month: Date): int {
    if charges == [] then 0
    else
      var last := charges[|charges| - 1];
      ChargeSum(charges[..|charges| - 1], month) + (if last.month == month then last.amount else 0)
  }

  // ---- The book's invariant ------------------------------------------------

  /** The remaining allowance is what the budget leaves after the charges. */
  predicate Balanced(row: BudgetRow) {
    row.remaining == Max(0, row.budget - row.consumed)
  }

  ghost predicate ChargesNonNegative(charges: seq<Charge>, month: Date) {
    forall c <- charges :: c.month == month ==> 0 <= c.amount
  }

  /** Consumption always equals the charge rows, the allowance is never understated, and
      it is exact as long as neither the budget nor any charge of the month is negative. */
  ghost predicate BookOk(book: Book) {
    && (forall c <- book.charges :: c.month in book.budgets)
    && forall m <- book.budgets :: RowOk(book.budgets[m], book.charges, m)
  }

  ghost predicate RowOk(row: BudgetRow, charges: seq<Charge>, month: Date) {
    && row.consumed == ChargeSum(charges, month)
    && row.budget - row.consumed <= row.remaining
    && (0 <= row.budget && ChargesNonNegative(charges, month) ==> Balanced(row))
  }

  lemma RecomputeKeepsBook(book: Book, invoices: seq<InvoiceRecord>, today: Date)
    requires ValidDate(today) && BookOk(book)
    ensures BookOk(Recomputed(book, invoices, today))
  {
    var month := FirstOfMonth(today);
    if month !in book.budgets {
      NoCharges(book.charges, month);
    }
  }

  lemma {:induction false} NoCharges(charges: seq<Charge>, month: Date)
    requires forall c <- charges :: c.month != month
    ensures ChargeSum(charges, month) == 0
  {
    if charges != [] {
      NoCharges(charges[..|charges| - 1], month);
    }
  }

  lemma ChargeKeepsBook(book: Book, charge: Charge)
    requires BookOk(book) && charge.month in book.budgets && Charged(book, charge).Some?
    ensures BookOk(Charged(book, charge).value)
  {
  }

  /** A request is accepted exactly when it does not exceed what remains of the current month,
      whose row alone moves, by the amount. */
  lemma ConsumeExactly(book: Book, invoices: seq<InvoiceRecord>, invoice: nat, amount: int,
                       action: Action, today: Date)
    requires ValidDate(today)
    ensures var r, ready := Consumed(book, invoices, invoice, amount, action, today), Ready(book, invoices, today);
      var month := FirstOfMonth(today);
      var row := ready.budgets[month];
      && ready == (if month in book.budgets then book else Recomputed(book, invoices, today))
      && (r.Some? <==> amount <= row.remaining)
      && (r.Some? ==> r.value == Book(
            ready.budgets[month := row.(consumed := row.consumed + amount, remaining := row.remaining - amount)],
            book.charges + [Charge(month, invoice, action, amount)]))
  {
  }

  /** An accepted request adds exactly one charge row, to the current month; a positive
      request against a balanced row, created on demand or not, is accepted exactly when
      the month's charges and it together fit the budget. */
  lemma ConsumeKeepsBook(book: Book, invoices: seq<InvoiceRecord>, invoice: nat, amount: int,
                         action: Action, today: Date)
    requires ValidDate(today) && BookOk(book)
    ensures var r := Consumed(book, invoices, invoice, amount, action, today);
      var month := FirstOfMonth(today);
      var row := Ready(book, invoices, today).budgets[month];
      && (r.Some? ==> BookOk(r.value) && r.value.charges == book.charges + [Charge(month, invoice, action, amount)])
      && (Balanced(row) && 0 < amount ==> (r.Some? <==> ChargeSum(book.charges, month) + amount <= row.budget))
  {
    var month := FirstOfMonth(today);
    RecomputeKeepsBook(book, invoices, today);
    var ready := Ready(book, invoices, today);
    assert RowOk(ready.budgets[month], ready.charges, month);
    if Consumed(book, invoices, invoice, amount, action, today).Some? {
      ChargeKeepsBook(ready, Charge(month, invoice, action, amount));
    }
  }

  /** An accepted charge leaves the row balanced exactly when the row carried no surplus
      allowance or the charge uses all that remains. For a balanced row that is: the charge
      is not negative or the month is not overspent. A negative grand total (a line edited
      to quantity zero under a fixed discount) charged to an overspent month hands back
      allowance that the budget does not have; BudgetWitness has the run. */
  lemma BalancedStep(book: Book, charge: Charge)
    requires BookOk(book) && charge.month in book.budgets && Charged(book, charge).Some?
    ensures var row, row' := book.budgets[charge.month], Charged(book, charge).value.budgets[charge.month];
      && (Balanced(row') <==> row.remaining == row.budget - row.consumed || charge.amount == row.remaining)
      && (Balanced(row) ==> (Balanced(row') <==> 0 <= charge.amount || row.consumed <= row.budget))
  {
    assert RowOk(book.budgets[charge.month], book.charges, charge.month);
  }

  /** Recomputing balances an existing row whatever it held; a row it creates is balanced
      exactly when the base does not round to a negative budget, since only the update
      clamps at zero. */
  lemma RecomputeBalances(book: Book, invoices: seq<InvoiceRecord>, today: Date)
    requires ValidDate(today)
    ensures var month := FirstOfMonth(today);
      Balanced(Recomputed(book, invoices, today).budgets[month])
      <==> month in book.budgets || -5 <= MonthSales(invoices, MonthIndex(today) - 1)
  {
    SalesTotalIsLastMonth(invoices, today);
  }

  /** The base of the budget is the sales dated in the calendar month before today's. */
  lemma {:induction false} SalesTotalIsLastMonth(invoices: seq<InvoiceRecord>, today: Date)
    requires ValidDate(today)
    ensures SalesTotal(invoices, today) == MonthSales(invoices, MonthIndex(today) - 1)
  {
    if invoices != [] {
      SalesTotalIsLastMonth(invoices[..|invoices| - 1], today);
      if 0 < MonthIndex(today) {
        PreviousMonthsTile(invoices[|invoices| - 1].row.invoiceDate, today);
      }
    }
  }

  /** Sales by calendar month, the reference for the date-range query. */
  ghost function MonthSales(invoices: seq<InvoiceRecord>, month: int): int {
    if invoices == [] then 0
    else
      var row := invoices[|invoices| - 1].row;
      MonthSales(invoices[..|invoices| - 1], month)
      + (if Counted(row.status) && MonthOf(row.invoiceDate) == month then row.grandTotal else 0)
  }

  /** The budget is a tenth of those sales, to the nearest ten-thousandth, ties to even. What
      was consumed stays, what remains is recomputed and never negative unless the row is new,
      and no other month and no charge is touched. */
  lemma BudgetIsTenth(book: Book, invoices: seq<InvoiceRecord>, today: Date)
    requires ValidDate(today)
    ensures var row := Recomputed(book, invoices, today).budgets[FirstOfMonth(today)];
      && row.previousSales == MonthSales(invoices, MonthIndex(today) - 1)
      && Banker(row.previousSales, 10, row.budget)
      && (FirstOfMonth(today) in book.budgets ==>
            && row.consumed == book.budgets[FirstOfMonth(today)].consumed
            && row.remaining == if row.consumed < row.budget then row.budget - row.consumed else 0)
      && (FirstOfMonth(today) !in book.budgets ==> row.consumed == 0 && row.remaining == row.budget)
      && Recomputed(book, invoices, today) == book.(budgets := book.budgets[FirstOfMonth(today) := row])
  {
    SalesTotalIsLastMonth(invoices, today);
    RoundsToNearest(SalesTotal(invoices, today), 10);
  }
}

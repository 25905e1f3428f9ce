/** The services as they run: sequential writes to the tables of one tenant, with the
    savepoint and rollback of `transaction.atomic`. Each method is tied to the transition
    function that the lifecycle theorems are about. */
module FiscalDatabase {
  import opened Wrappers
  import opened Rounding
  import opened Calendar
  import opened Sales
  import opened Rules
  import opened Budget
  import opened Returns
  import opened Lifecycle

  class Database {
    var records: seq<InvoiceRecord>
    var budgets: map<Date, BudgetRow>
    var charges: seq<Charge>
    var submissions: seq<Submission>
    var tasks: seq<Task>
    var elsewhere: set<string>

    ghost function View(): World
      reads this
    {
      World(records, Book(budgets, charges), submissions, tasks, elsewhere)
    }

    // ---- Budget ------------------------------------------------------------

    /** recompute_monthly_budget (budget.py, lines 77-128) */
    method RecomputeMonthlyBudget(today: Date)
      requires ValidDate(today)
      modifies this`budgets
      ensures View() == old(View()).(book := Recomputed(old(View()).book, records, today))
    {
      var sales := 0;
      for n := 0 to |records|
        invariant sales == SalesTotal(records[..n], today)
        invariant budgets == old(budgets)
      {
        assert records[..n + 1][..n] == records[..n];
        var row := records[n].row;
        if Counted(row.status) && DatedLastMonth(row, today) {
          sales := sales + row.grandTotal;
        }
      }
      assert records[..|records|] == records;
      var amount := HalfEven(sales, 10);
      var month := FirstOfMonth(today);
      if month !in budgets {
        budgets := budgets[month := BudgetRow(sales, amount, 0, amount)];
      } else {
        var existing := budgets[month];
        existing := existing.(previousSales := sales);
        existing := existing.(budget := amount);
        existing := existing.(remaining := Max(0, amount - existing.consumed));
        budgets := budgets[month := existing];
      }
    }

    /** consume_cancel_budget and _consume_inner (budget.py, lines 131-184). A refusal
        leaves the row created on demand; the caller's transaction decides its fate. */
    method ConsumeCancelBudget(invoice: nat, action: Action, today: Date) returns (ok: bool)
      requires ValidDate(today) && invoice < |records|
      modifies this`budgets, this`charges
      ensures var r := Consumed(old(View()).book, records, invoice, records[invoice].row.grandTotal, action, today);
        && ok == r.Some?
        && View().book == r.GetOr(Ready(old(View()).book, records, today))
    {
      var month := FirstOfMonth(today);
      if month !in budgets {
        RecomputeMonthlyBudget(today);
      }
      var locked := budgets[month];
      var requested := records[invoice].row.grandTotal;
      if locked.remaining < requested {
        return false;
      }
      locked := locked.(consumed := locked.consumed + requested);
      locked := locked.(remaining := locked.remaining - requested);
      budgets := budgets[month := locked];
      charges := charges + [Charge(month, invoice, action, requested)];
      return true;
    }

    // ---- Amendments --------------------------------------------------------

    /** The loop over new_values (services.py, lines 558-572). */
    method ValidatePatch(values: seq<(string, Option<int>)>) returns (cleaned: Option<Patch>)
      ensures cleaned == CleanPatch(values)
    {
      var patch := Patch(None, None, None);
      for n := 0 to |values|
        invariant CleanFields(values[..n]) == Some(patch)
      {
        assert values[..n + 1][..n] == values[..n];
        var (field, value) := values[n];
        if field !in EDITABLE || value.None? || value.value < 0 {
          RejectedPrefix(values, n + 1);
          return None;
        }
        match field
        case "quantity" => patch := patch.(quantity := value);
        case "unit_price" => patch := patch.(unitPrice := value);
        case _ => patch := patch.(taxRate := value);
      }
      assert values[..|values|] == values;
      return if values == [] then None else Some(patch);
    }

    static lemma {:induction false} RejectedPrefix(values: seq<(string, Option<int>)>, n: nat)
      requires 0 < n <= |values| && CleanFields(values[..n]).None?
      ensures CleanPatch(values).None?
      decreases |values| - n
    {
      if n < |values| {
        assert values[..n + 1][..n] == values[..n];
        RejectedPrefix(values, n + 1);
      } else {
        assert values[..n] == values;
      }
    }

    /** sum(f(it) for it in items if not it.is_cancelled) */
    method SumLive(items: seq<SaleItem>, f: SaleItem -> int) returns (total: int)
      ensures total == LiveSum(items, f)
    {
      total := 0;
      for n := 0 to |items|
        invariant total == LiveSum(items[..n], f)
      {
        assert items[..n + 1][..n] == items[..n];
        if !items[n].isCancelled {
          total := total + f(items[n]);
        }
      }
      assert items[..|items|] == items;
    }

    /** Apply the patch to the line and recompute its figures (services.py, lines 593-613). */
    method ApplyPatch(original: SaleItem, patch: Patch) returns (item: SaleItem)
      ensures item == EditedItem(original, patch)
    {
      item := original;
      if patch.quantity.Some? { item := item.(quantity := patch.quantity.value); }
      if patch.unitPrice.Some? { item := item.(unitPrice := patch.unitPrice.value); }
      if patch.taxRate.Some? { item := item.(taxRate := patch.taxRate.value); }
      var gross := item.quantity * item.unitPrice;
      if item.discountPct != 0 {
        item := item.(discountAmount := HalfEven(gross * item.discountPct, 100_000_000));
      }
      var taxable := gross - 10_000 * item.discountAmount;
      item := item.(taxAmount := HalfEven(taxable * item.taxRate, 100_000_000));
      item := item.(lineTotal := HalfEven(taxable + 10_000 * item.taxAmount, 10_000));
      item := item.(isEdited := true);
      item := item.(editCount := item.editCount + 1);
    }

    /** Recompute the parent totals and flip the status from the lines that
        `invoice.items.all()` yields (services.py, lines 620-645). */
    method RecomputeParent(original: Invoice, items: seq<SaleItem>) returns (row: Invoice)
      ensures row == WithTotals(original, items).(status := EditedStatus(items))
    {
      row := original;
      var subtotal := SumLive(items, Gross);
      row := row.(subtotal := subtotal);
      var discountTotal := SumLive(items, Discount);
      row := row.(discountTotal := discountTotal);
      var taxTotal := SumLive(items, Tax);
      row := row.(taxTotal := taxTotal);
      var grandTotal := SumLive(items, LineTotal);
      row := row.(grandTotal := grandTotal);
      if (exists it <- items :: it.isEdited) && (exists it <- items :: it.isCancelled) {
        row := row.(status := PartiallyEditedAndCancelled);
      } else if forall it <- items :: it.isEdited || it.isCancelled {
        row := row.(status := Edited);
      } else {
        row := row.(status := PartiallyEdited);
      }
    }

    /** edit_invoice_item_with_fbr (services.py, lines 530-696) */
    method EditInvoiceItemWithFbr(i: nat, k: nat, values: seq<(string, Option<int>)>, now: nat,
                                  relation: Relation, gateway: Gateway)
      returns (ok: bool)
      requires i < |records| && k < |records[i].items|
      modifies this
      ensures var r := EditItem(old(View()), i, k, values, now, relation, gateway);
        ok == r.Some? && View() == r.GetOr(old(View()))
    {
      var rec := records[i];
      if CanEditItem(rec.row, rec.items[k], now).Refused? {
        return false;
      }
      var cleaned := ValidatePatch(values);
      if cleaned.None? {
        return false;
      }
      var savepoint := (records, budgets, charges, submissions);
      rec := rec.(history := rec.history + [HistoryRow(k, FiguresOf(rec.items[k]))]);
      var item := ApplyPatch(rec.items[k], cleaned.value);
      var prefetched := rec.items;
      rec := rec.(items := rec.items[k := item]);
      var row := RecomputeParent(rec.row, if relation.Fresh? then rec.items else prefetched);
      rec := rec.(row := row);
      records := records[i := rec];
      ok := ConsumeCancelBudget(i, Action.Edit, LocalDate(now));
      if ok {
        ok := CallGateway(i, gateway, EditInvoice);
      }
      if !ok {
        records, budgets, charges, submissions := savepoint.0, savepoint.1, savepoint.2, savepoint.3;
      }
    }

    /** The PRAL round trip of an amendment (services.py, lines 482-510 and 659-688): a row
        is logged either way, and a rejection raises. */
    method CallGateway(i: nat, gateway: Gateway, endpoint: Endpoint) returns (ok: bool)
      requires i < |records|
      modifies this`submissions
      ensures var r := Called(old(View()), i, gateway, endpoint);
        ok == r.Some? && (ok ==> View() == r.value)
    {
      if gateway.Skipped? || !HasNumber(records[i].row) {
        return true;
      }
      submissions := submissions + [Submission(i, endpoint, 1, gateway.Accepts?)];
      return gateway.Accepts?;
    }

    /** cancel_invoice_with_fbr (services.py, lines 449-516) with cancel_invoice
        (cancellation.py, lines 20-65). */
    method CancelInvoiceWithFbr(i: nat, now: nat, later: nat, gateway: Gateway) returns (ok: bool)
      requires i < |records|
      modifies this
      ensures var r := CancelInvoice(old(View()), i, now, later, gateway);
        ok == r.Some? && View() == r.GetOr(old(View()))
    {
      if CanCancelInvoice(records[i].row, records[i].items, now).Refused? {
        return false;
      }
      var savepoint := (records, budgets, charges, submissions);
      ok := ConsumeCancelBudget(i, Action.Cancel, LocalDate(now));
      if ok {
        ok := CallGateway(i, gateway, CancelEndpoint);
      }
      if ok {
        ok := CancelLocally(i, later);
      }
      if !ok {
        records, budgets, charges, submissions := savepoint.0, savepoint.1, savepoint.2, savepoint.3;
      }
    }

    /** cancellation.cancel_invoice, and with it force_cancel (sales/views.py, lines 433-474):
        the rule, then every live line. */
    method CancelLocally(i: nat, now: nat) returns (ok: bool)
      requires i < |records|
      modifies this`records
      ensures var r := CancelLocal(old(View()), i, now);
        ok == r.Some? && View() == r.GetOr(old(View()))
    {
      var rec := records[i];
      if CanCancelInvoice(rec.row, rec.items, now).Refused? {
        return false;
      }
      var items := rec.items;
      for n := 0 to |items|
        invariant |items| == |rec.items|
        invariant forall j :: 0 <= j < n ==> items[j] == rec.items[j].(isCancelled := true)
        invariant forall j :: n <= j < |items| ==> items[j] == rec.items[j]
        invariant records == old(records)
      {
        if !items[n].isCancelled {
          items := items[n := items[n].(isCancelled := true)];
        }
      }
      assert items == CancelledItems(rec.items);
      records := records[i := rec.(items := items, row := rec.row.(status := Cancelled))];
      return true;
    }

    /** cancel_item (sales/views.py, lines 866-893) with cancel_sale_item
        (cancellation.py, lines 126-178). */
    method CancelSaleItem(i: nat, k: nat, now: nat, relation: Relation) returns (ok: bool)
      requires i < |records| && k < |records[i].items|
      modifies this`records
      ensures var r := CancelItem(old(View()), i, k, now, relation);
        ok == r.Some? && View() == r.GetOr(old(View()))
    {
      var rec := records[i];
      if CanCancelItem(rec.row, rec.items[k], now).Refused? {
        return false;
      }
      if rec.items[k].isCancelled || rec.items[k].isEdited {
        return false;
      }
      var prefetched := rec.items;
      rec := rec.(items := rec.items[k := rec.items[k].(isCancelled := true)]);
      var items := if relation.Fresh? then rec.items else prefetched;
      if forall it <- items :: it.isCancelled {
        rec := rec.(row := rec.row.(status := Cancelled));
      } else {
        rec := rec.(row := rec.row.(status := PartiallyCancelled));
      }
      records := records[i := rec];
      return true;
    }

    // ---- Returns -----------------------------------------------------------

    /** The loop that snapshots the returned lines and adds up the refund
        (returns/services/process.py, lines 105-149); None when it raises. */
    method SnapshotLines(items: seq<SaleItem>, lines: seq<ReturnLine>) returns (r: Option<(seq<SaleItem>, int)>)
      ensures r.Some? <==> AllReturnable(items, lines)
      ensures r.Some? ==> r.value == (NoteLines(items, lines), Refund(items, lines))
    {
      if lines == [] {
        return None;
      }
      var noted: seq<SaleItem>, refund := [], 0;
      for n := 0 to |lines|
        invariant |noted| == n && forall j :: 0 <= j < n ==> Returnable(items, lines[j])
        invariant forall j :: 0 <= j < n ==> noted[j] == NoteLine(items[lines[j].line], lines[j].quantity)
        invariant refund == LiveSum(noted, LineTotal)
      {
        var l := lines[n];
        if |items| <= l.line || l.quantity <= 0 || items[l.line].quantity < l.quantity {
          assert !Returnable(items, lines[n]);
          return None;
        }
        var tax := HalfEven(items[l.line].taxAmount * l.quantity, items[l.line].quantity);
        var total := HalfEven(items[l.line].unitPrice * l.quantity + 10_000 * tax, 10_000);
        var it := SaleItem(l.quantity, items[l.line].unitPrice, 0, 0, items[l.line].taxRate, tax, total,
                           false, false, 0);
        assert (noted + [it])[..n] == noted;
        noted := noted + [it];
        refund := refund + total;
      }
      assert noted == NoteLines(items, lines);
      return Some((noted, refund));
    }

    /** _call_pral_amend (process.py, lines 286-336) */
    method CallPralAmend(i: nat, gateway: Gateway) returns (ok: bool)
      requires i < |records|
      modifies this`submissions
      ensures var sent := gateway != Skipped && HasNumber(records[i].row);
        && ok == !(sent && gateway.Rejects?)
        && submissions == old(submissions) + [Submission(i, CancelEndpoint, 1, sent && gateway.Accepts?)]
    {
      if gateway.Skipped? || !HasNumber(records[i].row) {
        submissions := submissions + [Submission(i, CancelEndpoint, 1, false)];
        return true;
      }
      submissions := submissions + [Submission(i, CancelEndpoint, 1, gateway.Accepts?)];
      return gateway.Accepts?;
    }

    /** The credit note's rows (process.py, lines 350-386). */
    method CreateCreditNote(items: seq<SaleItem>, lines: seq<ReturnLine>, noted: seq<SaleItem>, refund: int, now: nat)
      returns (note: Invoice)
      requires AllReturnable(items, lines) && (noted, refund) == (NoteLines(items, lines), Refund(items, lines))
      modifies this`records
      ensures note == CreditNote(items, lines, LocalDay(now)).row
      ensures records == old(records) + [CreditNote(items, lines, LocalDay(now))]
    {
      var subtotal := SumLive(noted, Gross);
      var taxTotal := SumLive(noted, Tax);
      note := Invoice(PendingSync, None, None, None, LocalDay(now), false, false, subtotal, 0, taxTotal, refund);
      records := records + [InvoiceRecord(note, noted, [], false)];
    }

    static lemma NewRowUnseen(records: seq<InvoiceRecord>, elsewhere: set<string>, rec: InvoiceRecord)
      ensures NumbersBut(records + [rec], elsewhere, |records|) == NumbersBut(records, elsewhere, |records|)
    {
      var all, n := records + [rec], |records|;
      forall x | x in NumbersBut(records, elsewhere, n) ensures x in NumbersBut(all, elsewhere, n) {
        if x !in elsewhere {
          var j: nat :| j < n && records[j].row.number == Some(x);
          assert all[j].row.number.Some?;
        }
      }
    }

    /** _call_pral_credit_note (process.py, lines 339-434): the note is created first, then
        queued or posted. */
    method CallPralCreditNote(i: nat, lines: seq<ReturnLine>, noted: seq<SaleItem>, refund: int, now: nat,
                              gateway: Gateway, number: Option<string>)
      returns (ok: bool)
      requires i < |records| && AllReturnable(records[i].items, lines)
      requires (noted, refund) == (NoteLines(records[i].items, lines), Refund(records[i].items, lines))
      modifies this`records, this`submissions, this`tasks
      ensures var r := NoteForReturn(old(View()), i, lines, now, gateway, number);
        ok == r.Some? && (ok ==> View() == r.value)
      ensures |old(records)| <= |records| && records[i] == old(records[i])
    {
      var n := |records|;
      var note := CreateCreditNote(records[i].items, lines, noted, refund, now);
      NewRowUnseen(old(records), elsewhere, records[n]);
      match gateway
      case Skipped =>
        tasks := tasks + [Task(n, Queued, note, 0)];
        return true;
      case Rejects =>
        submissions := submissions + [Submission(n, PostInvoice, 1, false)];
        return false;
      case Accepts =>
        var taken := NumberTaken(n, number);
        if taken {
          return false;
        }
        note := note.(number := number);
        note := note.(status := Valid);
        records := records[n := records[n].(row := note)];
        submissions := submissions + [Submission(n, PostInvoice, 1, true)];
        return true;
    }

    /** _update_original_status (process.py, lines 475-497) */
    method UpdateOriginalStatus(i: nat, lines: seq<ReturnLine>)
      requires i < |records| && AllReturnable(records[i].items, lines)
      modifies this`records
      ensures records == old(records)[i := ReturnedRecord(old(records)[i], lines)]
    {
      var rec := records[i];
      if rec.row.status == Cancelled {
        return;
      }
      var items := rec.items;
      for n := 0 to |lines|
        invariant records == old(records)
        invariant items == Flagged(rec.items, lines[..n])
      {
        assert Returnable(rec.items, lines[n]);
        assert lines[..n + 1] == lines[..n] + [lines[n]];
        if lines[n].quantity == items[lines[n].line].quantity {
          items := items[lines[n].line := items[lines[n].line].(isCancelled := true)];
        }
      }
      assert lines[..|lines|] == lines;
      if forall it <- items :: it.isCancelled {
        rec := rec.(row := rec.row.(status := Cancelled));
      } else {
        rec := rec.(row := rec.row.(status := PartiallyCancelled));
      }
      records := records[i := rec.(items := items)];
    }

    /** The FBR round trip of a return (process.py, lines 189-207; routing.py). */
    method ReturnRoundTrip(i: nat, lines: seq<ReturnLine>, noted: seq<SaleItem>, refund: int, now: nat,
                           gateway: Gateway, number: Option<string>)
      returns (ok: bool)
      requires i < |records| && AllReturnable(records[i].items, lines)
      requires (noted, refund) == (NoteLines(records[i].items, lines), Refund(records[i].items, lines))
      modifies this
      ensures var r := RouteReturn(old(View()), i, lines, now, gateway, number);
        ok == r.Some? && (ok ==> View() == r.value)
      ensures i < |records| && records[i] == old(records[i])
      ensures elsewhere == old(elsewhere)
    {
      if CanCancelInvoice(records[i].row, records[i].items, now).Allowed? {
        ok := ConsumeCancelBudget(i, Action.Cancel, LocalDate(now));
        if ok {
          ok := CallPralAmend(i, gateway);
        }
      } else {
        ok := CallPralCreditNote(i, lines, noted, refund, now, gateway, number);
      }
    }

    /** process_return (process.py, lines 68-278) */
    method ProcessInvoiceReturn(i: nat, lines: seq<ReturnLine>, now: nat, gateway: Gateway, number: Option<string>)
      returns (ok: bool)
      requires i < |records|
      modifies this
      ensures var r := ProcessReturn(old(View()), i, lines, now, gateway, number);
        ok == r.Some? && View() == r.GetOr(old(View()))
    {
      var original := records[i];
      var snapshot := SnapshotLines(original.items, lines);
      if snapshot.None? {
        return false;
      }
      var savepoint := (records, budgets, charges, submissions, tasks);
      var (noted, refund) := snapshot.value;
      ok := ReturnRoundTrip(i, lines, noted, refund, now, gateway, number);
      if ok {
        UpdateOriginalStatus(i, lines);
      } else {
        records, budgets, charges := savepoint.0, savepoint.1, savepoint.2;
        submissions, tasks := savepoint.3, savepoint.4;
      }
    }

    /** delete_draft_invoice (cancellation.py, lines 68-123) */
    method DeleteDraftInvoice(i: nat) returns (ok: bool)
      requires i < |records|
      modifies this`records
      ensures var r := DeleteDraft(old(View()), i);
        ok == r.Some? && View() == r.GetOr(old(View()))
    {
      var row := records[i].row;
      if !UnsubmittedDraft(row) {
        return false;
      }
      row := row.(deleted := true);
      row := row.(status := Cancelled);
      records := records[i := records[i].(row := row)];
      return true;
    }

    /** mark_cancelled_on_fbr (sales/views.py, lines 478-512) */
    method MarkCancelledOnFbr(i: nat) returns (ok: bool)
      requires i < |records|
      modifies this`records
      ensures var r := MarkCancelledOnPortal(old(View()), i);
        ok == r.Some? && View() == r.GetOr(old(View()))
    {
      var rec := records[i];
      if !HasNumber(rec.row) {
        return false;
      }
      if rec.row.status != Cancelled {
        rec := rec.(row := rec.row.(status := Cancelled));
        rec := rec.(portalCancelled := true);
        records := records[i := rec];
      }
      return true;
    }

    // ---- Submit task -------------------------------------------------------

    /** The lookup behind the unique constraint: does another invoice store the number? */
    method NumberTaken(i: nat, number: Option<string>) returns (taken: bool)
      ensures taken <==> number.Some? && number.value in NumbersBut(records, elsewhere, i)
    {
      if number.None? {
        return false;
      }
      if number.value in elsewhere {
        return true;
      }
      for n := 0 to |records|
        invariant forall j :: 0 <= j < n && j != i ==> records[j].row.number != number
      {
        if n != i && records[n].row.number == number {
          return true;
        }
      }
      return false;
    }

    /** invoice.save(update_fields=fields) by task t: the row is checked against the
        instance and the other rows, then written; a refused save raises and ends the job. */
    method SaveInstance(t: nat, inst: Invoice, fields: set<Field>, next: Pc)
      requires ValidTask(View(), t)
      modifies this`records, this`tasks
      ensures View() == SaveAndGo(old(View()), t, inst, fields, next)
    {
      var task := tasks[t];
      var rec := records[task.invoice];
      var taken := NumberTaken(task.invoice, inst.number);
      if SignalRefuses(rec.row, inst) || TriggerRefuses(rec.row, inst, fields) || (NumberField in fields && taken) {
        tasks := tasks[t := task.(pc := Done)];
        return;
      }
      var row := rec.row;
      if StatusField in fields { row := row.(status := inst.status); }
      if SubmittedAtField in fields { row := row.(submittedAt := inst.submittedAt); }
      if NumberField in fields { row := row.(number := inst.number); }
      if DeadlineField in fields { row := row.(editDeadlineAt := inst.editDeadlineAt); }
      records := records[task.invoice := rec.(row := row)];
      tasks := tasks[t := task.(pc := next, inst := inst)];
    }

    /** _persist_fbr_success (tasks.py, lines 495-514) */
    method PersistFbrSuccess(t: nat, now: nat)
      requires ValidTask(View(), t) && tasks[t].pc.Accepted?
      modifies this`records, this`tasks
      ensures View() == PersistSuccess(old(View()), t, now)
    {
      var inst := tasks[t].inst;
      inst := inst.(number := Some(tasks[t].pc.number));
      var since := if inst.submittedAt.Some? then inst.submittedAt.value else now;
      inst := inst.(editDeadlineAt := Some(EditDeadline(since)));
      inst := inst.(status := Valid);
      SaveInstance(t, inst, {NumberField, DeadlineField, StatusField}, Done);
    }

    /** _mark_invoice_failed (tasks.py, lines 573-575) */
    method MarkInvoiceFailed(t: nat)
      requires ValidTask(View(), t) && tasks[t].pc == Rejected
      modifies this`records, this`tasks
      ensures View() == MarkFailed(old(View()), t)
    {
      SaveInstance(t, tasks[t].inst.(status := Failed), {StatusField}, Done);
    }

    /** finalize_aged_invoices (tasks.py, lines 517-533) */
    method FinalizeAgedInvoices(now: nat) returns (count: nat)
      modifies this`records
      ensures View() == FinalizeAged(old(View()), now)
      ensures count == DueCount(old(records), now)
    {
      count := 0;
      var done: seq<InvoiceRecord> := [];
      for n := 0 to |records|
        invariant records == old(records) && |done| == n
        invariant forall j :: 0 <= j < n ==> done[j] == records[j].(row := FinalizedBy(records[j].row, now))
        invariant count == DueCount(records[..n], now)
      {
        assert records[..n + 1][..n] == records[..n];
        var rec := records[n];
        if Finalizable(rec.row, now) {
          rec := rec.(row := rec.row.(status := Finalized));
          count := count + 1;
        }
        done := done + [rec];
      }
      assert records[..|records|] == records;
      records := done;
    }

    static function DueCount(records: seq<InvoiceRecord>, now: int): nat {
      if records == [] then 0
      else DueCount(records[..|records| - 1], now) + (if Finalizable(records[|records| - 1].row, now) then 1 else 0)
    }
  }
}

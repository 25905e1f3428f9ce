/** Returns over whole runs: how often one invoice is charged, and what becomes of an
    invoice returned before its submission and of the credit notes. */
module ReturnRuns {
  import opened Wrappers
  import opened Calendar
  import opened Sales
  import opened Rules
  import opened Budget
  import opened Returns
  import opened Lifecycle
  import opened LifecycleInvariant
  import R = ReturnTheorems

  // ---- Repeated returns ----------------------------------------------------

  function Repeated(s: Step, n: nat): seq<Step> {
    seq(n, _ => s)
  }

  lemma RunRepeated(w: World, s: Step, n: nat)
    requires 0 < n
    ensures Run(w, Repeated(s, n)) == Run(Apply(w, s), Repeated(s, n - 1))
  {
    assert Repeated(s, n)[1..] == Repeated(s, n - 1);
  }

  /** An amendable invoice, some line of which the entries leave open. */
  ghost predicate StaysOpen(w: World, i: nat, lines: seq<ReturnLine>, now: nat) {
    && i < |w.records| && AllReturnable(w.records[i].items, lines)
    && CanCancelInvoice(w.records[i].row, w.records[i].items, now).Allowed?
    && HasNumber(w.records[i].row)
    && !AllCancelled(Flagged(w.records[i].items, lines))
  }

  ghost predicate Remains(book: Book, month: Date, consumed: int, remaining: int) {
    month in book.budgets && book.budgets[month].consumed == consumed && book.budgets[month].remaining == remaining
  }

  lemma FlaggedTwice(items: seq<SaleItem>, lines: seq<ReturnLine>)
    ensures Flagged(Flagged(items, lines), lines) == Flagged(items, lines)
    ensures AllReturnable(Flagged(items, lines), lines) <==> AllReturnable(items, lines)
  {
    assert forall k :: 0 <= k < |items| ==> Flagged(items, lines)[k].quantity == items[k].quantity;
    assert forall l <- lines :: Returnable(Flagged(items, lines), l) <==> Returnable(items, l);
  }

  /** One partial return on the amend route: the whole grand total is charged, and the next
      one finds the invoice as open as before. */
  lemma OneReturn(w: World, i: nat, lines: seq<ReturnLine>, now: nat, gateway: Gateway, consumed: int, remaining: int)
    requires StaysOpen(w, i, lines, now) && !gateway.Rejects?
    requires Remains(w.book, FirstOfMonth(LocalDate(now)), consumed, remaining)
    ensures var s, total := Return(i, lines, now, gateway, None), w.records[i].row.grandTotal;
      var month := FirstOfMonth(LocalDate(now));
      var w' := Apply(w, s);
      && (ProcessReturn(w, i, lines, now, gateway, None).Some? <==> total <= remaining)
      && (total <= remaining ==>
            && w'.records == w.records[i := ReturnedRecord(w.records[i], lines)]
            && w'.submissions == w.submissions + [Submission(i, CancelEndpoint, 1, gateway.Accepts?)]
            && StaysOpen(w', i, lines, now)
            && w'.book.charges == w.book.charges + [Charge(month, i, Action.Cancel, total)]
            && Remains(w'.book, month, consumed + total, remaining - total))
  {
    var rec := w.records[i];
    var rec' := ReturnedRecord(rec, lines);
    FlaggedTwice(rec.items, lines);
    if w.records[i].row.grandTotal <= remaining {
      assert forall k :: 0 <= k < |rec.items| ==> rec'.items[k].isEdited == rec.items[k].isEdited;
      forall it <- rec'.items ensures !it.isEdited {
        var k :| 0 <= k < |rec'.items| && rec'.items[k] == it;
        assert rec.items[k] in rec.items;
      }
    }
  }

  /** n returns have been charged since the book held `charges`. */
  ghost predicate ChargedTimes(w: World, i: nat, lines: seq<ReturnLine>, now: nat, charges: seq<Charge>, n: nat,
                               total: int, consumed: int, remaining: int) {
    var month := FirstOfMonth(LocalDate(now));
    && StaysOpen(w, i, lines, now) && w.records[i].row.grandTotal == total
    && w.book.charges == charges + seq(n, _ => Charge(month, i, Action.Cancel, total))
    && Remains(w.book, month, consumed + n * total, remaining - n * total)
  }

  lemma OneMoreReturn(w: World, i: nat, lines: seq<ReturnLine>, now: nat, gateway: Gateway, charges: seq<Charge>,
                      n: nat, total: int, consumed: int, remaining: int)
    requires ChargedTimes(w, i, lines, now, charges, n, total, consumed, remaining)
    requires !gateway.Rejects? && (n + 1) * total <= remaining
    ensures ChargedTimes(Apply(w, Return(i, lines, now, gateway, None)), i, lines, now, charges, n + 1, total, consumed,
                         remaining)
  {
    assert (n + 1) * total == n * total + total;
    OneReturn(w, i, lines, now, gateway, consumed + n * total, remaining - n * total);
    var charge := Charge(FirstOfMonth(LocalDate(now)), i, Action.Cancel, total);
    assert charges + seq(n, _ => charge) + [charge] == charges + seq(n + 1, _ => charge);
  }

  lemma {:induction false} ManyReturns(w: World, i: nat, lines: seq<ReturnLine>, now: nat, gateway: Gateway,
                                      n: nat, total: int, consumed: int, remaining: int)
    requires ChargedTimes(w, i, lines, now, w.book.charges, 0, total, consumed, remaining)
    requires !gateway.Rejects? && 0 <= total && n * total <= remaining
    ensures ChargedTimes(Run(w, Repeated(Return(i, lines, now, gateway, None), n)), i, lines, now, w.book.charges, n,
                         total, consumed, remaining)
  {
    var s := Return(i, lines, now, gateway, None);
    if n > 0 {
      assert n * total == (n - 1) * total + total;
      ManyReturns(w, i, lines, now, gateway, n - 1, total, consumed, remaining);
      var before := Run(w, Repeated(s, n - 1));
      OneMoreReturn(before, i, lines, now, gateway, w.book.charges, n - 1, total, consumed, remaining);
      assert Repeated(s, n) == Repeated(s, n - 1) + [s];
      RunConcat(w, Repeated(s, n - 1), [s]);
      RunOne(before, s);
    }
  }

  /** The same partial return is accepted again and again on the amend route, each time at
      the price of the whole invoice: n times as long as n grand totals fit the remaining
      allowance, and not once more when the next does not. */
  lemma RepeatedReturnsCharge(w: World, i: nat, lines: seq<ReturnLine>, now: nat, gateway: Gateway,
                              n: nat, consumed: int, remaining: int)
    requires StaysOpen(w, i, lines, now) && !gateway.Rejects?
    requires Remains(w.book, FirstOfMonth(LocalDate(now)), consumed, remaining)
    requires 0 <= w.records[i].row.grandTotal && n * w.records[i].row.grandTotal <= remaining
    ensures var w' := Run(w, Repeated(Return(i, lines, now, gateway, None), n));
      var total := w.records[i].row.grandTotal;
      && ChargedTimes(w', i, lines, now, w.book.charges, n, total, consumed, remaining)
      && (ProcessReturn(w', i, lines, now, gateway, None).Some? <==> (n + 1) * total <= remaining)
  {
    var total := w.records[i].row.grandTotal;
    ManyReturns(w, i, lines, now, gateway, n, total, consumed, remaining);
    var w' := Run(w, Repeated(Return(i, lines, now, gateway, None), n));
    assert (n + 1) * total == n * total + total;
    OneReturn(w', i, lines, now, gateway, consumed + n * total, remaining - n * total);
  }

  /** Nothing counts what has come back already: n returns of the same lines of an edited
      invoice raise n credit notes, each for the full refund. */
  lemma {:induction false} RepeatedNotes(w: World, i: nat, lines: seq<ReturnLine>, now: nat, n: nat)
    requires R.EditedInvoice(w, i) && AllReturnable(w.records[i].items, lines)
    ensures var w', rec := Run(w, Repeated(Return(i, lines, now, Skipped, None), n)), w.records[i];
      && w'.book == w.book
      && w'.records == w.records[i := if n == 0 then rec else ReturnedRecord(rec, lines)]
                       + seq(n, _ => CreditNote(rec.items, lines, LocalDay(now)))
    decreases n
  {
    if n > 0 {
      var s, rec := Return(i, lines, now, Skipped, None), w.records[i];
      var w1 := Apply(w, s);
      StepKeeps(w, s);
      R.StaysEdited(w, w1, i);
      NoteRaised(w, i, lines, now);
      FlaggedTwice(rec.items, lines);
      SameNote(rec, lines, LocalDay(now));
      RunRepeated(w, s, n);
      RepeatedNotes(w1, i, lines, now, n - 1);
      NotesJoin(w.records, i, ReturnedRecord(rec, lines), CreditNote(rec.items, lines, LocalDay(now)), n);
    }
  }

  lemma NotesJoin(records: seq<InvoiceRecord>, i: nat, rec': InvoiceRecord, note: InvoiceRecord, n: nat)
    requires i < |records| && 0 < n
    ensures (records[i := rec'] + [note])[i := rec'] + seq(n - 1, _ => note) == records[i := rec'] + seq(n, _ => note)
  {
  }

  lemma NoteRaised(w: World, i: nat, lines: seq<ReturnLine>, now: nat)
    requires R.EditedInvoice(w, i) && AllReturnable(w.records[i].items, lines)
    ensures var w', rec := Apply(w, Return(i, lines, now, Skipped, None)), w.records[i];
      && w'.book == w.book
      && w'.records == w.records[i := ReturnedRecord(rec, lines)] + [CreditNote(rec.items, lines, LocalDay(now))]
  {
    R.ReturnAfterEdit(w, i, lines, now, Skipped, None);
  }

  lemma SameNote(rec: InvoiceRecord, lines: seq<ReturnLine>, today: nat)
    requires AllReturnable(rec.items, lines)
    ensures var items := ReturnedRecord(rec, lines).items;
      AllReturnable(items, lines) && CreditNote(items, lines, today) == CreditNote(rec.items, lines, today)
    ensures ReturnedRecord(ReturnedRecord(rec, lines), lines) == ReturnedRecord(rec, lines)
  {
    var items := ReturnedRecord(rec, lines).items;
    FlaggedTwice(rec.items, lines);
    forall j | 0 <= j < |lines| ensures NoteLines(items, lines)[j] == NoteLines(rec.items, lines)[j] {
      assert Returnable(rec.items, lines[j]) && Returnable(items, lines[j]);
    }
    assert NoteLines(items, lines) == NoteLines(rec.items, lines);
  }

  // ---- Cancel charges ------------------------------------------------------

  function CancelCharges(charges: seq<Charge>, i: nat): nat {
    if charges == [] then 0
    else
      var last := charges[|charges| - 1];
      CancelCharges(charges[..|charges| - 1], i) + (if last.invoice == i && last.action == Action.Cancel then 1 else 0)
  }

  lemma OneMoreCharge(charges: seq<Charge>, charge: Charge, i: nat)
    requires charge.invoice != i || charge.action != Action.Cancel
    ensures CancelCharges(charges + [charge], i) == CancelCharges(charges, i)
  {
    assert (charges + [charge])[..|charges|] == charges;
  }

  lemma EditStepCharges(w: World, s: Step, i: nat)
    requires Inv(w) && s.EditLine?
    ensures CancelCharges(Apply(w, s).book.charges, i) == CancelCharges(w.book.charges, i)
  {
    if s.i < |w.records| && s.k < |w.records[s.i].items| && Apply(w, s) != w {
      var r := EditItem(w, s.i, s.k, s.values, s.now, s.relation, s.gateway).value;
      ConsumeKeepsBook(w.book, w.records[s.i := r.records[s.i]], s.i, r.records[s.i].row.grandTotal, Action.Edit,
                       LocalDate(s.now));
      OneMoreCharge(w.book.charges, Charge(FirstOfMonth(LocalDate(s.now)), s.i, Action.Edit,
                                           r.records[s.i].row.grandTotal), i);
    }
  }

  lemma CancelStepCharges(w: World, s: Step, i: nat)
    requires R.EditedInvoice(w, i) && s.CancelWhole?
    ensures CancelCharges(Apply(w, s).book.charges, i) == CancelCharges(w.book.charges, i)
  {
    if s.i < |w.records| && CancelInvoice(w, s.i, s.now, s.later, s.gateway).Some? {
      var total := w.records[s.i].row.grandTotal;
      ConsumeKeepsBook(w.book, w.records, s.i, total, Action.Cancel, LocalDate(s.now));
      OneMoreCharge(w.book.charges, Charge(FirstOfMonth(LocalDate(s.now)), s.i, Action.Cancel, total), i);
    }
  }

  lemma ReturnStepCharges(w: World, s: Step, i: nat)
    requires R.EditedInvoice(w, i) && s.Return?
    ensures CancelCharges(Apply(w, s).book.charges, i) == CancelCharges(w.book.charges, i)
  {
    if s.i < |w.records| && CanCancelInvoice(w.records[s.i].row, w.records[s.i].items, s.now).Allowed? {
      var total := w.records[s.i].row.grandTotal;
      ConsumeKeepsBook(w.book, w.records, s.i, total, Action.Cancel, LocalDate(s.now));
      OneMoreCharge(w.book.charges, Charge(FirstOfMonth(LocalDate(s.now)), s.i, Action.Cancel, total), i);
    }
  }

  lemma OtherStepCharges(w: World, s: Step)
    requires !s.EditLine? && !s.CancelWhole? && !s.Return?
    ensures Apply(w, s).book.charges == w.book.charges
  {
  }

  /** After an edit no run charges the invoice for a cancel again, be it a whole cancel or a
      return: its returns go by credit note. */
  lemma {:induction false} NoCancelChargeAfterEdit(w: World, steps: seq<Step>, i: nat)
    requires R.EditedInvoice(w, i)
    ensures CancelCharges(Run(w, steps).book.charges, i) == CancelCharges(w.book.charges, i)
    decreases |steps|
  {
    if steps != [] {
      var s := steps[0];
      if s.EditLine? {
        EditStepCharges(w, s, i);
      } else if s.CancelWhole? {
        CancelStepCharges(w, s, i);
      } else if s.Return? {
        ReturnStepCharges(w, s, i);
      } else {
        OtherStepCharges(w, s);
      }
      StepKeeps(w, s);
      R.StaysEdited(w, Apply(w, s), i);
      NoCancelChargeAfterEdit(Apply(w, s), steps[1..], i);
    }
  }

  // ---- Invoices that no job touches ----------------------------------------

  /** Past validation, and no job that may still save has loaded it. */
  ghost predicate Settled(w: World, i: nat) {
    && i < |w.records| && !PreValidation(w.records[i].row.status)
    && forall task <- w.tasks :: task.invoice == i ==> !Saving(task.pc)
  }

  /** A till posts its own result for invoice i, which only counts without a number. */
  predicate TillPosts(s: Step, i: nat) {
    s.FiscalResult? && s.i == i
  }

  ghost predicate SameFiscal(w: World, w': World, i: nat)
    requires i < |w.records|
  {
    && i < |w'.records|
    && w'.records[i].row.number == w.records[i].row.number
    && w'.records[i].row.editDeadlineAt == w.records[i].row.editDeadlineAt
    && (w.records[i].row.editDeadlineAt.None? && w.records[i].row.status != Finalized ==>
          w'.records[i].row.status != Finalized)
  }

  lemma SettledJob(w: World, s: Step, i: nat)
    requires Settled(w, i) && OfJob(s)
    ensures Settled(Apply(w, s), i) && SameFiscal(w, Apply(w, s), i)
  {
    if ValidTask(w, s.t) {
      assert w.tasks[s.t] in w.tasks;
    }
  }

  lemma SettledReturn(w: World, s: Step, i: nat)
    requires Settled(w, i) && s.Return?
    ensures Settled(Apply(w, s), i) && SameFiscal(w, Apply(w, s), i)
  {
    if s.i < |w.records| && ProcessReturn(w, s.i, s.lines, s.now, s.gateway, s.noteNumber).Some? {
      R.ReturnIs(w, s.i, s.lines, s.now, s.gateway, s.noteNumber);
      assert Apply(w, s).records[i] == Apply(w, s).records[..|w.records|][i];
    }
  }

  lemma SettledEdit(w: World, s: Step, i: nat)
    requires Settled(w, i) && s.EditLine?
    ensures Settled(Apply(w, s), i) && SameFiscal(w, Apply(w, s), i)
  {
  }

  lemma SettledCancel(w: World, s: Step, i: nat)
    requires Settled(w, i) && (s.CancelWhole? || s.ForceCancel? || s.CancelLine?)
    ensures Settled(Apply(w, s), i) && SameFiscal(w, Apply(w, s), i)
  {
  }

  lemma SettledStep(w: World, s: Step, i: nat)
    requires Settled(w, i) && (HasNumber(w.records[i].row) || !TillPosts(s, i))
    ensures Settled(Apply(w, s), i) && SameFiscal(w, Apply(w, s), i)
  {
    if OfJob(s) {
      SettledJob(w, s, i);
    } else if s.Return? {
      SettledReturn(w, s, i);
    } else if s.EditLine? {
      SettledEdit(w, s, i);
    } else if s.CancelWhole? || s.ForceCancel? || s.CancelLine? {
      SettledCancel(w, s, i);
    }
  }

  lemma {:induction false} SettledRun(w: World, steps: seq<Step>, i: nat)
    requires Settled(w, i) && (HasNumber(w.records[i].row) || forall s <- steps :: !TillPosts(s, i))
    ensures Settled(Run(w, steps), i) && SameFiscal(w, Run(w, steps), i)
    decreases |steps|
  {
    if steps != [] {
      SettledStep(w, steps[0], i);
      SettledRun(Apply(w, steps[0]), steps[1..], i);
    }
  }

  /** A return of an invoice that no job has loaded yet ends its submission for good:
      whatever jobs are queued or run later, it never gets a number, unless a till posts one. */
  lemma ReturnEndsSubmission(w: World, i: nat, lines: seq<ReturnLine>, now: nat, gateway: Gateway,
                             number: Option<string>, steps: seq<Step>)
    requires i < |w.records| && w.records[i].row.number.None?
    requires forall task <- w.tasks :: task.invoice == i ==> !Saving(task.pc)
    requires ProcessReturn(w, i, lines, now, gateway, number).Some?
    requires forall s <- steps :: !TillPosts(s, i)
    ensures var w' := Run(Apply(w, Return(i, lines, now, gateway, number)), steps);
      i < |w'.records| && w'.records[i].row.number.None? && !PreValidation(w'.records[i].row.status)
  {
    var w1 := Apply(w, Return(i, lines, now, gateway, number));
    R.ReturnIs(w, i, lines, now, gateway, number);
    assert w1.records[i] == w1.records[..|w.records|][i];
    SettledRun(w1, steps, i);
  }

  // ---- Credit notes --------------------------------------------------------

  ghost predicate PostsNote(w: World, i: nat, lines: seq<ReturnLine>, now: nat, number: Option<string>) {
    && i < |w.records| && CanCancelInvoice(w.records[i].row, w.records[i].items, now).Refused?
    && ProcessReturn(w, i, lines, now, Accepts, number).Some?
  }

  /** A credit note that the gateway accepted is numbered and `valid` without any submit job
      and without an edit deadline, and can be cancelled at any time. Over every later run
      it gets no deadline: it is never finalized, and whether it can be cancelled does not
      depend on the time. */
  lemma NoteNeverExpires(w: World, i: nat, lines: seq<ReturnLine>, now: nat, number: string, steps: seq<Step>,
                         t: int, t': int)
    requires Inv(w) && PostsNote(w, i, lines, now, Some(number)) && number != ""
    ensures var w1, n := Apply(w, Return(i, lines, now, Accepts, Some(number))), |w.records|;
      var w' := Run(w1, steps);
      && n < |w1.records| && w1.records[n].row.status == Valid && w1.records[n].row.number == Some(number)
      && CanCancelInvoice(w1.records[n].row, w1.records[n].items, t).Allowed?
      && n < |w'.records|
      && var row, items := w'.records[n].row, w'.records[n].items;
        && row.number == Some(number) && row.editDeadlineAt.None? && row.status != Finalized
        && !Finalizable(row, t)
        && (CanCancelInvoice(row, items, t).Allowed? <==> CanCancelInvoice(row, items, t').Allowed?)
  {
    var w1, n := Apply(w, Return(i, lines, now, Accepts, Some(number))), |w.records|;
    NotePosted(w, i, lines, now, Some(number));
    R.NotePlain(w.records[i].items, lines);
    assert Settled(w1, n);
    SettledRun(w1, steps, n);
  }

  lemma NotePosted(w: World, i: nat, lines: seq<ReturnLine>, now: nat, number: Option<string>)
    requires PostsNote(w, i, lines, now, number)
    ensures var w1, n := Apply(w, Return(i, lines, now, Accepts, number)), |w.records|;
      var note := CreditNote(w.records[i].items, lines, LocalDay(now));
      && w1.tasks == w.tasks
      && w1.records == w.records[i := ReturnedRecord(w.records[i], lines)]
                       + [note.(row := note.row.(number := number, status := Valid))]
  {
  }

  lemma {:induction false} SalesUnmoved(records: seq<InvoiceRecord>, i: nat, rec: InvoiceRecord, today: Date)
    requires ValidDate(today) && i < |records|
    requires rec.row == records[i].row.(status := rec.row.status)
    requires Counted(rec.row.status) <==> Counted(records[i].row.status)
    ensures SalesTotal(records[i := rec], today) == SalesTotal(records, today)
  {
    var front, after := records[..|records| - 1], records[i := rec];
    if i < |front| {
      assert after[..|records| - 1] == front[i := rec];
      SalesUnmoved(front, i, rec, today);
    } else {
      assert after[..|records| - 1] == front;
    }
  }

  /** The base of the next month's budget counts an accepted credit note as a sale, and the
      returned invoice still: the refund is added, not taken off. */
  lemma NoteRaisesBase(w: World, i: nat, lines: seq<ReturnLine>, now: nat, number: Option<string>, today: Date)
    requires PostsNote(w, i, lines, now, number) && Counted(w.records[i].row.status)
    requires ValidDate(today) && 0 < MonthIndex(today) && InPreviousMonth(LocalDay(now), today)
    ensures var w1 := Apply(w, Return(i, lines, now, Accepts, number));
      SalesTotal(w1.records, today) == SalesTotal(w.records, today) + Refund(w.records[i].items, lines)
  {
    var w1, n := Apply(w, Return(i, lines, now, Accepts, number)), |w.records|;
    NotePosted(w, i, lines, now, number);
    SalesUnmoved(w.records, i, ReturnedRecord(w.records[i], lines), today);
    assert w1.records[..n] == w.records[i := ReturnedRecord(w.records[i], lines)];
  }
}

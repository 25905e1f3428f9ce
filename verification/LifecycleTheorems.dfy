/** Consequences of the lifecycle invariant, stated over whole runs. */
module LifecycleTheorems {
  import opened Wrappers
  import opened Calendar
  import opened Sales
  import opened Rules
  import opened Budget
  import opened Returns
  import opened Lifecycle
  import opened LifecycleInvariant
  import Rounding

  // ---- The number ----------------------------------------------------------

  /** Once an invoice has an FBR number, no run of interleaved submit tasks, amendments and
      beats ever changes the number or takes the status back before validation. */
  lemma NumberIsForever(w: World, steps: seq<Step>, i: nat)
    requires Inv(w) && i < |w.records| && HasNumber(w.records[i].row)
    ensures var w' := Run(w, steps);
      && i < |w'.records|
      && w'.records[i].row.number == w.records[i].row.number
      && !PreValidation(w'.records[i].row.status)
  {
    RunKeeps(w, steps);
    assert Remembered(w.records[i], Run(w, steps).records[i]);
    assert RecordOk(Run(w, steps).records[i]);
  }

  /** An invoice's own number is not among the others'. */
  lemma OwnNumberFree(w: World, i: nat)
    requires Inv(w) && i < |w.records| && w.records[i].row.number.Some?
    ensures w.records[i].row.number.value !in NumbersBut(w.records, w.elsewhere, i)
  {
  }

  /** A number stored once is never stored by a second invoice of this or another tenant,
      however the run goes on. This includes the empty number. */
  lemma DistinctNumbers(w: World, steps: seq<Step>, i: nat, j: nat)
    requires Inv(w) && i < |w.records| && w.records[i].row.number.Some?
    ensures var w' := Run(w, steps);
      && w.records[i].row.number.value !in w'.elsewhere
      && (j != i && j < |w'.records| ==> w'.records[j].row.number != w.records[i].row.number)
  {
    RunKeeps(w, steps);
    assert Remembered(w.records[i], Run(w, steps).records[i]);
  }

  /** In every reachable state at most one invoice is stored under the empty number, and
      none while another tenant has it. */
  lemma OneEmptyNumber(steps: seq<Step>, i: nat)
    requires i < |Run(EMPTY, steps).records| && Run(EMPTY, steps).records[i].row.number == Some("")
    ensures var w := Run(EMPTY, steps);
      "" !in w.elsewhere && forall j: nat :: j < |w.records| && w.records[j].row.number == Some("") ==> j == i
  {
    ReachableOk(steps);
    DistinctNumbers(Run(EMPTY, steps), [], i, i);
    forall j: nat | j < |Run(EMPTY, steps).records| && Run(EMPTY, steps).records[j].row.number == Some("")
      ensures j == i
    {
      DistinctNumbers(Run(EMPTY, steps), [], i, j);
    }
  }

  /** Why: any save of a task that loaded the invoice before it was numbered is refused,
      and a second persist succeeds only with the very same number. */
  lemma StaleSavesRefused(w: World, t: nat, fields: set<Field>, number: string, now: nat)
    requires Inv(w) && t < |w.tasks| && Saving(w.tasks[t].pc)
    requires w.tasks[t].invoice < |w.records| && HasNumber(w.records[w.tasks[t].invoice].row)
    ensures var row, inst := w.records[w.tasks[t].invoice].row, w.tasks[t].inst;
      var taken := NumbersBut(w.records, w.elsewhere, w.tasks[t].invoice);
      && Save(row, inst, fields, taken).None?
      && (Save(row, Stamped(inst, number, now), fields + {NumberField}, taken).Some? <==> row.number == Some(number))
  {
    assert TaskOk(|w.records|, w.tasks[t]);
    OwnNumberFree(w, w.tasks[t].invoice);
  }

  /** The trigger alone would let a stale task mark a validated invoice failed: it looks
      only at statements that write the number. The save signal is what protects the
      status. */
  lemma TriggerDoesNotGuardStatus(row: Invoice, inst: Invoice)
    requires HasNumber(row) && !HasNumber(inst)
    ensures !TriggerRefuses(row, inst, {StatusField}) && SignalRefuses(row, inst)
    ensures Written(row, inst.(status := Failed), {StatusField}) == row.(status := Failed)
  {
  }

  /** A limit of the guarantee: when the gateway hands the same number to two tasks, the
      later persist revives the invoice, whatever became of it in the meantime. */
  lemma DuplicateNumberRevives(w: World, t: nat, now: nat)
    requires Inv(w) && ValidTask(w, t) && w.tasks[t].pc.Accepted?
    requires w.records[w.tasks[t].invoice].row.number == Some(w.tasks[t].pc.number)
    ensures var row := PersistSuccess(w, t, now).records[w.tasks[t].invoice].row;
      row.status == Valid && row.number == Some(w.tasks[t].pc.number)
  {
    OwnNumberFree(w, w.tasks[t].invoice);
  }

  // ---- Edits ---------------------------------------------------------------

  /** The fall-through of status `edited` in the rules is harmless: with the invariant,
      every amendment of an edited invoice is refused at every time. */
  lemma EditedRefusesAll(rec: InvoiceRecord, k: nat, now: int)
    requires RecordOk(rec) && rec.row.status == Edited && k < |rec.items|
    ensures CanEditItem(rec.row, rec.items[k], now).Refused?
    ensures CanCancelItem(rec.row, rec.items[k], now).Refused?
    ensures CanCancelInvoice(rec.row, rec.items, now).Refused?
  {
    assert ItemOk(rec, k);
    assert rec.items[k] in rec.items;
  }

  /** After an item was edited, no run reaches a state in which the whole invoice can be
      cancelled through us, with or without the gateway. It can still end up `cancelled`,
      under a recorded portal cancel or with every line flagged; ReturnTheorems says
      exactly how. */
  lemma NoCancelAfterEdit(w: World, steps: seq<Step>, i: nat, now: nat, later: nat, gateway: Gateway)
    requires Inv(w) && i < |w.records| && SomeEdited(w.records[i])
    ensures var w' := Run(w, steps);
      && i < |w'.records|
      && CancelInvoice(w', i, now, later, gateway).None? && CancelLocal(w', i, now).None?
      && (w'.records[i].row.status == Cancelled ==>
            w'.records[i].portalCancelled || AllCancelled(w'.records[i].items))
  {
    RunKeeps(w, steps);
    var rec, rec' := w.records[i], Run(w, steps).records[i];
    assert Remembered(rec, rec') && RecordOk(rec');
    var k :| 0 <= k < |rec.items| && rec.items[k].isEdited;
    assert ItemRemembered(rec, rec', k);
    assert rec'.items[k] in rec'.items;
  }

  /** Quantity, price, rate, tax, discount and total are those of the line. */
  predicate SameFigures(f: Figures, it: SaleItem) {
    && f.quantity == it.quantity && f.unitPrice == it.unitPrice && f.taxRate == it.taxRate
    && f.taxAmount == it.taxAmount && f.discountAmount == it.discountAmount && f.lineTotal == it.lineTotal
  }

  /** Originals remain viewable: for a line that was unedited in w, any later state still
      has its figures, in place or in exactly one history row. */
  lemma OriginalsRemain(w: World, steps: seq<Step>, i: nat, k: nat)
    requires Inv(w) && i < |w.records| && k < |w.records[i].items| && !w.records[i].items[k].isEdited
    ensures var w' := Run(w, steps);
      && i < |w'.records| && k < |w'.records[i].items|
      && var rec, rec' := w.records[i], w'.records[i];
        if rec'.items[k].isEdited
        then (exists h <- rec'.history :: h.item == k && SameFigures(h.before, rec.items[k]))
             && EditsOf(rec'.history, k) == 1
        else SameFigures(FiguresOf(rec'.items[k]), rec.items[k]) && EditsOf(rec'.history, k) == 0
  {
    RunKeeps(w, steps);
    var rec, rec' := w.records[i], Run(w, steps).records[i];
    assert Remembered(rec, rec') && RecordOk(rec');
    assert ItemRemembered(rec, rec', k) && ItemOk(rec', k);
    if rec'.items[k].isEdited {
      var h := HistoryRow(k, FiguresOf(rec.items[k]));
      assert h in rec'.history && SameFigures(h.before, rec.items[k]);
    }
  }

  function EditCounts(items: seq<SaleItem>): nat {
    if items == [] then 0 else EditCounts(items[..|items| - 1]) + items[|items| - 1].editCount
  }

  function EditsBelow(history: seq<HistoryRow>, n: nat): nat {
    if history == [] then 0
    else EditsBelow(history[..|history| - 1], n) + (if history[|history| - 1].item < n then 1 else 0)
  }

  /** In every reachable state the edit counters of an invoice, its history rows about
      them and the edit charges in the budget are equally many. */
  lemma EditsCountedAlike(w: World, steps: seq<Step>, i: nat)
    requires Inv(w) && i < |Run(w, steps).records|
    ensures var w' := Run(w, steps);
      var rec := w'.records[i];
      && EditCounts(rec.items) == EditsBelow(rec.history, |rec.items|)
      && EditCharges(w'.book.charges, i) == |rec.history|
  {
    RunKeeps(w, steps);
    var rec := Run(w, steps).records[i];
    assert RecordOk(rec);
    CountsAgree(rec, |rec.items|);
    assert rec.items[..|rec.items|] == rec.items;
  }

  lemma {:induction false} CountsAgree(rec: InvoiceRecord, n: nat)
    requires n <= |rec.items| && forall k: nat :: k < n ==> ItemOk(rec, k)
    ensures EditCounts(rec.items[..n]) == EditsBelow(rec.history, n)
  {
    if n == 0 {
      NoneBelowZero(rec.history);
    } else {
      CountsAgree(rec, n - 1);
      assert rec.items[..n][..n - 1] == rec.items[..n - 1];
      assert ItemOk(rec, n - 1);
      BelowSplits(rec.history, n - 1);
    }
  }

  lemma {:induction false} NoneBelowZero(history: seq<HistoryRow>)
    ensures EditsBelow(history, 0) == 0
  {
    if history != [] {
      NoneBelowZero(history[..|history| - 1]);
    }
  }

  lemma {:induction false} BelowSplits(history: seq<HistoryRow>, n: nat)
    ensures EditsBelow(history, n + 1) == EditsBelow(history, n) + EditsOf(history, n)
  {
    if history != [] {
      BelowSplits(history[..|history| - 1], n);
    }
  }

  /** However a run goes, an invoice is charged for at most one edit a line. */
  lemma EditChargesBounded(w: World, steps: seq<Step>, i: nat)
    requires Inv(w) && i < |Run(w, steps).records|
    ensures EditCharges(Run(w, steps).book.charges, i) <= |Run(w, steps).records[i].items|
  {
    EditsCountedAlike(w, steps, i);
    RunKeeps(w, steps);
    var rec := Run(w, steps).records[i];
    assert RecordOk(rec);
    AllBelow(rec.history, |rec.items|);
    forall it <- rec.items ensures it.editCount <= 1 {
      var k :| 0 <= k < |rec.items| && rec.items[k] == it;
      assert ItemOk(rec, k);
    }
    CountsBounded(rec.items);
  }

  lemma {:induction false} AllBelow(history: seq<HistoryRow>, n: nat)
    requires forall h <- history :: h.item < n
    ensures EditsBelow(history, n) == |history|
  {
    if history != [] {
      AllBelow(history[..|history| - 1], n);
    }
  }

  lemma {:induction false} CountsBounded(items: seq<SaleItem>)
    requires forall it <- items :: it.editCount <= 1
    ensures EditCounts(items) <= |items|
  {
    if items != [] {
      CountsBounded(items[..|items| - 1]);
    }
  }

  // ---- The cap -------------------------------------------------------------

  /** The grand total is the exact sum of the live line totals, within half a
      ten-thousandth a live line of subtotal - discount + tax. */
  ghost predicate TotalsOk(row: Invoice, items: seq<SaleItem>) {
    && row.grandTotal == LiveSum(items, LineTotal)
    && Rounding.Abs(10_000 * row.grandTotal - (row.subtotal - 10_000 * row.discountTotal + 10_000 * row.taxTotal))
       <= 5_000 * LiveCount(items)
  }

  /** Over a fresh relation the totals after an edit are those of the edited lines. */
  lemma EditedTotals(rec: InvoiceRecord, k: nat, p: Patch)
    requires k < |rec.items| && LinesConsistent(rec.items)
    ensures var items := EditedItems(rec.items, k, p);
      TotalsOk(EditedRecord(rec, k, p, items).row, items)
  {
    var items := EditedItems(rec.items, k, p);
    RecomputeMeans(rec.items[k], p);
    forall it <- items ensures it.isCancelled || LineConsistent(it) {
    }
    TotalsDrift(rec.row, items);
  }

  /** Each total after an edit: over a fresh relation it has moved by exactly what the edited
      line's own figure has, over the prefetched lines not at all. */
  lemma EditMovesTotals(rec: InvoiceRecord, k: nat, p: Patch)
    requires k < |rec.items| && !rec.items[k].isCancelled
    ensures var before := WithTotals(rec.row, rec.items);
      var edited := EditedRecord(rec, k, p, EditedItems(rec.items, k, p));
      var was, now := rec.items[k], edited.items[k];
      && edited.row.subtotal == before.subtotal - was.quantity * was.unitPrice + now.quantity * now.unitPrice
      && edited.row.discountTotal == before.discountTotal - was.discountAmount + now.discountAmount
      && edited.row.taxTotal == before.taxTotal - was.taxAmount + now.taxAmount
      && edited.row.grandTotal == before.grandTotal - was.lineTotal + now.lineTotal
    ensures var prefetched := EditedRecord(rec, k, p, rec.items);
      prefetched.row == WithTotals(rec.row, rec.items).(status := prefetched.row.status)
  {
    var it := EditedItem(rec.items[k], p);
    LiveSumUpdate(rec.items, k, it, Gross);
    LiveSumUpdate(rec.items, k, it, Discount);
    LiveSumUpdate(rec.items, k, it, Tax);
    LiveSumUpdate(rec.items, k, it, LineTotal);
  }

  lemma {:induction false} LiveSumUpdate(items: seq<SaleItem>, k: nat, it: SaleItem, f: SaleItem -> int)
    requires k < |items| && !items[k].isCancelled && !it.isCancelled
    ensures LiveSum(items[k := it], f) == LiveSum(items, f) - f(items[k]) + f(it)
  {
    var front, after := items[..|items| - 1], items[k := it];
    if k < |front| {
      assert after[..|items| - 1] == front[k := it];
      LiveSumUpdate(front, k, it, f);
    } else {
      assert after[..|items| - 1] == front;
    }
  }

  predicate SomeCancelled(rec: InvoiceRecord) {
    exists it <- rec.items :: it.isCancelled
  }

  /** Over the prefetched lines, which is what the endpoint passes, the totals are those of
      the lines before the edit: they are right exactly when the edit leaves the line total
      as it was, and lag by its change otherwise. The status is taken from those lines too,
      so it is never `edited`, and an invoice's first edit beside cancelled lines shows as
      `partially_edited`. */
  lemma EndpointEdit(rec: InvoiceRecord, k: nat, p: Patch)
    requires k < |rec.items| && !rec.items[k].isEdited && !rec.items[k].isCancelled
    ensures var rec' := EditedRecord(rec, k, p, rec.items);
      && rec'.row.grandTotal == LiveSum(rec.items, LineTotal)
      && LiveSum(rec'.items, LineTotal)
         == rec'.row.grandTotal + rec'.items[k].lineTotal - rec.items[k].lineTotal
      && (rec'.row.grandTotal == LiveSum(rec'.items, LineTotal) <==> rec'.items[k].lineTotal == rec.items[k].lineTotal)
      && rec'.row.status
         == (if SomeEdited(rec) && SomeCancelled(rec) then PartiallyEditedAndCancelled else PartiallyEdited)
  {
    LiveSumUpdate(rec.items, k, EditedItem(rec.items[k], p), LineTotal);
    assert rec.items[k] in rec.items;
  }

  /** Doubling the only line of an invoice of 118.00, 18.00 of it tax: the line becomes
      236.00, the invoice and the charge stay at 118.00. */
  lemma EndpointEditMisses(row: Invoice)
    ensures var line := SaleItem(10_000, 1_000_000, 0, 0, 1_800, 180_000, 1_180_000, false, false, 0);
      var rec := InvoiceRecord(row, [line], [], false);
      var rec' := EditedRecord(rec, 0, Patch(Some(20_000), None, None), rec.items);
      rec'.items[0].lineTotal == 2_360_000 && rec'.row.grandTotal == 1_180_000 && rec'.row.status == PartiallyEdited
  {
    var line := SaleItem(10_000, 1_000_000, 0, 0, 1_800, 180_000, 1_180_000, false, false, 0);
    EndpointEdit(InvoiceRecord(row, [line], [], false), 0, Patch(Some(20_000), None, None));
    assert [line][..0] == [];
    assert LiveSum([line], LineTotal) == LiveSum([], LineTotal) + 1_180_000;
  }

  /** A successful edit charges the budget once, with the grand total it stores; only the
      edited line, its invoice and the book change. That total is the sum over the edited
      lines for a fresh relation, and over the lines before the edit at the endpoint. */
  lemma EditChargesOnce(w: World, i: nat, k: nat, values: seq<(string, Option<int>)>, now: nat, relation: Relation,
                        gateway: Gateway)
    requires Inv(w) && i < |w.records| && k < |w.records[i].items|
    requires EditItem(w, i, k, values, now, relation, gateway).Some?
    ensures var w' := EditItem(w, i, k, values, now, relation, gateway).value;
      var rec, rec' := w.records[i], w'.records[i];
      && w'.book.charges
         == w.book.charges + [Charge(CurrentMonthStart(now), i, Action.Edit, rec'.row.grandTotal)]
      && w'.records == w.records[i := rec']
      && |rec'.items| == |rec.items| && rec'.items == rec.items[k := rec'.items[k]]
      && w'.tasks == w.tasks
      && rec'.row.grandTotal == LiveSum(if relation.Fresh? then rec'.items else rec.items, LineTotal)
      && (relation.Fresh? && LinesConsistent(rec.items) ==> TotalsOk(rec'.row, rec'.items))
      && (relation.Prefetched? ==>
            (rec'.row.grandTotal == LiveSum(rec'.items, LineTotal)
             <==> rec'.items[k].lineTotal == rec.items[k].lineTotal))
  {
    var rec := w.records[i];
    var p := CleanPatch(values).value;
    assert RecordOk(rec);
    EditAllowedMeans(rec, k, now);
    if relation.Fresh? {
      if LinesConsistent(rec.items) {
        EditedTotals(rec, k, p);
      }
    } else {
      EndpointEdit(rec, k, p);
    }
    var rec' := EditedRecord(rec, k, p, Seen(relation, rec.items, EditedItems(rec.items, k, p)));
    ConsumeKeepsBook(w.book, w.records[i := rec'], i, rec'.row.grandTotal, Action.Edit, LocalDate(now));
  }

  // ---- Runs of the endpoints -----------------------------------------------

  /** The step reads its lines as the endpoints do. */
  predicate AtEndpoint(s: Step) {
    (s.EditLine? ==> s.relation.Prefetched?) && (s.CancelLine? ==> s.relation.Prefetched?)
  }

  ghost predicate NoneEdited(w: World) {
    forall rec <- w.records :: rec.row.status != Edited
  }

  /** An accepted per-item cancel at the endpoint always leaves `partially_cancelled`, even
      when it cancels the last line. */
  lemma EndpointCancel(w: World, i: nat, k: nat, now: nat)
    requires i < |w.records| && k < |w.records[i].items| && CancelItem(w, i, k, now, Prefetched).Some?
    ensures var rec, rec' := w.records[i], CancelItem(w, i, k, now, Prefetched).value.records[i];
      && rec'.row == rec.row.(status := PartiallyCancelled)
      && rec'.items == rec.items[k := rec.items[k].(isCancelled := true)]
  {
    assert w.records[i].items[k] in w.records[i].items;
  }

  lemma EndpointEditStep(w: World, s: Step)
    requires Inv(w) && NoneEdited(w) && s.EditLine? && s.relation.Prefetched?
    ensures NoneEdited(Apply(w, s))
  {
    if s.i < |w.records| && s.k < |w.records[s.i].items| && Apply(w, s) != w {
      var rec := w.records[s.i];
      assert RecordOk(rec);
      EditAllowedMeans(rec, s.k, s.now);
      EndpointEdit(rec, s.k, CleanPatch(s.values).value);
    }
  }

  lemma EndpointCancelStep(w: World, s: Step)
    requires NoneEdited(w) && s.CancelLine? && s.relation.Prefetched?
    ensures NoneEdited(Apply(w, s))
  {
    if s.i < |w.records| && s.k < |w.records[s.i].items| && Apply(w, s) != w {
      EndpointCancel(w, s.i, s.k, s.now);
    }
  }

  lemma EndpointStep(w: World, s: Step)
    requires Inv(w) && NoneEdited(w) && AtEndpoint(s)
    ensures NoneEdited(Apply(w, s))
  {
    if s.EditLine? {
      EndpointEditStep(w, s);
    } else if s.CancelLine? {
      EndpointCancelStep(w, s);
    } else {
      OtherStep(w, s);
    }
  }

  lemma OtherStep(w: World, s: Step)
    requires NoneEdited(w) && !s.EditLine? && !s.CancelLine?
    ensures NoneEdited(Apply(w, s))
  {
    if s.Submit? || s.Persist? || s.Fail? || s.NonFiscal? {
      if ValidTask(w, s.t) {
        SavingStep(w, s);
      }
    }
  }

  lemma SavingStep(w: World, s: Step)
    requires NoneEdited(w) && (s.Submit? || s.Persist? || s.Fail? || s.NonFiscal?) && ValidTask(w, s.t)
    ensures NoneEdited(Apply(w, s))
  {
  }

  /** Over every run of the endpoints, however interleaved, no invoice ever gets the status
      `edited`; the fall-through that EditedRefusesAll is about is never entered. */
  lemma {:induction false} EndpointNeverEdited(w: World, steps: seq<Step>)
    requires Inv(w) && NoneEdited(w) && forall s <- steps :: AtEndpoint(s)
    ensures NoneEdited(Run(w, steps))
    decreases |steps|
  {
    if steps != [] {
      EndpointStep(w, steps[0]);
      StepKeeps(w, steps[0]);
      EndpointNeverEdited(Apply(w, steps[0]), steps[1..]);
    }
  }

  // ---- Whole cancels and drafts --------------------------------------------

  /** A successful whole cancel charges the budget once, with the grand total, and changes
      nothing but the invoice, the book and the submission log. */
  lemma CancelChargesOnce(w: World, i: nat, now: nat, later: nat, gateway: Gateway)
    requires Inv(w) && i < |w.records| && CancelInvoice(w, i, now, later, gateway).Some?
    ensures var w' := CancelInvoice(w, i, now, later, gateway).value;
      && w'.book.charges
         == w.book.charges + [Charge(CurrentMonthStart(now), i, Action.Cancel, w.records[i].row.grandTotal)]
      && w'.records == w.records[i := CancelledRecord(w.records[i])]
      && w'.tasks == w.tasks
      && w.submissions <= w'.submissions <= w.submissions + [Submission(i, CancelEndpoint, 1, true)]
  {
    ConsumeKeepsBook(w.book, w.records, i, w.records[i].row.grandTotal, Action.Cancel, LocalDate(now));
  }

  /** Deleting a draft does not stop a submission that has already loaded it: the job marks
      the deleted invoice submitted and then, unless another invoice has the number, valid. */
  lemma DeletedDraftIsStillFiscalized(w: World, t: nat, number: string, now: nat)
    requires ValidTask(w, t) && w.tasks[t].pc == Loaded
    requires var row := w.records[w.tasks[t].invoice].row;
      w.tasks[t].inst == row && UnsubmittedDraft(row) && row.number.None?
    ensures var i := w.tasks[t].invoice;
      var w1 := Apply(w, Delete(i));
      var w4 := PersistSuccess(ReceiveReply(MarkSubmitted(w1, t, now), t, Success(number)), t, now);
      && w1.records[i].row.deleted && w1.records[i].row.status == Cancelled
      && w4.records[i].row.deleted
      && if number in NumbersBut(w.records, w.elsewhere, i)
         then w4.records[i].row.status == Submitted && w4.records[i].row.number.None?
         else w4.records[i].row.status == Valid && w4.records[i].row.number == Some(number)
  {
    var i := w.tasks[t].invoice;
    var w1 := Apply(w, Delete(i));
    OthersUnmoved(w.records, w.elsewhere, i, w1.records[i]);
    var w3 := ReceiveReply(MarkSubmitted(w1, t, now), t, Success(number));
    OthersUnmoved(w.records, w.elsewhere, i, w3.records[i]);
    assert w3.records == w.records[i := w3.records[i]];
  }

  /** Lines that satisfy gross - discount + tax = total keep doing so through any run, so
      the premise of EditChargesOnce has only to hold when an invoice is created. */
  lemma LinesStayConsistent(w: World, steps: seq<Step>, i: nat)
    requires Inv(w) && i < |w.records|
    requires forall it <- w.records[i].items :: LineConsistent(it)
    ensures i < |Run(w, steps).records|
    ensures forall it <- Run(w, steps).records[i].items :: LineConsistent(it)
  {
    RunKeeps(w, steps);
    var rec, rec' := w.records[i], Run(w, steps).records[i];
    assert Remembered(rec, rec');
    forall it <- rec'.items ensures LineConsistent(it) {
      var k :| 0 <= k < |rec'.items| && rec'.items[k] == it;
      assert ItemRemembered(rec, rec', k);
      assert rec.items[k] in rec.items;
    }
  }

  // ---- Ways past the cap ---------------------------------------------------

  /** The force-cancel endpoint is open exactly when the rule admits a whole cancel, which
      it only does for a numbered invoice, never for the unnumbered ones it is documented
      for; and it succeeds wherever the compliant cancel does, which moreover asks the
      budget and the gateway. Book and submission log stay as they are. */
  lemma ForceCancelEscapesTheCap(w: World, i: nat, now: nat, gateway: Gateway)
    requires Inv(w) && i < |w.records|
    ensures var rec, r := w.records[i], CancelLocal(w, i, now);
      && (r.Some? <==> CanCancelInvoice(rec.row, rec.items, now).Allowed?)
      && (r.Some? ==> HasNumber(rec.row) && r.value == w.(records := w.records[i := CancelledRecord(rec)]))
      && (CancelInvoice(w, i, now, now, gateway).Some? <==>
            && r.Some? && !gateway.Rejects?
            && Consumed(w.book, w.records, i, rec.row.grandTotal, Action.Cancel, LocalDate(now)).Some?)
  {
    var rec := w.records[i];
    assert RecordOk(rec);
    EditedStatusMeans(rec);
  }

  function CancelLines(i: nat, from: nat, n: nat, now: nat, relation: Relation): seq<Step>
    requires from <= n
    decreases n - from
  {
    if from == n then []
    else [CancelLine(i, from, now, relation)] + CancelLines(i, from + 1, n, now, relation)
  }

  function LastStatus(relation: Relation): Status {
    if relation.Fresh? then Cancelled else PartiallyCancelled
  }

  /** Per-item cancels never touch the cap: all lines of an invoice can be cancelled one by
      one with no charge and no gateway call. Over a fresh relation the invoice ends as a
      whole cancel leaves it; at the endpoint it stays `partially_cancelled`. */
  lemma LineCancelsEscapeTheCap(w: World, i: nat, now: nat, relation: Relation)
    requires Inv(w) && i < |w.records| && w.records[i].items != []
    requires CanCancelInvoice(w.records[i].row, w.records[i].items, now).Allowed?
    requires forall it <- w.records[i].items :: !it.isCancelled
    ensures var w' := Run(w, CancelLines(i, 0, |w.records[i].items|, now, relation));
      var rec := w.records[i];
      && w'.records == w.records[i := CancelledRecord(rec).(row := rec.row.(status := LastStatus(relation)))]
      && w'.book == w.book && w'.submissions == w.submissions
  {
    var rec := w.records[i];
    assert RecordOk(rec);
    EditedStatusMeans(rec);
    CancelRest(w, i, 0, now, relation);
    assert CancelledItems(rec.items) == CancelledFrom(rec.items, 0);
  }

  function CancelledFrom(items: seq<SaleItem>, k: nat): (r: seq<SaleItem>)
    requires k <= |items|
    ensures |r| == |items|
  {
    items[..k] + CancelledItems(items[k..])
  }

  ghost predicate CancelledUpTo(rec: InvoiceRecord, k: nat, now: nat) {
    && FbrAccepted(rec.row) && !PastDeadline(rec.row, now) && !rec.row.annexureLinked
    && forall j :: 0 <= j < |rec.items| ==> !rec.items[j].isEdited && (rec.items[j].isCancelled <==> j < k)
  }

  /** One per-item cancel in order. */
  lemma CancelNext(w: World, i: nat, k: nat, now: nat, relation: Relation)
    requires i < |w.records| && k < |w.records[i].items| && CancelledUpTo(w.records[i], k, now)
    ensures var rec := w.records[i];
      var items := rec.items[k := rec.items[k].(isCancelled := true)];
      var status := if k + 1 == |items| then LastStatus(relation) else PartiallyCancelled;
      && Apply(w, CancelLine(i, k, now, relation))
         == w.(records := w.records[i := rec.(items := items, row := rec.row.(status := status))])
      && (k + 1 < |items| ==>
            CancelledUpTo(Apply(w, CancelLine(i, k, now, relation)).records[i], k + 1, now))
  {
    var rec := w.records[i];
    var items := rec.items[k := rec.items[k].(isCancelled := true)];
    assert rec.items[k] in rec.items;
    if k + 1 < |items| {
      assert items[k + 1] in items && !items[k + 1].isCancelled;
    }
  }

  lemma {:induction false} CancelRest(w: World, i: nat, k: nat, now: nat, relation: Relation)
    requires i < |w.records| && k < |w.records[i].items| && CancelledUpTo(w.records[i], k, now)
    ensures var rec := w.records[i];
      Run(w, CancelLines(i, k, |rec.items|, now, relation))
      == w.(records := w.records[i :=
              rec.(items := CancelledFrom(rec.items, k), row := rec.row.(status := LastStatus(relation)))])
    decreases |w.records[i].items| - k
  {
    var rec := w.records[i];
    var n := |rec.items|;
    var steps := CancelLines(i, k, n, now, relation);
    var w1 := Apply(w, steps[0]);
    CancelNext(w, i, k, now, relation);
    assert steps[1..] == CancelLines(i, k + 1, n, now, relation);
    if k + 1 == n {
      assert CancelledFrom(rec.items, k) == w1.records[i].items;
    } else {
      CancelRest(w1, i, k + 1, now, relation);
      assert CancelledFrom(w1.records[i].items, k + 1) == CancelledFrom(rec.items, k);
    }
  }
}

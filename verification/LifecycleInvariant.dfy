/** What every step of the fiscal lifecycle keeps, and what follows for whole runs. */
module LifecycleInvariant {
  import opened Wrappers
  import opened Calendar
  import opened Sales
  import opened Rules
  import opened Budget
  import opened Returns
  import opened Lifecycle

  function EditsOf(history: seq<HistoryRow>, k: nat): nat {
    if history == [] then 0
    else EditsOf(history[..|history| - 1], k) + (if history[|history| - 1].item == k then 1 else 0)
  }

  function EditCharges(charges: seq<Charge>, i: nat): nat {
    if charges == [] then 0
    else
      var last := charges[|charges| - 1];
      EditCharges(charges[..|charges| - 1], i) + (if last.invoice == i && last.action == Action.Edit then 1 else 0)
  }

  /** At most one edit, counted the same way by the flag, the counter and the history rows.
      An edited line may be cancelled as well, but only by a return: see
      ReturnTheorems.EditedAndCancelled. */
  ghost predicate ItemOk(rec: InvoiceRecord, k: nat)
    requires k < |rec.items|
  {
    var it := rec.items[k];
    && it.editCount <= 1
    && (it.editCount == 1 <==> it.isEdited)
    && EditsOf(rec.history, k) == it.editCount
  }

  predicate SomeEdited(rec: InvoiceRecord) {
    exists it <- rec.items :: it.isEdited
  }

  ghost predicate RecordOk(rec: InvoiceRecord) {
    && (HasNumber(rec.row) ==> !PreValidation(rec.row.status))
    && (forall k: nat :: k < |rec.items| ==> ItemOk(rec, k))
    && (SomeEdited(rec) ==> HasNumber(rec.row))
    && (rec.row.status == Edited ==> rec.items != [] && forall it <- rec.items :: it.isEdited)
    && (rec.row.status == Cancelled && SomeEdited(rec) && !rec.portalCancelled ==> AllCancelled(rec.items))
    && (forall h <- rec.history :: h.item < |rec.items|)
  }

  predicate AllCancelled(items: seq<SaleItem>) {
    forall it <- items :: it.isCancelled
  }

  predicate Saving(pc: Pc) {
    !pc.Queued? && !pc.Backoff? && !pc.Done?
  }

  /** A task that may still save carries an instance without a number. */
  ghost predicate TaskOk(count: nat, task: Task) {
    && task.invoice < count
    && (Saving(task.pc) ==> !HasNumber(task.inst))
  }

  /** Edit charges match history rows, invoice by invoice. */
  ghost predicate ChargesMatch(w: World) {
    && (forall c <- w.book.charges :: c.invoice < |w.records|)
    && forall i: nat :: i < |w.records| ==> EditCharges(w.book.charges, i) == |w.records[i].history|
  }

  /** The unique constraint holds: no two invoices, here or elsewhere, store one number. */
  ghost predicate NumbersDistinct(records: seq<InvoiceRecord>, elsewhere: set<string>) {
    && (forall i: nat, j: nat :: i < j < |records| && records[i].row.number.Some? ==>
          records[i].row.number != records[j].row.number)
    && forall i: nat :: i < |records| && records[i].row.number.Some? ==> records[i].row.number.value !in elsewhere
  }

  ghost predicate Inv(w: World) {
    && (forall rec <- w.records :: RecordOk(rec))
    && (forall task <- w.tasks :: TaskOk(|w.records|, task))
    && BookOk(w.book)
    && ChargesMatch(w)
    && NumbersDistinct(w.records, w.elsewhere)
  }

  // ---- What a later state remembers ----------------------------------------

  ghost predicate ItemRemembered(rec: InvoiceRecord, rec': InvoiceRecord, k: nat)
    requires k < |rec.items| == |rec'.items|
  {
    var it, it' := rec.items[k], rec'.items[k];
    && (it.isEdited ==> it'.isEdited && FiguresOf(it') == FiguresOf(it))
    && (it.isCancelled ==> it'.isCancelled)
    && (!it'.isEdited ==> FiguresOf(it') == FiguresOf(it))
    && (!it.isEdited && it'.isEdited ==> HistoryRow(k, FiguresOf(it)) in rec'.history && LineConsistent(it'))
  }

  /** A stored number is for ever; an item's first figures stay readable, in place until
      its single edit and in the history afterwards; flags and logs only grow. */
  ghost predicate Remembered(rec: InvoiceRecord, rec': InvoiceRecord) {
    && (rec.row.number.Some? ==> rec'.row.number == rec.row.number)
    && rec'.row.invoiceDate == rec.row.invoiceDate
    && rec.history <= rec'.history
    && |rec.items| == |rec'.items|
    && forall k: nat :: k < |rec.items| ==> ItemRemembered(rec, rec', k)
  }

  ghost predicate Keeps(w: World, w': World) {
    && |w.records| <= |w'.records|
    && |w.tasks| <= |w'.tasks|
    && w.book.charges <= w'.book.charges
    && w.submissions <= w'.submissions && w.elsewhere <= w'.elsewhere
    && forall i: nat :: i < |w.records| ==> Remembered(w.records[i], w'.records[i])
  }

  lemma RememberedTransitive(a: InvoiceRecord, b: InvoiceRecord, c: InvoiceRecord)
    requires Remembered(a, b) && Remembered(b, c)
    ensures Remembered(a, c)
  {
    forall k: nat | k < |a.items|
      ensures ItemRemembered(a, c, k)
    {
      assert ItemRemembered(a, b, k) && ItemRemembered(b, c, k);
    }
  }

  lemma KeepsTransitive(a: World, b: World, c: World)
    requires Keeps(a, b) && Keeps(b, c)
    ensures Keeps(a, c)
  {
    forall i: nat | i < |a.records|
      ensures Remembered(a.records[i], c.records[i])
    {
      RememberedTransitive(a.records[i], b.records[i], c.records[i]);
    }
  }

  // ---- Steps on one record -------------------------------------------------

  /** A number invoice i may store: the one it has, or one that no other invoice has. */
  predicate NumberFits(w: World, i: nat, number: Option<string>)
    requires i < |w.records|
  {
    number == w.records[i].row.number || number.None? || number.value !in NumbersBut(w.records, w.elsewhere, i)
  }

  /** NumbersBut is exactly what its name says. */
  lemma OthersTaken(records: seq<InvoiceRecord>, elsewhere: set<string>, i: nat)
    ensures elsewhere <= NumbersBut(records, elsewhere, i)
    ensures forall j: nat :: j < |records| && j != i && records[j].row.number.Some? ==>
      records[j].row.number.value in NumbersBut(records, elsewhere, i)
  {
  }

  lemma OthersUnmoved(records: seq<InvoiceRecord>, elsewhere: set<string>, i: nat, rec: InvoiceRecord)
    requires i < |records|
    ensures NumbersBut(records[i := rec], elsewhere, i) == NumbersBut(records, elsewhere, i)
  {
    OthersWithin(records, records[i := rec], elsewhere, i);
    OthersWithin(records[i := rec], records, elsewhere, i);
  }

  lemma OthersWithin(a: seq<InvoiceRecord>, b: seq<InvoiceRecord>, elsewhere: set<string>, i: nat)
    requires |a| == |b| && forall j :: 0 <= j < |a| && j != i ==> a[j] == b[j]
    ensures NumbersBut(a, elsewhere, i) <= NumbersBut(b, elsewhere, i)
  {
    OthersTaken(b, elsewhere, i);
  }

  lemma NumbersStayDistinct(w: World, i: nat, rec': InvoiceRecord)
    requires NumbersDistinct(w.records, w.elsewhere) && i < |w.records| && NumberFits(w, i, rec'.row.number)
    ensures NumbersDistinct(w.records[i := rec'], w.elsewhere)
  {
    OthersTaken(w.records, w.elsewhere, i);
  }

  /** Replacing one record by an acceptable successor, with book and logs growing in step. */
  lemma RecordStep(w: World, i: nat, rec': InvoiceRecord, w': World)
    requires Inv(w) && i < |w.records|
    requires RecordOk(rec') && Remembered(w.records[i], rec')
    requires w'.records == w.records[i := rec'] && w'.tasks == w.tasks && w'.elsewhere == w.elsewhere
    requires NumberFits(w, i, rec'.row.number)
    requires BookOk(w'.book) && w.book.charges <= w'.book.charges && w.submissions <= w'.submissions
    requires forall c <- w'.book.charges :: c.invoice < |w.records|
    requires forall j: nat :: j < |w.records| && j != i ==>
      EditCharges(w'.book.charges, j) == EditCharges(w.book.charges, j)
    requires EditCharges(w'.book.charges, i) - EditCharges(w.book.charges, i)
          == |rec'.history| - |w.records[i].history|
    ensures Inv(w') && Keeps(w, w')
  {
    NumbersStayDistinct(w, i, rec');
  }

  /** A write to the invoice row alone. */
  lemma RowStep(w: World, i: nat, row: Invoice)
    requires Inv(w) && i < |w.records|
    requires w.records[i].row.number.Some? ==> row.number == w.records[i].row.number
    requires row.invoiceDate == w.records[i].row.invoiceDate
    requires HasNumber(row) ==> !PreValidation(row.status)
    requires row.status == w.records[i].row.status || row.status !in {Edited, Cancelled}
    requires NumberFits(w, i, row.number)
    ensures Inv(WithRow(w, i, row)) && Keeps(w, WithRow(w, i, row))
  {
    var rec := w.records[i];
    var rec' := rec.(row := row);
    assert RecordOk(rec);
    assert SomeEdited(rec') <==> SomeEdited(rec);
    forall k: nat | k < |rec'.items| ensures ItemOk(rec', k) {
      assert ItemOk(rec, k);
    }
    RecordStep(w, i, rec', WithRow(w, i, row));
  }

  lemma TaskStep(w: World, t: nat, task: Task)
    requires Inv(w) && t < |w.tasks| && TaskOk(|w.records|, task)
    ensures Inv(WithTask(w, t, task)) && Keeps(w, WithTask(w, t, task))
  {
  }

  lemma SaveStep(w: World, t: nat, inst: Invoice, fields: set<Field>, next: Pc)
    requires Inv(w) && ValidTask(w, t)
    requires !HasNumber(inst) || next.Done?
    requires StatusField in fields && inst.status !in {Edited, Cancelled}
    requires NumberField in fields ==> !PreValidation(inst.status)
    requires HasNumber(inst) ==> NumberField in fields
    ensures Inv(SaveAndGo(w, t, inst, fields, next)) && Keeps(w, SaveAndGo(w, t, inst, fields, next))
  {
    var task := w.tasks[t];
    assert TaskOk(|w.records|, task);
    var row := w.records[task.invoice].row;
    var saved := Save(row, inst, fields, NumbersBut(w.records, w.elsewhere, task.invoice));
    if saved.None? {
      TaskStep(w, t, task.(pc := Done));
    } else {
      RowStep(w, task.invoice, saved.value);
      var w1 := WithRow(w, task.invoice, saved.value);
      TaskStep(w1, t, task.(pc := next, inst := inst));
      KeepsTransitive(w, w1, SaveAndGo(w, t, inst, fields, next));
    }
  }

  /** Task steps that write no invoice. */
  lemma QuietTaskStep(w: World, s: Step)
    requires Inv(w) && (s.Load? || s.Defer? || s.Retry?)
    ensures Inv(Apply(w, s)) && Keeps(w, Apply(w, s))
  {
    if ValidTask(w, s.t) {
      var task := w.tasks[s.t];
      assert TaskOk(|w.records|, task);
      assert RecordOk(w.records[task.invoice]);
      TaskStep(w, s.t, Apply(w, s).tasks[s.t]);
    }
  }

  lemma ReplyKeeps(w: World, t: nat, outcome: Outcome)
    requires Inv(w) && ValidTask(w, t)
    ensures Inv(ReceiveReply(w, t, outcome)) && Keeps(w, ReceiveReply(w, t, outcome))
  {
    var w' := ReceiveReply(w, t, outcome);
    assert TaskOk(|w.records|, w.tasks[t]);
    var w1 := w.(submissions := w'.submissions);
    assert Inv(w1) && Keeps(w, w1);
    TaskStep(w1, t, w'.tasks[t]);
  }

  /** Task steps that end in a save. */
  lemma SubmitKeeps(w: World, t: nat, now: nat)
    requires Inv(w) && ValidTask(w, t)
    ensures Inv(MarkSubmitted(w, t, now)) && Keeps(w, MarkSubmitted(w, t, now))
  {
    var task := w.tasks[t];
    assert TaskOk(|w.records|, task);
    if task.pc == Loaded {
      SaveStep(w, t, task.inst.(status := Submitted, submittedAt := Some(now)),
               {StatusField, SubmittedAtField}, Sending);
    }
  }

  lemma PersistKeeps(w: World, t: nat, now: nat)
    requires Inv(w) && ValidTask(w, t)
    ensures Inv(PersistSuccess(w, t, now)) && Keeps(w, PersistSuccess(w, t, now))
  {
    var task := w.tasks[t];
    if task.pc.Accepted? {
      SaveStep(w, t, Stamped(task.inst, task.pc.number, now), {NumberField, DeadlineField, StatusField}, Done);
    } else if task.pc.ClientResult? {
      SaveStep(w, t, Stamped(task.inst, task.pc.number, now),
               {NumberField, DeadlineField, StatusField, SubmittedAtField}, Done);
    }
  }

  lemma CloseOrFailKeeps(w: World, t: nat)
    requires Inv(w) && ValidTask(w, t)
    ensures Inv(CloseNonFiscal(w, t)) && Keeps(w, CloseNonFiscal(w, t))
    ensures Inv(MarkFailed(w, t)) && Keeps(w, MarkFailed(w, t))
  {
    var task := w.tasks[t];
    assert TaskOk(|w.records|, task);
    if task.pc == Loaded {
      if task.inst.status == PendingSync {
        SaveStep(w, t, task.inst.(status := Finalized), {StatusField}, Done);
      } else {
        TaskStep(w, t, task.(pc := Done));
      }
    } else if task.pc == Rejected {
      SaveStep(w, t, task.inst.(status := Failed), {StatusField}, Done);
    }
  }

  // ---- Amendments ----------------------------------------------------------

  /** An allowed edit is of an unedited, uncancelled line of a numbered invoice: the
      fall-through of status `edited` never admits one. */
  lemma EditAllowedMeans(rec: InvoiceRecord, k: nat, now: int)
    requires RecordOk(rec) && k < |rec.items| && CanEditItem(rec.row, rec.items[k], now).Allowed?
    ensures HasNumber(rec.row) && AcceptedState(rec.row.status)
    ensures !rec.items[k].isEdited && !rec.items[k].isCancelled && rec.items[k].editCount == 0
  {
    assert ItemOk(rec, k);
    assert rec.items[k] in rec.items;
  }

  lemma EditedRecordOk(rec: InvoiceRecord, k: nat, p: Patch, relation: Relation)
    requires RecordOk(rec) && HasNumber(rec.row)
    requires k < |rec.items| && rec.items[k].editCount == 0 && !rec.items[k].isCancelled && !rec.items[k].isEdited
    ensures var rec' := EditedRecord(rec, k, p, Seen(relation, rec.items, EditedItems(rec.items, k, p)));
      RecordOk(rec') && Remembered(rec, rec')
  {
    var rec' := EditedRecord(rec, k, p, Seen(relation, rec.items, EditedItems(rec.items, k, p)));
    var row := HistoryRow(k, FiguresOf(rec.items[k]));
    RecomputeMeans(rec.items[k], p);
    assert rec'.history[..|rec.history|] == rec.history;
    assert rec'.history[|rec.history|] == row;
    forall j: nat | j < |rec.items|
      ensures ItemOk(rec', j) && ItemRemembered(rec, rec', j)
    {
      assert ItemOk(rec, j);
    }
    assert rec'.items[k] in rec'.items && rec'.items[k].isEdited;
    assert rec.items[k] in rec.items;
    if rec'.row.status == Edited {
      forall it <- rec'.items ensures it.isEdited {
      }
    }
  }

  lemma EditKeeps(w: World, i: nat, k: nat, values: seq<(string, Option<int>)>, now: nat, relation: Relation,
                  gateway: Gateway)
    requires Inv(w) && i < |w.records| && k < |w.records[i].items|
    ensures var r := EditItem(w, i, k, values, now, relation, gateway).GetOr(w); Inv(r) && Keeps(w, r)
  {
    var r := EditItem(w, i, k, values, now, relation, gateway);
    if r.Some? {
      var rec := w.records[i];
      var p := CleanPatch(values).value;
      var rec' := EditedRecord(rec, k, p, Seen(relation, rec.items, EditedItems(rec.items, k, p)));
      assert RecordOk(rec);
      EditAllowedMeans(rec, k, now);
      EditedRecordOk(rec, k, p, relation);
      var records := w.records[i := rec'];
      ConsumeKeepsBook(w.book, records, i, rec'.row.grandTotal, Action.Edit, LocalDate(now));
      ChargeCounts(w.book.charges, r.value.book.charges, |w.records|);
      RecordStep(w, i, rec', r.value);
    }
  }

  /** Appending one charge. */
  lemma ChargeCounts(charges: seq<Charge>, charges': seq<Charge>, n: nat)
    requires |charges'| == |charges| + 1 && charges' == charges + [charges'[|charges|]]
    requires charges'[|charges|].invoice < n && forall c <- charges :: c.invoice < n
    ensures charges <= charges' && forall c <- charges' :: c.invoice < n
    ensures var last := charges'[|charges|];
      forall j: nat :: EditCharges(charges', j)
        == EditCharges(charges, j) + (if last.invoice == j && last.action == Action.Edit then 1 else 0)
  {
  }

  lemma EditedStatusMeans(rec: InvoiceRecord)
    requires RecordOk(rec)
    ensures rec.row.status == Edited ==> SomeEdited(rec)
  {
    if rec.row.status == Edited {
      assert rec.items[0] in rec.items;
    }
  }

  lemma CancelledRecordOk(rec: InvoiceRecord)
    requires RecordOk(rec) && HasNumber(rec.row) && !SomeEdited(rec)
    ensures RecordOk(CancelledRecord(rec)) && Remembered(rec, CancelledRecord(rec))
  {
    var rec' := CancelledRecord(rec);
    forall k: nat | k < |rec.items|
      ensures ItemOk(rec', k) && ItemRemembered(rec, rec', k)
    {
      assert ItemOk(rec, k);
      assert rec.items[k] in rec.items;
    }
    assert !SomeEdited(rec');
  }

  lemma CancelWholeKeeps(w: World, i: nat, now: nat, later: nat, gateway: Gateway)
    requires Inv(w) && i < |w.records|
    ensures var r := CancelInvoice(w, i, now, later, gateway).GetOr(w); Inv(r) && Keeps(w, r)
  {
    var r := CancelInvoice(w, i, now, later, gateway);
    if r.Some? {
      var rec := w.records[i];
      assert RecordOk(rec);
      EditedStatusMeans(rec);
      CancelledRecordOk(rec);
      ConsumeKeepsBook(w.book, w.records, i, rec.row.grandTotal, Action.Cancel, LocalDate(now));
      ChargeCounts(w.book.charges, r.value.book.charges, |w.records|);
      RecordStep(w, i, CancelledRecord(rec), r.value);
    }
  }

  lemma CancelLocalKeeps(w: World, i: nat, now: nat)
    requires Inv(w) && i < |w.records|
    ensures var r := CancelLocal(w, i, now).GetOr(w); Inv(r) && Keeps(w, r)
  {
    var r := CancelLocal(w, i, now);
    if r.Some? {
      var rec := w.records[i];
      assert RecordOk(rec);
      EditedStatusMeans(rec);
      CancelledRecordOk(rec);
      RecordStep(w, i, CancelledRecord(rec), r.value);
    }
  }

  lemma CancelLineKeeps(w: World, i: nat, k: nat, now: nat, relation: Relation)
    requires Inv(w) && i < |w.records| && k < |w.records[i].items|
    ensures var r := CancelItem(w, i, k, now, relation).GetOr(w); Inv(r) && Keeps(w, r)
  {
    var r := CancelItem(w, i, k, now, relation);
    if r.Some? {
      var rec := w.records[i];
      var rec' := r.value.records[i];
      assert RecordOk(rec);
      assert rec.items[k] in rec.items;
      forall j: nat | j < |rec.items|
        ensures ItemOk(rec', j) && ItemRemembered(rec, rec', j)
      {
        assert ItemOk(rec, j);
      }
      assert SomeEdited(rec') ==> SomeEdited(rec) by {
        if it :| it in rec'.items && it.isEdited {
          assert it in rec.items;
        }
      }
      RecordStep(w, i, rec', r.value);
    }
  }

  lemma DeleteKeeps(w: World, i: nat)
    requires Inv(w) && i < |w.records|
    ensures var r := DeleteDraft(w, i).GetOr(w); Inv(r) && Keeps(w, r)
  {
    var r := DeleteDraft(w, i);
    if r.Some? {
      var rec, rec' := w.records[i], r.value.records[i];
      assert RecordOk(rec);
      SameItemsOk(rec, rec');
      RecordStep(w, i, rec', r.value);
    }
  }

  lemma PortalCancelKeeps(w: World, i: nat)
    requires Inv(w) && i < |w.records|
    ensures var r := MarkCancelledOnPortal(w, i).GetOr(w); Inv(r) && Keeps(w, r)
  {
    var r := MarkCancelledOnPortal(w, i);
    if r.Some? {
      var rec, rec' := w.records[i], r.value.records[i];
      assert RecordOk(rec);
      SameItemsOk(rec, rec');
      RecordStep(w, i, rec', r.value);
    }
  }

  lemma SameItemsOk(rec: InvoiceRecord, rec': InvoiceRecord)
    requires rec'.items == rec.items && rec'.history == rec.history
    requires forall k: nat :: k < |rec.items| ==> ItemOk(rec, k)
    ensures forall k: nat :: k < |rec'.items| ==> ItemOk(rec', k)
    ensures SomeEdited(rec') <==> SomeEdited(rec)
  {
    forall k: nat | k < |rec'.items| ensures ItemOk(rec', k) {
      assert ItemOk(rec, k);
    }
  }

  lemma FinalizeKeeps(w: World, now: nat)
    requires Inv(w)
    ensures Inv(FinalizeAged(w, now)) && Keeps(w, FinalizeAged(w, now))
  {
    var w' := FinalizeAged(w, now);
    forall i: nat | i < |w.records|
      ensures RecordOk(w'.records[i]) && Remembered(w.records[i], w'.records[i])
    {
      var rec := w.records[i];
      assert RecordOk(rec);
      assert SomeEdited(w'.records[i]) <==> SomeEdited(rec);
      forall k: nat | k < |rec.items| ensures ItemOk(w'.records[i], k) {
        assert ItemOk(rec, k);
      }
    }
  }

  /** A new invoice, as checkout or a return creates it. */
  lemma AppendKeeps(w: World, rec: InvoiceRecord)
    requires Inv(w) && RecordOk(rec) && rec.history == []
    requires rec.row.number.None? || rec.row.number.value !in NumbersBut(w.records, w.elsewhere, |w.records|)
    ensures var w' := w.(records := w.records + [rec]); Inv(w') && Keeps(w, w')
  {
    NoChargesYet(w.book.charges, |w.records|);
    OthersTaken(w.records, w.elsewhere, |w.records|);
  }

  lemma NewInvoiceKeeps(w: World, rec: InvoiceRecord)
    requires Inv(w)
    ensures Inv(Apply(w, NewInvoice(rec))) && Keeps(w, Apply(w, NewInvoice(rec)))
  {
    if FreshRecord(rec) {
      FreshRecordOk(rec);
      AppendKeeps(w, rec);
    }
  }

  // ---- Returns -------------------------------------------------------------

  lemma NoteOk(items: seq<SaleItem>, lines: seq<ReturnLine>, today: nat, number: Option<string>)
    requires AllReturnable(items, lines)
    ensures var note := CreditNote(items, lines, today);
      RecordOk(note) && RecordOk(note.(row := note.row.(number := number, status := Valid)))
  {
    var note := CreditNote(items, lines, today);
    forall it <- note.items ensures !it.isEdited && it.editCount == 0 {
      var j :| 0 <= j < |note.items| && note.items[j] == it;
      assert lines[j] in lines;
    }
    FreshRecordOk(note);
    var posted := note.(row := note.row.(number := number, status := Valid));
    forall k: nat | k < |posted.items| ensures ItemOk(posted, k) {
      assert ItemOk(note, k);
    }
  }

  lemma NoteKeeps(w: World, i: nat, lines: seq<ReturnLine>, now: nat, gateway: Gateway, number: Option<string>)
    requires Inv(w) && i < |w.records| && AllReturnable(w.records[i].items, lines)
    requires NoteForReturn(w, i, lines, now, gateway, number).Some?
    ensures var w' := NoteForReturn(w, i, lines, now, gateway, number).value; Inv(w') && Keeps(w, w')
  {
    var note := CreditNote(w.records[i].items, lines, LocalDay(now));
    NoteOk(w.records[i].items, lines, LocalDay(now), number);
    if gateway.Skipped? {
      AppendKeeps(w, note);
    } else {
      AppendKeeps(w, note.(row := note.row.(number := number, status := Valid)));
    }
  }

  lemma AmendKeeps(w: World, i: nat, now: nat, gateway: Gateway)
    requires Inv(w) && i < |w.records| && AmendForReturn(w, i, now, gateway).Some?
    ensures var w' := AmendForReturn(w, i, now, gateway).value; Inv(w') && Keeps(w, w')
  {
    var w' := AmendForReturn(w, i, now, gateway).value;
    ConsumeKeepsBook(w.book, w.records, i, w.records[i].row.grandTotal, Action.Cancel, LocalDate(now));
    ChargeCounts(w.book.charges, w'.book.charges, |w.records|);
  }

  lemma ReturnedRecordOk(rec: InvoiceRecord, lines: seq<ReturnLine>)
    requires RecordOk(rec)
    ensures RecordOk(ReturnedRecord(rec, lines)) && Remembered(rec, ReturnedRecord(rec, lines))
  {
    var rec' := ReturnedRecord(rec, lines);
    forall k: nat | k < |rec.items| ensures ItemOk(rec', k) && ItemRemembered(rec, rec', k) {
      assert ItemOk(rec, k);
    }
    if SomeEdited(rec') {
      var k :| 0 <= k < |rec'.items| && rec'.items[k].isEdited;
      assert rec.items[k] in rec.items;
    }
  }

  lemma ReturnKeeps(w: World, i: nat, lines: seq<ReturnLine>, now: nat, gateway: Gateway, number: Option<string>)
    requires Inv(w) && i < |w.records|
    ensures var r := ProcessReturn(w, i, lines, now, gateway, number).GetOr(w); Inv(r) && Keeps(w, r)
  {
    var r := ProcessReturn(w, i, lines, now, gateway, number);
    if r.Some? {
      var rec := w.records[i];
      var w1;
      if CanCancelInvoice(rec.row, rec.items, now).Allowed? {
        AmendKeeps(w, i, now, gateway);
        w1 := AmendForReturn(w, i, now, gateway).value;
      } else {
        NoteKeeps(w, i, lines, now, gateway, number);
        w1 := NoteForReturn(w, i, lines, now, gateway, number).value;
      }
      assert w1.records[i] == rec;
      ReturnedRecordOk(rec, lines);
      RecordStep(w1, i, ReturnedRecord(rec, lines), r.value);
      KeepsTransitive(w, w1, r.value);
    }
  }

  lemma ElsewhereKeeps(w: World, number: string)
    requires Inv(w)
    ensures Inv(Apply(w, Elsewhere(number))) && Keeps(w, Apply(w, Elsewhere(number)))
  {
    OthersTaken(w.records, w.elsewhere, |w.records|);
  }

  lemma LinkAnnexureKeeps(w: World, i: nat)
    requires Inv(w)
    ensures Inv(Apply(w, LinkAnnexure(i))) && Keeps(w, Apply(w, LinkAnnexure(i)))
  {
    if i < |w.records| {
      assert RecordOk(w.records[i]);
      RowStep(w, i, w.records[i].row.(annexureLinked := true));
    }
  }

  lemma NewTaskKeeps(w: World, s: Step)
    requires Inv(w) && (s.Enqueue? || s.FiscalResult?)
    ensures Inv(Apply(w, s)) && Keeps(w, Apply(w, s))
  {
  }

  lemma GrowthKeeps(w: World, s: Step)
    requires Inv(w)
    requires s.NewInvoice? || s.Enqueue? || s.FiscalResult? || s.LinkAnnexure? || s.RecomputeBudget?
    ensures Inv(Apply(w, s)) && Keeps(w, Apply(w, s))
  {
    match s
    case NewInvoice(rec) => NewInvoiceKeeps(w, rec);
    case LinkAnnexure(i) => LinkAnnexureKeeps(w, i);
    case RecomputeBudget(now) => RecomputeKeepsBook(w.book, w.records, LocalDate(now));
    case _ => NewTaskKeeps(w, s);
  }

  lemma FreshRecordOk(rec: InvoiceRecord)
    requires FreshRecord(rec)
    ensures RecordOk(rec)
  {
  }

  lemma {:induction false} NoChargesYet(charges: seq<Charge>, i: nat)
    requires forall c <- charges :: c.invoice < i
    ensures EditCharges(charges, i) == 0
  {
    if charges != [] {
      NoChargesYet(charges[..|charges| - 1], i);
    }
  }

  // ---- Theorems ------------------------------------------------------------

  predicate OfJob(s: Step) {
    s.Load? || s.NonFiscal? || s.Defer? || s.Submit? || s.Reply? || s.Retry? || s.Persist? || s.Fail?
  }

  lemma JobStepKeeps(w: World, s: Step)
    requires Inv(w) && OfJob(s)
    ensures Inv(Apply(w, s)) && Keeps(w, Apply(w, s))
  {
    match s
    case Reply(t, outcome) => if ValidTask(w, t) { ReplyKeeps(w, t, outcome); }
    case NonFiscal(t) => if ValidTask(w, t) { CloseOrFailKeeps(w, t); }
    case Submit(t, now) => if ValidTask(w, t) { SubmitKeeps(w, t, now); }
    case Persist(t, now) => if ValidTask(w, t) { PersistKeeps(w, t, now); }
    case Fail(t) => if ValidTask(w, t) { CloseOrFailKeeps(w, t); }
    case _ => QuietTaskStep(w, s);
  }

  lemma WholeCancelStepKeeps(w: World, s: Step)
    requires Inv(w) && s.CancelWhole?
    ensures Inv(Apply(w, s)) && Keeps(w, Apply(w, s))
  {
    if s.i < |w.records| { CancelWholeKeeps(w, s.i, s.now, s.later, s.gateway); }
  }

  lemma ForceCancelStepKeeps(w: World, s: Step)
    requires Inv(w) && s.ForceCancel?
    ensures Inv(Apply(w, s)) && Keeps(w, Apply(w, s))
  {
    if s.i < |w.records| { CancelLocalKeeps(w, s.i, s.now); }
  }

  lemma CancelLineStepKeeps(w: World, s: Step)
    requires Inv(w) && s.CancelLine?
    ensures Inv(Apply(w, s)) && Keeps(w, Apply(w, s))
  {
    if s.i < |w.records| && s.k < |w.records[s.i].items| { CancelLineKeeps(w, s.i, s.k, s.now, s.relation); }
  }

  lemma EditStepKeeps(w: World, s: Step)
    requires Inv(w) && s.EditLine?
    ensures Inv(Apply(w, s)) && Keeps(w, Apply(w, s))
  {
    if s.i < |w.records| && s.k < |w.records[s.i].items| {
      EditKeeps(w, s.i, s.k, s.values, s.now, s.relation, s.gateway);
    }
  }

  lemma ReturnStepKeeps(w: World, s: Step)
    requires Inv(w) && s.Return?
    ensures Inv(Apply(w, s)) && Keeps(w, Apply(w, s))
  {
    if s.i < |w.records| { ReturnKeeps(w, s.i, s.lines, s.now, s.gateway, s.noteNumber); }
  }

  lemma ReconcileStepKeeps(w: World, s: Step)
    requires Inv(w) && (s.Delete? || s.PortalCancel?)
    ensures Inv(Apply(w, s)) && Keeps(w, Apply(w, s))
  {
    if s.i < |w.records| {
      if s.Delete? {
        DeleteKeeps(w, s.i);
      } else {
        PortalCancelKeeps(w, s.i);
      }
    }
  }

  lemma StepKeeps(w: World, s: Step)
    requires Inv(w)
    ensures Inv(Apply(w, s)) && Keeps(w, Apply(w, s))
  {
    if OfJob(s) {
      JobStepKeeps(w, s);
    } else if s.CancelWhole? {
      WholeCancelStepKeeps(w, s);
    } else if s.ForceCancel? {
      ForceCancelStepKeeps(w, s);
    } else if s.CancelLine? {
      CancelLineStepKeeps(w, s);
    } else if s.EditLine? {
      EditStepKeeps(w, s);
    } else if s.Return? {
      ReturnStepKeeps(w, s);
    } else if s.Delete? || s.PortalCancel? {
      ReconcileStepKeeps(w, s);
    } else if s.Finalize? {
      FinalizeKeeps(w, s.now);
    } else if s.Elsewhere? {
      ElsewhereKeeps(w, s.number);
    } else {
      GrowthKeeps(w, s);
    }
  }

  /** Over every run, however the steps interleave. */
  lemma {:induction false} RunKeeps(w: World, steps: seq<Step>)
    requires Inv(w)
    ensures Inv(Run(w, steps)) && Keeps(w, Run(w, steps))
    decreases |steps|
  {
    if steps != [] {
      StepKeeps(w, steps[0]);
      RunKeeps(Apply(w, steps[0]), steps[1..]);
      KeepsTransitive(w, Apply(w, steps[0]), Run(w, steps));
    }
  }

  const EMPTY: World := World([], Book(map[], []), [], [], {})

  /** Every state reachable from an empty tenant satisfies the invariant. */
  lemma ReachableOk(steps: seq<Step>)
    ensures Inv(Run(EMPTY, steps))
  {
    RunKeeps(EMPTY, steps);
  }
}

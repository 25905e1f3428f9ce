/** What returns do to the guarantees of the invoice lifecycle. The returns flow asks the
    rules only for its route, so it reaches every invoice at every time. */
module ReturnTheorems {
  import opened Wrappers
  import opened Calendar
  import opened Sales
  import opened Rules
  import opened Budget
  import opened Returns
  import opened Lifecycle
  import opened LifecycleInvariant
  import W = BudgetWitness
  import T = LifecycleTheorems

  // ---- Lines edited and cancelled ------------------------------------------

  ghost predicate EditedCancelled(w: World, i: nat, k: nat) {
    && i < |w.records| && k < |w.records[i].items|
    && w.records[i].items[k].isEdited && w.records[i].items[k].isCancelled
  }

  /** The step is an accepted return, in full, of line k of invoice i after its edit. */
  ghost predicate ReturnsEdited(w: World, s: Step, i: nat, k: nat) {
    && s.Return? && s.i == i && i < |w.records| && k < |w.records[i].items|
    && ReturnLine(k, w.records[i].items[k].quantity) in s.lines
    && w.records[i].items[k].isEdited && w.records[i].row.status != Cancelled
    && ProcessReturn(w, i, s.lines, s.now, s.gateway, s.noteNumber).Some?
  }

  ghost predicate SomeReturnsEdited(w: World, steps: seq<Step>, i: nat, k: nat)
    decreases |steps|
  {
    steps != []
    && (ReturnsEdited(w, steps[0], i, k) || SomeReturnsEdited(Apply(w, steps[0]), steps[1..], i, k))
  }

  predicate MovesItems(s: Step) {
    s.EditLine? || s.CancelWhole? || s.ForceCancel? || s.CancelLine? || s.Return? || s.NewInvoice?
  }

  lemma ItemsStay(w: World, s: Step, i: nat)
    requires !MovesItems(s)
    ensures |Apply(w, s).records| == |w.records|
    ensures i < |w.records| ==> Apply(w, s).records[i].items == w.records[i].items
  {
  }

  lemma EditDoesNotBoth(w: World, i: nat, k: nat, values: seq<(string, Option<int>)>, now: nat, relation: Relation,
                        gateway: Gateway, i': nat, k': nat)
    requires Inv(w) && i < |w.records| && k < |w.records[i].items|
    requires EditedCancelled(EditItem(w, i, k, values, now, relation, gateway).GetOr(w), i', k')
    ensures EditedCancelled(w, i', k')
  {
    assert RecordOk(w.records[i]);
    if CanEditItem(w.records[i].row, w.records[i].items[k], now).Allowed? {
      EditAllowedMeans(w.records[i], k, now);
    }
  }

  lemma WholeCancelsNoEdited(w: World, s: Step, i: nat, k: nat)
    requires Inv(w) && (s.CancelWhole? || s.ForceCancel?)
    requires EditedCancelled(Apply(w, s), i, k)
    ensures EditedCancelled(w, i, k)
  {
    if s.i == i < |w.records| && k < |w.records[i].items| {
      assert w.records[i].items[k] in w.records[i].items;
      assert RecordOk(w.records[i]);
    }
  }

  lemma CancelsNoEditedLine(w: World, s: Step, i: nat, k: nat)
    requires Inv(w) && s.CancelLine?
    requires EditedCancelled(Apply(w, s), i, k)
    ensures EditedCancelled(w, i, k)
  {
  }

  /** The records after an accepted return: the returned invoice and at most one note. */
  lemma ReturnIs(w: World, i: nat, lines: seq<ReturnLine>, now: nat, gateway: Gateway, number: Option<string>)
    requires i < |w.records| && ProcessReturn(w, i, lines, now, gateway, number).Some?
    ensures var w', n := ProcessReturn(w, i, lines, now, gateway, number).value, |w.records|;
      && n <= |w'.records| <= n + 1
      && w'.records[..n] == w.records[i := ReturnedRecord(w.records[i], lines)]
      && (n < |w'.records| ==> forall it <- w'.records[n].items :: !it.isEdited && !it.isCancelled)
  {
    if CanCancelInvoice(w.records[i].row, w.records[i].items, now).Refused? {
      NotePlain(w.records[i].items, lines);
    }
  }

  lemma NotePlain(items: seq<SaleItem>, lines: seq<ReturnLine>)
    requires AllReturnable(items, lines)
    ensures forall it <- NoteLines(items, lines) :: !it.isEdited && !it.isCancelled
  {
    forall it <- NoteLines(items, lines) ensures !it.isEdited && !it.isCancelled {
      var j :| 0 <= j < |lines| && NoteLines(items, lines)[j] == it;
      assert Returnable(items, lines[j]);
    }
  }

  lemma ReturnFlags(w: World, s: Step, i: nat, k: nat)
    requires Inv(w) && s.Return?
    ensures EditedCancelled(Apply(w, s), i, k) <==> EditedCancelled(w, i, k) || ReturnsEdited(w, s, i, k)
  {
    if s.i < |w.records| && ProcessReturn(w, s.i, s.lines, s.now, s.gateway, s.noteNumber).Some? {
      var w', n := Apply(w, s), |w.records|;
      ReturnIs(w, s.i, s.lines, s.now, s.gateway, s.noteNumber);
      assert forall j :: 0 <= j < n ==> w'.records[j] == w'.records[..n][j];
    }
  }

  lemma EditedCancelledStep(w: World, s: Step, i: nat, k: nat)
    requires Inv(w)
    ensures EditedCancelled(Apply(w, s), i, k) <==> EditedCancelled(w, i, k) || ReturnsEdited(w, s, i, k)
  {
    StepKeeps(w, s);
    assert EditedCancelled(w, i, k) ==> EditedCancelled(Apply(w, s), i, k) by {
      if EditedCancelled(w, i, k) {
        assert Remembered(w.records[i], Apply(w, s).records[i]);
        assert ItemRemembered(w.records[i], Apply(w, s).records[i], k);
      }
    }
    if s.Return? {
      ReturnFlags(w, s, i, k);
    } else if EditedCancelled(Apply(w, s), i, k) {
      if s.EditLine? {
        if s.i < |w.records| && s.k < |w.records[s.i].items| {
          EditDoesNotBoth(w, s.i, s.k, s.values, s.now, s.relation, s.gateway, i, k);
        }
      } else if s.NewInvoice? {
      } else if s.CancelLine? {
        CancelsNoEditedLine(w, s, i, k);
      } else if MovesItems(s) {
        WholeCancelsNoEdited(w, s, i, k);
      } else {
        ItemsStay(w, s, i);
      }
    }
  }

  /** Over every run: a line is edited and cancelled exactly when it was so before or the
      run returned it in full after its edit. */
  lemma {:induction false} EditedAndCancelled(w: World, steps: seq<Step>, i: nat, k: nat)
    requires Inv(w)
    ensures EditedCancelled(Run(w, steps), i, k) <==> EditedCancelled(w, i, k) || SomeReturnsEdited(w, steps, i, k)
    decreases |steps|
  {
    if steps != [] {
      EditedCancelledStep(w, steps[0], i, k);
      StepKeeps(w, steps[0]);
      EditedAndCancelled(Apply(w, steps[0]), steps[1..], i, k);
    }
  }

  // ---- Edited invoices that end up cancelled -------------------------------

  /** The step records a portal cancel of invoice i, or is an accepted return or line cancel
      that leaves no line unflagged; the line cancel looks at the lines it has changed. */
  ghost predicate Cancels(w: World, s: Step, i: nat) {
    && i < |w.records|
    && match s
       case PortalCancel(j) => j == i
       case Return(j, lines, now, gateway, number) =>
         j == i && ProcessReturn(w, i, lines, now, gateway, number).Some?
         && forall k: nat :: k < |w.records[i].items| ==>
              w.records[i].items[k].isCancelled || ReturnLine(k, w.records[i].items[k].quantity) in lines
       case CancelLine(j, k, now, relation) =>
         j == i && k < |w.records[i].items| && relation.Fresh? && CancelItem(w, i, k, now, relation).Some?
         && AllCancelled(CancelItem(w, i, k, now, relation).value.records[i].items)
       case _ => false
  }

  /** A job persists the number that invoice i already has. */
  ghost predicate Revives(w: World, s: Step, i: nat) {
    && s.Persist? && ValidTask(w, s.t) && w.tasks[s.t].invoice == i
    && (w.tasks[s.t].pc.Accepted? || w.tasks[s.t].pc.ClientResult?)
    && w.records[i].row.number == Some(w.tasks[s.t].pc.number)
  }

  /** The last of these steps cancelled the invoice; `was` is its state before the run. */
  ghost predicate EndsCancelled(w: World, steps: seq<Step>, i: nat, was: bool)
    decreases |steps|
  {
    if steps == [] then was
    else EndsCancelled(Apply(w, steps[0]), steps[1..], i, Cancels(w, steps[0], i) || (was && !Revives(w, steps[0], i)))
  }

  ghost predicate CancelledRow(w: World, i: nat) {
    i < |w.records| && w.records[i].row.status == Cancelled
  }

  ghost predicate EditedInvoice(w: World, i: nat) {
    Inv(w) && i < |w.records| && SomeEdited(w.records[i])
  }

  lemma SavesMoveStatus(w: World, s: Step, i: nat)
    requires EditedInvoice(w, i) && (s.Submit? || s.NonFiscal? || s.Fail?) && ValidTask(w, s.t)
    ensures CancelledRow(Apply(w, s), i) <==> CancelledRow(w, i)
  {
    assert RecordOk(w.records[i]);
    assert TaskOk(|w.records|, w.tasks[s.t]);
  }

  lemma PersistMovesStatus(w: World, s: Step, i: nat)
    requires EditedInvoice(w, i) && s.Persist? && ValidTask(w, s.t)
    ensures CancelledRow(Apply(w, s), i) <==> CancelledRow(w, i) && !Revives(w, s, i)
  {
    if w.tasks[s.t].invoice == i {
      assert RecordOk(w.records[i]);
      T.OwnNumberFree(w, i);
    }
  }

  lemma EditMovesStatus(w: World, s: Step, i: nat)
    requires EditedInvoice(w, i) && s.EditLine?
    ensures CancelledRow(Apply(w, s), i) <==> CancelledRow(w, i)
  {
    if s.i < |w.records| && s.k < |w.records[s.i].items| {
      assert RecordOk(w.records[s.i]);
      if CanEditItem(w.records[s.i].row, w.records[s.i].items[s.k], s.now).Allowed? {
        EditAllowedMeans(w.records[s.i], s.k, s.now);
      }
    }
  }

  lemma WholeCancelMovesStatus(w: World, s: Step, i: nat)
    requires EditedInvoice(w, i) && (s.CancelWhole? || s.ForceCancel?)
    ensures CancelledRow(Apply(w, s), i) <==> CancelledRow(w, i)
  {
  }

  lemma LineCancelMovesStatus(w: World, s: Step, i: nat)
    requires EditedInvoice(w, i) && s.CancelLine?
    ensures CancelledRow(Apply(w, s), i) <==> Cancels(w, s, i) || CancelledRow(w, i)
  {
    if s.i == i && s.k < |w.records[i].items| {
      assert w.records[i].items[s.k] in w.records[i].items;
      assert RecordOk(w.records[i]);
    }
  }

  lemma FlaggedAll(items: seq<SaleItem>, lines: seq<ReturnLine>)
    ensures AllCancelled(Flagged(items, lines))
       <==> forall k: nat :: k < |items| ==> items[k].isCancelled || ReturnLine(k, items[k].quantity) in lines
  {
    var flagged := Flagged(items, lines);
    if AllCancelled(flagged) {
      forall k: nat | k < |items| ensures items[k].isCancelled || ReturnLine(k, items[k].quantity) in lines {
        assert flagged[k] in flagged;
      }
    }
  }

  lemma ReturnMovesStatus(w: World, s: Step, i: nat)
    requires EditedInvoice(w, i) && s.Return?
    ensures CancelledRow(Apply(w, s), i) <==> Cancels(w, s, i) || CancelledRow(w, i)
  {
    if s.i < |w.records| && ProcessReturn(w, s.i, s.lines, s.now, s.gateway, s.noteNumber).Some? {
      ReturnIs(w, s.i, s.lines, s.now, s.gateway, s.noteNumber);
      assert Apply(w, s).records[i] == Apply(w, s).records[..|w.records|][i];
      FlaggedAll(w.records[i].items, s.lines);
      assert s.i == i ==> Apply(w, s).records[i] == ReturnedRecord(w.records[i], s.lines);
    }
  }

  lemma OtherMovesStatus(w: World, s: Step, i: nat)
    requires EditedInvoice(w, i)
    requires !s.EditLine? && !s.CancelWhole? && !s.ForceCancel? && !s.CancelLine? && !s.Return?
    requires !s.Submit? && !s.NonFiscal? && !s.Fail? && !s.Persist?
    ensures CancelledRow(Apply(w, s), i) <==> Cancels(w, s, i) || CancelledRow(w, i)
  {
    assert RecordOk(w.records[i]);
  }

  lemma StatusStep(w: World, s: Step, i: nat)
    requires EditedInvoice(w, i)
    ensures EditedInvoice(Apply(w, s), i)
    ensures CancelledRow(Apply(w, s), i) <==> Cancels(w, s, i) || (CancelledRow(w, i) && !Revives(w, s, i))
  {
    StepKeeps(w, s);
    StaysEdited(w, Apply(w, s), i);
    if s.EditLine? {
      EditMovesStatus(w, s, i);
    } else if s.CancelWhole? || s.ForceCancel? {
      WholeCancelMovesStatus(w, s, i);
    } else if s.CancelLine? {
      LineCancelMovesStatus(w, s, i);
    } else if s.Return? {
      ReturnMovesStatus(w, s, i);
    } else if s.Submit? || s.NonFiscal? || s.Fail? {
      if ValidTask(w, s.t) { SavesMoveStatus(w, s, i); }
    } else if s.Persist? {
      if ValidTask(w, s.t) { PersistMovesStatus(w, s, i); }
    } else {
      OtherMovesStatus(w, s, i);
    }
  }

  lemma StaysEdited(w: World, w': World, i: nat)
    requires EditedInvoice(w, i) && Inv(w') && Keeps(w, w')
    ensures EditedInvoice(w', i)
  {
    assert Remembered(w.records[i], w'.records[i]);
    var k :| 0 <= k < |w.records[i].items| && w.records[i].items[k].isEdited;
    assert ItemRemembered(w.records[i], w'.records[i], k);
    assert w'.records[i].items[k] in w'.records[i].items;
  }

  /** Over every run: an invoice with an edited line is `cancelled` exactly when the last of
      the steps that matter was a portal cancel or left every line flagged, and no job
      persisted the same number again since. */
  lemma {:induction false} CancelledAfterEdit(w: World, steps: seq<Step>, i: nat)
    requires EditedInvoice(w, i)
    ensures CancelledRow(Run(w, steps), i) <==> EndsCancelled(w, steps, i, CancelledRow(w, i))
    decreases |steps|
  {
    if steps != [] {
      StatusStep(w, steps[0], i);
      CancelledAfterEdit(Apply(w, steps[0]), steps[1..], i);
    }
  }

  // ---- Returning an edited invoice -----------------------------------------

  /** What a return does to the invoice: nothing if it is cancelled already; else it flags
      exactly the lines that an entry returns in full, and sets `cancelled` exactly when no
      line is left unflagged. */
  lemma ReturnedExactly(rec: InvoiceRecord, lines: seq<ReturnLine>)
    ensures rec.row.status == Cancelled ==> ReturnedRecord(rec, lines) == rec
    ensures rec.row.status != Cancelled ==>
      var rec' := ReturnedRecord(rec, lines);
      && |rec'.items| == |rec.items|
      && (forall k: nat :: k < |rec.items| ==>
            rec'.items[k] == if ReturnLine(k, rec.items[k].quantity) in lines then rec.items[k].(isCancelled := true)
                             else rec.items[k])
      && rec' == rec.(items := rec'.items,
                      row := rec.row.(status := if exists k: nat :: k < |rec.items| && !rec'.items[k].isCancelled
                                                then PartiallyCancelled else Cancelled))
  {
  }

  /** Which returns are refused, and what the route taken logs and charges. */
  lemma ReturnExactly(w: World, i: nat, lines: seq<ReturnLine>, now: nat, gateway: Gateway, number: Option<string>)
    requires i < |w.records|
    ensures var rec, n, r := w.records[i], |w.records|, ProcessReturn(w, i, lines, now, gateway, number);
      if !AllReturnable(rec.items, lines) then r.None?
      else if CanCancelInvoice(rec.row, rec.items, now).Allowed? then
        var book := Consumed(w.book, w.records, i, rec.row.grandTotal, Action.Cancel, LocalDate(now));
        var asked := !gateway.Skipped? && rec.row.number.Some? && rec.row.number.value != "";
        && (r.Some? <==> book.Some? && !(asked && gateway.Rejects?))
        && (r.Some? ==>
              r.value == w.(records := w.records[i := ReturnedRecord(rec, lines)], book := book.value,
                            submissions := w.submissions + [Submission(i, CancelEndpoint, 1, asked)]))
      else
        && (r.Some? <==>
              || gateway.Skipped?
              || (gateway.Accepts? && (number.None? || number.value !in NumbersBut(w.records, w.elsewhere, n))))
        && (r.Some? ==>
              var note := CreditNote(rec.items, lines, LocalDay(now));
              r.value == if gateway.Skipped?
                then w.(records := w.records[i := ReturnedRecord(rec, lines)] + [note],
                        tasks := w.tasks + [Task(n, Queued, note.row, 0)])
                else w.(records := w.records[i := ReturnedRecord(rec, lines)]
                                   + [note.(row := note.row.(number := number, status := Valid))],
                        submissions := w.submissions + [Submission(n, PostInvoice, 1, true)]))
  {
  }

  /** The note before it is submitted: pending, unnumbered, without a deadline, of the day of
      the return, its totals the sums of its lines. */
  lemma CreditNoteExactly(items: seq<SaleItem>, lines: seq<ReturnLine>, today: nat)
    requires AllReturnable(items, lines)
    ensures var note := CreditNote(items, lines, today);
      && note.items == NoteLines(items, lines) && note.history == [] && !note.portalCancelled
      && note.row == WithTotals(Invoice(PendingSync, None, None, None, today, false, false, 0, 0, 0, 0), note.items)
  {
    NotePlain(items, lines);
    NoDiscount(items, lines);
  }

  lemma NoDiscount(items: seq<SaleItem>, lines: seq<ReturnLine>)
    requires AllReturnable(items, lines)
    ensures LiveSum(NoteLines(items, lines), Discount) == 0
  {
    var notes := NoteLines(items, lines);
    forall it <- notes ensures it.discountAmount == 0 {
      var j :| 0 <= j < |notes| && notes[j] == it;
      NoteLineExactly(items, lines, j);
    }
    ZeroSum(notes, Discount);
  }

  lemma {:induction false} ZeroSum(items: seq<SaleItem>, f: SaleItem -> int)
    requires forall it <- items :: f(it) == 0
    ensures LiveSum(items, f) == 0
  {
    if items != [] {
      ZeroSum(items[..|items| - 1], f);
    }
  }

  /** No rule, deadline or budget stands in the way: the return is refused exactly when the
      gateway rejects the credit note or another invoice has the note's number. It charges
      nothing and moves nothing but the invoice, and the note holds the refund. */
  lemma ReturnAfterEdit(w: World, i: nat, lines: seq<ReturnLine>, now: nat, gateway: Gateway, number: Option<string>)
    requires EditedInvoice(w, i) && AllReturnable(w.records[i].items, lines)
    ensures var r, n := ProcessReturn(w, i, lines, now, gateway, number), |w.records|;
      && (r.Some? <==>
            || gateway.Skipped?
            || (gateway.Accepts? && (number.None? || number.value !in NumbersBut(w.records, w.elsewhere, n))))
      && (r.Some? ==>
            && r.value.book == w.book && |r.value.records| == n + 1
            && r.value.records[..n] == w.records[i := ReturnedRecord(w.records[i], lines)]
            && r.value.records[n].items == NoteLines(w.records[i].items, lines)
            && r.value.records[n].row.grandTotal == Refund(w.records[i].items, lines))
  {
    assert RecordOk(w.records[i]);
    if ProcessReturn(w, i, lines, now, gateway, number).Some? {
      ReturnIs(w, i, lines, now, gateway, number);
    }
  }

  function WholeReturn(items: seq<SaleItem>): seq<ReturnLine> {
    seq(|items|, k requires 0 <= k < |items| => ReturnLine(k, items[k].quantity))
  }

  /** Returning every line of an edited invoice leaves it as no cancel could: `cancelled`,
      every line flagged, the edited ones included, without a portal record. */
  lemma WholeReturnCancels(w: World, i: nat, now: nat)
    requires EditedInvoice(w, i) && !CancelledRow(w, i)
    requires forall it <- w.records[i].items :: 0 < it.quantity
    ensures var rec := w.records[i];
      var rec' := Apply(w, Return(i, WholeReturn(rec.items), now, Skipped, None)).records[i];
      && rec'.row == rec.row.(status := Cancelled)
      && rec'.items == CancelledItems(rec.items) && SomeEdited(rec')
      && rec'.portalCancelled == rec.portalCancelled
      && CanCancelInvoice(rec.row, rec.items, now).Refused?
  {
    var rec := w.records[i];
    var lines := WholeReturn(rec.items);
    forall l <- lines ensures Returnable(rec.items, l) {
      var k :| 0 <= k < |lines| && lines[k] == l;
      assert rec.items[k] in rec.items;
    }
    forall k: nat | k < |rec.items| ensures InFull(rec.items, lines, k) {
      assert lines[k] == ReturnLine(k, rec.items[k].quantity);
    }
    assert Flagged(rec.items, lines) == CancelledItems(rec.items);
    ReturnAfterEdit(w, i, lines, now, Skipped, None);
    var w' := Apply(w, Return(i, lines, now, Skipped, None));
    assert w'.records[i] == w'.records[..|w.records|][i];
    var k :| 0 <= k < |rec.items| && rec.items[k].isEdited;
    assert w'.records[i].items[k] in w'.records[i].items;
  }

  const X2 := SaleItem(20_000, 10_000_000, 0, 0, 0, 0, 20_000_000, true, false, 1)

  function EditSteps(now: nat): seq<Step> {
    [RecomputeBudget(now), W.Quantity(0, 20_000, now)]
  }

  lemma Doubled(d: nat, number: string, now: nat)
    requires W.Month(d, now) && number != ""
    ensures var w := Run(Run(EMPTY, W.Setup(d, number, now)), EditSteps(now));
      Inv(w) && W.Open(w, d, now, [X2, W.Y, W.U], 10_000_000)
  {
    var w0 := Run(EMPTY, W.Setup(d, number, now));
    W.Opened(d, number, now);
    ReachableOk(W.Setup(d, number, now));
    RunKeeps(w0, EditSteps(now));
    RunTwo(w0, RecomputeBudget(now), W.Quantity(0, 20_000, now));
    DoubledLine(w0, d, now);
  }

  lemma DoubledLine(w0: World, d: nat, now: nat)
    requires W.Open(w0, d, now, [W.X, W.Y, W.U], 10_000_000) && w0.book == EMPTY.book && W.Month(d, now)
    ensures var w := Apply(Apply(w0, RecomputeBudget(now)), W.Quantity(0, 20_000, now));
      W.Open(w, d, now, [X2, W.Y, W.U], 10_000_000)
  {
    W.RecomputeIs(w0, d, now, [W.X, W.Y, W.U], 10_000_000, 10_000_000);
    ToTwo();
    W.Sum3(W.X, W.Y, W.U);
    W.OneEdit(Apply(w0, RecomputeBudget(now)), d, now, 0, 20_000, [W.X, W.Y, W.U], 10_000_000,
              10_000_000, 0, 10_000_000);
  }

  lemma ToTwo()
    ensures EditedItems([W.X, W.Y, W.U], 0, Patch(Some(20_000), None, None)) == [X2, W.Y, W.U]
  {
    assert EditedItem(W.X, Patch(Some(20_000), None, None)) == X2;
  }

  lemma Refunded()
    ensures AllReturnable([X2, W.Y, W.U], WholeReturn([X2, W.Y, W.U]))
    ensures Refund([X2, W.Y, W.U], WholeReturn([X2, W.Y, W.U])) == 20_100_000
  {
    var items := [X2, W.Y, W.U];
    var lines := WholeReturn(items);
    assert lines == [ReturnLine(0, 20_000), ReturnLine(1, 10_000), ReturnLine(2, 10_000)];
    assert Returnable(items, lines[0]) && Returnable(items, lines[1]) && Returnable(items, lines[2]);
    var notes := NoteLines(items, lines);
    assert notes == [notes[0], notes[1], notes[2]];
    W.Sum3(notes[0], notes[1], notes[2]);
  }

  /** A run of the endpoints from an empty tenant: an invoice is numbered, its first line
      edited to quantity two, then all three lines are returned. */
  lemma EditThenReturn(d: nat, number: string, now: nat)
    requires W.Month(d, now) && number != ""
    ensures var edited := Run(Run(EMPTY, W.Setup(d, number, now)), EditSteps(now));
      && |edited.records| == 2
      && var w := Apply(edited, Return(1, WholeReturn([X2, W.Y, W.U]), now, Skipped, None));
      && |w.records| == 3 && HasNumber(w.records[1].row)
      && EditedCancelled(w, 1, 0) && CancelledRow(w, 1) && !w.records[1].portalCancelled
      && w.book == edited.book && w.records[2].row.grandTotal == 20_100_000
  {
    Doubled(d, number, now);
    var edited := Run(Run(EMPTY, W.Setup(d, number, now)), EditSteps(now));
    ReturnDoubled(edited, d, now);
  }

  lemma ReturnDoubled(edited: World, d: nat, now: nat)
    requires Inv(edited) && W.Open(edited, d, now, [X2, W.Y, W.U], 10_000_000)
    ensures var w := Apply(edited, Return(1, WholeReturn([X2, W.Y, W.U]), now, Skipped, None));
      && |w.records| == 3 && HasNumber(w.records[1].row)
      && EditedCancelled(w, 1, 0) && CancelledRow(w, 1) && !w.records[1].portalCancelled
      && w.book == edited.book && w.records[2].row.grandTotal == 20_100_000
  {
    var items := [X2, W.Y, W.U];
    Refunded();
    assert items[0] in edited.records[1].items;
    WholeReturnCancels(edited, 1, now);
    ReturnAfterEdit(edited, 1, WholeReturn(items), now, Skipped, None);
  }
}

/** Held invoices: parked sales (sales/services/holds.py), open restaurant orders
    (restaurant/services.py) and charges of an open hotel folio (hotel/services.py). Each of
    these flows writes lines and status without asking the amendment rules. */
module HeldSales {
  import opened Wrappers
  import opened Sales
  import opened Rules
  import opened Budget
  import opened Lifecycle
  import opened LifecycleInvariant
  import W = BudgetWitness
  import R = ReturnTheorems

  /** `held` are the invoices with is_held, `folio` the charges of open folios. */
  datatype Shop = Shop(w: World, held: set<nat>, folio: set<nat>)

  datatype ShopStep =
    | Machine(s: Step)
    | Hold(i: nat) | Recall(i: nat)
    | RingUp(i: nat, sale: InvoiceRecord)
    | SaveOrder(i: nat, sale: InvoiceRecord)
    | PostCharge(sale: InvoiceRecord)
    | VoidItem(i: nat, k: nat) | VoidCharge(i: nat)

  function WithAmounts(row: Invoice, sale: Invoice): Invoice {
    row.(subtotal := sale.subtotal, discountTotal := sale.discountTotal, taxTotal := sale.taxTotal,
         grandTotal := sale.grandTotal)
  }

  /** Checkout of a held invoice (sales/services/checkout.py, lines 81-224): the row is
      reused with its number and deadline, its lines are deleted, their history with them. */
  function RungUp(rec: InvoiceRecord, sale: InvoiceRecord): InvoiceRecord {
    rec.(row := WithAmounts(rec.row, sale.row).(status := PendingSync, deleted := false,
                                                invoiceDate := sale.row.invoiceDate),
         items := sale.items, history := [])
  }

  /** upsert_open_order on an existing order: new lines and amounts. */
  function Reordered(rec: InvoiceRecord, sale: InvoiceRecord): InvoiceRecord {
    rec.(row := WithAmounts(rec.row, sale.row), items := sale.items, history := [])
  }

  const Net: SaleItem -> int := (it: SaleItem) => 10_000 * (it.lineTotal - it.taxAmount)

  /** _recompute_invoice_totals (hotel/services.py, lines 353-368) */
  function FolioTotals(row: Invoice, items: seq<SaleItem>): Invoice {
    row.(subtotal := LiveSum(items, Net), taxTotal := LiveSum(items, Tax), grandTotal := LiveSum(items, LineTotal))
  }

  function ItemVoided(rec: InvoiceRecord, k: nat): InvoiceRecord
    requires k < |rec.items|
  {
    var items := rec.items[k := rec.items[k].(isCancelled := true)];
    rec.(items := items, row := FolioTotals(rec.row, items))
  }

  function ChargeVoided(rec: InvoiceRecord): InvoiceRecord {
    var items := CancelledItems(rec.items);
    rec.(items := items, row := FolioTotals(rec.row, items).(status := Cancelled))
  }

  function WithRecord(w: World, i: nat, rec: InvoiceRecord): World
    requires i < |w.records|
  {
    w.(records := w.records[i := rec])
  }

  /** `hold` accepts every invoice, whatever its status. */
  ghost function ApplyShop(x: Shop, s: ShopStep): Shop {
    match s
    case Machine(m) => x.(w := Apply(x.w, m))
    case Hold(i) => if i < |x.w.records| then x.(held := x.held + {i}) else x
    case Recall(i) => x.(held := x.held - {i})
    case RingUp(i, sale) =>
      if i < |x.w.records| && i in x.held && FreshRecord(sale)
      then x.(w := WithRecord(x.w, i, RungUp(x.w.records[i], sale)), held := x.held - {i}) else x
    case SaveOrder(i, sale) =>
      if i < |x.w.records| && i in x.held && FreshRecord(sale)
      then x.(w := WithRecord(x.w, i, Reordered(x.w.records[i], sale))) else x
    case PostCharge(sale) =>
      if FreshRecord(sale)
      then Shop(Apply(x.w, NewInvoice(sale)), x.held + {|x.w.records|}, x.folio + {|x.w.records|}) else x
    case VoidItem(i, k) =>
      if i < |x.w.records| && i in x.folio && k < |x.w.records[i].items| && !x.w.records[i].items[k].isCancelled
      then x.(w := WithRecord(x.w, i, ItemVoided(x.w.records[i], k))) else x
    case VoidCharge(i) =>
      if i < |x.w.records| && i in x.folio
      then x.(w := WithRecord(x.w, i, ChargeVoided(x.w.records[i])), folio := x.folio - {i}) else x
  }

  ghost function RunShop(x: Shop, steps: seq<ShopStep>): Shop
    decreases |steps|
  {
    if steps == [] then x else RunShop(ApplyShop(x, steps[0]), steps[1..])
  }

  /** Ringing up a held invoice, field by field: number, deadline and submission instant
      stay, status, date, amounts and lines are those of a new sale, the history is gone. */
  lemma RingUpExactly(x: Shop, i: nat, sale: InvoiceRecord)
    requires i < |x.w.records| && i in x.held && FreshRecord(sale)
    ensures var rec, x' := x.w.records[i], ApplyShop(x, RingUp(i, sale));
      && x' == Shop(x.w.(records := x'.w.records), x.held - {i}, x.folio)
      && x'.w.records == x.w.records[i := InvoiceRecord(
           Invoice(PendingSync, rec.row.number, rec.row.submittedAt, rec.row.editDeadlineAt,
                   sale.row.invoiceDate, rec.row.annexureLinked, false,
                   sale.row.subtotal, sale.row.discountTotal, sale.row.taxTotal, sale.row.grandTotal),
           sale.items, [], rec.portalCancelled)]
  {
  }

  /** Saving an order over it: lines and amounts are replaced, everything else stays. */
  lemma SaveOrderExactly(x: Shop, i: nat, sale: InvoiceRecord)
    requires i < |x.w.records| && i in x.held && FreshRecord(sale)
    ensures var rec, x' := x.w.records[i], ApplyShop(x, SaveOrder(i, sale));
      && x' == x.(w := x.w.(records := x'.w.records))
      && x'.w.records == x.w.records[i := rec.(
           row := rec.row.(subtotal := sale.row.subtotal, discountTotal := sale.row.discountTotal,
                           taxTotal := sale.row.taxTotal, grandTotal := sale.row.grandTotal),
           items := sale.items, history := [])]
  {
  }

  lemma {:induction false} LiveSumFlagged(items: seq<SaleItem>, k: nat, f: SaleItem -> int)
    requires k < |items| && !items[k].isCancelled
    ensures LiveSum(items[k := items[k].(isCancelled := true)], f) == LiveSum(items, f) - f(items[k])
  {
    var front, after := items[..|items| - 1], items[k := items[k].(isCancelled := true)];
    if k < |front| {
      assert after[..|items| - 1] == front[k := items[k].(isCancelled := true)];
      LiveSumFlagged(front, k, f);
    } else {
      assert after[..|items| - 1] == front;
    }
  }

  /** Voiding a line of a folio charge flags it and takes its figures off the totals; the
      subtotal is then net of tax. */
  lemma VoidItemExactly(x: Shop, i: nat, k: nat)
    requires i < |x.w.records| && i in x.folio && k < |x.w.records[i].items| && !x.w.records[i].items[k].isCancelled
    ensures var rec, rec' := x.w.records[i], ApplyShop(x, VoidItem(i, k)).w.records[i];
      var it, before := rec.items[k], WithTotals(rec.row, rec.items);
      && rec'.items == rec.items[k := it.(isCancelled := true)]
      && rec'.row.taxTotal == before.taxTotal - it.taxAmount
      && rec'.row.grandTotal == before.grandTotal - it.lineTotal
      && rec'.row.subtotal == 10_000 * (rec'.row.grandTotal - rec'.row.taxTotal)
      && rec'.row == rec.row.(subtotal := rec'.row.subtotal, taxTotal := rec'.row.taxTotal,
                              grandTotal := rec'.row.grandTotal)
  {
    var items := x.w.records[i].items;
    LiveSumFlagged(items, k, Tax);
    LiveSumFlagged(items, k, LineTotal);
    NetSum(items[k := items[k].(isCancelled := true)]);
  }

  lemma {:induction false} NetSum(items: seq<SaleItem>)
    ensures LiveSum(items, Net) == 10_000 * (LiveSum(items, LineTotal) - LiveSum(items, Tax))
  {
    if items != [] {
      NetSum(items[..|items| - 1]);
    }
  }

  /** Voiding a whole charge flags every line, leaves nothing owed and cancels it. */
  lemma VoidChargeExactly(x: Shop, i: nat)
    requires i < |x.w.records| && i in x.folio
    ensures var rec, x' := x.w.records[i], ApplyShop(x, VoidCharge(i));
      && x'.folio == x.folio - {i} && x'.held == x.held
      && |x'.w.records[i].items| == |rec.items|
      && (forall j :: 0 <= j < |rec.items| ==> x'.w.records[i].items[j] == rec.items[j].(isCancelled := true))
      && x'.w.records[i].row == rec.row.(status := Cancelled, subtotal := 0, taxTotal := 0, grandTotal := 0)
  {
    var items := CancelledItems(x.w.records[i].items);
    NothingLive(items, Net);
    NothingLive(items, Tax);
    NothingLive(items, LineTotal);
  }

  lemma {:induction false} NothingLive(items: seq<SaleItem>, f: SaleItem -> int)
    requires forall it <- items :: it.isCancelled
    ensures LiveSum(items, f) == 0
  {
    if items != [] {
      NothingLive(items[..|items| - 1], f);
    }
  }

  // ---- The invariant -------------------------------------------------------

  lemma FreshItemsOk(rec: InvoiceRecord, sale: InvoiceRecord)
    requires FreshRecord(sale) && rec.items == sale.items && rec.history == []
    ensures forall k: nat :: k < |rec.items| ==> ItemOk(rec, k)
    ensures !SomeEdited(rec)
  {
    forall k: nat | k < |rec.items| ensures ItemOk(rec, k) {
      assert rec.items[k] in sale.items;
    }
  }

  /** An invoice without an edited line has no history. */
  lemma NoHistory(rec: InvoiceRecord)
    requires RecordOk(rec)
    ensures !SomeEdited(rec) <==> rec.history == []
  {
    if rec.history != [] {
      var last := rec.history[|rec.history| - 1];
      assert last in rec.history;
      assert ItemOk(rec, last.item);
      assert rec.items[last.item].isEdited && rec.items[last.item] in rec.items;
    }
    if SomeEdited(rec) {
      var k :| 0 <= k < |rec.items| && rec.items[k].isEdited;
      assert ItemOk(rec, k);
    }
  }

  /** New lines in place of the old ones, under the stored number. */
  lemma ReplacedKeeps(w: World, i: nat, rec': InvoiceRecord, sale: InvoiceRecord)
    requires Inv(w) && i < |w.records| && !SomeEdited(w.records[i]) && FreshRecord(sale)
    requires rec'.items == sale.items && rec'.history == [] && rec'.row.number == w.records[i].row.number
    requires HasNumber(rec'.row) ==> !PreValidation(rec'.row.status)
    requires rec'.row.status != Edited
    ensures Inv(WithRecord(w, i, rec'))
  {
    NoHistory(w.records[i]);
    FreshItemsOk(rec', sale);
    assert RecordOk(rec');
    NumbersStayDistinct(w, i, rec');
  }

  /** Ringing up a held invoice keeps the invariant exactly when it has no number: a
      numbered one goes back before validation and loses its history. */
  lemma RingUpExact(w: World, i: nat, sale: InvoiceRecord)
    requires Inv(w) && i < |w.records| && FreshRecord(sale)
    ensures Inv(WithRecord(w, i, RungUp(w.records[i], sale))) <==> !HasNumber(w.records[i].row)
  {
    var rec := w.records[i];
    var rec' := RungUp(rec, sale);
    assert RecordOk(rec);
    if HasNumber(rec.row) {
      assert !RecordOk(rec');
      assert WithRecord(w, i, rec').records[i] == rec';
    } else {
      ReplacedKeeps(w, i, rec', sale);
    }
  }

  /** Saving an order over a held invoice keeps it exactly when no line was edited:
      otherwise the edit charge outlives the history. */
  lemma SaveOrderExact(w: World, i: nat, sale: InvoiceRecord)
    requires Inv(w) && i < |w.records| && FreshRecord(sale)
    ensures Inv(WithRecord(w, i, Reordered(w.records[i], sale))) <==> !SomeEdited(w.records[i])
  {
    var rec := w.records[i];
    var rec' := Reordered(rec, sale);
    assert RecordOk(rec);
    EditedStatusMeans(rec);
    NoHistory(rec);
    if SomeEdited(rec) {
      assert EditCharges(w.book.charges, i) == |rec.history|;
      assert WithRecord(w, i, rec').records[i].history == [];
    } else {
      ReplacedKeeps(w, i, rec', sale);
    }
  }

  /** The hotel's voids flag lines and, for a whole charge, set `cancelled`. */
  lemma VoidsKeep(w: World, i: nat, rec': InvoiceRecord)
    requires Inv(w) && i < |w.records|
    requires rec' == ChargeVoided(w.records[i])
      || exists k: nat :: k < |w.records[i].items| && rec' == ItemVoided(w.records[i], k)
    ensures Inv(WithRecord(w, i, rec')) && Keeps(w, WithRecord(w, i, rec'))
  {
    var rec := w.records[i];
    assert RecordOk(rec);
    assert forall j :: 0 <= j < |rec.items| ==>
      rec'.items[j] == rec.items[j] || rec'.items[j] == rec.items[j].(isCancelled := true);
    FlaggedOk(rec, rec');
    RecordStep(w, i, rec', WithRecord(w, i, rec'));
  }

  lemma FlaggedOk(rec: InvoiceRecord, rec': InvoiceRecord)
    requires RecordOk(rec) && rec'.history == rec.history && rec'.portalCancelled == rec.portalCancelled
    requires |rec'.items| == |rec.items| && forall j :: 0 <= j < |rec.items| ==>
      rec'.items[j] == rec.items[j] || rec'.items[j] == rec.items[j].(isCancelled := true)
    requires rec'.row.number == rec.row.number && rec'.row.invoiceDate == rec.row.invoiceDate
    requires rec'.row.status == rec.row.status || (rec'.row.status == Cancelled && AllCancelled(rec'.items))
    ensures RecordOk(rec') && Remembered(rec, rec')
  {
    forall k: nat | k < |rec.items| ensures ItemOk(rec', k) && ItemRemembered(rec, rec', k) {
      assert ItemOk(rec, k);
    }
    forall it' <- rec'.items ensures exists it <- rec.items :: it.isEdited == it'.isEdited {
      var k :| 0 <= k < |rec'.items| && rec'.items[k] == it';
      assert rec.items[k] in rec.items;
    }
    forall it <- rec'.items ensures rec.row.status == Edited ==> it.isEdited {
    }
    if AllCancelled(rec.items) {
      forall it' <- rec'.items ensures it'.isCancelled {
        var k :| 0 <= k < |rec'.items| && rec'.items[k] == it';
        assert rec.items[k] in rec.items;
      }
    }
  }

  /** The two steps that the invariant does not survive. */
  ghost predicate Harmless(x: Shop, s: ShopStep) {
    match s
    case RingUp(i, sale) =>
      i < |x.w.records| && i in x.held && FreshRecord(sale) ==> !HasNumber(x.w.records[i].row)
    case SaveOrder(i, sale) =>
      i < |x.w.records| && i in x.held && FreshRecord(sale) ==> !SomeEdited(x.w.records[i])
    case _ => true
  }

  lemma ShopStepExact(x: Shop, s: ShopStep)
    requires Inv(x.w)
    ensures Inv(ApplyShop(x, s).w) <==> Harmless(x, s)
  {
    match s
    case Machine(m) => StepKeeps(x.w, m);
    case RingUp(i, sale) =>
      if i < |x.w.records| && i in x.held && FreshRecord(sale) {
        RingUpExact(x.w, i, sale);
      }
    case SaveOrder(i, sale) =>
      if i < |x.w.records| && i in x.held && FreshRecord(sale) {
        SaveOrderExact(x.w, i, sale);
      }
    case PostCharge(sale) => StepKeeps(x.w, NewInvoice(sale));
    case VoidItem(i, k) =>
      if i < |x.w.records| && k < |x.w.records[i].items| {
        VoidsKeep(x.w, i, ItemVoided(x.w.records[i], k));
      }
    case VoidCharge(i) =>
      if i < |x.w.records| {
        VoidsKeep(x.w, i, ChargeVoided(x.w.records[i]));
      }
    case _ =>
  }

  ghost predicate AllHarmless(x: Shop, steps: seq<ShopStep>)
    decreases |steps|
  {
    steps != [] ==> Harmless(x, steps[0]) && AllHarmless(ApplyShop(x, steps[0]), steps[1..])
  }

  /** Over every run of all flows the invariant, on which every theorem about further runs of
      the machine rests, holds up to the first harmful step; by ShopStepExact it fails there. */
  lemma {:induction false} ShopRunKeeps(x: Shop, steps: seq<ShopStep>)
    requires Inv(x.w) && AllHarmless(x, steps)
    ensures Inv(RunShop(x, steps).w)
    decreases |steps|
  {
    if steps != [] {
      ShopStepExact(x, steps[0]);
      ShopRunKeeps(ApplyShop(x, steps[0]), steps[1..]);
    }
  }

  // ---- The number survives everything --------------------------------------

  lemma SaveKeepsNumber(w: World, t: nat, inst: Invoice, fields: set<Field>, next: Pc, i: nat)
    requires ValidTask(w, t) && i < |w.records| && HasNumber(w.records[i].row)
    ensures i < |SaveAndGo(w, t, inst, fields, next).records|
    ensures SaveAndGo(w, t, inst, fields, next).records[i].row.number == w.records[i].row.number
  {
  }

  lemma JobKeepsNumber(w: World, s: Step, i: nat)
    requires i < |w.records| && HasNumber(w.records[i].row) && OfJob(s)
    ensures i < |Apply(w, s).records| && Apply(w, s).records[i].row.number == w.records[i].row.number
  {
    if ValidTask(w, s.t) {
      var task := w.tasks[s.t];
      match s
      case NonFiscal(t) =>
        SaveKeepsNumber(w, t, task.inst.(status := Finalized), {StatusField}, Done, i);
      case Submit(t, now) =>
        SaveKeepsNumber(w, t, task.inst.(status := Submitted, submittedAt := Some(now)),
                        {StatusField, SubmittedAtField}, Sending, i);
      case Persist(t, now) => PersistKeepsNumber(w, t, now, i);
      case Fail(t) => SaveKeepsNumber(w, t, task.inst.(status := Failed), {StatusField}, Done, i);
      case _ =>
    }
  }

  lemma PersistKeepsNumber(w: World, t: nat, now: nat, i: nat)
    requires ValidTask(w, t) && i < |w.records| && HasNumber(w.records[i].row)
    ensures i < |PersistSuccess(w, t, now).records|
    ensures PersistSuccess(w, t, now).records[i].row.number == w.records[i].row.number
  {
    var task := w.tasks[t];
    match task.pc
    case Accepted(number) =>
      SaveKeepsNumber(w, t, Stamped(task.inst, number, now), {NumberField, DeadlineField, StatusField}, Done, i);
    case ClientResult(number) =>
      SaveKeepsNumber(w, t, Stamped(task.inst, number, now),
                      {NumberField, DeadlineField, StatusField, SubmittedAtField}, Done, i);
    case _ =>
  }

  lemma StepKeepsNumber(w: World, s: Step, i: nat)
    requires i < |w.records| && HasNumber(w.records[i].row)
    ensures i < |Apply(w, s).records| && Apply(w, s).records[i].row.number == w.records[i].row.number
  {
    if OfJob(s) {
      JobKeepsNumber(w, s, i);
    } else if s.Return? {
      if s.i < |w.records| && ProcessReturn(w, s.i, s.lines, s.now, s.gateway, s.noteNumber).Some? {
        R.ReturnIs(w, s.i, s.lines, s.now, s.gateway, s.noteNumber);
        assert Apply(w, s).records[i] == Apply(w, s).records[..|w.records|][i];
      }
    }
  }

  /** Whatever is done to held and other invoices, in any state: the save signal alone keeps
      a stored number for ever. */
  lemma {:induction false} NumberSurvives(x: Shop, steps: seq<ShopStep>, i: nat)
    requires i < |x.w.records| && HasNumber(x.w.records[i].row)
    ensures var w' := RunShop(x, steps).w;
      i < |w'.records| && w'.records[i].row.number == x.w.records[i].row.number
    decreases |steps|
  {
    if steps != [] {
      var s := steps[0];
      if s.Machine? {
        StepKeepsNumber(x.w, s.s, i);
      }
      NumberSurvives(ApplyShop(x, s), steps[1..], i);
    }
  }

  // ---- A run ---------------------------------------------------------------

  lemma RungAgain(w: World, sale: InvoiceRecord)
    requires Inv(w) && |w.records| == 2 && SomeEdited(w.records[1]) && FreshRecord(sale)
    ensures var t := |w.tasks|;
      var x := RunShop(Shop(w, {}, {}), [Hold(1), RingUp(1, sale), Machine(Enqueue(1)), Machine(Load(t))]);
      && |x.w.records| == 2 && |x.w.tasks| == t + 1
      && x.w.records[1] == RungUp(w.records[1], sale) && x.w.book == w.book && x.w.tasks[t].pc == Loaded
  {
    var t := |w.tasks|;
    var x0 := Shop(w, {}, {});
    var x1 := ApplyShop(x0, Hold(1));
    var x2 := ApplyShop(x1, RingUp(1, sale));
    var x3 := ApplyShop(x2, Machine(Enqueue(1)));
    var x4 := ApplyShop(x3, Machine(Load(t)));
    RunShopFour(x0, Hold(1), RingUp(1, sale), Machine(Enqueue(1)), Machine(Load(t)));
  }

  lemma RunShopFour(x: Shop, a: ShopStep, b: ShopStep, c: ShopStep, d: ShopStep)
    ensures RunShop(x, [a, b, c, d]) == ApplyShop(ApplyShop(ApplyShop(ApplyShop(x, a), b), c), d)
  {
    assert [a, b, c, d][1..] == [b, c, d] && [b, c, d][1..] == [c, d] && [c, d][1..] == [d] && [d][1..] == [];
    var x1 := ApplyShop(x, a);
    assert RunShop(x, [a, b, c, d]) == RunShop(x1, [b, c, d]);
    var x2 := ApplyShop(x1, b);
    assert RunShop(x1, [b, c, d]) == RunShop(x2, [c, d]);
    var x3 := ApplyShop(x2, c);
    assert RunShop(x2, [c, d]) == RunShop(x3, [d]);
    assert RunShop(x3, [d]) == RunShop(ApplyShop(x3, d), []);
  }

  /** From an empty tenant: an invoice is numbered and its line edited, then it is held and
      rung up again. It keeps its number, but is `pending_sync`, has lost its history while
      the edit stays charged, and a submit job takes it up once more. */
  lemma HoldAndRingUp(d: nat, number: string, now: nat, sale: InvoiceRecord)
    requires W.Month(d, now) && number != "" && FreshRecord(sale)
    ensures var edited := Run(Run(EMPTY, W.Setup(d, number, now)), R.EditSteps(now));
      var t := |edited.tasks|;
      && |edited.records| == 2 && edited.records[1].history != []
      && var x := RunShop(Shop(edited, {}, {}), [Hold(1), RingUp(1, sale), Machine(Enqueue(1)), Machine(Load(t))]);
      && |x.w.records| == 2 && |x.w.tasks| == t + 1
      && x.w.records[1].row.number == edited.records[1].row.number && HasNumber(x.w.records[1].row)
      && x.w.records[1].row.status == PendingSync && x.w.tasks[t].pc == Loaded
      && x.w.records[1].history == [] && EditCharges(x.w.book.charges, 1) == |edited.records[1].history|
  {
    R.Doubled(d, number, now);
    var edited := Run(Run(EMPTY, W.Setup(d, number, now)), R.EditSteps(now));
    assert edited.records[1].items[0] in edited.records[1].items;
    NoHistory(edited.records[1]);
    RungAgain(edited, sale);
  }
}

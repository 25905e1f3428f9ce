/** The fiscal invoice lifecycle: submit tasks, amendments, the finalizing beat and the
    cancel budget as one state machine over a tenant's tables.

    Sources: backend/apps/fbr/{tasks,services,signals}.py and
    backend/apps/sales/services/cancellation.py. A step is one database transaction (a
    `save()` with its signal check, or a whole atomic service); submit tasks interleave
    between their steps, each carrying the in-memory invoice it loaded. */
module Lifecycle {
  import opened Wrappers
  import opened Calendar
  import opened Sales
  import opened Rules
  import opened Budget
  import opened Returns

  // ---- State ---------------------------------------------------------------

  datatype Endpoint = PostInvoice | EditInvoice | CancelEndpoint

  /** A row of the append-only fbr_submissions. */
  datatype Submission = Submission(invoice: nat, endpoint: Endpoint, attempt: nat, ok: bool)

  datatype Pc =
    | Queued | Loaded | Sending
    | Accepted(number: string)      // the gateway accepted the invoice
    | ClientResult(number: string)  // a till posted the number its local service returned
    | Rejected | Backoff | Done

  /** A running task: `inst` is its in-memory copy of the invoice row. */
  datatype Task = Task(invoice: nat, pc: Pc, inst: Invoice, retries: nat)

  /** `elsewhere` holds the numbers stored on other tenants' invoices. */
  datatype World = World(records: seq<InvoiceRecord>, book: Book,
                         submissions: seq<Submission>, tasks: seq<Task>, elsewhere: set<string>)

  /** len(_BACKOFF_S), also Celery's max_retries. */
  const MAX_RETRIES: nat := 6

  // ---- save() --------------------------------------------------------------

  datatype Field = StatusField | SubmittedAtField | NumberField | DeadlineField

  /** block_fbr_invoice_number_change: runs on every save, whatever fields it writes. */
  predicate SignalRefuses(row: Invoice, inst: Invoice) {
    HasNumber(row) && row.number != inst.number
  }

  /** The Postgres trigger sees the row about to be written, so it only notices a number
      that the statement itself changes. */
  predicate TriggerRefuses(row: Invoice, inst: Invoice, fields: set<Field>) {
    NumberField in fields && row.number.Some? && row.number != inst.number
  }

  /** The numbers stored on other invoices than i, the empty one included. */
  function NumbersBut(records: seq<InvoiceRecord>, elsewhere: set<string>, i: nat): set<string> {
    elsewhere
    + set j: nat | j < |records| && j != i && records[j].row.number.Some? :: records[j].row.number.value
  }

  /** The unique constraint on fbr_invoice_number, over all tenants
      (backend/apps/sales/models.py, lines 79-81). */
  predicate ConstraintRefuses(inst: Invoice, fields: set<Field>, taken: set<string>) {
    NumberField in fields && inst.number.Some? && inst.number.value in taken
  }

  function Written(row: Invoice, inst: Invoice, fields: set<Field>): Invoice {
    row.(status := if StatusField in fields then inst.status else row.status,
         submittedAt := if SubmittedAtField in fields then inst.submittedAt else row.submittedAt,
         number := if NumberField in fields then inst.number else row.number,
         editDeadlineAt := if DeadlineField in fields then inst.editDeadlineAt else row.editDeadlineAt)
  }

  /** invoice.save(update_fields=...): the new row, or None when the save is refused;
      `taken` holds the numbers of the other invoices. */
  function Save(row: Invoice, inst: Invoice, fields: set<Field>, taken: set<string>): Option<Invoice> {
    if SignalRefuses(row, inst) || TriggerRefuses(row, inst, fields) || ConstraintRefuses(inst, fields, taken) then None
    else Some(Written(row, inst, fields))
  }

  predicate ValidTask(w: World, t: nat) {
    t < |w.tasks| && w.tasks[t].invoice < |w.records|
  }

  function WithRow(w: World, i: nat, row: Invoice): World
    requires i < |w.records|
  {
    w.(records := w.records[i := w.records[i].(row := row)])
  }

  function WithTask(w: World, t: nat, task: Task): World
    requires t < |w.tasks|
  {
    w.(tasks := w.tasks[t := task])
  }

  /** Save a job's instance and move it on, or end it when the save raises. */
  function SaveAndGo(w: World, t: nat, inst: Invoice, fields: set<Field>, next: Pc): World
    requires ValidTask(w, t)
  {
    var task := w.tasks[t];
    var saved := Save(w.records[task.invoice].row, inst, fields, NumbersBut(w.records, w.elsewhere, task.invoice));
    if saved.None? then WithTask(w, t, task.(pc := Done))
    else WithTask(WithRow(w, task.invoice, saved.value), t, task.(pc := next, inst := inst))
  }

  // ---- Submit task steps (tasks.py) ----------------------------------------

  datatype Outcome = Success(number: string) | Transient | Permanent

  function LoadTask(w: World, t: nat): World
    requires ValidTask(w, t)
  {
    var task := w.tasks[t];
    var row := w.records[task.invoice].row;
    if task.pc != Queued then w
    else if PreValidation(row.status) then WithTask(w, t, task.(pc := Loaded, inst := row))
    else WithTask(w, t, task.(pc := Done))
  }

  /** A non-fiscal tenant: a pending invoice becomes a finalized local record. */
  function CloseNonFiscal(w: World, t: nat): World
    requires ValidTask(w, t)
  {
    var task := w.tasks[t];
    if task.pc != Loaded then w
    else if task.inst.status == PendingSync
    then SaveAndGo(w, t, task.inst.(status := Finalized), {StatusField}, Done)
    else WithTask(w, t, task.(pc := Done))
  }

  /** No usable token: leave the invoice as it is. */
  function DeferTask(w: World, t: nat): World
    requires ValidTask(w, t)
  {
    if w.tasks[t].pc != Loaded then w else WithTask(w, t, w.tasks[t].(pc := Done))
  }

  function MarkSubmitted(w: World, t: nat, now: nat): World
    requires ValidTask(w, t)
  {
    var task := w.tasks[t];
    if task.pc != Loaded then w
    else SaveAndGo(w, t, task.inst.(status := Submitted, submittedAt := Some(now)),
                   {StatusField, SubmittedAtField}, Sending)
  }

  /** The POST returns: one submission row, then persist, retry or fail. */
  function ReceiveReply(w: World, t: nat, outcome: Outcome): World
    requires ValidTask(w, t)
  {
    var task := w.tasks[t];
    if task.pc != Sending then w
    else
      var next := match outcome
        case Success(number) => Accepted(number)
        case Transient => if MAX_RETRIES <= task.retries then Rejected else Backoff
        case Permanent => Rejected;
      var logged := w.submissions + [Submission(task.invoice, PostInvoice, task.retries + 1, outcome.Success?)];
      WithTask(w.(submissions := logged), t, task.(pc := next))
  }

  function RetryTask(w: World, t: nat): World
    requires ValidTask(w, t)
  {
    var task := w.tasks[t];
    if task.pc != Backoff then w else WithTask(w, t, task.(pc := Queued, retries := task.retries + 1))
  }

  /** The instance _persist_fbr_success saves. */
  function Stamped(inst: Invoice, number: string, now: nat): Invoice {
    inst.(number := Some(number), status := Valid,
          editDeadlineAt := Some(EditDeadline(if inst.submittedAt.Some? then inst.submittedAt.value else now)))
  }

  function PersistSuccess(w: World, t: nat, now: nat): World
    requires ValidTask(w, t)
  {
    var task := w.tasks[t];
    match task.pc
    case Accepted(number) =>
      SaveAndGo(w, t, Stamped(task.inst, number, now), {NumberField, DeadlineField, StatusField}, Done)
    case ClientResult(number) =>
      SaveAndGo(w, t, Stamped(task.inst, number, now),
                {NumberField, DeadlineField, StatusField, SubmittedAtField}, Done)
    case _ => w
  }

  /** _mark_invoice_failed */
  function MarkFailed(w: World, t: nat): World
    requires ValidTask(w, t)
  {
    var task := w.tasks[t];
    if task.pc != Rejected then w
    else SaveAndGo(w, t, task.inst.(status := Failed), {StatusField}, Done)
  }

  /** fiscal_result (backend/apps/sales/views.py, lines 615-669): refused without a number
      or when the loaded invoice has one already; otherwise its save is pending. */
  function PostClientResult(w: World, i: nat, number: string, now: nat): World
    requires i < |w.records|
  {
    var row := w.records[i].row;
    if HasNumber(row) || number == "" then w
    else
      var inst := if row.submittedAt.Some? then row else row.(submittedAt := Some(now));
      w.(tasks := w.tasks + [Task(i, ClientResult(number), inst, 0)])
  }

  // ---- Amendments ----------------------------------------------------------

  /** The gateway's answer to an amendment; Skipped when no token is configured, or for a
      cancel under a POS cloud registration. */
  datatype Gateway = Skipped | Accepts | Rejects

  const EDITABLE: set<string> := {"quantity", "unit_price", "tax_rate"}

  /** Validate the incoming fields; None as value stands for text that is not a number. */
  function CleanPatch(values: seq<(string, Option<int>)>): Option<Patch> {
    if values == [] then None else CleanFields(values)
  }

  function CleanFields(values: seq<(string, Option<int>)>): Option<Patch> {
    if values == [] then Some(Patch(None, None, None))
    else
      var (field, value) := values[|values| - 1];
      var front := CleanFields(values[..|values| - 1]);
      if front.None? || field !in EDITABLE || value.None? || value.value < 0 then None
      else if field == "quantity" then Some(front.value.(quantity := value))
      else if field == "unit_price" then Some(front.value.(unitPrice := value))
      else Some(front.value.(taxRate := value))
  }

  function EditedStatus(items: seq<SaleItem>): Status {
    if (exists it <- items :: it.isEdited) && (exists it <- items :: it.isCancelled) then PartiallyEditedAndCancelled
    else if forall it <- items :: it.isEdited || it.isCancelled then Edited
    else PartiallyEdited
  }

  function EditedItem(it: SaleItem, p: Patch): SaleItem {
    Recompute(it, p).(isEdited := true, editCount := it.editCount + 1)
  }

  /** What `invoice.items.all()` yields in a service that has just written a line: the rows
      of the table, or the list that was prefetched when the invoice was loaded. Both
      endpoints (backend/apps/sales/views.py, lines 821-893) load it with the lines
      prefetched and fetch the one they change separately. */
  datatype Relation = Fresh | Prefetched

  function Seen(relation: Relation, before: seq<SaleItem>, after: seq<SaleItem>): seq<SaleItem> {
    if relation.Fresh? then after else before
  }

  function EditedItems(items: seq<SaleItem>, k: nat, p: Patch): (r: seq<SaleItem>)
    requires k < |items|
    ensures |r| == |items|
  {
    items[k := EditedItem(items[k], p)]
  }

  /** Snapshot, mutate the line, then recompute the totals and flip the status from the
      lines the invoice instance carries. */
  function EditedRecord(rec: InvoiceRecord, k: nat, p: Patch, seen: seq<SaleItem>): InvoiceRecord
    requires k < |rec.items|
  {
    rec.(items := EditedItems(rec.items, k, p),
         history := rec.history + [HistoryRow(k, FiguresOf(rec.items[k]))],
         row := WithTotals(rec.row, seen).(status := EditedStatus(seen)))
  }

  /** edit_invoice_item_with_fbr; None when it raises and the transaction rolls back. */
  function EditItem(w: World, i: nat, k: nat, values: seq<(string, Option<int>)>, now: nat,
                    relation: Relation, gateway: Gateway): Option<World>
    requires i < |w.records| && k < |w.records[i].items|
  {
    var rec := w.records[i];
    var patch := CleanPatch(values);
    if CanEditItem(rec.row, rec.items[k], now).Refused? || patch.None? then None
    else
      var seen := Seen(relation, rec.items, EditedItems(rec.items, k, patch.value));
      var rec' := EditedRecord(rec, k, patch.value, seen);
      var w1 := w.(records := w.records[i := rec']);
      var book := Consumed(w1.book, w1.records, i, rec'.row.grandTotal, Action.Edit, LocalDate(now));
      if book.None? then None
      else Called(w1.(book := book.value), i, gateway, EditInvoice)
  }

  /** The PRAL call of an amendment: skipped without a token or a number. */
  function Called(w: World, i: nat, gateway: Gateway, endpoint: Endpoint): Option<World>
    requires i < |w.records|
  {
    if gateway.Skipped? || !HasNumber(w.records[i].row) then Some(w)
    else if gateway.Rejects? then None
    else Some(w.(submissions := w.submissions + [Submission(i, endpoint, 1, true)]))
  }

  function CancelledItems(items: seq<SaleItem>): (r: seq<SaleItem>)
    ensures |r| == |items|
  {
    seq(|items|, j requires 0 <= j < |items| => items[j].(isCancelled := true))
  }

  function CancelledRecord(rec: InvoiceRecord): InvoiceRecord {
    rec.(row := rec.row.(status := Cancelled), items := CancelledItems(rec.items))
  }

  /** cancellation.cancel_invoice, which is also the whole of the force-cancel endpoint
      (backend/apps/sales/views.py, lines 433-474). */
  function CancelLocal(w: World, i: nat, now: nat): Option<World>
    requires i < |w.records|
  {
    var rec := w.records[i];
    if CanCancelInvoice(rec.row, rec.items, now).Refused? then None
    else Some(w.(records := w.records[i := CancelledRecord(rec)]))
  }

  /** cancel_invoice_with_fbr; the local cancel repeats the rule at a later instant. */
  function CancelInvoice(w: World, i: nat, now: nat, later: nat, gateway: Gateway): Option<World>
    requires i < |w.records|
  {
    var rec := w.records[i];
    if CanCancelInvoice(rec.row, rec.items, now).Refused? then None
    else
      var book := Consumed(w.book, w.records, i, rec.row.grandTotal, Action.Cancel, LocalDate(now));
      if book.None? then None
      else
        var called := Called(w.(book := book.value), i, gateway, CancelEndpoint);
        if called.None? then None else CancelLocal(called.value, i, later)
  }

  /** The per-item cancel: the view's rule, then cancel_sale_item. */
  function CancelItem(w: World, i: nat, k: nat, now: nat, relation: Relation): Option<World>
    requires i < |w.records| && k < |w.records[i].items|
  {
    var rec := w.records[i];
    if CanCancelItem(rec.row, rec.items[k], now).Refused? then None
    else
      var items := rec.items[k := rec.items[k].(isCancelled := true)];
      var seen := Seen(relation, rec.items, items);
      var status := if forall it <- seen :: it.isCancelled then Cancelled else PartiallyCancelled;
      Some(w.(records := w.records[i := rec.(row := rec.row.(status := status), items := items)]))
  }

  // ---- Returns (returns/services/process.py) -------------------------------

  /** The credit note of a return, before it is submitted. It has no edit deadline. */
  function CreditNote(items: seq<SaleItem>, lines: seq<ReturnLine>, today: nat): InvoiceRecord
    requires AllReturnable(items, lines)
  {
    var noted := NoteLines(items, lines);
    InvoiceRecord(Invoice(PendingSync, None, None, None, today, false, false, LiveSum(noted, Gross), 0,
                          LiveSum(noted, Tax), Refund(items, lines)), noted, [], false)
  }

  /** The amend route: charge the whole grand total, then call cancelinvoice. A skipped
      call is logged as well. */
  function AmendForReturn(w: World, i: nat, now: nat, gateway: Gateway): Option<World>
    requires i < |w.records|
  {
    var row := w.records[i].row;
    var book := Consumed(w.book, w.records, i, row.grandTotal, Action.Cancel, LocalDate(now));
    var skipped := gateway.Skipped? || !HasNumber(row);
    if book.None? || (!skipped && gateway.Rejects?) then None
    else
      Some(w.(book := book.value, submissions := w.submissions + [Submission(i, CancelEndpoint, 1, !skipped)]))
  }

  /** The credit-note route: a new invoice, queued for submission when no token is
      configured, else posted at once and stored with the number the reply carries. */
  function NoteForReturn(w: World, i: nat, lines: seq<ReturnLine>, now: nat, gateway: Gateway,
                         number: Option<string>): Option<World>
    requires i < |w.records| && AllReturnable(w.records[i].items, lines)
  {
    var note, n := CreditNote(w.records[i].items, lines, LocalDay(now)), |w.records|;
    match gateway
    case Skipped => Some(w.(records := w.records + [note], tasks := w.tasks + [Task(n, Queued, note.row, 0)]))
    case Rejects => None
    case Accepts =>
      if number.Some? && number.value in NumbersBut(w.records, w.elsewhere, n) then None
      else
        var posted := note.(row := note.row.(number := number, status := Valid));
        Some(w.(records := w.records + [posted], submissions := w.submissions + [Submission(n, PostInvoice, 1, true)]))
  }

  /** _update_original_status */
  function ReturnedRecord(rec: InvoiceRecord, lines: seq<ReturnLine>): InvoiceRecord {
    if rec.row.status == Cancelled then rec
    else
      var items := Flagged(rec.items, lines);
      var status := if forall it <- items :: it.isCancelled then Cancelled else PartiallyCancelled;
      rec.(items := items, row := rec.row.(status := status))
  }

  /** determine_fbr_route, then the route. */
  function RouteReturn(w: World, i: nat, lines: seq<ReturnLine>, now: nat, gateway: Gateway,
                       number: Option<string>): Option<World>
    requires i < |w.records| && AllReturnable(w.records[i].items, lines)
  {
    if CanCancelInvoice(w.records[i].row, w.records[i].items, now).Allowed? then AmendForReturn(w, i, now, gateway)
    else NoteForReturn(w, i, lines, now, gateway, number)
  }

  /** process_return: no rule is asked but for the route. */
  function ProcessReturn(w: World, i: nat, lines: seq<ReturnLine>, now: nat, gateway: Gateway,
                         number: Option<string>): Option<World>
    requires i < |w.records|
  {
    var rec := w.records[i];
    if !AllReturnable(rec.items, lines) then None
    else
      var routed := RouteReturn(w, i, lines, now, gateway, number);
      if routed.None? then None
      else Some(routed.value.(records := routed.value.records[i := ReturnedRecord(rec, lines)]))
  }

  /** delete_draft_invoice */
  function DeleteDraft(w: World, i: nat): Option<World>
    requires i < |w.records|
  {
    var row := w.records[i].row;
    if UnsubmittedDraft(row) then Some(WithRow(w, i, row.(status := Cancelled, deleted := true))) else None
  }

  /** mark_cancelled_on_fbr: the operator records a cancel made on the portal. */
  function MarkCancelledOnPortal(w: World, i: nat): Option<World>
    requires i < |w.records|
  {
    var rec := w.records[i];
    if !HasNumber(rec.row) then None
    else if rec.row.status == Cancelled then Some(w)
    else Some(w.(records := w.records[i := rec.(row := rec.row.(status := Cancelled), portalCancelled := true)]))
  }

  /** finalize_aged_invoices: a bulk UPDATE, so no save signal runs. */
  function FinalizeAged(w: World, now: nat): World {
    w.(records := seq(|w.records|, j requires 0 <= j < |w.records| =>
                      w.records[j].(row := FinalizedBy(w.records[j].row, now))))
  }

  // ---- Runs ----------------------------------------------------------------

  datatype Step =
    | NewInvoice(rec: InvoiceRecord)
    | LinkAnnexure(i: nat)
    | Enqueue(i: nat)
    | Load(t: nat) | NonFiscal(t: nat) | Defer(t: nat) | Submit(t: nat, now: nat)
    | Reply(t: nat, outcome: Outcome) | Retry(t: nat) | Persist(t: nat, now: nat) | Fail(t: nat)
    | FiscalResult(i: nat, number: string, now: nat)
    | EditLine(i: nat, k: nat, values: seq<(string, Option<int>)>, now: nat, relation: Relation,
               gateway: Gateway)
    | CancelWhole(i: nat, now: nat, later: nat, gateway: Gateway)
    | ForceCancel(i: nat, now: nat)
    | CancelLine(i: nat, k: nat, now: nat, relation: Relation)
    | Return(i: nat, lines: seq<ReturnLine>, now: nat, gateway: Gateway, noteNumber: Option<string>)
    | Delete(i: nat) | PortalCancel(i: nat) | Elsewhere(number: string)
    | Finalize(now: nat) | RecomputeBudget(now: nat)

  /** An invoice as checkout creates it: no number and nothing edited. */
  ghost predicate FreshRecord(rec: InvoiceRecord) {
    && rec.row.number.None? && rec.row.status in {PendingSync, Finalized}
    && rec.history == [] && !rec.portalCancelled
    && forall it <- rec.items :: !it.isEdited && it.editCount == 0
  }

  /** A step that names a missing row, or is not enabled, changes nothing. */
  ghost function Apply(w: World, s: Step): World {
    match s
    case NewInvoice(rec) => if FreshRecord(rec) then w.(records := w.records + [rec]) else w
    case LinkAnnexure(i) =>
      if i < |w.records| then WithRow(w, i, w.records[i].row.(annexureLinked := true)) else w
    case Enqueue(i) =>
      if i < |w.records| then w.(tasks := w.tasks + [Task(i, Queued, w.records[i].row, 0)]) else w
    case Load(t) => if ValidTask(w, t) then LoadTask(w, t) else w
    case NonFiscal(t) => if ValidTask(w, t) then CloseNonFiscal(w, t) else w
    case Defer(t) => if ValidTask(w, t) then DeferTask(w, t) else w
    case Submit(t, now) => if ValidTask(w, t) then MarkSubmitted(w, t, now) else w
    case Reply(t, outcome) => if ValidTask(w, t) then ReceiveReply(w, t, outcome) else w
    case Retry(t) => if ValidTask(w, t) then RetryTask(w, t) else w
    case Persist(t, now) => if ValidTask(w, t) then PersistSuccess(w, t, now) else w
    case Fail(t) => if ValidTask(w, t) then MarkFailed(w, t) else w
    case FiscalResult(i, number, now) => if i < |w.records| then PostClientResult(w, i, number, now) else w
    case EditLine(i, k, values, now, relation, gateway) =>
      if i < |w.records| && k < |w.records[i].items|
      then EditItem(w, i, k, values, now, relation, gateway).GetOr(w) else w
    case CancelWhole(i, now, later, gateway) =>
      if i < |w.records| then CancelInvoice(w, i, now, later, gateway).GetOr(w) else w
    case ForceCancel(i, now) => if i < |w.records| then CancelLocal(w, i, now).GetOr(w) else w
    case CancelLine(i, k, now, relation) =>
      if i < |w.records| && k < |w.records[i].items| then CancelItem(w, i, k, now, relation).GetOr(w) else w
    case Return(i, lines, now, gateway, number) =>
      if i < |w.records| then ProcessReturn(w, i, lines, now, gateway, number).GetOr(w) else w
    case Elsewhere(number) =>
      if number in NumbersBut(w.records, w.elsewhere, |w.records|) then w
      else w.(elsewhere := w.elsewhere + {number})
    case Delete(i) => if i < |w.records| then DeleteDraft(w, i).GetOr(w) else w
    case PortalCancel(i) => if i < |w.records| then MarkCancelledOnPortal(w, i).GetOr(w) else w
    case Finalize(now) => FinalizeAged(w, now)
    case RecomputeBudget(now) => w.(book := Recomputed(w.book, w.records, LocalDate(now)))
  }

  ghost function Run(w: World, steps: seq<Step>): World
    decreases |steps|
  {
    if steps == [] then w else Run(Apply(w, steps[0]), steps[1..])
  }

  lemma {:induction false} RunConcat(w: World, a: seq<Step>, b: seq<Step>)
    ensures Run(w, a + b) == Run(Run(w, a), b)
    decreases |a|
  {
    if a == [] {
      assert a + b == b;
    } else {
      assert (a + b)[1..] == a[1..] + b;
      RunConcat(Apply(w, a[0]), a[1..], b);
    }
  }

  lemma RunOne(w: World, s: Step)
    ensures Run(w, [s]) == Apply(w, s)
  {
    assert [s][1..] == [];
    assert Run(w, [s]) == Run(Apply(w, s), []);
  }

  lemma RunTwo(w: World, a: Step, b: Step)
    ensures Run(w, [a, b]) == Apply(Apply(w, a), b)
  {
    assert [a, b][1..] == [b];
    RunOne(Apply(w, a), b);
  }

  lemma RunThree(w: World, a: Step, b: Step, c: Step)
    ensures Run(w, [a, b, c]) == Apply(Apply(Apply(w, a), b), c)
  {
    assert [a, b, c][1..] == [b, c];
    RunTwo(Apply(w, a), b, c);
  }
}

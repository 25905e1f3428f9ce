/** The finalizing beat is unobservable: runs with and without it stay in step. */
module FinalizeSimulation {
  import opened Wrappers
  import opened Calendar
  import opened Sales
  import opened Rules
  import opened Budget
  import opened Returns
  import opened Lifecycle

  /** b is a, except that a beat not later than T may have finalized it. */
  ghost predicate RowSim(a: Invoice, b: Invoice, T: int) {
    b == a || (Finalizable(a, T) && b == a.(status := Finalized))
  }

  ghost predicate RecordSim(a: InvoiceRecord, b: InvoiceRecord, T: int) {
    RowSim(a.row, b.row, T) && b == a.(row := b.row)
  }

  /** A client-result task may have loaded a row before or after the beat. */
  ghost predicate TaskSim(a: Task, b: Task) {
    b == a || ((a.pc.ClientResult? || a.pc.Done? || a.pc.Queued?)
               && b == a.(inst := a.inst.(status := b.inst.status)))
  }

  ghost predicate Sim(a: World, b: World, T: int) {
    && |a.records| == |b.records| && |a.tasks| == |b.tasks|
    && a.book == b.book && a.submissions == b.submissions && a.elsewhere == b.elsewhere
    && (forall i :: 0 <= i < |a.records| ==> RecordSim(a.records[i], b.records[i], T))
    && (forall t :: 0 <= t < |a.tasks| ==> TaskSim(a.tasks[t], b.tasks[t]))
  }

  predicate Amends(s: Step) {
    s.EditLine? || s.CancelWhole? || s.ForceCancel? || s.CancelLine?
  }

  /** Every rule check and beat of the step happens at T or later. */
  predicate NotBefore(s: Step, T: int) {
    match s
    case EditLine(_, _, _, now, _, _) => T <= now
    case CancelWhole(_, now, _, _) => T <= now
    case ForceCancel(_, now) => T <= now
    case CancelLine(_, _, now, _) => T <= now
    case Return(_, _, now, _, _) => T <= now
    case Finalize(now) => T <= now
    case _ => true
  }

  lemma {:induction false} SalesTotalSim(a: seq<InvoiceRecord>, b: seq<InvoiceRecord>, today: Date, T: int)
    requires ValidDate(today) && |a| == |b|
    requires forall i :: 0 <= i < |a| ==> RecordSim(a[i], b[i], T)
    ensures SalesTotal(a, today) == SalesTotal(b, today)
  {
    if a != [] {
      SalesTotalSim(a[..|a| - 1], b[..|b| - 1], today, T);
      assert RecordSim(a[|a| - 1], b[|a| - 1], T);
    }
  }

  lemma NumbersSim(a: seq<InvoiceRecord>, b: seq<InvoiceRecord>, elsewhere: set<string>, T: int, i: nat)
    requires |a| == |b| && forall j :: 0 <= j < |a| ==> RecordSim(a[j], b[j], T)
    ensures NumbersBut(a, elsewhere, i) == NumbersBut(b, elsewhere, i)
  {
    assert forall j :: 0 <= j < |a| ==> a[j].row.number == b[j].row.number;
  }

  /** Both runs refuse or accept a save together, and a written status ends a difference. */
  lemma SaveSim(a: World, b: World, T: int, t: nat, inst: Invoice, fields: set<Field>, next: Pc)
    requires Sim(a, b, T) && ValidTask(a, t) && StatusField in fields
    requires a.tasks[t] == b.tasks[t] || next.Done?
    ensures Sim(SaveAndGo(a, t, inst, fields, next), SaveAndGo(b, t, inst, fields, next), T)
  {
    NumbersSim(a.records, b.records, a.elsewhere, T, a.tasks[t].invoice);
  }

  lemma WithRecordSim(a: World, b: World, T: int, i: nat, ra: InvoiceRecord, rb: InvoiceRecord)
    requires Sim(a, b, T) && i < |a.records| && RecordSim(ra, rb, T)
    ensures Sim(a.(records := a.records[i := ra]), b.(records := b.records[i := rb]), T)
  {
  }

  lemma LoadSim(a: World, b: World, T: int, t: nat)
    requires Sim(a, b, T) && ValidTask(a, t)
    ensures Sim(LoadTask(a, t), LoadTask(b, t), T)
  {
  }

  /** The other task steps that write no invoice. */
  lemma QuietTaskSim(a: World, b: World, T: int, s: Step)
    requires Sim(a, b, T) && (s.Defer? || s.Reply? || s.Retry?)
    ensures Sim(Apply(a, s), Apply(b, s), T)
  {
  }

  lemma NonFiscalSim(a: World, b: World, T: int, t: nat)
    requires Sim(a, b, T) && ValidTask(a, t)
    ensures Sim(CloseNonFiscal(a, t), CloseNonFiscal(b, t), T)
  {
    var task := a.tasks[t];
    if task.pc == Loaded && task.inst.status == PendingSync {
      SaveSim(a, b, T, t, task.inst.(status := Finalized), {StatusField}, Done);
    }
  }

  lemma SubmitSim(a: World, b: World, T: int, t: nat, now: nat)
    requires Sim(a, b, T) && ValidTask(a, t)
    ensures Sim(MarkSubmitted(a, t, now), MarkSubmitted(b, t, now), T)
  {
    var task := a.tasks[t];
    if task.pc == Loaded {
      SaveSim(a, b, T, t, task.inst.(status := Submitted, submittedAt := Some(now)),
              {StatusField, SubmittedAtField}, Sending);
    }
  }

  lemma FailSim(a: World, b: World, T: int, t: nat)
    requires Sim(a, b, T) && ValidTask(a, t)
    ensures Sim(MarkFailed(a, t), MarkFailed(b, t), T)
  {
    var task := a.tasks[t];
    if task.pc == Rejected {
      SaveSim(a, b, T, t, task.inst.(status := Failed), {StatusField}, Done);
    }
  }

  lemma PersistSim(a: World, b: World, T: int, t: nat, now: nat)
    requires Sim(a, b, T) && ValidTask(a, t)
    ensures Sim(PersistSuccess(a, t, now), PersistSuccess(b, t, now), T)
  {
    var task := a.tasks[t];
    assert TaskSim(task, b.tasks[t]);
    match task.pc
    case Accepted(number) =>
      SaveSim(a, b, T, t, Stamped(task.inst, number, now), {NumberField, DeadlineField, StatusField}, Done);
    case ClientResult(number) =>
      assert Stamped(b.tasks[t].inst, number, now) == Stamped(task.inst, number, now);
      SaveSim(a, b, T, t, Stamped(task.inst, number, now),
              {NumberField, DeadlineField, StatusField, SubmittedAtField}, Done);
    case _ =>
  }

  /** Amendments at T or later are refused for a finalized row and for the row it was. */
  lemma AmendRefused(w: World, T: int, s: Step)
    requires NotBefore(s, T) && Amends(s) && s.i < |w.records|
    requires Finalizable(w.records[s.i].row, T) || w.records[s.i].row.status == Finalized
    ensures Apply(w, s) == w
  {
    if s.CancelWhole? {
      assert CanCancelInvoice(w.records[s.i].row, w.records[s.i].items, s.now).Refused?;
    }
  }

  lemma ConsumedSim(a: World, b: World, T: int, i: nat, amount: int, action: Action, today: Date)
    requires Sim(a, b, T) && ValidDate(today)
    ensures Consumed(a.book, a.records, i, amount, action, today)
         == Consumed(b.book, b.records, i, amount, action, today)
  {
    SalesTotalSim(a.records, b.records, today, T);
  }

  lemma EditSim(a: World, b: World, T: int, i: nat, k: nat, values: seq<(string, Option<int>)>, now: nat,
                relation: Relation, gateway: Gateway)
    requires Sim(a, b, T) && i < |a.records| && a.records[i] == b.records[i] && k < |a.records[i].items|
    ensures Sim(EditItem(a, i, k, values, now, relation, gateway).GetOr(a),
                EditItem(b, i, k, values, now, relation, gateway).GetOr(b), T)
  {
    var patch := CleanPatch(values);
    if patch.Some? {
      var items := a.records[i].items;
      EditedSim(a, b, T, i, now, gateway,
                EditedRecord(a.records[i], k, patch.value, Seen(relation, items, EditedItems(items, k, patch.value))));
    }
  }

  /** An edit from the new record on: charge, then call. */
  lemma EditedSim(a: World, b: World, T: int, i: nat, now: nat, gateway: Gateway, rec': InvoiceRecord)
    requires Sim(a, b, T) && i < |a.records|
    ensures var a1, b1 := a.(records := a.records[i := rec']), b.(records := b.records[i := rec']);
      var book := Consumed(a1.book, a1.records, i, rec'.row.grandTotal, Action.Edit, LocalDate(now));
      && book == Consumed(b1.book, b1.records, i, rec'.row.grandTotal, Action.Edit, LocalDate(now))
      && (book.Some? ==>
            var ra := Called(a1.(book := book.value), i, gateway, EditInvoice);
            var rb := Called(b1.(book := book.value), i, gateway, EditInvoice);
            (ra.Some? <==> rb.Some?) && (ra.Some? ==> Sim(ra.value, rb.value, T)))
  {
    WithRecordSim(a, b, T, i, rec', rec');
    var a1, b1 := a.(records := a.records[i := rec']), b.(records := b.records[i := rec']);
    ConsumedSim(a1, b1, T, i, rec'.row.grandTotal, Action.Edit, LocalDate(now));
    var book := Consumed(a1.book, a1.records, i, rec'.row.grandTotal, Action.Edit, LocalDate(now));
    if book.Some? {
      CalledSim(a1.(book := book.value), b1.(book := book.value), T, i, gateway, EditInvoice);
    }
  }

  lemma CalledSim(a: World, b: World, T: int, i: nat, gateway: Gateway, endpoint: Endpoint)
    requires Sim(a, b, T) && i < |a.records| && a.records[i] == b.records[i]
    ensures var ra, rb := Called(a, i, gateway, endpoint), Called(b, i, gateway, endpoint);
      (ra.Some? <==> rb.Some?) && (ra.Some? ==> Sim(ra.value, rb.value, T))
  {
  }

  lemma CancelWholeSim(a: World, b: World, T: int, i: nat, now: nat, later: nat, gateway: Gateway)
    requires Sim(a, b, T) && i < |a.records| && a.records[i] == b.records[i]
    ensures Sim(CancelInvoice(a, i, now, later, gateway).GetOr(a),
                CancelInvoice(b, i, now, later, gateway).GetOr(b), T)
  {
    var rec := a.records[i];
    ConsumedSim(a, b, T, i, rec.row.grandTotal, Action.Cancel, LocalDate(now));
    var book := Consumed(a.book, a.records, i, rec.row.grandTotal, Action.Cancel, LocalDate(now));
    if book.Some? {
      var a1, b1 := a.(book := book.value), b.(book := book.value);
      CalledSim(a1, b1, T, i, gateway, CancelEndpoint);
      var ra, rb := Called(a1, i, gateway, CancelEndpoint), Called(b1, i, gateway, CancelEndpoint);
      if ra.Some? {
        WithRecordSim(ra.value, rb.value, T, i, CancelledRecord(rec), CancelledRecord(rec));
      }
    }
  }

  lemma CancelLineSim(a: World, b: World, T: int, i: nat, k: nat, now: nat, relation: Relation)
    requires Sim(a, b, T) && i < |a.records| && a.records[i] == b.records[i] && k < |a.records[i].items|
    ensures Sim(CancelItem(a, i, k, now, relation).GetOr(a), CancelItem(b, i, k, now, relation).GetOr(b), T)
  {
  }

  lemma AmendSim(a: World, b: World, T: int, s: Step)
    requires Sim(a, b, T) && NotBefore(s, T)
    requires Amends(s) && s.i < |a.records|
    ensures Sim(Apply(a, s), Apply(b, s), T)
  {
    assert RecordSim(a.records[s.i], b.records[s.i], T);
    if a.records[s.i] != b.records[s.i] {
      AmendRefused(a, T, s);
      AmendRefused(b, T, s);
    } else {
      match s
      case EditLine(i, k, values, now, relation, gateway) =>
        if k < |a.records[i].items| { EditSim(a, b, T, i, k, values, now, relation, gateway); }
      case CancelWhole(i, now, later, gateway) => CancelWholeSim(a, b, T, i, now, later, gateway);
      case ForceCancel(i, now) =>
        var rec' := CancelledRecord(a.records[i]);
        WithRecordSim(a, b, T, i, rec', rec');
      case CancelLine(i, k, now, relation) =>
        if k < |a.records[i].items| { CancelLineSim(a, b, T, i, k, now, relation); }
    }
  }

  // ---- Returns -------------------------------------------------------------

  /** A return of a row that the beat may have finalized raises a credit note in both runs,
      and leaves the same row. */
  lemma ReturnRoutes(ra: InvoiceRecord, rb: InvoiceRecord, T: int, lines: seq<ReturnLine>, now: nat)
    requires RecordSim(ra, rb, T) && T <= now
    ensures CanCancelInvoice(ra.row, ra.items, now).Allowed? <==> CanCancelInvoice(rb.row, rb.items, now).Allowed?
    ensures ra != rb ==> CanCancelInvoice(ra.row, ra.items, now).Refused?
    ensures ReturnedRecord(ra, lines) == ReturnedRecord(rb, lines)
  {
  }

  lemma AmendForReturnSim(a: World, b: World, T: int, i: nat, now: nat, gateway: Gateway)
    requires Sim(a, b, T) && i < |a.records| && a.records[i] == b.records[i]
    ensures var ra, rb := AmendForReturn(a, i, now, gateway), AmendForReturn(b, i, now, gateway);
      (ra.Some? <==> rb.Some?) && (ra.Some? ==> Sim(ra.value, rb.value, T))
  {
    ConsumedSim(a, b, T, i, a.records[i].row.grandTotal, Action.Cancel, LocalDate(now));
  }

  lemma AppendSim(a: World, b: World, T: int, rec: InvoiceRecord)
    requires Sim(a, b, T)
    ensures Sim(a.(records := a.records + [rec]), b.(records := b.records + [rec]), T)
  {
  }

  lemma NoteForReturnSim(a: World, b: World, T: int, i: nat, lines: seq<ReturnLine>, now: nat, gateway: Gateway,
                         number: Option<string>)
    requires Sim(a, b, T) && i < |a.records| && AllReturnable(a.records[i].items, lines)
    requires RecordSim(a.records[i], b.records[i], T)
    ensures var ra := NoteForReturn(a, i, lines, now, gateway, number);
      var rb := NoteForReturn(b, i, lines, now, gateway, number);
      (ra.Some? <==> rb.Some?) && (ra.Some? ==> Sim(ra.value, rb.value, T))
  {
    var note := CreditNote(a.records[i].items, lines, LocalDay(now));
    NumbersSim(a.records, b.records, a.elsewhere, T, |a.records|);
    AppendSim(a, b, T, note);
    AppendSim(a, b, T, note.(row := note.row.(number := number, status := Valid)));
  }

  lemma RouteSim(a: World, b: World, T: int, i: nat, lines: seq<ReturnLine>, now: nat, gateway: Gateway,
                 number: Option<string>)
    requires Sim(a, b, T) && i < |a.records| && T <= now && AllReturnable(a.records[i].items, lines)
    requires RecordSim(a.records[i], b.records[i], T)
    ensures var ra := RouteReturn(a, i, lines, now, gateway, number);
      var rb := RouteReturn(b, i, lines, now, gateway, number);
      (ra.Some? <==> rb.Some?) && (ra.Some? ==> Sim(ra.value, rb.value, T) && i < |ra.value.records|)
  {
    ReturnRoutes(a.records[i], b.records[i], T, lines, now);
    if CanCancelInvoice(a.records[i].row, a.records[i].items, now).Allowed? {
      AmendForReturnSim(a, b, T, i, now, gateway);
    } else {
      NoteForReturnSim(a, b, T, i, lines, now, gateway, number);
    }
  }

  lemma ReturnSim(a: World, b: World, T: int, i: nat, lines: seq<ReturnLine>, now: nat, gateway: Gateway,
                  number: Option<string>)
    requires Sim(a, b, T) && i < |a.records| && T <= now
    ensures Sim(ProcessReturn(a, i, lines, now, gateway, number).GetOr(a),
                ProcessReturn(b, i, lines, now, gateway, number).GetOr(b), T)
  {
    assert RecordSim(a.records[i], b.records[i], T);
    if AllReturnable(a.records[i].items, lines) {
      ReturnRoutes(a.records[i], b.records[i], T, lines, now);
      RouteSim(a, b, T, i, lines, now, gateway, number);
      var ra, rb := RouteReturn(a, i, lines, now, gateway, number), RouteReturn(b, i, lines, now, gateway, number);
      if ra.Some? {
        var rec' := ReturnedRecord(a.records[i], lines);
        WithRecordSim(ra.value, rb.value, T, i, rec', rec');
      }
    }
  }

  lemma LinkSim(a: World, b: World, T: int, s: Step)
    requires Sim(a, b, T) && s.LinkAnnexure? && s.i < |a.records|
    ensures Sim(Apply(a, s), Apply(b, s), T)
  {
    assert RecordSim(a.records[s.i], b.records[s.i], T);
    WithRecordSim(a, b, T, s.i, Apply(a, s).records[s.i], Apply(b, s).records[s.i]);
  }

  lemma DeleteSim(a: World, b: World, T: int, s: Step)
    requires Sim(a, b, T) && s.Delete? && s.i < |a.records|
    ensures Sim(Apply(a, s), Apply(b, s), T)
  {
    assert RecordSim(a.records[s.i], b.records[s.i], T);
    WithRecordSim(a, b, T, s.i, Apply(a, s).records[s.i], Apply(b, s).records[s.i]);
  }

  lemma PortalCancelSim(a: World, b: World, T: int, s: Step)
    requires Sim(a, b, T) && s.PortalCancel? && s.i < |a.records|
    ensures Sim(Apply(a, s), Apply(b, s), T)
  {
    assert RecordSim(a.records[s.i], b.records[s.i], T);
    WithRecordSim(a, b, T, s.i, Apply(a, s).records[s.i], Apply(b, s).records[s.i]);
  }

  lemma RowOnlySim(a: World, b: World, T: int, s: Step)
    requires Sim(a, b, T) && (s.LinkAnnexure? || s.Delete? || s.PortalCancel?) && s.i < |a.records|
    ensures Sim(Apply(a, s), Apply(b, s), T)
  {
    match s
    case LinkAnnexure(_) => LinkSim(a, b, T, s);
    case Delete(_) => DeleteSim(a, b, T, s);
    case PortalCancel(_) => PortalCancelSim(a, b, T, s);
  }

  lemma FinalizeAgedSim(a: World, b: World, T: int, now: nat)
    requires Sim(a, b, T) && T <= now
    ensures Sim(FinalizeAged(a, now), FinalizeAged(b, now), T)
  {
  }

  lemma TaskStepSim(a: World, b: World, T: int, s: Step)
    requires Sim(a, b, T)
    requires s.Load? || s.Defer? || s.Reply? || s.Retry? || s.NonFiscal? || s.Submit? || s.Persist? || s.Fail?
    ensures Sim(Apply(a, s), Apply(b, s), T)
  {
    if ValidTask(a, s.t) {
      match s
      case Load(t) => LoadSim(a, b, T, t);
      case Persist(t, now) => PersistSim(a, b, T, t, now);
      case NonFiscal(t) => NonFiscalSim(a, b, T, t);
      case Submit(t, now) => SubmitSim(a, b, T, t, now);
      case Fail(t) => FailSim(a, b, T, t);
      case _ => QuietTaskSim(a, b, T, s);
    }
  }

  lemma StepSim(a: World, b: World, T: int, s: Step)
    requires Sim(a, b, T) && NotBefore(s, T)
    ensures Sim(Apply(a, s), Apply(b, s), T)
  {
    if Amends(s) {
      if s.i < |a.records| { AmendSim(a, b, T, s); }
    } else if s.LinkAnnexure? || s.Delete? || s.PortalCancel? {
      if s.i < |a.records| { RowOnlySim(a, b, T, s); }
    } else if s.Return? {
      if s.i < |a.records| { ReturnSim(a, b, T, s.i, s.lines, s.now, s.gateway, s.noteNumber); }
    } else if s.Elsewhere? {
      NumbersSim(a.records, b.records, a.elsewhere, T, |a.records|);
    } else if s.NewInvoice? || s.Enqueue? || s.FiscalResult? {
      GrowthSim(a, b, T, s);
    } else if s.Finalize? {
      FinalizeAgedSim(a, b, T, s.now);
    } else if s.RecomputeBudget? {
      SalesTotalSim(a.records, b.records, LocalDate(s.now), T);
    } else {
      TaskStepSim(a, b, T, s);
    }
  }

  lemma GrowthSim(a: World, b: World, T: int, s: Step)
    requires Sim(a, b, T) && (s.NewInvoice? || s.Enqueue? || s.FiscalResult?)
    ensures Sim(Apply(a, s), Apply(b, s), T)
  {
  }

  lemma {:induction false} RunSim(a: World, b: World, T: int, steps: seq<Step>)
    requires Sim(a, b, T) && forall s <- steps :: NotBefore(s, T)
    ensures Sim(Run(a, steps), Run(b, steps), T)
    decreases |steps|
  {
    if steps != [] {
      StepSim(a, b, T, steps[0]);
      RunSim(Apply(a, steps[0]), Apply(b, steps[0]), T, steps[1..]);
    }
  }

  /** Inserting a finalizing beat at time T before any run whose rule checks come at T or
      later changes no item, history row, number, budget, charge or submission anywhere in
      the run; statuses differ at most by being `finalized` already. */
  lemma FinalizeUnobservable(w: World, steps: seq<Step>, T: nat)
    requires forall s <- steps :: NotBefore(s, T)
    ensures Sim(Run(w, steps), Run(FinalizeAged(w, T), steps), T)
  {
    RunSim(w, FinalizeAged(w, T), T, steps);
  }
}

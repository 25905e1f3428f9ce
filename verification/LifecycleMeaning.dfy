/** What each step of the lifecycle does to the stored rows, field by field: when it is
    accepted, what it writes, what it logs, and that it writes nothing else. */
module LifecycleMeaning {
  import opened Wrappers
  import opened Calendar
  import opened Sales
  import opened Rules
  import opened Budget
  import opened Lifecycle
  import opened LifecycleInvariant
  import T = LifecycleTheorems

  // ---- Saves ---------------------------------------------------------------

  /** A save is refused exactly when it would change a stored number, by the instance it
      holds or by what it writes, or write a number that another invoice stores. */
  lemma SaveExactly(row: Invoice, inst: Invoice, fields: set<Field>, taken: set<string>)
    ensures var r := Save(row, inst, fields, taken);
      && (r.None? <==>
            || (row.number.Some? && row.number.value != "" && inst.number != row.number)
            || (NumberField in fields && row.number.Some? && inst.number != row.number)
            || (NumberField in fields && inst.number.Some? && inst.number.value in taken))
      && (r.Some? ==>
            && r.value.status == (if StatusField in fields then inst.status else row.status)
            && r.value.number == (if NumberField in fields then inst.number else row.number)
            && r.value.submittedAt == (if SubmittedAtField in fields then inst.submittedAt else row.submittedAt)
            && r.value.editDeadlineAt == (if DeadlineField in fields then inst.editDeadlineAt else row.editDeadlineAt)
            && r.value == row.(status := r.value.status, number := r.value.number,
                               submittedAt := r.value.submittedAt, editDeadlineAt := r.value.editDeadlineAt))
  {
  }

  /** Row i and job t replaced, all else as it was. */
  ghost predicate OnlyJob(w: World, w': World, t: nat, row: Invoice)
    requires ValidTask(w, t)
  {
    var i := w.tasks[t].invoice;
    && |w'.tasks| == |w.tasks|
    && w' == w.(records := w.records[i := w.records[i].(row := row)], tasks := w.tasks[t := w'.tasks[t]])
  }

  lemma SameRow(w: World, i: nat)
    requires i < |w.records|
    ensures w.records[i := w.records[i].(row := w.records[i].row)] == w.records
  {
    assert w.records[i].(row := w.records[i].row) == w.records[i];
  }

  /** A queued job goes on exactly while its invoice is pending, submitted or failed. */
  lemma LoadExactly(w: World, t: nat)
    requires ValidTask(w, t) && w.tasks[t].pc == Queued
    ensures var i, w' := w.tasks[t].invoice, Apply(w, Load(t));
      && OnlyJob(w, w', t, w.records[i].row)
      && (if w.records[i].row.status in {PendingSync, Submitted, Failed}
          then w'.tasks[t] == w.tasks[t].(pc := Loaded, inst := w.records[i].row)
          else w'.tasks[t] == w.tasks[t].(pc := Done))
  {
    SameRow(w, w.tasks[t].invoice);
  }

  /** A non-fiscal tenant's job turns a pending invoice into a finalized one and leaves any
      other; a job without a token leaves every invoice. Neither posts anything. */
  lemma LocalEndExactly(w: World, t: nat)
    requires ValidTask(w, t) && w.tasks[t].pc == Loaded && w.tasks[t].inst == w.records[w.tasks[t].invoice].row
    ensures var i := w.tasks[t].invoice;
      var row, closed, deferred := w.records[i].row, Apply(w, NonFiscal(t)), Apply(w, Defer(t));
      && OnlyJob(w, closed, t, if row.status == PendingSync then row.(status := Finalized) else row)
      && OnlyJob(w, deferred, t, row)
      && closed.tasks[t].pc == Done && deferred.tasks[t].pc == Done
  {
    SameRow(w, w.tasks[t].invoice);
  }

  /** A job that gives up marks its invoice failed, unless that was numbered meanwhile. */
  lemma FailExactly(w: World, t: nat)
    requires ValidTask(w, t) && w.tasks[t].pc == Rejected
    ensures var i, w' := w.tasks[t].invoice, Apply(w, Fail(t));
      var row := w.records[i].row;
      && OnlyJob(w, w', t, if row.number.Some? && row.number.value != "" && row.number != w.tasks[t].inst.number
                           then row else row.(status := Failed))
      && w'.tasks[t].pc == Done
  {
    SameRow(w, w.tasks[t].invoice);
  }

  /** A reply is logged once, with the number of the attempt and whether it was a success;
      after six retries a transient one ends the job like any other error. */
  lemma ReplyExactly(w: World, t: nat, outcome: Outcome)
    requires ValidTask(w, t) && w.tasks[t].pc == Sending
    ensures var w' := Apply(w, Reply(t, outcome));
      var next := match outcome
        case Success(number) => Accepted(number)
        case Transient => if w.tasks[t].retries < 6 then Backoff else Rejected
        case Permanent => Rejected;
      w' == w.(submissions := w.submissions + [Submission(w.tasks[t].invoice, PostInvoice, w.tasks[t].retries + 1,
                                                          outcome.Success?)],
               tasks := w.tasks[t := w.tasks[t].(pc := next)])
  {
  }

  /** A till's own result: stored, with the deadline counted from the submission the row
      records, else from the post, exactly when the invoice has no number at all, the posted
      one is not empty, and no other invoice has it. Otherwise the invoice stays as it was. */
  lemma TillExactly(w: World, i: nat, number: string, now: nat, later: nat)
    requires i < |w.records|
    ensures var w' := Apply(Apply(w, FiscalResult(i, number, now)), Persist(|w.tasks|, later));
      var row := w.records[i].row;
      var since := if row.submittedAt.Some? then row.submittedAt.value else now;
      && |w'.records| == |w.records| && w'.records == w.records[i := w'.records[i]]
      && w'.book == w.book && w'.submissions == w.submissions
      && (w'.tasks == w.tasks
          || (|w'.tasks| == |w.tasks| + 1 && w'.tasks[..|w.tasks|] == w.tasks
              && w'.tasks[|w.tasks|].pc == Done && w'.tasks[|w.tasks|].retries == 0))
      && w'.records[i] == w.records[i].(row :=
           if number != "" && row.number.None? && number !in NumbersBut(w.records, w.elsewhere, i)
           then row.(status := Valid, number := Some(number), submittedAt := Some(since),
                     editDeadlineAt := Some(EditDeadline(since)))
           else row)
  {
    var row, t := w.records[i].row, |w.tasks|;
    SameRow(w, i);
    if !HasNumber(row) && number != "" {
      var w1 := Apply(w, FiscalResult(i, number, now));
      assert w1.tasks[t].invoice == i && w1.tasks[t].pc == ClientResult(number);
    }
  }

  // ---- Edits ---------------------------------------------------------------

  /** The last value given for a field. */
  ghost predicate Given(values: seq<(string, Option<int>)>, field: string, value: Option<int>) {
    if exists j :: 0 <= j < |values| && values[j].0 == field
    then exists j :: 0 <= j < |values| && values[j] == (field, value)
           && forall l :: j < l < |values| ==> values[l].0 != field
    else value.None?
  }

  lemma GivenLast(values: seq<(string, Option<int>)>, field: string)
    requires values != [] && values[|values| - 1].0 == field
    ensures Given(values, field, values[|values| - 1].1)
  {
    var n := |values| - 1;
    assert values[n] == (field, values[n].1);
  }

  lemma GivenBefore(values: seq<(string, Option<int>)>, field: string, value: Option<int>)
    requires values != [] && Given(values[..|values| - 1], field, value) && values[|values| - 1].0 != field
    ensures Given(values, field, value)
  {
    var front := values[..|values| - 1];
    if j :| 0 <= j < |front| && front[j].0 == field {
      var m :| 0 <= m < |front| && front[m] == (field, value)
        && forall l :: m < l < |front| ==> front[l].0 != field;
      assert values[j].0 == field && values[m] == (field, value);
    } else {
      forall j | 0 <= j < |values| ensures values[j].0 != field {
        assert j < |front| ==> front[j].0 != field;
      }
    }
  }

  lemma GivenNext(values: seq<(string, Option<int>)>, field: string, before: Option<int>, after: Option<int>)
    requires values != [] && Given(values[..|values| - 1], field, before)
    requires after == if values[|values| - 1].0 == field then values[|values| - 1].1 else before
    ensures Given(values, field, after)
  {
    if values[|values| - 1].0 == field {
      GivenLast(values, field);
    } else {
      GivenBefore(values, field, before);
    }
  }

  predicate Acceptable(v: (string, Option<int>)) {
    v.0 in {"quantity", "unit_price", "tax_rate"} && v.1.Some? && 0 <= v.1.value
  }

  /** A patch is accepted exactly when it is not empty and names only the three fields with
      numbers that are not negative, and then holds the value given for each. */
  lemma PatchExactly(values: seq<(string, Option<int>)>)
    ensures var p := CleanPatch(values);
      && (p.Some? <==> values != [] && forall v <- values :: Acceptable(v))
      && (p.Some? ==>
            && Given(values, "quantity", p.value.quantity)
            && Given(values, "unit_price", p.value.unitPrice)
            && Given(values, "tax_rate", p.value.taxRate))
  {
    if values != [] {
      FieldsAccepted(values);
      if CleanPatch(values).Some? {
        FieldsGiven(values);
      }
    }
  }

  lemma {:induction false} FieldsAccepted(values: seq<(string, Option<int>)>)
    ensures CleanFields(values).Some? <==> forall v <- values :: Acceptable(v)
  {
    if values != [] {
      var front, last := values[..|values| - 1], values[|values| - 1];
      FieldsAccepted(front);
      assert values == front + [last];
      assert (forall v <- values :: Acceptable(v)) <==> (forall v <- front :: Acceptable(v)) && Acceptable(last);
    }
  }

  lemma {:induction false} FieldsGiven(values: seq<(string, Option<int>)>)
    requires CleanFields(values).Some?
    ensures var p := CleanFields(values).value;
      && Given(values, "quantity", p.quantity)
      && Given(values, "unit_price", p.unitPrice)
      && Given(values, "tax_rate", p.taxRate)
  {
    if values != [] {
      var front := values[..|values| - 1];
      FieldsGiven(front);
      var p, q := CleanFields(front).value, CleanFields(values).value;
      GivenNext(values, "quantity", p.quantity, q.quantity);
      GivenNext(values, "unit_price", p.unitPrice, q.unitPrice);
      GivenNext(values, "tax_rate", p.taxRate, q.taxRate);
    }
  }

  /** The status after an edit, from the lines the invoice carries. */
  lemma EditedStatusExactly(items: seq<SaleItem>)
    ensures EditedStatus(items) == PartiallyEditedAndCancelled
       <==> (exists it <- items :: it.isEdited) && (exists it <- items :: it.isCancelled)
    ensures EditedStatus(items) == Edited
       <==> (forall it <- items :: it.isEdited && !it.isCancelled)
            || (forall it <- items :: it.isCancelled && !it.isEdited)
    ensures EditedStatus(items) in {PartiallyEditedAndCancelled, Edited, PartiallyEdited}
  {
  }

  /** The rows that an accepted amendment leaves alone. */
  ghost predicate OnlyInvoice(w: World, w': World, i: nat)
    requires i < |w.records|
  {
    && |w'.records| == |w.records| && w'.records == w.records[i := w'.records[i]]
    && w'.tasks == w.tasks && w'.elsewhere == w.elsewhere
  }

  predicate Numbered(row: Invoice) {
    row.number.Some? && row.number.value != ""
  }

  /** What an accepted edit writes: one history row with the line's figures before it, the
      given fields on the line and its flag and counter, totals and status from the lines the
      invoice carries, and one submission row exactly when the gateway was asked. */
  lemma EditExactly(w: World, i: nat, k: nat, values: seq<(string, Option<int>)>, now: nat, relation: Relation,
                    gateway: Gateway)
    requires i < |w.records| && k < |w.records[i].items|
    requires EditItem(w, i, k, values, now, relation, gateway).Some?
    ensures var w', rec := EditItem(w, i, k, values, now, relation, gateway).value, w.records[i];
      && OnlyInvoice(w, w', i)
      && w'.submissions == w.submissions
         + (if gateway.Accepts? && Numbered(rec.row) then [Submission(i, EditInvoice, 1, true)] else [])
      && var rec', p := w'.records[i], CleanPatch(values);
      && p.Some? && CanEditItem(rec.row, rec.items[k], now).Allowed?
      && !(gateway.Rejects? && Numbered(rec.row))
      && |rec'.history| == |rec.history| + 1 && rec'.history[..|rec.history|] == rec.history
      && rec'.history[|rec.history|].item == k
      && T.SameFigures(rec'.history[|rec.history|].before, rec.items[k])
      && |rec'.items| == |rec.items| && rec'.items == rec.items[k := rec'.items[k]]
      && WritesPatch(rec.items[k], rec'.items[k], p.value)
      && var seen := if relation == Fresh then rec'.items else rec.items;
        rec'.row == WithTotals(rec.row, seen).(status := EditedStatus(seen))
  {
  }

  predicate WritesPatch(was: SaleItem, it: SaleItem, p: Patch) {
    && it.quantity == (if p.quantity.Some? then p.quantity.value else was.quantity)
    && it.unitPrice == (if p.unitPrice.Some? then p.unitPrice.value else was.unitPrice)
    && it.taxRate == (if p.taxRate.Some? then p.taxRate.value else was.taxRate)
    && it.isEdited && it.editCount == was.editCount + 1
    && it.isCancelled == was.isCancelled && it.discountPct == was.discountPct
  }

  /** An edit is refused by the rule, by the patch, by the gateway, or else by the budget for
      the grand total it would store. */
  lemma EditRefusedExactly(w: World, i: nat, k: nat, values: seq<(string, Option<int>)>, now: nat,
                           relation: Relation, gateway: Gateway)
    requires i < |w.records| && k < |w.records[i].items|
    ensures var rec, p := w.records[i], CleanPatch(values);
      EditItem(w, i, k, values, now, relation, gateway).None? <==>
        || CanEditItem(rec.row, rec.items[k], now).Refused?
        || p.None?
        || (gateway.Rejects? && Numbered(rec.row))
        || var seen := Seen(relation, rec.items, EditedItems(rec.items, k, p.value));
           var rec' := EditedRecord(rec, k, p.value, seen);
           Consumed(w.book, w.records[i := rec'], i, rec'.row.grandTotal, Action.Edit, LocalDate(now)).None?
  {
  }

  // ---- Cancels -------------------------------------------------------------

  ghost predicate AllFlagged(items: seq<SaleItem>, items': seq<SaleItem>) {
    && |items'| == |items|
    && forall j :: 0 <= j < |items| ==> items'[j] == items[j].(isCancelled := true)
  }

  /** A whole cancel: accepted exactly when the rule admits it at both instants, the budget
      has the grand total and the gateway, if asked, agrees. It flags every line, sets the
      status, and logs exactly an accepted call. */
  lemma CancelExactly(w: World, i: nat, now: nat, later: nat, gateway: Gateway)
    requires i < |w.records|
    ensures var rec, r := w.records[i], CancelInvoice(w, i, now, later, gateway);
      && (r.Some? <==>
            && CanCancelInvoice(rec.row, rec.items, now).Allowed?
            && CanCancelInvoice(rec.row, rec.items, later).Allowed?
            && !(gateway.Rejects? && Numbered(rec.row))
            && Consumed(w.book, w.records, i, rec.row.grandTotal, Action.Cancel, LocalDate(now)).Some?)
      && (r.Some? ==>
            && OnlyInvoice(w, r.value, i)
            && r.value.records[i].row == rec.row.(status := Cancelled)
            && AllFlagged(rec.items, r.value.records[i].items)
            && r.value.records[i] == rec.(row := r.value.records[i].row, items := r.value.records[i].items)
            && r.value.submissions == w.submissions
               + (if gateway.Accepts? && Numbered(rec.row) then [Submission(i, CancelEndpoint, 1, true)] else []))
  {
  }

  /** A line cancel: accepted exactly by the rule; it flags the line and derives the status
      from the lines the invoice carries. Book and log are untouched. */
  lemma CancelLineExactly(w: World, i: nat, k: nat, now: nat, relation: Relation)
    requires i < |w.records| && k < |w.records[i].items|
    ensures var rec, r := w.records[i], CancelItem(w, i, k, now, relation);
      && (r.Some? <==> CanCancelItem(rec.row, rec.items[k], now).Allowed?)
      && (r.Some? ==>
            && OnlyInvoice(w, r.value, i) && r.value.book == w.book && r.value.submissions == w.submissions
            && r.value.records[i].items == rec.items[k := rec.items[k].(isCancelled := true)]
            && var seen := if relation == Fresh then r.value.records[i].items else rec.items;
              r.value.records[i] == rec.(
                items := r.value.records[i].items,
                row := rec.row.(status := if forall it <- seen :: it.isCancelled then Cancelled
                                          else PartiallyCancelled)))
  {
  }

  /** A draft is deleted exactly when it has no number and is pending or failed. */
  lemma DeleteExactly(w: World, i: nat)
    requires i < |w.records|
    ensures var row, w' := w.records[i].row, Apply(w, Delete(i));
      w' == if !Numbered(row) && row.status in {PendingSync, Failed}
            then w.(records := w.records[i := w.records[i].(row := row.(status := Cancelled, deleted := true))])
            else w
  {
  }

  /** A portal cancel is recorded once, for numbered invoices that are not cancelled yet. */
  lemma PortalCancelExactly(w: World, i: nat)
    requires i < |w.records|
    ensures var rec, w' := w.records[i], Apply(w, PortalCancel(i));
      w' == if Numbered(rec.row) && rec.row.status != Cancelled
            then w.(records := w.records[i := rec.(row := rec.row.(status := Cancelled), portalCancelled := true)])
            else w
  {
  }

  /** The beat finalizes exactly the invoices past their deadline that are still valid or
      partly amended, whatever else they hold, and touches no other column. */
  lemma FinalizeExactly(w: World, now: nat, i: nat)
    requires i < |w.records|
    ensures var rec, w' := w.records[i], Apply(w, Finalize(now));
      && |w'.records| == |w.records| && w' == w.(records := w'.records)
      && w'.records[i] == rec.(row :=
           if rec.row.editDeadlineAt.Some? && rec.row.editDeadlineAt.value < now
              && rec.row.status in {Valid, Edited, PartiallyEdited, PartiallyCancelled, PartiallyEditedAndCancelled}
           then rec.row.(status := Finalized) else rec.row)
  {
  }

  /** The steps that only add or mark: a new invoice, its annexure link, a queued job, a
      retry, and the monthly recompute. */
  lemma PlainStepsExactly(w: World, rec: InvoiceRecord, i: nat, t: nat, now: nat)
    requires FreshRecord(rec) && i < |w.records| && ValidTask(w, t) && w.tasks[t].pc == Backoff
    ensures Apply(w, NewInvoice(rec)) == w.(records := w.records + [rec])
    ensures Apply(w, LinkAnnexure(i))
         == w.(records := w.records[i := w.records[i].(row := w.records[i].row.(annexureLinked := true))])
    ensures Apply(w, Enqueue(i)) == w.(tasks := w.tasks + [Task(i, Queued, w.records[i].row, 0)])
    ensures Apply(w, Retry(t))
         == w.(tasks := w.tasks[t := w.tasks[t].(pc := Queued, retries := w.tasks[t].retries + 1)])
    ensures Apply(w, RecomputeBudget(now)) == w.(book := Recomputed(w.book, w.records, LocalDate(now)))
  {
  }

  /** Another tenant stores a number exactly when nobody has it yet. */
  lemma ElsewhereExactly(w: World, number: string)
    ensures Apply(w, Elsewhere(number))
         == if number in w.elsewhere || exists r <- w.records :: r.row.number == Some(number) then w
            else w.(elsewhere := w.elsewhere + {number})
  {
    OthersTaken(w.records, w.elsewhere, |w.records|);
    if number in NumbersBut(w.records, w.elsewhere, |w.records|) && number !in w.elsewhere {
      var j: nat :| j < |w.records| && w.records[j].row.number == Some(number);
      assert w.records[j] in w.records;
    }
  }
}

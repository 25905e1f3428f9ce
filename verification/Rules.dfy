/** backend/apps/fbr/rules.py: who may be edited or cancelled, and when. */
module Rules {
  import opened Wrappers
  import opened Sales

  datatype Reason =
    | QueuedForSubmission | AwaitingValidation | RejectedByFbr
    | AlreadyCancelled | InSubmittedReturn | StateNotAmendable(status: Status)
    | WindowPassed | ItemCancelled | ItemEdited | SomeItemEdited | AnnexureLinked

  datatype Verdict = Allowed | Refused(reason: Reason)

  predicate PreValidation(s: Status) {
    s in {PendingSync, Submitted, Failed}
  }

  predicate AcceptedState(s: Status) {
    s in {Valid, PartiallyEdited, PartiallyCancelled, PartiallyEditedAndCancelled}
  }

  predicate FbrAccepted(inv: Invoice) {
    AcceptedState(inv.status) && HasNumber(inv)
  }

  predicate UnsubmittedDraft(inv: Invoice) {
    !HasNumber(inv) && inv.status in {PendingSync, Failed}
  }

  predicate PastDeadline(inv: Invoice, now: int) {
    inv.editDeadlineAt.Some? && now > inv.editDeadlineAt.value
  }

  /** _not_yet_validated_reason; `edited` falls through to None. */
  function NotYetValidated(inv: Invoice): Option<Reason> {
    if FbrAccepted(inv) then None
    else match inv.status
      case PendingSync => Some(QueuedForSubmission)
      case Submitted => Some(AwaitingValidation)
      case Failed => Some(RejectedByFbr)
      case Cancelled => Some(AlreadyCancelled)
      case Finalized => Some(InSubmittedReturn)
      case Edited => None
      case _ => Some(StateNotAmendable(inv.status))
  }

  function CanEditItem(inv: Invoice, it: SaleItem, now: int): Verdict {
    var notAccepted := NotYetValidated(inv);
    if notAccepted.Some? then Refused(notAccepted.value)
    else if PastDeadline(inv, now) then Refused(WindowPassed)
    else if it.isCancelled then Refused(ItemCancelled)
    else if it.editCount >= 1 then Refused(ItemEdited)
    else if inv.annexureLinked then Refused(AnnexureLinked)
    else Allowed
  }

  function CanCancelItem(inv: Invoice, it: SaleItem, now: int): Verdict {
    var notAccepted := NotYetValidated(inv);
    if notAccepted.Some? then Refused(notAccepted.value)
    else if PastDeadline(inv, now) then Refused(WindowPassed)
    else if it.isCancelled then Refused(ItemCancelled)
    else if it.isEdited then Refused(ItemEdited)
    else if inv.annexureLinked then Refused(AnnexureLinked)
    else Allowed
  }

  function CanCancelInvoice(inv: Invoice, items: seq<SaleItem>, now: int): Verdict {
    var notAccepted := NotYetValidated(inv);
    if notAccepted.Some? then Refused(notAccepted.value)
    else if PastDeadline(inv, now) then Refused(WindowPassed)
    else if exists it <- items :: it.isEdited then Refused(SomeItemEdited)
    else if inv.annexureLinked then Refused(AnnexureLinked)
    else Allowed
  }

  /** What the three rules admit. An invoice is open when it was accepted under a number and
      not wholly amended, or has the status `edited`; the deadline itself is in time. */
  lemma AmendableExactly(inv: Invoice, items: seq<SaleItem>, it: SaleItem, now: int)
    ensures var open := inv.status == Edited
        || (inv.status in {Valid, PartiallyEdited, PartiallyCancelled, PartiallyEditedAndCancelled}
            && inv.number.Some? && inv.number.value != "");
      var inTime := inv.editDeadlineAt.Some? ==> now <= inv.editDeadlineAt.value;
      var amendable := open && inTime && !inv.annexureLinked;
      && (CanEditItem(inv, it, now).Allowed? <==> amendable && !it.isCancelled && it.editCount == 0)
      && (CanCancelItem(inv, it, now).Allowed? <==> amendable && !it.isCancelled && !it.isEdited)
      && (CanCancelInvoice(inv, items, now).Allowed? <==> amendable && forall i <- items :: !i.isEdited)
  {
  }

  /** What a refusal says: the status first, then the window, the line and the annexure. */
  lemma RefusalsExactly(inv: Invoice, items: seq<SaleItem>, it: SaleItem, now: int)
    ensures inv.status == PendingSync ==> CanEditItem(inv, it, now) == Refused(QueuedForSubmission)
    ensures inv.status == Submitted ==> CanEditItem(inv, it, now) == Refused(AwaitingValidation)
    ensures inv.status == Failed ==> CanEditItem(inv, it, now) == Refused(RejectedByFbr)
    ensures inv.status == Cancelled ==> CanEditItem(inv, it, now) == Refused(AlreadyCancelled)
    ensures inv.status == Finalized ==> CanEditItem(inv, it, now) == Refused(InSubmittedReturn)
    ensures (inv.number.None? || inv.number.value == "")
      && inv.status in {Valid, PartiallyEdited, PartiallyCancelled, PartiallyEditedAndCancelled}
      ==> CanEditItem(inv, it, now) == Refused(StateNotAmendable(inv.status))
    ensures NotYetValidated(inv).Some? ==>
      && CanCancelItem(inv, it, now) == CanEditItem(inv, it, now)
      && CanCancelInvoice(inv, items, now) == CanEditItem(inv, it, now)
    ensures NotYetValidated(inv).None? ==>
      var late := inv.editDeadlineAt.Some? && inv.editDeadlineAt.value < now;
      && (CanEditItem(inv, it, now) == Refused(WindowPassed) <==> late)
      && (CanCancelItem(inv, it, now) == Refused(WindowPassed) <==> late)
      && (CanCancelInvoice(inv, items, now) == Refused(WindowPassed) <==> late)
      && (CanEditItem(inv, it, now) == Refused(ItemCancelled) <==> !late && it.isCancelled)
      && (CanCancelItem(inv, it, now) == Refused(ItemCancelled) <==> !late && it.isCancelled)
      && (CanEditItem(inv, it, now) == Refused(ItemEdited) <==> !late && !it.isCancelled && 1 <= it.editCount)
      && (CanCancelItem(inv, it, now) == Refused(ItemEdited) <==> !late && !it.isCancelled && it.isEdited)
      && (CanCancelInvoice(inv, items, now) == Refused(SomeItemEdited) <==> !late && exists i <- items :: i.isEdited)
  {
  }

  /** finalize_aged_invoices picks these rows. */
  predicate Finalizable(inv: Invoice, now: int) {
    inv.editDeadlineAt.Some? && inv.editDeadlineAt.value < now
    && inv.status in {Valid, Edited, PartiallyEdited, PartiallyCancelled, PartiallyEditedAndCancelled}
  }

  function FinalizedBy(inv: Invoice, now: int): Invoice {
    if Finalizable(inv, now) then inv.(status := Finalized) else inv
  }

  /** Finalizing is only a marker: at any later time the three rules give the same answer
      with it as without it. */
  lemma SameAnswersFinalized(inv: Invoice, items: seq<SaleItem>, it: SaleItem, now: int, t: int)
    requires now <= t
    ensures CanEditItem(FinalizedBy(inv, now), it, t).Allowed? <==> CanEditItem(inv, it, t).Allowed?
    ensures CanCancelItem(FinalizedBy(inv, now), it, t).Allowed? <==> CanCancelItem(inv, it, t).Allowed?
    ensures CanCancelInvoice(FinalizedBy(inv, now), items, t).Allowed?
       <==> CanCancelInvoice(inv, items, t).Allowed?
  {
  }
}

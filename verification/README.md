# Fiscal core of a Pakistani point of sale

A Dafny model of the parts of the repository where correctness rests on several functions
together: the lifecycle of FBR-numbered invoices, the decimal arithmetic behind them, and
the small protocols and algorithms around them (kitchen ticket relay, category tree,
product import, folio numbers, receipt stamp).

## How it is organised

| File | Subject |
|---|---|
| `Rounding`, `Digits`, `Wrappers`, `Environments` | half-up and half-even rounding on integers; decimal strings and byte order; `Option`; sandbox and production |
| `Money` | 4-decimal money, tax, sums |
| `Calendar` | the Gregorian calendar in Pakistan time, month ranges, the edit deadline |
| `Sales` | invoice, line and history rows; the edit arithmetic |
| `Rules` | who may be edited or cancelled |
| `Budget`, `BudgetWitness` | the monthly cancel budget, and a run that breaks its balance |
| `Lifecycle`, `Returns` | the state machine: submit jobs, amendments, returns, the finalizing beat; the arithmetic of a return |
| `LifecycleMeaning` | when each step is accepted and all that it writes, field by field |
| `LifecycleInvariant`, `LifecycleTheorems`, `FinalizeSimulation` | the inductive invariant, what follows for whole runs, and the two-run simulation |
| `ReturnTheorems`, `ReturnRuns` | what returns do to those guarantees, exactly and over whole runs |
| `HeldSales` | the flows on held invoices (checkout, restaurant orders, hotel folios) around the machine |
| `Database` | the services as sequential code on mutable tables, tied to `Lifecycle` |
| `Client`, `SubmitTask`, `SoloRun` | reply classification, the retry loop, and its agreement with the state machine |
| `Tokens` | credential routing and token operations |
| `Builder`, `MockGateway` | the wire payload and the validator that accepts it |
| `Categories`, `Import`, `ImportColumns`, `Folio`, `KotRelay`, `Stamp` | the independent cores |

Code that changes things step by step is a class or a method with loops (`Database`,
`Task`, `TokenStore`, `Catalog`, `Importer`, `Server`, `Relay`, `Png`), each method
equated with a function of its inputs or of the old state; the lemmas are about those
functions. Code made of expressions is functions.

Units: money and quantities count ten-thousandths, percentages hundredths, wire money
paisa; instants are microseconds from a fixed epoch, so that the last fraction of a month
is visible. A Python `Decimal` is a coefficient and a scale.

## Assumptions

- One step is one database transaction: a `save()` is its signal check and its write
  together, a `@transaction.atomic` service is all or nothing, and a recompute of the
  budget, an edit or a cancel runs without another one in its middle. The source locks
  only the budget row (`_consume_inner`); the races this leaves open are not modelled.
  The lines an endpoint has prefetched are those stored when its step begins.
- The machine's steps are those of `Lifecycle.Step`. Invoices that are held are also
  written by checkout, the restaurant and the hotel; `HeldSales` adds those flows and says
  exactly which of their steps the invariant does not survive.
- `Lifecycle.World.elsewhere` are the numbers of other tenants' invoices, which any step may
  extend: the constraint on numbers spans all tenants.
- Submit jobs are interleaved freely between their steps (load, mark submitted, reply,
  persist, mark failed), any number of them on one invoice.
- The gateway, the printer, the network and the clock are parameters: every reply, print
  outcome and time is covered.

## What the proofs found

Where the code and its own documentation differ, the model follows the code.

- **Deadline before submission.** `compute_edit_deadline` ends a month at 23:59:59.000000.
  An invoice submitted after that instant on the last day has a deadline in its past;
  `DeadlineWindow` shows this is the only case and `LastMicrosecond` that it occurs in
  every month.
- **Half-even on the wire.** `_to_money_number` documents half-up, but `quantize` without
  a mode rounds half-even; so do the edit arithmetic and the budget. Only `Money` is
  half-up.
- **The number guard.** The save signal, not the database trigger, protects the status of
  a numbered invoice (`TriggerDoesNotGuardStatus`). If the gateway gives two jobs the same
  number, the later one revives the invoice as `valid` (`DuplicateNumberRevives`).
- **Successes without a number** store the empty string, and numbers are unique over all
  tenants, the empty one included. So at most one invoice is ever stored under it
  (`OneEmptyNumber`); every later success without a number raises at its save and leaves the
  invoice `submitted` and unnumbered, although the gateway has accepted it. `AcceptedValidates`
  has the exact condition, `SecondNumberlessStays` the run.
- **Deleted drafts.** Deleting a draft does not stop a job that has already loaded it; unless
  another invoice has the number, the deleted invoice ends up `valid` with it
  (`DeletedDraftIsStillFiscalized`).
- **The `edited` fall-through** in the rules is harmless, because of the per-item
  counters (`EditedRefusesAll`).
- **Returns pass the rules by.** A return asks the rules for its route only. An edited
  invoice, whose every cancel is refused for ever (`NoCancelAfterEdit`), can be returned at
  any time by credit note, with no budget charge (`ReturnAfterEdit`); a line ends edited and
  cancelled exactly in this way (`EditedAndCancelled`), and the invoice ends `cancelled`
  without a portal record (`EditThenReturn`, `WholeReturnCancels`). `CancelledAfterEdit` says
  over whole runs when an edited invoice is `cancelled`: a portal cancel, or a return or line
  cancel that left no line unflagged, and no duplicate number since.
- **Returns are not counted.** Each partial return on the amend route charges the whole grand
  total again, as often as the allowance holds it (`RepeatedReturnsCharge`); edits charge an
  invoice at most once a line (`EditChargesBounded`), and after an edit no cancel charge
  follows (`NoCancelChargeAfterEdit`). The same lines can be returned any number of times,
  with the full refund each time (`RepeatedNotes`). A refund leaves the line's discount out
  (`FullRefund`).
- **A return before submission** sets the status to `partially_cancelled` or `cancelled`, so
  no job that has not loaded it yet ever submits that sale (`ReturnEndsSubmission`), although
  its credit note goes out.
- **Credit notes** that are posted at once are numbered and `valid` without a submit job and
  without an edit deadline: they can be cancelled at any time and are never finalized
  (`NoteNeverExpires`). The next month's budget base counts them as sales (`NoteRaisesBase`).
- **Holding undoes the guarantees.** `hold` accepts every invoice, and checkout rings up any
  held invoice in place. A numbered invoice goes back to `pending_sync` and loses its lines
  and their history, while edit charges stay (`RingUpExact`, `HoldAndRingUp`). The number
  itself survives whatever is done (`NumberSurvives`).
- **Edits and line cancels look at the lines before them.** Both endpoints load the invoice
  with its lines prefetched and change a separately fetched line, so `invoice.items.all()`
  yields the lines as they were. `edit_invoice_item_with_fbr` therefore stores, and charges
  to the budget, the totals without its own edit: they are right exactly when the line total
  did not change (`EndpointEdit`, `EditChargesOnce`; `EndpointEditMisses` doubles a line of
  118.00 and leaves the invoice at 118.00). Status `edited` is never reached through the
  endpoints (`EndpointNeverEdited`), and cancelling the last live line leaves
  `partially_cancelled` instead of `cancelled` (`EndpointCancel`). The state machine takes
  the relation, prefetched or fresh, as a parameter of the two steps.
- **The cap can be escaped.** Cancelling every line one by one flags the whole invoice with
  no budget charge and no gateway call; at the endpoint it stays `partially_cancelled`
  (`LineCancelsEscapeTheCap`). The force-cancel endpoint does so in one call, and contrary
  to its documentation it is open only to numbered invoices (`ForceCancelEscapesTheCap`).
- **The allowance can exceed the budget.** `remaining == max(0, budget - consumed)` is lost
  when a negative grand total is charged to an overspent month, and when a month's row is
  created from negative sales, because only the update clamps at zero. `BalancedStep` and
  `RecomputeBalances` say exactly when; `Overcredited` is a run of the endpoints that ends
  with 10.00 remaining of an overspent budget.
- **The lazily created budget row** is documented to survive a refused consume; inside an
  edit or a cancel it rolls back with the outer transaction
  (`Database.EditInvoiceItemWithFbr`). Deleted drafts get status `cancelled` and therefore
  count as sales of their month.
- **Credentials.** An amendment always uses the credential that a submission would use,
  but where a submission defers it may still go out under a fallback token;
  `AmendsWhereSubmitDefers` gives the exact condition. A PRA tenant can fall back to
  sandbox after production (`PraFallsBackToSandbox`).
- **The mock gateway refuses every edit**, because edits carry no scenario
  (`ProductionRefused`).
- **Category.save.** `visited` holds strings and is asked about UUIDs, so its branch never
  fires; the walk ends because the stored tree is acyclic, and would not end otherwise
  (`WalkWouldNotEnd`).
- **KOT relay.** "At most once" is false: a lost acknowledgement reprints
  (`LostAcksReprint`) and m racing terminals print m copies (`RacePrintsEveryCopy`). The
  exact count for one terminal is in `PrintedExactlyOnce`.
- **Product import.** A repeated new SKU rolls the whole commit back, of a repeated
  existing SKU the first row wins (`BulkIsRowByRow`); a SKU whose product was soft-deleted
  is updated but stays deleted (`DeletedSkuStaysDeleted`), although the model's constraint
  comment promises that the SKU is free again.
- **Folio numbers.** A branch opens exactly ten thousand folios a year; the next insert is
  refused (`MintedRun`).

## Model

| member | source | states |
|---|---|---|
| Rounding.RoundsToNearest | backend/core/money.py:43-55 | both rounding modes give a nearest integer; a tie goes away from zero under half-up and to the even one under half-even, which fixes both modes |
| MoneyModel.ArithmeticExact | backend/core/money.py:45-66 | the re-quantizing constructor is the identity on four decimals, so add, subtract, negate and from_paisa are exact |
| MoneyModel.TaxNearest | backend/core/money.py:100-107 | tax is net times rate to the nearest ten-thousandth and gross minus tax is the net exactly |
| MoneyModel.TaxMonotone | backend/core/money.py:100-107 | a dearer net never carries less tax |
| MoneyModel.TaxOdd | backend/core/money.py:65-69 | the tax and gross of a refund are the negated tax and gross of the sale |
| MoneyModel.TaxByLineDrift | backend/core/money.py:100-114 | per-line taxes over n lines sum to within (n+1)/2 ten-thousandths of the tax on the sum |
| MoneyModel.DisplayWithinHalfPaisa | backend/core/money.py:84-86 | the displayed value is within half a paisa of the stored one |
| MoneyModel.SumMoney | backend/core/money.py:110-114 | the running total is the exact sum |
| Calendar.DateRoundTrip | backend/apps/fbr/budget.py:39-50 | dates and day numbers convert back and forth, leap years included |
| Calendar.MonthLengths | backend/apps/fbr/budget.py:45-69 | the twelve month lengths, with the Gregorian leap rule |
| Calendar.YearStart | backend/apps/fbr/budget.py:45-69 | the number of days before any year |
| Calendar.PreviousMonthIsWhole | backend/apps/fbr/budget.py:45-50 | the previous-month range starts on the first day of that month and ends on the day before the current one |
| Calendar.PreviousMonthsTile | backend/apps/fbr/budget.py:39-50 | a date lies in the range of `today` exactly when `today` is in the month after it: no gap, no overlap |
| Calendar.DeadlineWindow | backend/apps/fbr/budget.py:53-69 | the deadline is in the PKT month of the submission, and not before the submission exactly unless that falls in the month's last fraction of a second |
| Calendar.DeadlineExactly | backend/apps/fbr/budget.py:53-69 | the deadline is the latest instant within 72 hours of the submission and no later than 23:59:59 PKT of the last day of its month |
| Calendar.CurrentMonthMeans | backend/apps/fbr/budget.py:39-42 | charges are booked to the first day of the calendar month in Pakistan |
| Calendar.LastMicrosecond | backend/apps/fbr/budget.py:61-69 | one microsecond before any month ends, a submission is later than its own deadline |
| Calendar.DeadlineMonotone | backend/apps/fbr/budget.py:53-69 | submitting later never moves the deadline earlier |
| Sales.RecomputeMeans | backend/apps/fbr/services.py:593-609 | after an edit discount, tax and line total are the exact quantities to four decimals, ties to even, and the patched fields are the given ones |
| Sales.TotalsDrift | backend/apps/fbr/services.py:620-637 | the grand total is within half a ten-thousandth a live line of subtotal - discount + tax |
| Sales.TotalsByLine | backend/apps/fbr/services.py:620-637 | each of the four totals is the sum of its own figure over the lines that are not cancelled, and nothing else of the invoice moves |
| Rules.AmendableExactly | backend/apps/fbr/rules.py:66-184 | what the three rules admit, in statuses, number, deadline, flags and annexure link |
| Rules.RefusalsExactly | backend/apps/fbr/rules.py:107-184 | which refusal is given: status first, then window, line and annexure |
| Rules.SameAnswersFinalized | backend/apps/fbr/rules.py:142-184 | at any later time the three rules answer the same with and without the finalizing beat |
| Budget.RecomputeKeepsBook | backend/apps/fbr/budget.py:77-128 | recomputing keeps consumed equal to the charge rows and never understates what remains |
| Budget.ChargeKeepsBook | backend/apps/fbr/budget.py:157-184 | so does an accepted charge |
| Budget.ConsumeKeepsBook | backend/apps/fbr/budget.py:131-184 | an accepted request appends one charge row; from a balanced row a positive one is accepted exactly when the month's charges and it fit the budget |
| Budget.ConsumeExactly | backend/apps/fbr/budget.py:131-184 | a request is accepted exactly when it does not exceed what remains of the current month, and moves that row alone, by its amount |
| Budget.BalancedStep | backend/apps/fbr/budget.py:157-184 | an accepted charge leaves remaining at max(0, budget - consumed) exactly when there was no surplus allowance or it uses all of it; from a balanced row, exactly when it is not negative or the month is not overspent |
| Budget.RecomputeBalances | backend/apps/fbr/budget.py:102-128 | recomputing leaves the row so exactly when the row existed or the base does not round to a negative budget |
| BudgetWitness.Overcredited | backend/apps/fbr/budget.py:166-176 | in every month a run of the endpoints from an empty tenant ends with 10.00 remaining of a budget of 900.00 with 990.00 consumed |
| BudgetWitness.EveryMonth | backend/apps/fbr/budget.py:39-50 | such a run exists in every month but the calendar's first |
| BudgetWitness.NegativeBase | backend/apps/fbr/budget.py:109-119 | a month's row created from a negative base starts with a negative allowance |
| Budget.SalesTotalIsLastMonth | backend/apps/fbr/budget.py:84-100 | the date-range query sums the counted invoices of the preceding calendar month |
| Budget.CountedExactly | backend/apps/fbr/budget.py:90-98 | every status counts as a sale but the three before validation |
| Budget.BudgetIsTenth | backend/apps/fbr/budget.py:84-128 | the budget is a tenth of those sales, to four decimals, ties to even; consumption stays, the rest is recomputed, other months and charges are untouched |
| LifecycleInvariant.StepKeeps | backend/apps/fbr/tasks.py:45-349 | every step of the machine, returns included, over prefetched or fresh lines alike, keeps the invariant: counters, flags, history and charges agree, numbered invoices are past validation, numbers are distinct over all tenants, logs only grow |
| LifecycleInvariant.RunKeeps | backend/apps/fbr/signals.py:25-55 | so does every run; what an earlier state recorded (number, originals, log rows) a later state still has |
| LifecycleInvariant.ReachableOk | backend/apps/fbr/rules.py:51-79 | every state reachable from an empty tenant satisfies it: at most one edit a line, counter, flag and history agree, an edited line only under a number, and a `cancelled` invoice with one has a portal record or every line flagged |
| LifecycleMeaning.SaveExactly | backend/apps/fbr/signals.py:25-55 | a save is refused exactly when it would change a stored number or write one that another invoice stores; else it writes its update_fields |
| LifecycleMeaning.LoadExactly | backend/apps/fbr/tasks.py:45-58 | a queued job goes on exactly while its invoice is pending, submitted or failed |
| LifecycleMeaning.LocalEndExactly | backend/apps/fbr/tasks.py:66-90 | a non-fiscal tenant's job finalizes a pending invoice; a job without a token leaves every invoice |
| LifecycleMeaning.FailExactly | backend/apps/fbr/tasks.py:573-575 | giving up marks the invoice failed unless it was numbered meanwhile |
| LifecycleMeaning.ReplyExactly | backend/apps/fbr/tasks.py:261-339 | a reply is logged once with its attempt number; a transient one is retried six times |
| LifecycleMeaning.TillExactly | backend/apps/sales/views.py:615-669 | exactly when a till's own result is stored, with the deadline counted from the recorded submission, else from the post |
| LifecycleMeaning.PatchExactly | backend/apps/fbr/services.py:558-572 | which patches are accepted, and that they hold the last value given for each field |
| LifecycleMeaning.EditExactly | backend/apps/fbr/services.py:530-696 | all that an accepted edit writes: history row, line, totals, status and submission row, and nothing else |
| LifecycleMeaning.EditRefusedExactly | backend/apps/fbr/services.py:530-696 | an edit is refused by rule, patch, gateway or budget, and by nothing else |
| LifecycleMeaning.EditedStatusExactly | backend/apps/fbr/services.py:639-645 | the status after an edit, from the flags of the lines |
| LifecycleMeaning.CancelExactly | backend/apps/fbr/services.py:449-516 | exactly when a whole cancel is accepted, and all that it writes and logs |
| LifecycleMeaning.CancelLineExactly | backend/apps/sales/services/cancellation.py:126-178 | exactly when a line cancel is accepted, and all that it writes |
| LifecycleMeaning.DeleteExactly | backend/apps/sales/services/cancellation.py:68-123 | a draft is deleted exactly when unnumbered and pending or failed |
| LifecycleMeaning.PortalCancelExactly | backend/apps/sales/views.py:478-512 | a portal cancel is recorded once, for numbered invoices |
| LifecycleMeaning.FinalizeExactly | backend/apps/fbr/tasks.py:517-533 | the beat finalizes exactly the amendable invoices past their deadline and touches no other column |
| LifecycleMeaning.PlainStepsExactly | backend/apps/fbr/tasks.py:273-282 | what a new invoice, an annexure link, a queued job, a retry and a recompute leave |
| LifecycleTheorems.NumberIsForever | backend/apps/fbr/signals.py:38-55 | once numbered, no interleaving of jobs, amendments, returns and beats changes the number or takes the status back before validation |
| LifecycleTheorems.DistinctNumbers | backend/apps/sales/models.py:79-81 | a number stored once is never stored by another invoice of any tenant, however a run goes on |
| LifecycleTheorems.OneEmptyNumber | backend/apps/fbr/tasks.py:341-348 | in every reachable state at most one invoice has the empty number |
| LifecycleTheorems.StaleSavesRefused | backend/apps/fbr/signals.py:45-55 | every save of an instance loaded before the number was stored is refused; a second persist succeeds only with the same number |
| LifecycleTheorems.TriggerDoesNotGuardStatus | backend/apps/fbr/migrations/0002_immutability.py:34-52 | the trigger lets a stale job mark a numbered invoice failed; the signal refuses it |
| LifecycleTheorems.DuplicateNumberRevives | backend/apps/fbr/tasks.py:495-507 | a job holding the stored number sets the status to valid whatever it was |
| LifecycleTheorems.EditedRefusesAll | backend/apps/fbr/rules.py:107-184 | under the invariant every amendment of an `edited` invoice is refused at every time |
| LifecycleTheorems.NoCancelAfterEdit | backend/apps/fbr/rules.py:172-184 | after a line was edited no run reaches a state where the whole invoice can be cancelled, with or without the gateway; status cancelled then means a portal record or every line flagged |
| LifecycleTheorems.OriginalsRemain | backend/apps/fbr/services.py:574-589 | the six figures a line had stay readable, in place or in exactly one history row |
| LifecycleTheorems.EditsCountedAlike | backend/apps/fbr/services.py:574-618 | edit counters, history rows and edit charges of an invoice are equally many in every reachable state |
| LifecycleTheorems.EditChargesBounded | backend/apps/fbr/services.py:649-654 | no run charges an invoice for more edits than it has lines |
| LifecycleTheorems.EditedTotals | backend/apps/fbr/services.py:600-649 | over a fresh relation the grand total after an edit is the exact live sum and within the per-line bound of the other totals |
| LifecycleTheorems.EditMovesTotals | backend/apps/fbr/services.py:620-637 | over a fresh relation each of the four totals moves by what the edited line's own figure moved, over the prefetched lines not at all |
| LifecycleTheorems.EndpointEdit | backend/apps/sales/views.py:821-847 | at the endpoint the totals are those before the edit, right exactly when the line total did not change; the status is never `edited` |
| LifecycleTheorems.EndpointEditMisses | backend/apps/fbr/services.py:620-645 | a concrete edit whose invoice total lags by 118.00 |
| LifecycleTheorems.EditChargesOnce | backend/apps/fbr/services.py:591-654 | a successful edit charges the month once with the grand total it stores, the sum over the edited lines if fresh and over the lines before it at the endpoint, and touches one line, one invoice and the book only |
| LifecycleTheorems.EndpointCancel | backend/apps/sales/views.py:866-893 | an accepted line cancel at the endpoint always leaves `partially_cancelled` |
| LifecycleTheorems.EndpointNeverEdited | backend/apps/sales/views.py:53-64 | over every run of the endpoints no invoice gets the status `edited` |
| LifecycleTheorems.ForceCancelEscapesTheCap | backend/apps/sales/views.py:433-474 | force-cancel succeeds exactly when the rule admits a whole cancel, only on numbered invoices, with no charge and no gateway call; the compliant cancel succeeds exactly when moreover budget and gateway agree |
| LifecycleTheorems.CancelChargesOnce | backend/apps/fbr/services.py:449-516 | a successful whole cancel charges the month once with the grand total and touches the invoice, the book and the log only |
| LifecycleTheorems.DeletedDraftIsStillFiscalized | backend/apps/sales/services/cancellation.py:68-123 | a submission that loaded a draft before its deletion carries the deleted invoice to valid, exactly unless another invoice has the number |
| LifecycleTheorems.LinesStayConsistent | backend/apps/fbr/services.py:600-618 | lines whose total is gross - discount + tax keep that relation through every run |
| LifecycleTheorems.LineCancelsEscapeTheCap | backend/apps/sales/services/cancellation.py:126-178 | cancelling line by line flags every line with no charge and no gateway call; the status ends `partially_cancelled` at the endpoint and `cancelled` over a fresh relation |
| Returns.FullRefund | backend/apps/returns/services/process.py:118-126 | a full return hands back the line's tax to the last digit and the gross without its discount, within a rounding |
| Returns.ReturnableExactly | backend/apps/returns/services/process.py:101-117 | which entries can be returned |
| Returns.NoteLineExactly | backend/apps/returns/services/process.py:118-141 | quantity, price, rate, pro-rata tax and total of each credit-note line, ties to even |
| ReturnTheorems.CreditNoteExactly | backend/apps/returns/services/process.py:350-386 | the credit note is pending, unnumbered and without a deadline, its totals the sums of its lines |
| ReturnTheorems.ReturnExactly | backend/apps/returns/services/process.py:189-207 | which returns are refused on either route, and all that an accepted one writes, charges, queues and logs |
| ReturnTheorems.ReturnedExactly | backend/apps/returns/services/process.py:475-497 | exactly the lines returned in full are flagged; the status is `cancelled` exactly when no line is left |
| ReturnTheorems.EditedAndCancelled | backend/apps/returns/services/process.py:475-497 | over every run a line is edited and cancelled exactly when it was or the run returned it in full after its edit |
| ReturnTheorems.CancelledAfterEdit | backend/apps/returns/services/process.py:475-497 | over every run an edited invoice is `cancelled` exactly when last a portal cancel, or a return or line cancel leaving no line unflagged, made it so |
| ReturnTheorems.ReturnAfterEdit | backend/apps/returns/services/process.py:68-207 | a return of an edited invoice is refused only by the gateway or a taken note number, never by rule, deadline or budget; it charges nothing and the note holds the refund |
| ReturnTheorems.WholeReturnCancels | backend/apps/returns/routing.py:22-24 | returning every line of any edited invoice leaves it `cancelled`, all lines flagged, without a portal record |
| ReturnTheorems.EditThenReturn | backend/apps/returns/views.py:54-87 | a run of the endpoints from an empty tenant that edits a line and returns the invoice |
| ReturnRuns.RepeatedReturnsCharge | backend/apps/returns/services/process.py:189-196 | n equal partial returns on the amend route charge n grand totals as long as they fit the allowance, and the next is accepted exactly when one more fits |
| ReturnRuns.RepeatedNotes | backend/apps/returns/services/process.py:101-116 | n returns of the same lines of an edited invoice raise n credit notes of the full refund |
| ReturnRuns.NoCancelChargeAfterEdit | backend/apps/returns/routing.py:22-24 | after an edit no run charges the invoice for a cancel or a return again |
| ReturnRuns.ReturnEndsSubmission | backend/apps/fbr/tasks.py:54-56 | an unnumbered invoice returned before a job loads it gets no number in any later run, unless a till posts one |
| ReturnRuns.NoteNeverExpires | backend/apps/returns/services/process.py:409-417 | an accepted credit note is numbered, valid and cancellable at any time, and over every later run gets no deadline and is never finalized |
| ReturnRuns.NoteRaisesBase | backend/apps/fbr/budget.py:84-100 | an accepted credit note adds its refund to the next month's base, beside the returned sale |
| HeldSales.ShopStepExact | backend/apps/sales/services/holds.py:18-27 | of the flows on held invoices exactly ringing up a numbered invoice and saving an order over an edited one break the invariant |
| HeldSales.ShopRunKeeps | backend/apps/hotel/services.py:371-426 | over every run of all flows the invariant holds up to the first such step |
| HeldSales.RingUpExact | backend/apps/sales/services/checkout.py:81-99 | ringing up a held invoice keeps the invariant exactly when it has no number |
| HeldSales.SaveOrderExact | backend/apps/restaurant/services.py:126-157 | saving an order over a held invoice keeps it exactly when no line was edited |
| HeldSales.RingUpExactly | backend/apps/sales/services/checkout.py:156-221 | ringing up keeps number, deadline and submission instant and replaces the rest |
| HeldSales.SaveOrderExactly | backend/apps/restaurant/services.py:126-157 | saving an order replaces lines and amounts only |
| HeldSales.VoidItemExactly | backend/apps/hotel/services.py:353-400 | voiding a line takes its figures off the totals |
| HeldSales.VoidChargeExactly | backend/apps/hotel/services.py:403-426 | voiding a charge flags every line, zeroes the totals and cancels it |
| HeldSales.NumberSurvives | backend/apps/fbr/signals.py:45-55 | in any state, whatever all flows do, a stored number stays |
| HeldSales.HoldAndRingUp | backend/apps/sales/services/checkout.py:209-221 | a run from an empty tenant after which a numbered invoice is pending again, without its history, and taken up by a job |
| FinalizeSimulation.StepSim | backend/apps/fbr/tasks.py:517-533 | two states that differ only in rows already finalized stay so related under every later step |
| FinalizeSimulation.FinalizeUnobservable | backend/apps/fbr/tasks.py:517-533 | inserting a finalizing beat before a run changes no line, number, history, budget, charge or submission anywhere in it |
| FiscalDatabase.Database.RecomputeMonthlyBudget | backend/apps/fbr/budget.py:77-128 | the loop and the field updates compute the recomputed book |
| FiscalDatabase.Database.ConsumeCancelBudget | backend/apps/fbr/budget.py:131-184 | creates the row on demand, then charges or refuses, as the book function says |
| FiscalDatabase.Database.ValidatePatch | backend/apps/fbr/services.py:558-572 | the loop over the incoming fields accepts exactly non-empty patches of editable, non-negative numbers |
| FiscalDatabase.Database.ApplyPatch | backend/apps/fbr/services.py:593-613 | field by field the line becomes the recomputed, once-edited one |
| FiscalDatabase.Database.RecomputeParent | backend/apps/fbr/services.py:620-645 | the four totals of `Sales.TotalsByLine` over the lines the invoice carries, prefetched or fresh, and the status of `LifecycleMeaning.EditedStatusExactly` |
| FiscalDatabase.Database.EditInvoiceItemWithFbr | backend/apps/fbr/services.py:530-696 | an edit, over prefetched or fresh lines, equals its transition function; any refusal leaves invoice, lines, history, budget and log as they were |
| FiscalDatabase.Database.CallGateway | backend/apps/fbr/services.py:656-688 | the round trip logs one row; skipped without token or number |
| FiscalDatabase.Database.CancelInvoiceWithFbr | backend/apps/fbr/services.py:449-516 | a whole cancel equals its transition function; any refusal restores everything |
| FiscalDatabase.Database.CancelLocally | backend/apps/sales/services/cancellation.py:20-65 | repeats the rule and flags every live line; also the whole of force-cancel |
| FiscalDatabase.Database.CancelSaleItem | backend/apps/sales/services/cancellation.py:126-178 | cancels one line and derives the status from the flags of the prefetched or fresh lines |
| FiscalDatabase.Database.DeleteDraftInvoice | backend/apps/sales/services/cancellation.py:68-123 | soft-deletes exactly unnumbered pending or failed invoices |
| FiscalDatabase.Database.MarkCancelledOnFbr | backend/apps/sales/views.py:478-512 | records a portal cancel of a numbered invoice, once |
| FiscalDatabase.Database.SnapshotLines | backend/apps/returns/services/process.py:101-141 | the loop accepts exactly the returnable lines and computes the note lines and the refund |
| FiscalDatabase.Database.CallPralCreditNote | backend/apps/returns/services/process.py:339-434 | the note is queued without a token, else posted and stored under the reply's number unless that is taken |
| FiscalDatabase.Database.UpdateOriginalStatus | backend/apps/returns/services/process.py:475-497 | the loop flags exactly the lines returned in full and derives the status from all stored lines; a cancelled invoice is left alone |
| FiscalDatabase.Database.ProcessInvoiceReturn | backend/apps/returns/services/process.py:68-278 | a return equals its transition function; any refusal leaves every table as it was |
| FiscalDatabase.Database.NumberTaken | backend/apps/sales/models.py:79-81 | the lookup finds exactly the numbers stored on other invoices |
| FiscalDatabase.Database.SaveInstance | backend/apps/fbr/signals.py:38-55 | a save checks the stored row against the instance and its number against all others, then writes only its update_fields; a refused save changes no row |
| FiscalDatabase.Database.PersistFbrSuccess | backend/apps/fbr/tasks.py:495-507 | stamps number, deadline and status in one checked save, refused when another invoice has the number |
| FiscalDatabase.Database.MarkInvoiceFailed | backend/apps/fbr/tasks.py:573-575 | marks failed through the checked save |
| FiscalDatabase.Database.FinalizeAgedInvoices | backend/apps/fbr/tasks.py:517-533 | finalizes exactly the rows past their deadline in an amendable state, and counts them |
| Client.FirstErrorIsFirst | backend/apps/fbr/client.py:120-126 | the first line status that is not 00 decides the error code, even when it carries none |
| Client.AcceptedExactly | backend/apps/fbr/client.py:105-114 | a reply is accepted exactly when parsed, without an HTTP error and with validation status 00 |
| Client.RaisedExactly | backend/apps/fbr/client.py:222-233 | the class of every other parsed reply, by code table, then HTTP status |
| Client.RetriedExactly | backend/apps/fbr/client.py:222-233 | a reply is retried exactly when it is not an error-free 00 and its code is transient, or unknown under a 5xx status |
| SubmitTask.Task.Attempt | backend/apps/fbr/tasks.py:253-349 | one POST logs one row with its attempt number and ends in retry, valid, failed, a revoked token, or submitted when the save is refused |
| SubmitTask.Task.SubmitInvoiceToFbr | backend/apps/fbr/tasks.py:45-349 | the loop makes exactly the POSTs its replies determine, logs attempts 1..n, waits their backoff, and leaves the row of the last reply that `FinalRowExactly` describes, given the numbers of the other invoices |
| SubmitTask.SettlesOnce | backend/apps/fbr/tasks.py:42-45 | the number of POSTs is determined by the replies, at most 7, with at most 25,960 seconds of waiting |
| SubmitTask.AllTransientFails | backend/apps/fbr/tasks.py:273-282 | seven transient replies wait 25,960 seconds in all and end in failed |
| SubmitTask.AcceptedValidates | backend/apps/fbr/tasks.py:341-348 | an accepted reply validates exactly when no other invoice stores its number and this one has no other; else the invoice stays submitted |
| SubmitTask.FinalRowExactly | backend/apps/fbr/tasks.py:249-349 | for every last reply: valid exactly on an error-free 00 under a free number, with that number and the deadline of the submission; submitted when the save is refused; else failed |
| SubmitTask.Waits | backend/apps/fbr/tasks.py:42 | the six waits between attempts |
| SoloRun.LoopRefines | backend/apps/fbr/tasks.py:45-349 | the interleaved machine, run with one job alone, ends with the row and the log of the retry loop, given the numbers of the other invoices, and nothing else changed |
| SoloRun.ValidRunExactly | backend/apps/fbr/tasks.py:495-507 | over a whole run of one job: valid exactly on such a last reply, with the deadline of the last submission, however much later it is stored |
| SoloRun.TakenNumberStays | backend/apps/fbr/tasks.py:341-348 | a job whose accepted reply carries a number stored elsewhere leaves its invoice submitted and unnumbered |
| SoloRun.SecondNumberlessStays | backend/apps/sales/models.py:79-81 | a run from an empty tenant: of two successes without a number the second stays submitted |
| Tokens.CredentialAgrees | backend/apps/fbr/services.py:41-64 | whenever submission carries a token, amendments use that same token |
| Tokens.AmendsWhereSubmitDefers | backend/apps/fbr/tasks.py:165-206 | exactly when an amendment goes out under a token although submission would defer |
| Tokens.RouteExactly | backend/apps/fbr/tasks.py:54-206 | where every submission goes, for every tenant type and token table |
| Tokens.AmendmentTokenExactly | backend/apps/fbr/services.py:41-64 | the credential of an amendment, for every token table |
| Tokens.FirstActiveIsFirst | backend/apps/fbr/services.py:41-64 | a branch's credential is its first active row |
| Tokens.ActivationExactly | backend/apps/fbr/services.py:300-372 | what activation writes, and when it is refused |
| Tokens.AuthFailureExactly | backend/apps/fbr/tasks.py:284-300 | a refused credential loses its flag, nothing else changes |
| Tokens.NeverSandboxAfterProduction | backend/apps/fbr/tasks.py:176-201 | once a production row exists, no later token operation lets a submission outside the PRA cloud use the tenant's sandbox token |
| Tokens.PraFallsBackToSandbox | backend/apps/fbr/tasks.py:136-149 | a run after which a PRA tenant with a production row submits under sandbox |
| Tokens.TokenStore.ActivateProductionToken | backend/apps/fbr/services.py:300-372 | activation keeps or replaces the bearer, deactivates sandbox, and refuses without clearance or bearer |
| Builder.WireRounds | backend/apps/fbr/builder.py:162-176 | wire money is the nearest paisa, ties to even |
| Builder.WireItemExactly | backend/apps/fbr/builder.py:198-270 | each amount on the wire is the nearest paisa of its own source field, for both kinds of line |
| Builder.SaleTypeExactly | backend/apps/fbr/builder.py:193-243 | the sale type of every line |
| Builder.RateExactly | backend/apps/fbr/builder.py:148-159 | the rate is "Exempt" exactly for exempt goods |
| Builder.LiveLinesExactly | backend/apps/fbr/builder.py:273-330 | exactly the lines that are not cancelled go out, in order |
| Builder.PayloadExactly | backend/apps/fbr/builder.py:273-330 | parties, date, scenario and items of a payload |
| Builder.WireConserves | backend/apps/fbr/builder.py:216-270 | the parts add up exactly before rounding and within two paisa after it, one for retail-priced lines |
| Builder.MismatchAttained | backend/apps/fbr/builder.py:216-270 | both bounds are attained |
| Builder.PayloadConserves | backend/apps/fbr/builder.py:198-270 | over any n lines the totals stay within 2 paisa an ordinary line and 1 a retail-priced line of the parts, hence within 2n |
| MockGateway.NegativeRate | backend/apps/fbr/builder.py:134-145 | a negative rate is the positive one after a minus sign |
| MockGateway.RateRoundTrip | backend/apps/fbr/builder.py:134-145 | a formatted rate is in the gateway's grammar exactly for 0 <= rate < 100, and parses back to the same number |
| MockGateway.LineRateAccepted | backend/apps/fbr/builder.py:148-159 | the rate of a built line is acceptable exactly when the line is exempt goods or its rate is below 100 and not negative |
| MockGateway.DateRoundTrips | backend/apps/fbr/mock_pral.py:132-152 | the ISO date of a payload reads back as the invoice date |
| MockGateway.SandboxAcceptance | backend/apps/fbr/mock_pral.py:137-209 | exactly which built sandbox payloads the validator accepts |
| MockGateway.VerdictExactly | backend/apps/fbr/mock_pral.py:137-209 | the verdict on every built payload, code by code |
| MockGateway.ProductionRefused | backend/apps/fbr/mock_pral.py:137-209 | every production-shaped payload is refused |
| Categories.CycleIffReached | backend/apps/catalog/models.py:144-154 | saving a link closes a cycle exactly when the upward walk from the parent reaches the row |
| Categories.WalkWouldNotEnd | backend/apps/catalog/models.py:147-153 | over a stored cycle away from the row the walk has a next row at every length |
| Categories.Catalog.MeetsSelf | backend/apps/catalog/models.py:147-153 | the upward walk ends, because no row is met twice, and finds the row being saved exactly when it is an ancestor |
| Categories.Catalog.Save | backend/apps/catalog/models.py:144-154 | refuses exactly the saves that would close a cycle and keeps the tree acyclic |
| Categories.Catalog.Delete | backend/apps/catalog/models.py:104-110 | deleting a row makes its children roots and keeps the tree acyclic |
| Import.ValidRowsConvert | backend/apps/catalog/csv_import.py:220-268 | a valid row of a parsed file never makes the commit raise and never loses its tax rate |
| ImportColumns.ValidExactly | backend/apps/catalog/csv_import.py:220-268 | which rows are valid, column by column |
| ImportColumns.ImportedColumns | backend/apps/catalog/csv_import.py:347-433 | after a commit the product under a valid row's SKU holds that row's own cell in each of the sixteen columns; an existing one is otherwise untouched, a new one belongs to the user |
| ImportColumns.OthersUntouched | backend/apps/catalog/csv_import.py:401-425 | a product that no valid row names is left as it was |
| Import.FirstFreeMeans | backend/apps/catalog/csv_import.py:294-306 | the slug loop stops at the first free candidate, all earlier ones being taken |
| Import.SlugIsFresh | backend/apps/catalog/csv_import.py:294-306 | the slug collides with no category of the tenant |
| Import.ResolveMeans | backend/apps/catalog/csv_import.py:361-375 | a row gets the last category of the name its cell gives, else one of that slug, else a new one |
| Import.ParsedRowsPlan | backend/apps/catalog/csv_import.py:355-399 | the rows of a parsed file never make the commit loop raise |
| Import.CategoriesCreatedOnce | backend/apps/catalog/csv_import.py:361-375 | each new name is created once, only if no category had it as name or slug, and slugs stay unique |
| Import.BulkIsRowByRow | backend/apps/catalog/csv_import.py:347-433 | the bulk commit succeeds exactly when new SKUs are distinct, and equals the row-by-row import exactly when moreover repeated existing SKUs agree |
| Import.DistinctSkusAgree | backend/apps/catalog/csv_import.py:347-433 | with distinct valid SKUs the commit is the row-by-row import |
| Import.CleanMeans | backend/apps/catalog/csv_import.py:309-344 | every row is counted once; no error exactly when all rows are valid with distinct SKUs |
| Import.DryRunForecasts | backend/apps/catalog/csv_import.py:309-344 | a clean dry run announces exactly what the commit creates and updates |
| Import.DeletedSkuStaysDeleted | backend/apps/catalog/csv_import.py:401-407 | a SKU whose products are all soft-deleted is neither created nor revived |
| Import.Importer.UniqueCategorySlug | backend/apps/catalog/csv_import.py:294-306 | the loop terminates by pigeonhole and returns that slug |
| Import.Importer.BuildDryRunSummary | backend/apps/catalog/csv_import.py:309-344 | the loop computes the counts |
| Import.Importer.ResolveCategory | backend/apps/catalog/csv_import.py:361-375 | the cached lookups stay those of the table |
| Import.Importer.Run | backend/apps/catalog/csv_import.py:347-433 | the commit loop, bulk create and bulk update store what `ImportColumns.ImportedColumns` describes; an exception restores both tables |
| Folio.NewestIsGreatest | backend/apps/hotel/models.py:184-190 | string order follows the sequence exactly while the suffix keeps its width |
| Folio.LastMinted | backend/apps/hotel/models.py:184-190 | the greatest string is the newest number until the width overflows |
| Folio.NextExactly | backend/apps/hotel/models.py:179-192 | when the next number raises |
| Folio.NextOfNumber | backend/apps/hotel/models.py:179-192 | otherwise it is one more than the greatest |
| Folio.MintsInSequence | backend/apps/hotel/models.py:179-192 | mint k+1 is the next number and succeeds exactly below 10^width |
| Folio.MintedRun | backend/apps/hotel/models.py:179-192 | n mints hold the numbers 1..min(n, 10000) without gap or repeat |
| KotRelay.StepKeeps | pos-terminal/electron/kot-relay.ts:93-180 | every step accounts for each ticket of each line and keeps delivered and pending copies within the number of terminals |
| KotRelay.PrintsAreBounded | pos-terminal/electron/kot-relay.ts:18-22 | in every run a stamped line was printed, and its tickets are at most terminals + lost acknowledgements + inked failures |
| KotRelay.PrintedExactlyOnce | pos-terminal/electron/kot-relay.ts:13-22 | with one terminal a stamped line has exactly 1 + lost acknowledgements + inked failures tickets |
| KotRelay.PolledExactly | backend/apps/restaurant/views.py:217-247 | a poll takes exactly the first order's lines that are not stamped, cancelled or for a room |
| KotRelay.RoomsAreNeverPrinted | backend/apps/restaurant/views.py:217-247 | in every run of any terminals a room line is never printed |
| KotRelay.CancelledIsNeverPrinted | backend/apps/restaurant/views.py:284-329 | a line cancelled while nobody holds it is never printed by any later run |
| KotRelay.FeedExactly | backend/apps/restaurant/views.py:284-329 | an order is fed exactly when it has such a line |
| KotRelay.FireExactly | backend/apps/restaurant/services.py:157-215 | firing adds unprinted lines and queues the order last |
| KotRelay.StampsStay | backend/apps/restaurant/views.py:332-356 | a stamp is never taken back |
| KotRelay.StampedIsNeverReprinted | backend/apps/restaurant/views.py:217-247 | once stamped and held by nobody, a line is not printed again by any run |
| KotRelay.ReliableTick | pos-terminal/electron/kot-relay.ts:136-173 | a tick whose print and acknowledgement arrive takes exactly the first order off the feed |
| KotRelay.Drains | pos-terminal/electron/kot-relay.ts:23-24 | n <= 25 pending orders drain in exactly n such ticks, each pending line ticketed and stamped once, the rest untouched |
| KotRelay.BacklogStops | pos-terminal/electron/kot-relay.ts:116-134 | above 25 pending orders no relay step changes anything |
| KotRelay.LostAcksReprint | pos-terminal/electron/kot-relay.ts:13-22 | k lost acknowledgements print the first order k times and leave the feed as it was |
| KotRelay.RacePrintsEveryCopy | pos-terminal/electron/kot-relay.ts:13-15 | m racing terminals print m copies without any fault |
| KotRelay.Server.Unprinted | backend/apps/restaurant/views.py:284-329 | the feed of `FeedExactly`, in the queue's order |
| KotRelay.Server.MarkPrinted | backend/apps/restaurant/views.py:332-356 | stamps exactly the named lines that were unstamped, and counts them |
| KotRelay.Relay.Tick | pos-terminal/electron/kot-relay.ts:93-180 | one tick is poll, print, acknowledge; fired while in flight or unpaired it does nothing; it leaves the flag as it was |
| Stamp.ResizedAt | pos-terminal/electron/fbr-stamp.ts:30-45 | pixel (x, y) is the source's (floor(x sw / w), floor(y sh / h)), in bounds |
| Stamp.ResizeIdentity | pos-terminal/electron/fbr-stamp.ts:30-45 | resizing to its own size is the identity |
| Stamp.BlittedAt | pos-terminal/electron/fbr-stamp.ts:48-66 | only the clipped rectangle changes; there colours are blended and alpha is 255 |
| Stamp.BlitsCommute | pos-terminal/electron/fbr-stamp.ts:48-66 | blits of disjoint rectangles commute |
| Stamp.LogoStaysLeft | pos-terminal/electron/fbr-stamp.ts:84-100 | for every logo, QR and positive paper width the logo ends before the gap and the QR |
| Stamp.LayoutExactly | pos-terminal/electron/fbr-stamp.ts:84-100 | QR width, gap and logo width from paper width and image sizes, rounded as Math.round does |
| Stamp.StampAt | pos-terminal/electron/fbr-stamp.ts:84-108 | the whole picture pixel by pixel: logo, white, QR, each over white, opaque |
| Stamp.QrSurvives | pos-terminal/electron/fbr-stamp.ts:84-108 | an opaque QR comes out byte for byte as its resized self |
| Stamp.StampEitherOrder | pos-terminal/electron/fbr-stamp.ts:106-108 | the two blits could be made in either order |
| Stamp.Resize | pos-terminal/electron/fbr-stamp.ts:30-45 | the nested loops compute the resized image |
| Stamp.BlendPixel | pos-terminal/electron/fbr-stamp.ts:55-63 | the byte loop blends three colours half up and sets alpha |
| Stamp.Blit | pos-terminal/electron/fbr-stamp.ts:48-66 | the clipped nested loops compute the blit in place |
| Stamp.BuildStamp | pos-terminal/electron/fbr-stamp.ts:84-108 | fill, optional logo, QR: the stamp |

## Left out

- Races the source leaves unlocked (two edits of one line, recompute against consume, two category saves, two folio mints on an empty year): steps are serialised.
- Checkout: an invoice enters with any amounts; its own line arithmetic, where a discount above the gross clamps the net to zero, and cart-level discounts are not modelled. An edit recomputes the totals from the lines alone, so it drops a cart-level discount.
- Storage rounding: DECIMAL(14,4) columns, the 40 characters of a number and the Decimal context precision; amounts are exact. An edited or returned quantity with more than four decimals is not modelled.
- Returns.NoteLine: the quotient of tax and quantity is exact, where the program keeps 28 digits and may round a tie the other way.
- Returns: the idempotency key, the reason, return numbers, stock, refunds and ledgers, any of which can refuse and roll back; `date.today()` is taken as the date in Pakistan.
- LifecycleTheorems.OriginalsRemain: and the other run theorems speak of runs of the machine; ringing up or saving over an unnumbered held invoice replaces its lines (`HeldSales`).
- ReturnTheorems.EditedAndCancelled: of the flows on held invoices, the hotel's voids flag lines too, and ringing up deletes them.
- HeldSales: pricing, payments and KOT data; orders and folios are reduced to their invoices, and a line with a return row, which the database does not let go, is replaced like any other.
- Management commands that settle, repair, seed or wipe invoices.
- Floats: `_to_money_number` returns a float, the stamp multiplies by 0.04 and 0.40; both are exact rationals here.
- Stock movements, audit log, notifications, receipts and QR payloads.
- The guards on updating or deleting `fbr_submissions` rows: no step here tries to; the log grows because steps only append.
- LifecycleTheorems.NumberIsForever: says nothing about an invoice whose stored number is the empty string; `valid` does not imply a number.
- Tokens: choosing the sandbox scenario, the scenario runner behind `all_scenarios_passed`, encryption of the bearer.
- The SDC and cloud submission paths share the retry and persistence steps of `Lifecycle`; their payloads and replies are not modelled.
- Builder: units of measure, quantities, SRO references and the other keys that the validator only requires to be present.
- MockGateway: digits are the ten ASCII ones and strings have no trailing newline, where Python's patterns admit more.
- Builder: `lower()` beyond ASCII.
- Import: the created categories are reported as a set, where the program lists it sorted; slugify, strip, number and truth-value parsing are parameters; a file is its rows, each cell a string (header aliases, Excel decoding and missing trailing cells are not modelled). Names and slugs compare by equality, not database collation.
- KotRelay: re-firing an order replaces its lines in the source and matches old stamps by signature; here lines are only added. The cashier's own print and acknowledgement, and the service-day bound, appear as orders that leave the feed.
- KotRelay.Drains: the feed order is a list; the timestamps it is sorted by are not modelled.
- Stamp: PNG and QR coding; the shift by two bits is a multiplication by four.
- Folio: `int` accepts more spellings than ASCII digits; minted numbers never use them.
- Categories: several rows changed by one bulk statement.
- Views, serializers, permissions, React and website code, Excel and PDF output, hotel and restaurant services beyond the feed.

/** A submission that nobody interferes with: the retry loop of one job and the interleaved
    machine agree step for step. */
module SoloRun {
  import opened Wrappers
  import opened Sales
  import opened Rules
  import opened Lifecycle
  import opened LifecycleInvariant
  import S = SubmitTask
  import Calendar
  import Client

  function OutcomeOf(reply: Client.Reply): Outcome {
    match Client.Classify(reply)
    case Accepted(number) => Success(number.GetOr(""))
    case Raised(category) => if category == Client.TRANSIENT then Transient else Permanent
  }

  /** One execution of the job, up to its reply. */
  function AttemptSteps(t: nat, reply: Client.Reply, now: nat): seq<Step> {
    [Load(t), Submit(t, now), Reply(t, OutcomeOf(reply))]
  }

  /** Attempts j + 1 to n, with a retry between two of them and the final save, at some
      instant `later`, at the end; of Persist and Fail only one is enabled. */
  function JobSteps(t: nat, gateway: nat -> Client.Reply, clock: nat -> nat, later: nat, j: nat, n: nat): seq<Step>
    requires j < n
    decreases n - j
  {
    AttemptSteps(t, gateway(j), clock(j))
    + if j + 1 < n then [Retry(t)] + JobSteps(t, gateway, clock, later, j + 1, n)
      else [Persist(t, later), Fail(t)]
  }

  /** w with the job's row, log and job record replaced. */
  function With(w: World, t: nat, row: Invoice, log: seq<Submission>, job: Lifecycle.Task): World
    requires ValidTask(w, t)
  {
    w.(records := w.records[w.tasks[t].invoice := w.records[w.tasks[t].invoice].(row := row)],
       submissions := log, tasks := w.tasks[t := job])
  }

  /** A queued job on an invoice that is still before validation. */
  predicate Pending(w: World, t: nat, retries: nat) {
    && ValidTask(w, t) && w.tasks[t].pc == Queued && w.tasks[t].retries == retries
    && PreValidation(w.records[w.tasks[t].invoice].row.status)
  }

  function Answered(reply: Client.Reply, retries: nat): Pc {
    match OutcomeOf(reply)
    case Success(number) => Lifecycle.Accepted(number)
    case Transient => if MAX_RETRIES <= retries then Rejected else Backoff
    case Permanent => Rejected
  }

  function LogRow(invoice: nat, retries: nat, reply: Client.Reply): Submission {
    Submission(invoice, PostInvoice, retries + 1, Client.Classify(reply).Accepted?)
  }

  /** Load and mark submitted. */
  lemma GoesOut(w: World, t: nat, retries: nat, now: nat)
    requires Pending(w, t, retries)
    ensures var i := w.tasks[t].invoice;
      var sent := S.Sent(w.records[i].row, now);
      Apply(Apply(w, Load(t)), Submit(t, now))
      == With(w, t, sent, w.submissions, Lifecycle.Task(i, Sending, sent, retries))
  {
    var i := w.tasks[t].invoice;
    var w1 := Apply(w, Load(t));
    assert w1 == w.(tasks := w.tasks[t := Lifecycle.Task(i, Loaded, w.records[i].row, retries)]);
    assert w1.tasks[t := Lifecycle.Task(i, Sending, S.Sent(w.records[i].row, now), retries)]
        == w.tasks[t := Lifecycle.Task(i, Sending, S.Sent(w.records[i].row, now), retries)];
  }

  lemma OneAttempt(w: World, t: nat, retries: nat, reply: Client.Reply, now: nat)
    requires Pending(w, t, retries)
    ensures var i := w.tasks[t].invoice;
      var sent := S.Sent(w.records[i].row, now);
      Run(w, AttemptSteps(t, reply, now))
      == With(w, t, sent, w.submissions + [LogRow(i, retries, reply)],
              Lifecycle.Task(i, Answered(reply, retries), sent, retries))
  {
    RunThree(w, Load(t), Submit(t, now), Reply(t, OutcomeOf(reply)));
    GoesOut(w, t, retries, now);
  }

  /** The numbers of the other invoices than i. */
  function Others(w: World, i: nat): set<string> {
    NumbersBut(w.records, w.elsewhere, i)
  }

  ghost predicate OthersRun(w: World, w': World, t: nat) {
    |w'.tasks| == |w.tasks| && forall u :: 0 <= u < |w.tasks| && u != t ==> w'.tasks[u] == w.tasks[u]
  }

  /** The job at its last save. */
  ghost predicate AtLastSave(w: World, t: nat, sent: Invoice, pc: Pc) {
    && ValidTask(w, t) && w.records[w.tasks[t].invoice].row == sent
    && w.tasks[t].pc == pc && w.tasks[t].inst == sent
  }

  lemma LastPersist(w: World, t: nat, loaded: Invoice, number: string, now: nat, later: nat)
    requires AtLastSave(w, t, S.Sent(loaded, now), Lifecycle.Accepted(number))
    ensures var w', i, sent := Apply(Apply(w, Persist(t, later)), Fail(t)), w.tasks[t].invoice, S.Sent(loaded, now);
      var fields := {NumberField, DeadlineField, StatusField};
      var row := Save(sent, Stamped(sent, number, now), fields, Others(w, i)).GetOr(sent);
      && w' == WithTask(WithRow(w, i, row), t, w'.tasks[t]) && |w'.tasks| == |w.tasks|
  {
    var i := w.tasks[t].invoice;
    var w1 := PersistSuccess(w, t, later);
    assert w1.tasks[t].pc == Done;
    assert w.records[i].(row := w.records[i].row) == w.records[i];
    assert w.records[i := w.records[i]] == w.records;
  }

  lemma LastFail(w: World, t: nat, sent: Invoice, later: nat)
    requires AtLastSave(w, t, sent, Rejected)
    ensures var w', i := Apply(Apply(w, Persist(t, later)), Fail(t)), w.tasks[t].invoice;
      && w' == WithTask(WithRow(w, i, sent.(status := Failed)), t, w'.tasks[t]) && |w'.tasks| == |w.tasks|
  {
    assert Apply(w, Persist(t, later)) == w;
  }

  /** The last save: stamped, failed, or refused. */
  lemma LastSave(w: World, t: nat, loaded: Invoice, reply: Client.Reply, retries: nat, now: nat, later: nat)
    requires AtLastSave(w, t, S.Sent(loaded, now), Answered(reply, retries))
    requires Client.Retryable(reply) ==> MAX_RETRIES <= retries
    ensures var w' := Run(w, [Persist(t, later), Fail(t)]);
      var i := w.tasks[t].invoice;
      w'.records == w.records[i := w.records[i].(row := S.FinalRow(loaded, reply, now, Others(w, i)))]
      && w'.submissions == w.submissions && w'.book == w.book && w'.elsewhere == w.elsewhere
      && OthersRun(w, w', t)
  {
    RunTwo(w, Persist(t, later), Fail(t));
    match Client.Classify(reply)
    case Accepted(number) => LastPersist(w, t, loaded, number.GetOr(""), now, later);
    case Raised(_) => LastFail(w, t, S.Sent(loaded, now), later);
  }

  /** Only the job's own invoice row, its log and its own state have changed. */
  ghost predicate EndsLike(w: World, w': World, t: nat, row: Invoice, log: seq<Submission>)
    requires ValidTask(w, t)
  {
    var i := w.tasks[t].invoice;
    && w'.records == w.records[i := w.records[i].(row := row)]
    && w'.submissions == w.submissions + log && w'.book == w.book && w'.elsewhere == w.elsewhere
    && OthersRun(w, w', t)
  }

  /** An attempt that is retried leaves the job queued again. */
  lemma RetriedAttempt(w: World, t: nat, j: nat, reply: Client.Reply, now: nat)
    requires Pending(w, t, j) && Client.Retryable(reply) && j < MAX_RETRIES
    ensures var i := w.tasks[t].invoice;
      var sent := S.Sent(w.records[i].row, now);
      var w' := Run(w, AttemptSteps(t, reply, now) + [Retry(t)]);
      && w' == With(w, t, sent, w.submissions + [LogRow(i, j, reply)], Lifecycle.Task(i, Queued, sent, j + 1))
      && Pending(w', t, j + 1)
  {
    OneAttempt(w, t, j, reply, now);
    RunConcat(w, AttemptSteps(t, reply, now), [Retry(t)]);
    RunOne(Run(w, AttemptSteps(t, reply, now)), Retry(t));
  }

  lemma LastAttempt(w: World, t: nat, j: nat, reply: Client.Reply, now: nat, later: nat)
    requires Pending(w, t, j) && (Client.Retryable(reply) ==> MAX_RETRIES <= j)
    ensures var i := w.tasks[t].invoice;
      EndsLike(w, Run(w, AttemptSteps(t, reply, now) + [Persist(t, later), Fail(t)]), t,
               S.FinalRow(w.records[i].row, reply, now, Others(w, i)), [LogRow(i, j, reply)])
  {
    var i := w.tasks[t].invoice;
    OthersUnmoved(w.records, w.elsewhere, i, w.records[i].(row := S.Sent(w.records[i].row, now)));
    OneAttempt(w, t, j, reply, now);
    RunConcat(w, AttemptSteps(t, reply, now), [Persist(t, later), Fail(t)]);
    LastSave(Run(w, AttemptSteps(t, reply, now)), t, w.records[w.tasks[t].invoice].row, reply, j, now, later);
  }

  lemma EndsChain(w: World, t: nat, sent: Invoice, row: Submission, job: Lifecycle.Task, w': World,
                  final: Invoice, log: seq<Submission>)
    requires ValidTask(w, t)
    requires job.invoice == w.tasks[t].invoice
    requires EndsLike(With(w, t, sent, w.submissions + [row], job), w', t, final, log)
    ensures EndsLike(w, w', t, final, [row] + log)
  {
    assert w.submissions + [row] + log == w.submissions + ([row] + log);
  }

  lemma {:induction false} AttemptsRefine(w: World, t: nat, gateway: nat -> Client.Reply, clock: nat -> nat,
                                          later: nat, j: nat, n: nat)
    requires S.Settles(gateway, n) && j < n && Pending(w, t, j)
    ensures var i := w.tasks[t].invoice;
      EndsLike(w, Run(w, JobSteps(t, gateway, clock, later, j, n)), t,
               S.FinalRow(w.records[i].row, gateway(n - 1), clock(n - 1), Others(w, i)), S.Log(i, gateway, n)[j..])
    decreases n - j
  {
    var i := w.tasks[t].invoice;
    var row := w.records[i].row;
    LogFrom(i, gateway, j, n);
    if j + 1 == n {
      LastAttempt(w, t, j, gateway(j), clock(j), later);
    } else {
      var attempt := AttemptSteps(t, gateway(j), clock(j)) + [Retry(t)];
    var rest := JobSteps(t, gateway, clock, later, j + 1, n);
      RetriedAttempt(w, t, j, gateway(j), clock(j));
      var w' := Run(w, attempt);
      StepsSplit(w, t, gateway, clock, later, j, n);
      AttemptsRefine(w', t, gateway, clock, later, j + 1, n);
      var sent := S.Sent(row, clock(j));
      OthersUnmoved(w.records, w.elsewhere, i, w.records[i].(row := sent));
      S.SameFinal(row, sent, gateway(n - 1), clock(n - 1), Others(w, i));
      EndsChain(w, t, sent, LogRow(i, j, gateway(j)), Lifecycle.Task(i, Queued, sent, j + 1), Run(w', rest),
                S.FinalRow(row, gateway(n - 1), clock(n - 1), Others(w, i)), S.Log(i, gateway, n)[j + 1..]);
    }
  }

  lemma StepsSplit(w: World, t: nat, gateway: nat -> Client.Reply, clock: nat -> nat, later: nat, j: nat, n: nat)
    requires j + 1 < n
    ensures Run(w, JobSteps(t, gateway, clock, later, j, n))
         == Run(Run(w, AttemptSteps(t, gateway(j), clock(j)) + [Retry(t)]),
                JobSteps(t, gateway, clock, later, j + 1, n))
  {
    var attempt := AttemptSteps(t, gateway(j), clock(j)) + [Retry(t)];
    var rest := JobSteps(t, gateway, clock, later, j + 1, n);
    assert JobSteps(t, gateway, clock, later, j, n) == attempt + rest;
    RunConcat(w, attempt, rest);
  }

  lemma LogFrom(i: nat, gateway: nat -> Client.Reply, j: nat, n: nat)
    requires j < n
    ensures S.Log(i, gateway, n)[j..] == [LogRow(i, j, gateway(j))] + S.Log(i, gateway, n)[j + 1..]
    ensures j + 1 == n ==> S.Log(i, gateway, n)[j..] == [LogRow(i, j, gateway(j))]
  {
  }

  /** The machine's run of a job left alone ends as the retry loop says: the row of the last
      reply, one log row a POST numbered 1 to n, and nothing else changed. */
  lemma LoopRefines(w: World, t: nat, gateway: nat -> Client.Reply, clock: nat -> nat, later: nat, n: nat)
    requires S.Settles(gateway, n) && Pending(w, t, 0)
    ensures var i := w.tasks[t].invoice;
      EndsLike(w, Run(w, JobSteps(t, gateway, clock, later, 0, n)), t,
               S.FinalRow(w.records[i].row, gateway(n - 1), clock(n - 1), Others(w, i)), S.Log(i, gateway, n))
  {
    AttemptsRefine(w, t, gateway, clock, later, 0, n);
    assert S.Log(w.tasks[t].invoice, gateway, n)[0..] == S.Log(w.tasks[t].invoice, gateway, n);
  }

  /** Over the whole run of a job left alone: its invoice ends valid exactly when the last
      reply validates it, and then carries that reply's number, the last submission's instant
      and the deadline counted from it, however much later the reply is stored. */
  lemma ValidRunExactly(w: World, t: nat, gateway: nat -> Client.Reply, clock: nat -> nat, later: nat, n: nat)
    requires S.Settles(gateway, n) && Pending(w, t, 0)
    ensures var i, w' := w.tasks[t].invoice, Run(w, JobSteps(t, gateway, clock, later, 0, n));
      var last, row := gateway(n - 1), w.records[i].row;
      && i < |w'.records|
      && (w'.records[i].row.status == Valid <==> S.Validates(last, row.number, Others(w, i)))
      && (w'.records[i].row.status == Valid ==>
            w'.records[i].row == row.(
              status := Valid, number := Some(if last.number.Some? then last.number.value else ""),
              submittedAt := Some(clock(n - 1)), editDeadlineAt := Some(Calendar.EditDeadline(clock(n - 1)))))
  {
    LoopRefines(w, t, gateway, clock, later, n);
    S.FinalRowExactly(w.records[w.tasks[t].invoice].row, gateway(n - 1), clock(n - 1), Others(w, w.tasks[t].invoice));
  }

  // ---- Successes without a number ------------------------------------------

  /** A job whose gateway accepts the invoice with a number that another invoice stores
      leaves it submitted and unnumbered; the gateway has it, the tenant's tables do not. */
  lemma TakenNumberStays(w: World, t: nat, gateway: nat -> Client.Reply, clock: nat -> nat, later: nat)
    requires Pending(w, t, 0) && Client.Classify(gateway(0)).Accepted?
    requires w.records[w.tasks[t].invoice].row.number.None?
    requires Client.Classify(gateway(0)).number.GetOr("") in Others(w, w.tasks[t].invoice)
    ensures var i, w' := w.tasks[t].invoice, Run(w, JobSteps(t, gateway, clock, later, 0, 1));
      EndsLike(w, w', t, S.Sent(w.records[i].row, clock(0)), [LogRow(i, 0, gateway(0))])
  {
    LoopRefines(w, t, gateway, clock, later, 1);
    LogFrom(w.tasks[t].invoice, gateway, 0, 1);
  }

  /** Two invoices, each with a queued job. */
  function TwoJobs(a: InvoiceRecord, b: InvoiceRecord): seq<Step> {
    [NewInvoice(a), NewInvoice(b), Enqueue(0), Enqueue(1)]
  }

  lemma TwoQueued(a: InvoiceRecord, b: InvoiceRecord)
    requires FreshRecord(a) && FreshRecord(b)
    ensures Run(EMPTY, TwoJobs(a, b))
         == World([a, b], EMPTY.book, [],
                  [Lifecycle.Task(0, Queued, a.row, 0), Lifecycle.Task(1, Queued, b.row, 0)], {})
  {
    assert TwoJobs(a, b) == [NewInvoice(a), NewInvoice(b)] + [Enqueue(0), Enqueue(1)];
    RunConcat(EMPTY, [NewInvoice(a), NewInvoice(b)], [Enqueue(0), Enqueue(1)]);
    RunTwo(EMPTY, NewInvoice(a), NewInvoice(b));
    assert Apply(EMPTY, NewInvoice(a)).records == [a];
    var w := World([a, b], EMPTY.book, [], [], {});
    RunTwo(w, Enqueue(0), Enqueue(1));
  }

  /** From an empty tenant: of two successes without a number only the first validates its
      invoice, under the empty number; the second stays submitted. */
  lemma SecondNumberlessStays(a: InvoiceRecord, b: InvoiceRecord, gateway: nat -> Client.Reply, clock: nat -> nat,
                              later: nat)
    requires FreshRecord(a) && FreshRecord(b) && a.row.status == PendingSync && b.row.status == PendingSync
    requires Client.Classify(gateway(0)) == Client.Accepted(None)
    ensures var w := Run(EMPTY, TwoJobs(a, b));
      var first := Run(w, JobSteps(0, gateway, clock, later, 0, 1));
      var second := Run(first, JobSteps(1, gateway, clock, later, 0, 1));
      && |second.records| == 2
      && second.records[0].row.status == Valid && second.records[0].row.number == Some("")
      && second.records[1].row == S.Sent(b.row, clock(0)) && second.records[1].row.number.None?
  {
    TwoQueued(a, b);
    var w := Run(EMPTY, TwoJobs(a, b));
    LoopRefines(w, 0, gateway, clock, later, 1);
    S.AcceptedValidates(a.row, gateway(0), clock(0), Others(w, 0));
    var first := Run(w, JobSteps(0, gateway, clock, later, 0, 1));
    assert first.tasks[1] == w.tasks[1];
    OthersTaken(first.records, first.elsewhere, 1);
    assert first.records[0].row.number == Some("") && first.records[0].row.number.value in Others(first, 1);
    TakenNumberStays(first, 1, gateway, clock, later);
  }
}

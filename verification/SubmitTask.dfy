/** backend/apps/fbr/tasks.py, lines 42-45 and 249-349: one Digital-Invoicing submission from
    queueing to its final outcome, with Celery's retries. */
module SubmitTask {
  import opened Wrappers
  import opened Sales
  import opened Rules
  import opened Lifecycle
  import Calendar
  import Client

  const BACKOFF: seq<nat> := [10, 30, 120, 600, 3600, 21600]

  /** Seconds waited before attempt n + 1. */
  function TotalWait(n: nat): nat
    requires n <= |BACKOFF|
  {
    if n == 0 then 0 else TotalWait(n - 1) + BACKOFF[n - 1]
  }

  /** The run makes exactly n POSTs: every one but the last is retryable, and it stops
      short of the limit only on a reply that is not. */
  ghost predicate Settles(gateway: nat -> Client.Reply, n: nat) {
    && 1 <= n <= |BACKOFF| + 1
    && (forall j: nat :: j < n - 1 ==> Client.Retryable(gateway(j)))
    && (n <= |BACKOFF| ==> !Client.Retryable(gateway(n - 1)))
  }

  /** One submission row a POST, numbered from 1. */
  function Log(invoice: nat, gateway: nat -> Client.Reply, n: nat): seq<Submission> {
    seq(n, j requires 0 <= j => Submission(invoice, PostInvoice, j + 1, Client.Classify(gateway(j)).Accepted?))
  }

  function Sent(row: Invoice, now: nat): Invoice {
    row.(status := Submitted, submittedAt := Some(now))
  }

  /** The stored row after the last reply; a refused save leaves it as submitted. `taken`
      holds the numbers of the other invoices. */
  function FinalRow(loaded: Invoice, last: Client.Reply, now: nat, taken: set<string>): Invoice {
    var sent := Sent(loaded, now);
    match Client.Classify(last)
    case Accepted(number) =>
      Save(sent, Stamped(sent, number.GetOr(""), now), {NumberField, DeadlineField, StatusField}, taken).GetOr(sent)
    case Raised(_) => sent.(status := Failed)
  }

  class Task {
    const invoice: nat
    var row: Invoice
    var submissions: seq<Submission>
    var waited: nat
    var tokenActive: bool

    constructor (invoice: nat, row: Invoice)
      ensures this.invoice == invoice && this.row == row && submissions == [] && waited == 0 && tokenActive
    {
      this.invoice := invoice;
      this.row := row;
      submissions, waited, tokenActive := [], 0, true;
    }

    /** One execution of the job body: mark submitted, POST, log, then persist, give up or
        ask for a retry. The reply is stored at a later instant than it was asked for. */
    method Attempt(retries: nat, reply: Client.Reply, now: nat, later: nat, taken: set<string>)
      returns (again: bool)
      requires retries <= |BACKOFF|
      modifies this`row, this`submissions, this`tokenActive
      ensures submissions
           == old(submissions) + [Submission(invoice, PostInvoice, retries + 1, Client.Classify(reply).Accepted?)]
      ensures again <==> Client.Retryable(reply) && retries < |BACKOFF|
      ensures row == if again then Sent(old(row), now) else FinalRow(old(row), reply, now, taken)
      ensures tokenActive == (old(tokenActive) && Client.Classify(reply) != Client.Raised(Client.AUTH))
    {
      row := row.(status := Submitted);
      row := row.(submittedAt := Some(now));
      var answer := Client.Classify(reply);
      submissions := submissions + [Submission(invoice, PostInvoice, retries + 1, answer.Accepted?)];
      match answer
      case Accepted(number) =>
        var inst := Stamped(row, number.GetOr(""), later);
        row := Save(row, inst, {NumberField, DeadlineField, StatusField}, taken).GetOr(row);
        return false;
      case Raised(category) =>
        if category == Client.TRANSIENT && retries < |BACKOFF| {
          return true;
        }
        if category == Client.AUTH {
          tokenActive := false;
        }
        row := row.(status := Failed);
        return false;
    }

    /** `taken` holds the numbers stored on other invoices when the last attempt saves. */
    method SubmitInvoiceToFbr(gateway: nat -> Client.Reply, clock: nat -> nat, later: nat -> nat, taken: set<string>)
      returns (posts: nat)
      modifies this
      ensures !PreValidation(old(row).status) ==>
        posts == 0 && row == old(row) && submissions == old(submissions) && waited == old(waited)
        && tokenActive == old(tokenActive)
      ensures PreValidation(old(row).status) ==>
        && Settles(gateway, posts)
        && submissions == old(submissions) + Log(invoice, gateway, posts)
        && waited == old(waited) + TotalWait(posts - 1)
        && row == FinalRow(old(row), gateway(posts - 1), clock(posts - 1), taken)
        && tokenActive == (old(tokenActive) && Client.Classify(gateway(posts - 1)) != Client.Raised(Client.AUTH))
    {
      if !PreValidation(row.status) {
        return 0;
      }
      var retries := 0;
      while true
        invariant retries <= |BACKOFF|
        invariant forall j: nat :: j < retries ==> Client.Retryable(gateway(j))
        invariant submissions == old(submissions) + Log(invoice, gateway, retries)
        invariant waited == old(waited) + TotalWait(retries)
        invariant tokenActive == old(tokenActive)
        invariant PreValidation(row.status)
        invariant row == if retries == 0 then old(row) else Sent(old(row), clock(retries - 1))
        decreases |BACKOFF| - retries
      {
        SameFinal(old(row), row, gateway(retries), clock(retries), taken);
        LogGrows(old(submissions), invoice, gateway, retries);
        var again := Attempt(retries, gateway(retries), clock(retries), later(retries), taken);
        if !again {
          return retries + 1;
        }
        waited := waited + BACKOFF[retries];
        retries := retries + 1;
      }
    }
  }

  lemma SameFinal(a: Invoice, b: Invoice, last: Client.Reply, now: nat, taken: set<string>)
    requires b == a || exists t: nat :: b == Sent(a, t)
    ensures FinalRow(b, last, now, taken) == FinalRow(a, last, now, taken)
  {
  }

  lemma LogGrows(before: seq<Submission>, invoice: nat, gateway: nat -> Client.Reply, n: nat)
    ensures before + Log(invoice, gateway, n + 1)
         == before + Log(invoice, gateway, n)
            + [Submission(invoice, PostInvoice, n + 1, Client.Classify(gateway(n)).Accepted?)]
  {
  }

  /** The number of POSTs is determined by the replies, is at most seven, and costs at
      most 25 960 seconds of waiting. */
  lemma SettlesOnce(gateway: nat -> Client.Reply, m: nat, n: nat)
    requires Settles(gateway, m) && Settles(gateway, n)
    ensures m == n <= 7 && TotalWait(n - 1) <= 25_960
  {
    assert TotalWait(6) == TotalWait(3) + 600 + 3600 + 21600;
    assert TotalWait(3) == 160;
    WaitGrows(n - 1, 6);
  }

  lemma {:induction false} WaitGrows(m: nat, n: nat)
    requires m <= n <= |BACKOFF|
    ensures TotalWait(m) <= TotalWait(n)
  {
    if m < n {
      WaitGrows(m, n - 1);
    }
  }

  /** When every reply is transient the run makes all seven POSTs, waits the whole
      25 960 seconds and ends in `failed`. */
  lemma AllTransientFails(gateway: nat -> Client.Reply, n: nat, loaded: Invoice, now: nat, taken: set<string>)
    requires Settles(gateway, n) && forall j: nat :: Client.Retryable(gateway(j))
    ensures n == 7 && TotalWait(n - 1) == 25_960
    ensures FinalRow(loaded, gateway(n - 1), now, taken).status == Failed
  {
    assert Client.Retryable(gateway(n - 1));
    assert TotalWait(6) == TotalWait(3) + 600 + 3600 + 21600;
    assert TotalWait(3) == 160;
  }

  /** The reply that makes an invoice valid: parsed, no HTTP error, status code "00", under
      a number that no other invoice stores and that is not different from the invoice's own. */
  predicate Validates(last: Client.Reply, stored: Option<string>, taken: set<string>) {
    && last.Parsed? && last.http < 400
    && last.validation.Some? && last.validation.value.statusCode == Some("00")
    && var number := if last.number.Some? then last.number.value else "";
      number !in taken && (stored.None? || stored.value == number)
  }

  /** How a job ends, for every last reply. It is stored as valid exactly under Validates,
      with the reply's number and the deadline of its submission; an accepted reply whose
      save is refused leaves it submitted; any other reply makes it failed. Nothing else of
      the row moves. */
  lemma FinalRowExactly(loaded: Invoice, last: Client.Reply, now: nat, taken: set<string>)
    ensures var row := FinalRow(loaded, last, now, taken);
      && (row.status == Valid <==> Validates(last, loaded.number, taken))
      && (row.status == Submitted <==> Client.Classify(last).Accepted? && !Validates(last, loaded.number, taken))
      && (row.status in {Valid, Submitted, Failed})
      && row.submittedAt == Some(now)
      && (row.status == Valid ==>
            && row.number == Some(if last.number.Some? then last.number.value else "")
            && row.editDeadlineAt == Some(Calendar.EditDeadline(now)))
      && (row.status != Valid ==> row.number == loaded.number && row.editDeadlineAt == loaded.editDeadlineAt)
      && row == loaded.(status := row.status, submittedAt := row.submittedAt, number := row.number,
                        editDeadlineAt := row.editDeadlineAt)
  {
    Client.AcceptedExactly(last);
  }

  /** The waits between attempts. */
  lemma Waits(n: nat)
    requires n < 6
    ensures TotalWait(n + 1) - TotalWait(n)
         == if n == 0 then 10 else if n == 1 then 30 else if n == 2 then 120
            else if n == 3 then 600 else if n == 4 then 3_600 else 21_600
  {
  }

  /** An accepted reply validates an invoice exactly when no other invoice stores its number
      and this one has no other number; otherwise the save raises and the invoice stays
      submitted as it was. A reply without a number stores the empty one. */
  lemma AcceptedValidates(loaded: Invoice, last: Client.Reply, now: nat, taken: set<string>)
    requires Client.Classify(last).Accepted?
    ensures var row := FinalRow(loaded, last, now, taken);
      var number := Client.Classify(last).number.GetOr("");
      if number !in taken && (loaded.number.None? || loaded.number.value == number)
      then row.status == Valid && row.number == Some(number)
      else row.status == Submitted && row.number == loaded.number
  {
  }
}

/** pos-terminal/electron/kot-relay.ts against the kitchen feed of
    backend/apps/restaurant/views.py: poll, print, acknowledge.

    Any number of branch terminals poll one server. Their ticks interleave at the network
    and printer calls; a print may report failure and still put ink on paper, and an
    acknowledgement may be lost on the way there or on the way back. */
module KotRelay {

  /** A fired line. Its identity is its position; `room` lines never reach the kitchen. */
  datatype Line = Line(order: nat, room: bool, stamped: bool, cancelled: bool)

  /** What a terminal's tick is holding between its awaits. */
  datatype Phase = Idle | Polled(ids: set<nat>) | Printed(ids: set<nat>)

  /** Per line: tickets with ink on them, acknowledgements that reached the server,
      acknowledgements that did not, and prints that landed but reported failure. */
  datatype Tally = Tally(ink: nat, delivered: nat, lost: nat, inkedFailures: nat)

  /** `queue` lists the open orders in feed order. */
  datatype World = World(lines: seq<Line>, queue: seq<nat>, terminals: seq<Phase>, tally: seq<Tally>)

  datatype PrintOutcome = Success | FailedBlank | FailedInked

  datatype AckOutcome = Acknowledged | ResponseLost | RequestLost

  datatype Step =
    | Fire(order: nat, rooms: seq<bool>)
    | CancelLine(line: nat)
    | Close(order: nat)
    | Poll(terminal: nat, reached: bool)
    | Print(terminal: nat, paper: PrintOutcome)
    | Ack(terminal: nat, ack: AckOutcome)
    | Crash(terminal: nat)

  const MAX_BACKLOG: nat := 25

  // ---- The server ----------------------------------------------------------

  predicate Pending(l: Line) {
    !l.stamped && !l.cancelled && !l.room
  }

  function PendingIds(lines: seq<Line>, order: nat): set<nat> {
    set i: nat | i < |lines| && lines[i].order == order && Pending(lines[i])
  }

  /** The orders of the feed: those with at least one line to print. */
  function Feed(lines: seq<Line>, queue: seq<nat>): seq<nat> {
    if queue == [] then []
    else
      (if PendingIds(lines, queue[0]) == {} then [] else [queue[0]]) + Feed(lines, queue[1..])
  }

  /** The conditional UPDATE: stamp exactly those lines that are still unstamped. */
  function Stamp(lines: seq<Line>, ids: set<nat>): (r: seq<Line>)
    ensures |r| == |lines|
  {
    seq(|lines|, i requires 0 <= i < |lines| =>
      if i in ids && !lines[i].stamped then lines[i].(stamped := true) else lines[i])
  }

  function Without(queue: seq<nat>, order: nat): seq<nat> {
    if queue == [] then []
    else (if queue[0] == order then [] else [queue[0]]) + Without(queue[1..], order)
  }

  function Fired(order: nat, rooms: seq<bool>): (r: seq<Line>)
    ensures |r| == |rooms|
  {
    seq(|rooms|, i requires 0 <= i < |rooms| => Line(order, rooms[i], false, false))
  }

  // ---- Steps ---------------------------------------------------------------

  function Plus(a: Tally, b: Tally): Tally {
    Tally(a.ink + b.ink, a.delivered + b.delivered, a.lost + b.lost, a.inkedFailures + b.inkedFailures)
  }

  function Count(tally: seq<Tally>, ids: set<nat>, more: Tally): (r: seq<Tally>)
    ensures |r| == |tally|
  {
    seq(|tally|, i requires 0 <= i < |tally| => if i in ids then Plus(tally[i], more) else tally[i])
  }

  function SetPhase(w: World, t: nat, p: Phase): World
    requires t < |w.terminals|
  {
    w.(terminals := w.terminals[t := p])
  }

  function ApplyPoll(w: World, t: nat, reached: bool): World
    requires t < |w.terminals|
  {
    var feed := Feed(w.lines, w.queue);
    if w.terminals[t].Idle? && reached && 0 < |feed| <= MAX_BACKLOG
    then SetPhase(w, t, Polled(PendingIds(w.lines, feed[0]))) else w
  }

  function ApplyPrint(w: World, t: nat, outcome: PrintOutcome): World
    requires t < |w.terminals|
  {
    if !w.terminals[t].Polled? then w
    else
      var ids := w.terminals[t].ids;
      match outcome
      case Success => SetPhase(w, t, Printed(ids)).(tally := Count(w.tally, ids, Tally(1, 0, 0, 0)))
      case FailedBlank => SetPhase(w, t, Idle)
      case FailedInked => SetPhase(w, t, Idle).(tally := Count(w.tally, ids, Tally(1, 0, 0, 1)))
  }

  function ApplyAck(w: World, t: nat, outcome: AckOutcome): World
    requires t < |w.terminals|
  {
    if !w.terminals[t].Printed? then w
    else
      var ids := w.terminals[t].ids;
      if outcome == RequestLost then SetPhase(w, t, Idle).(tally := Count(w.tally, ids, Tally(0, 0, 1, 0)))
      else SetPhase(w, t, Idle).(lines := Stamp(w.lines, ids), tally := Count(w.tally, ids, Tally(0, 1, 0, 0)))
  }

  function Apply(w: World, s: Step): World {
    match s
    case Fire(order, rooms) =>
      w.(lines := w.lines + Fired(order, rooms), queue := Without(w.queue, order) + [order],
         tally := w.tally + seq(|rooms|, _ => Tally(0, 0, 0, 0)))
    case CancelLine(i) =>
      if i < |w.lines| then w.(lines := w.lines[i := w.lines[i].(cancelled := true)]) else w
    case Close(order) => w.(queue := Without(w.queue, order))
    case Poll(t, reached) => if t < |w.terminals| then ApplyPoll(w, t, reached) else w
    case Print(t, outcome) => if t < |w.terminals| then ApplyPrint(w, t, outcome) else w
    case Ack(t, outcome) => if t < |w.terminals| then ApplyAck(w, t, outcome) else w
    case Crash(t) =>
      if t >= |w.terminals| then w
      else if w.terminals[t].Printed? then ApplyAck(w, t, RequestLost)
      else SetPhase(w, t, Idle)
  }

  function Run(w: World, steps: seq<Step>): World
    decreases |steps|
  {
    if steps == [] then w else Run(Apply(w, steps[0]), steps[1..])
  }

  function Start(terminals: nat): World {
    World([], [], seq(terminals, _ => Idle), [])
  }

  // ---- The invariant -------------------------------------------------------

  predicate Holds(p: Phase, i: nat) {
    !p.Idle? && i in p.ids
  }

  predicate HoldsPrint(p: Phase, i: nat) {
    p.Printed? && i in p.ids
  }

  function Unit(b: bool): nat {
    if b then 1 else 0
  }

  function Holders(terminals: seq<Phase>, i: nat): (n: nat)
    ensures n <= |terminals|
  {
    if terminals == [] then 0 else Unit(Holds(terminals[0], i)) + Holders(terminals[1..], i)
  }

  function PrintHolders(terminals: seq<Phase>, i: nat): nat {
    if terminals == [] then 0 else Unit(HoldsPrint(terminals[0], i)) + PrintHolders(terminals[1..], i)
  }

  lemma {:induction false} HoldersUpdate(terminals: seq<Phase>, t: nat, p: Phase, i: nat)
    requires t < |terminals|
    ensures Holders(terminals[t := p], i)
         == Holders(terminals, i) - Unit(Holds(terminals[t], i)) + Unit(Holds(p, i))
    ensures PrintHolders(terminals[t := p], i)
         == PrintHolders(terminals, i) - Unit(HoldsPrint(terminals[t], i)) + Unit(HoldsPrint(p, i))
  {
    var after := terminals[t := p];
    if t == 0 {
      assert after[1..] == terminals[1..];
    } else {
      HoldersUpdate(terminals[1..], t - 1, p, i);
      assert after[1..] == terminals[1..][t - 1 := p];
    }
  }

  lemma {:induction false} NoHolders(terminals: seq<Phase>, i: nat)
    requires forall p <- terminals :: !Holds(p, i)
    ensures Holders(terminals, i) == 0 && PrintHolders(terminals, i) == 0
  {
    if terminals != [] {
      assert terminals[0] in terminals;
      NoHolders(terminals[1..], i);
    }
  }

  /** Line by line: every inked ticket is accounted for, a stamp means a delivered
      acknowledgement, and no more copies are ever delivered or on their way than there
      are terminals. */
  predicate LineOk(w: World, i: nat)
    requires i < |w.lines| == |w.tally|
  {
    var c := w.tally[i];
    && c.ink == c.delivered + c.lost + c.inkedFailures + PrintHolders(w.terminals, i)
    && (w.lines[i].stamped <==> 0 < c.delivered)
    && c.delivered + Holders(w.terminals, i) <= |w.terminals|
  }

  predicate Distinct(queue: seq<nat>) {
    forall a, b :: 0 <= a < b < |queue| ==> queue[a] != queue[b]
  }

  ghost predicate Inv(w: World) {
    && |w.tally| == |w.lines|
    && Distinct(w.queue)
    && (forall p, i: nat :: p in w.terminals && Holds(p, i) ==> i < |w.lines|)
    && (forall i: nat :: i < |w.lines| ==> LineOk(w, i))
  }

  lemma {:induction false} WithoutMeans(queue: seq<nat>, order: nat)
    ensures forall o :: o in Without(queue, order) <==> o in queue && o != order
    ensures Distinct(queue) ==> Distinct(Without(queue, order))
  {
    if queue != [] {
      WithoutMeans(queue[1..], order);
      assert queue == [queue[0]] + queue[1..];
      if Distinct(queue) {
        assert forall a, b :: 0 <= a < b < |queue[1..]| ==>
          queue[1..][a] == queue[a + 1] != queue[b + 1] == queue[1..][b];
        assert queue[0] !in queue[1..];
      }
    }
  }

  /** What a step of terminal t, leaving its phase at p, owes to line i. */
  predicate Accounts(w: World, t: nat, p: Phase, lines: seq<Line>, tally: seq<Tally>, i: nat)
    requires t < |w.terminals| && i < |lines| == |tally| == |w.tally|
  {
    var c, d := w.tally[i], tally[i];
    && d.ink - d.delivered - d.lost - d.inkedFailures - Unit(HoldsPrint(p, i))
       == c.ink - c.delivered - c.lost - c.inkedFailures - Unit(HoldsPrint(w.terminals[t], i))
    && (lines[i].stamped <==> 0 < d.delivered)
    && (d.delivered + Unit(Holds(p, i)) <= c.delivered + Unit(Holds(w.terminals[t], i)) || d.delivered == 0)
  }

  lemma TerminalStep(w: World, t: nat, p: Phase, lines: seq<Line>, tally: seq<Tally>)
    requires Inv(w) && t < |w.terminals| && |lines| == |tally| == |w.lines|
    requires forall i: nat :: Holds(p, i) ==> i < |w.lines|
    requires forall i: nat :: i < |lines| ==> Accounts(w, t, p, lines, tally, i)
    ensures Inv(w.(terminals := w.terminals[t := p], lines := lines, tally := tally))
  {
    var after := w.(terminals := w.terminals[t := p], lines := lines, tally := tally);
    forall i: nat | i < |lines| ensures LineOk(after, i) {
      assert LineOk(w, i) && Accounts(w, t, p, lines, tally, i);
      HoldersUpdate(w.terminals, t, p, i);
    }
    forall q, i: nat | q in after.terminals && Holds(q, i) ensures i < |lines| {
      var k :| 0 <= k < |after.terminals| && after.terminals[k] == q;
      assert k != t ==> w.terminals[k] in w.terminals;
    }
  }

  lemma FireKeeps(w: World, order: nat, rooms: seq<bool>)
    requires Inv(w)
    ensures Inv(Apply(w, Fire(order, rooms)))
  {
    var after := Apply(w, Fire(order, rooms));
    WithoutMeans(w.queue, order);
    forall k: nat | k < |Without(w.queue, order)| ensures Without(w.queue, order)[k] != order {
      assert Without(w.queue, order)[k] in Without(w.queue, order);
    }
    forall i: nat | i < |after.lines| ensures LineOk(after, i) {
      if i < |w.lines| {
        assert LineOk(w, i);
      } else {
        NoHolders(w.terminals, i);
      }
    }
  }

  lemma PollKeeps(w: World, t: nat, reached: bool)
    requires Inv(w) && t < |w.terminals|
    ensures Inv(ApplyPoll(w, t, reached))
  {
    var feed := Feed(w.lines, w.queue);
    if w.terminals[t].Idle? && reached && 0 < |feed| <= MAX_BACKLOG {
      var ids := PendingIds(w.lines, feed[0]);
      forall i: nat | i < |w.lines| ensures Accounts(w, t, Polled(ids), w.lines, w.tally, i) {
        assert LineOk(w, i);
      }
      TerminalStep(w, t, Polled(ids), w.lines, w.tally);
      assert ApplyPoll(w, t, reached)
          == w.(terminals := w.terminals[t := Polled(ids)], lines := w.lines, tally := w.tally);
    }
  }

  lemma PrintKeeps(w: World, t: nat, outcome: PrintOutcome)
    requires Inv(w) && t < |w.terminals|
    ensures Inv(ApplyPrint(w, t, outcome))
  {
    if w.terminals[t].Polled? {
      var after := ApplyPrint(w, t, outcome);
      forall i: nat | Holds(after.terminals[t], i) ensures i < |w.lines| {
        assert w.terminals[t] in w.terminals && Holds(w.terminals[t], i);
      }
      forall i: nat | i < |w.lines| ensures Accounts(w, t, after.terminals[t], w.lines, after.tally, i) {
        assert LineOk(w, i);
      }
      TerminalStep(w, t, after.terminals[t], w.lines, after.tally);
      assert after == w.(terminals := w.terminals[t := after.terminals[t]], lines := w.lines, tally := after.tally);
    }
  }

  lemma AckKeeps(w: World, t: nat, outcome: AckOutcome)
    requires Inv(w) && t < |w.terminals|
    ensures Inv(ApplyAck(w, t, outcome))
  {
    if w.terminals[t].Printed? {
      var after := ApplyAck(w, t, outcome);
      forall i: nat | i < |w.lines| ensures Accounts(w, t, Idle, after.lines, after.tally, i) {
        assert LineOk(w, i);
      }
      TerminalStep(w, t, Idle, after.lines, after.tally);
      assert after == w.(terminals := w.terminals[t := Idle], lines := after.lines, tally := after.tally);
    }
  }

  lemma StepKeeps(w: World, s: Step)
    requires Inv(w)
    ensures Inv(Apply(w, s)) && |Apply(w, s).terminals| == |w.terminals|
  {
    match s
    case Fire(order, rooms) => FireKeeps(w, order, rooms);
    case CancelLine(i) =>
      var after := Apply(w, s);
      forall j: nat | j < |after.lines| ensures LineOk(after, j) {
        assert LineOk(w, j);
      }
    case Close(order) =>
      WithoutMeans(w.queue, order);
      forall j: nat | j < |w.lines| ensures LineOk(Apply(w, s), j) {
        assert LineOk(w, j);
      }
    case Poll(t, reached) => if t < |w.terminals| { PollKeeps(w, t, reached); }
    case Print(t, outcome) => if t < |w.terminals| { PrintKeeps(w, t, outcome); }
    case Ack(t, outcome) => if t < |w.terminals| { AckKeeps(w, t, outcome); }
    case Crash(t) =>
      if t < |w.terminals| {
        if w.terminals[t].Printed? {
          AckKeeps(w, t, RequestLost);
        } else {
          forall i: nat | i < |w.lines| ensures Accounts(w, t, Idle, w.lines, w.tally, i) {
            assert LineOk(w, i);
          }
          TerminalStep(w, t, Idle, w.lines, w.tally);
          assert Apply(w, s) == w.(terminals := w.terminals[t := Idle], lines := w.lines, tally := w.tally);
        }
      }
  }

  lemma {:induction false} RunKeeps(w: World, steps: seq<Step>)
    requires Inv(w)
    ensures Inv(Run(w, steps)) && |Run(w, steps).terminals| == |w.terminals|
    decreases |steps|
  {
    if steps != [] {
      StepKeeps(w, steps[0]);
      RunKeeps(Apply(w, steps[0]), steps[1..]);
    }
  }

  lemma StartOk(m: nat)
    ensures Inv(Start(m)) && |Start(m).terminals| == m
  {
  }

  // ---- Safety over every run ----------------------------------------------

  /** In every run of m terminals: a stamped line was printed, and the tickets of a line
      number at most m plus its lost acknowledgements plus its inked failures. */
  lemma PrintsAreBounded(m: nat, steps: seq<Step>, i: nat)
    requires i < |Run(Start(m), steps).lines|
    ensures var w := Run(Start(m), steps);
      && |w.tally| == |w.lines|
      && (w.lines[i].stamped ==> 1 <= w.tally[i].ink)
      && w.tally[i].ink <= m + w.tally[i].lost + w.tally[i].inkedFailures
  {
    StartOk(m);
    RunKeeps(Start(m), steps);
    var w := Run(Start(m), steps);
    assert LineOk(w, i);
    PrintersHold(w.terminals, i);
  }

  lemma {:induction false} PrintersHold(terminals: seq<Phase>, i: nat)
    ensures PrintHolders(terminals, i) <= Holders(terminals, i)
  {
    if terminals != [] {
      PrintersHold(terminals[1..], i);
    }
  }

  /** With one terminal a stamped line was printed exactly once more than its faults: the
      header's exactly-once promise holds if and only if no acknowledgement of the line
      was lost and no print of it landed while reporting failure. */
  lemma PrintedExactlyOnce(steps: seq<Step>, i: nat)
    requires i < |Run(Start(1), steps).lines|
    ensures var w := Run(Start(1), steps);
      |w.tally| == |w.lines|
      && (w.lines[i].stamped ==> w.tally[i].ink == 1 + w.tally[i].lost + w.tally[i].inkedFailures)
  {
    StartOk(1);
    RunKeeps(Start(1), steps);
    var w := Run(Start(1), steps);
    assert LineOk(w, i);
    PrintersHold(w.terminals, i);
  }

  /** A stamp is never taken back, and lines are never dropped. */
  lemma {:induction false} StampsStay(w: World, steps: seq<Step>, i: nat)
    requires i < |w.lines|
    ensures i < |Run(w, steps).lines|
    ensures w.lines[i].stamped ==> Run(w, steps).lines[i].stamped
    decreases |steps|
  {
    if steps != [] {
      StampsStay(Apply(w, steps[0]), steps[1..], i);
    }
  }

  /** Once a line is stamped and nobody is holding it, no further step prints it. */
  lemma {:induction false} StampedIsNeverReprinted(w: World, steps: seq<Step>, i: nat)
    requires Inv(w) && i < |w.lines| && w.lines[i].stamped
    requires forall p <- w.terminals :: !Holds(p, i)
    ensures |w.tally| == |w.lines| && i < |Run(w, steps).tally|
    ensures Run(w, steps).tally[i].ink == w.tally[i].ink
    decreases |steps|
  {
    if steps != [] {
      var next := Apply(w, steps[0]);
      StepKeeps(w, steps[0]);
      NotPrinted(w, steps[0], i);
      forall p <- next.terminals ensures !Holds(p, i) {
        var k :| 0 <= k < |next.terminals| && next.terminals[k] == p;
        assert w.terminals[k] in w.terminals;
        StillNotHeld(w, steps[0], i, k);
      }
      StampedIsNeverReprinted(next, steps[1..], i);
    }
  }

  lemma NotPrinted(w: World, s: Step, i: nat)
    requires i < |w.lines| == |w.tally|
    requires forall p <- w.terminals :: !Holds(p, i)
    ensures i < |Apply(w, s).tally| && Apply(w, s).tally[i].ink == w.tally[i].ink
    ensures i < |Apply(w, s).lines| && (w.lines[i].stamped ==> Apply(w, s).lines[i].stamped)
  {
    forall t: nat | t < |w.terminals| ensures !Holds(w.terminals[t], i) {
      assert w.terminals[t] in w.terminals;
    }
  }

  lemma StillNotHeld(w: World, s: Step, i: nat, k: nat)
    requires i < |w.lines| && w.lines[i].stamped
    requires k < |w.terminals| && k < |Apply(w, s).terminals| && !Holds(w.terminals[k], i)
    ensures !Holds(Apply(w, s).terminals[k], i)
  {
  }

  // ---- What reaches the printer --------------------------------------------

  /** A terminal that polls takes exactly the lines of the first order of the feed that are
      neither stamped, nor cancelled, nor for a room. */
  lemma PolledExactly(w: World, t: nat)
    requires t < |w.terminals| && w.terminals[t].Idle? && ApplyPoll(w, t, true).terminals[t] != Idle
    ensures var feed, p := Feed(w.lines, w.queue), ApplyPoll(w, t, true).terminals[t];
      && p.Polled? && 0 < |feed| <= 25
      && forall i: nat :: i in p.ids <==>
           && i < |w.lines| && w.lines[i].order == feed[0]
           && !w.lines[i].stamped && !w.lines[i].cancelled && !w.lines[i].room
  {
  }

  /** The feed: the orders of the queue that have such a line, in the queue's order. */
  lemma FeedExactly(lines: seq<Line>, order: nat)
    ensures Feed(lines, []) == []
    ensures Feed(lines, [order]) ==
      if exists i: nat :: i < |lines| && lines[i].order == order
           && !lines[i].stamped && !lines[i].cancelled && !lines[i].room
      then [order] else []
  {
    assert [order][1..] == [];
    if i: nat :| i < |lines| && lines[i].order == order && Pending(lines[i]) {
      assert i in PendingIds(lines, order);
    }
  }

  lemma {:induction false} FeedJoins(lines: seq<Line>, a: seq<nat>, b: seq<nat>)
    ensures Feed(lines, a + b) == Feed(lines, a) + Feed(lines, b)
  {
    if a == [] {
      assert a + b == b;
    } else {
      assert (a + b)[1..] == a[1..] + b;
      FeedJoins(lines, a[1..], b);
    }
  }

  /** Firing adds its lines, unprinted, and puts the order at the end of the queue. */
  lemma FireExactly(w: World, order: nat, rooms: seq<bool>)
    requires |w.tally| == |w.lines|
    ensures var after := Apply(w, Fire(order, rooms));
      && after.terminals == w.terminals
      && |after.lines| == |after.tally| == |w.lines| + |rooms|
      && after.lines[..|w.lines|] == w.lines && after.tally[..|w.lines|] == w.tally
      && (forall j :: 0 <= j < |rooms| ==>
            && after.lines[|w.lines| + j] == Line(order, rooms[j], false, false)
            && after.tally[|w.lines| + j] == Tally(0, 0, 0, 0))
      && after.queue != [] && after.queue[|after.queue| - 1] == order
      && forall o :: o != order ==> (o in after.queue <==> o in w.queue)
  {
    WithoutMeans(w.queue, order);
  }

  /** No terminal holds a room line, and none was ever printed. */
  ghost predicate RoomsDry(w: World) {
    && |w.tally| == |w.lines|
    && (forall p, i: nat :: p in w.terminals && Holds(p, i) ==> i < |w.lines| && !w.lines[i].room)
    && forall i: nat :: i < |w.lines| && w.lines[i].room ==> w.tally[i].ink == 0
  }

  /** What a step may do to line i as long as nobody holds it: nothing that puts ink on it,
      and no terminal that holds it later unless it is pending. */
  ghost predicate LineDry(w: World, i: nat) {
    && i < |w.lines| == |w.tally|
    && w.lines[i].room && w.tally[i].ink == 0
    && forall t :: 0 <= t < |w.terminals| ==> !Holds(w.terminals[t], i)
  }

  lemma LineStaysDry(w: World, s: Step, i: nat)
    requires LineDry(w, i)
    ensures LineDry(Apply(w, s), i)
  {
    var after := Apply(w, s);
    assert after.tally[i].ink == 0;
    forall t | 0 <= t < |after.terminals| ensures !Holds(after.terminals[t], i) {
      assert !Holds(w.terminals[t], i);
    }
  }

  lemma FiredDry(w: World, order: nat, rooms: seq<bool>, i: nat)
    requires RoomsDry(w) && |w.lines| <= i < |w.lines| + |rooms| && rooms[i - |w.lines|]
    ensures LineDry(Apply(w, Fire(order, rooms)), i)
  {
    forall t | 0 <= t < |w.terminals| ensures !Holds(w.terminals[t], i) {
      assert w.terminals[t] in w.terminals;
    }
  }

  /** Steps never make a line a room line, nor drop one. */
  lemma LinesKeepRooms(w: World, s: Step)
    requires |w.tally| == |w.lines|
    ensures |w.lines| <= |Apply(w, s).lines| == |Apply(w, s).tally|
    ensures forall i: nat :: i < |w.lines| ==> Apply(w, s).lines[i].room == w.lines[i].room
  {
  }

  lemma HeldFrom(w: World, s: Step, t: nat, i: nat)
    requires t < |Apply(w, s).terminals| && Holds(Apply(w, s).terminals[t], i)
    ensures t < |w.terminals| && (Holds(w.terminals[t], i) || i < |w.lines|)
  {
  }

  lemma HeldExist(w: World, s: Step)
    requires RoomsDry(w)
    ensures forall p, i: nat :: p in Apply(w, s).terminals && Holds(p, i) ==> i < |Apply(w, s).lines|
  {
    var after := Apply(w, s);
    LinesKeepRooms(w, s);
    forall p, i: nat | p in after.terminals && Holds(p, i) ensures i < |after.lines| {
      var t :| 0 <= t < |after.terminals| && after.terminals[t] == p;
      HeldFrom(w, s, t, i);
      assert w.terminals[t] in w.terminals;
    }
  }

  lemma RoomsStayDry(w: World, s: Step)
    requires RoomsDry(w)
    ensures RoomsDry(Apply(w, s))
  {
    var after := Apply(w, s);
    LinesKeepRooms(w, s);
    HeldExist(w, s);
    forall i: nat | i < |after.lines| && after.lines[i].room ensures LineDry(after, i) {
      if i < |w.lines| {
        forall t | 0 <= t < |w.terminals| ensures !Holds(w.terminals[t], i) {
          assert w.terminals[t] in w.terminals;
        }
        LineStaysDry(w, s, i);
      } else {
        FiredDry(w, s.order, s.rooms, i);
      }
    }
    AllDry(after);
  }

  lemma AllDry(w: World)
    requires |w.tally| == |w.lines|
    requires forall p, i: nat :: p in w.terminals && Holds(p, i) ==> i < |w.lines|
    requires forall i: nat :: i < |w.lines| && w.lines[i].room ==> LineDry(w, i)
    ensures RoomsDry(w)
  {
    forall p, i: nat | p in w.terminals && Holds(p, i) ensures !w.lines[i].room {
      var t :| 0 <= t < |w.terminals| && w.terminals[t] == p;
    }
  }

  /** In every run of any number of terminals, a line for a room is never printed. */
  lemma RoomsAreNeverPrinted(m: nat, steps: seq<Step>, i: nat)
    requires i < |Run(Start(m), steps).lines| && Run(Start(m), steps).lines[i].room
    ensures var w := Run(Start(m), steps); |w.tally| == |w.lines| && w.tally[i].ink == 0
  {
    RoomsRun(Start(m), steps);
  }

  lemma {:induction false} RoomsRun(w: World, steps: seq<Step>)
    requires RoomsDry(w)
    ensures RoomsDry(Run(w, steps))
    decreases |steps|
  {
    if steps != [] {
      RoomsStayDry(w, steps[0]);
      RoomsRun(Apply(w, steps[0]), steps[1..]);
    }
  }

  /** A line cancelled while no terminal holds it is never printed by any later run. */
  lemma {:induction false} CancelledIsNeverPrinted(w: World, steps: seq<Step>, i: nat)
    requires i < |w.lines| == |w.tally| && w.lines[i].cancelled
    requires forall p <- w.terminals :: !Holds(p, i)
    ensures i < |Run(w, steps).tally| && Run(w, steps).tally[i].ink == w.tally[i].ink
    decreases |steps|
  {
    if steps != [] {
      var next := Apply(w, steps[0]);
      NotPrinted(w, steps[0], i);
      CancelledStays(w, steps[0], i);
      forall p <- next.terminals ensures !Holds(p, i) {
        var k :| 0 <= k < |next.terminals| && next.terminals[k] == p;
        assert w.terminals[k] in w.terminals;
        CancelledNotHeld(w, steps[0], i, k);
      }
      CancelledIsNeverPrinted(next, steps[1..], i);
    }
  }

  lemma CancelledStays(w: World, s: Step, i: nat)
    requires i < |w.lines| == |w.tally| && w.lines[i].cancelled
    ensures i < |Apply(w, s).lines| == |Apply(w, s).tally| && Apply(w, s).lines[i].cancelled
    ensures |Apply(w, s).terminals| == |w.terminals|
  {
  }

  lemma CancelledNotHeld(w: World, s: Step, i: nat, k: nat)
    requires i < |w.lines| && w.lines[i].cancelled
    requires k < |w.terminals| && k < |Apply(w, s).terminals| && !Holds(w.terminals[k], i)
    ensures !Holds(Apply(w, s).terminals[k], i)
  {
  }

  // ---- Ticks ---------------------------------------------------------------

  /** tick() of one terminal, uninterrupted. */
  function TickSpec(w: World, t: nat, reached: bool, paper: PrintOutcome, ack: AckOutcome): World
    requires t < |w.terminals|
  {
    ApplyAck(ApplyPrint(ApplyPoll(w, t, reached), t, paper), t, ack)
  }

  lemma {:induction false} FeedMeans(lines: seq<Line>, queue: seq<nat>)
    ensures forall o :: o in Feed(lines, queue) <==> o in queue && PendingIds(lines, o) != {}
  {
    if queue != [] {
      FeedMeans(lines, queue[1..]);
      assert queue == [queue[0]] + queue[1..];
    }
  }

  lemma StampClears(lines: seq<Line>, order: nat)
    ensures var after := Stamp(lines, PendingIds(lines, order));
      && PendingIds(after, order) == {}
      && forall o :: o != order ==> PendingIds(after, o) == PendingIds(lines, o)
  {
  }

  lemma {:induction false} FeedWithout(lines: seq<Line>, after: seq<Line>, queue: seq<nat>, order: nat)
    requires forall o :: o != order ==> PendingIds(after, o) == PendingIds(lines, o)
    requires order !in queue
    ensures Feed(after, queue) == Feed(lines, queue)
  {
    if queue != [] {
      FeedWithout(lines, after, queue[1..], order);
      assert queue[0] in queue;
    }
  }

  lemma {:induction false} FeedTail(lines: seq<Line>, after: seq<Line>, queue: seq<nat>)
    requires Feed(lines, queue) != [] && Distinct(queue)
    requires var order := Feed(lines, queue)[0];
      PendingIds(after, order) == {} && forall o :: o != order ==> PendingIds(after, o) == PendingIds(lines, o)
    ensures Feed(after, queue) == Feed(lines, queue)[1..]
  {
    if PendingIds(lines, queue[0]) == {} {
      var rest := Feed(lines, queue[1..]);
      assert Feed(lines, queue) == rest;
      FeedMeans(lines, queue[1..]);
      assert rest[0] in rest;
      FeedTail(lines, after, queue[1..]);
    } else {
      assert Feed(lines, queue)[0] == queue[0];
      FeedWithout(lines, after, queue[1..], queue[0]);
      assert Feed(lines, queue)[1..] == Feed(lines, queue[1..]);
    }
  }

  predicate Ready(w: World, t: nat) {
    t < |w.terminals| && w.terminals[t].Idle? && |w.tally| == |w.lines| && Distinct(w.queue)
    && 0 < |Feed(w.lines, w.queue)| <= MAX_BACKLOG
  }

  /** The pending lines of these orders, and only they, got one ticket and the stamp. */
  predicate TicketedAt(w: World, after: World, orders: seq<nat>, i: nat)
    requires i < |w.lines| == |after.lines| == |w.tally| == |after.tally|
  {
    var l := w.lines[i];
    var hit := !l.stamped && !l.cancelled && !l.room && l.order in orders;
    && after.lines[i] == (if hit then w.lines[i].(stamped := true) else w.lines[i])
    && after.tally[i].ink == w.tally[i].ink + Unit(hit)
  }

  predicate Ticketed(w: World, after: World, orders: seq<nat>) {
    && |w.lines| == |after.lines| == |w.tally| == |after.tally|
    && forall i: nat :: i < |w.lines| ==> TicketedAt(w, after, orders, i)
  }

  lemma TicketedCompose(a: World, b: World, c: World, order: nat, orders: seq<nat>)
    requires Ticketed(a, b, [order]) && Ticketed(b, c, orders)
    ensures Ticketed(a, c, [order] + orders)
  {
    forall i: nat | i < |a.lines| ensures TicketedAt(a, c, [order] + orders, i) {
      assert TicketedAt(a, b, [order], i) && TicketedAt(b, c, orders, i);
    }
  }

  /** The first k orders left the feed, ticketed once each; nothing else changed. */
  predicate Drained(w: World, after: World, k: nat) {
    var feed := Feed(w.lines, w.queue);
    k <= |feed| && Feed(after.lines, after.queue) == feed[k..] && Ticketed(w, after, feed[..k])
  }

  lemma DrainedNone(w: World)
    requires |w.tally| == |w.lines|
    ensures Drained(w, w, 0)
  {
  }

  lemma DrainedCompose(w: World, next: World, last: World, k: nat)
    requires Drained(w, next, 1) && Drained(next, last, k)
    ensures Drained(w, last, k + 1)
  {
    var feed := Feed(w.lines, w.queue);
    assert feed[..1] == [feed[0]];
    assert feed[..k + 1] == [feed[0]] + feed[1..][..k];
    assert feed[1..][k..] == feed[k + 1..];
    TicketedCompose(w, next, last, feed[0], feed[1..][..k]);
  }

  /** A tick whose print and acknowledgement arrive takes the first order off the feed. */
  lemma ReliableTick(w: World, t: nat)
    requires Ready(w, t)
    ensures var after := TickSpec(w, t, true, Success, Acknowledged);
      Drained(w, after, 1) && after.queue == w.queue && after.terminals == w.terminals
  {
    var feed := Feed(w.lines, w.queue);
    var ids := PendingIds(w.lines, feed[0]);
    StampClears(w.lines, feed[0]);
    FeedTail(w.lines, Stamp(w.lines, ids), w.queue);
    var polled := ApplyPoll(w, t, true);
    var printed := ApplyPrint(polled, t, Success);
    assert printed.terminals[t] == Printed(ids);
    assert printed.terminals[t := Idle] == w.terminals;
    var after := ApplyAck(printed, t, Acknowledged);
    forall i: nat | i < |w.lines| ensures TicketedAt(w, after, feed[..1], i) {
      assert i in ids <==> Pending(w.lines[i]) && w.lines[i].order in feed[..1];
    }
  }

  function Iterate(tick: World -> World, w: World, k: nat): World
    decreases k
  {
    if k == 0 then w else Iterate(tick, tick(w), k - 1)
  }

  /** A whole tick of terminal t whose print succeeds. */
  function TickOf(t: nat, ack: AckOutcome): World -> World {
    (w: World) => if t < |w.terminals| then TickSpec(w, t, true, Success, ack) else w
  }

  predicate Resting(w: World, t: nat) {
    t < |w.terminals| && w.terminals[t].Idle? && |w.tally| == |w.lines| && Distinct(w.queue)
  }

  lemma {:induction false} IterateDrains(tick: World -> World, w: World, t: nat, k: nat)
    requires forall v :: Ready(v, t) ==> Drained(v, tick(v), 1) && Resting(tick(v), t)
    requires Resting(w, t) && k <= |Feed(w.lines, w.queue)| <= MAX_BACKLOG
    ensures Drained(w, Iterate(tick, w, k), k)
    decreases k
  {
    if k == 0 {
      DrainedNone(w);
    } else {
      IterateDrains(tick, tick(w), t, k - 1);
      DrainedCompose(w, tick(w), Iterate(tick, w, k), k - 1);
    }
  }

  /** With a reliable printer and network and nothing new fired, n <= 25 pending orders
      drain in exactly n ticks, each pending line printed and stamped once, every other
      line untouched. */
  lemma Drains(w: World, t: nat, k: nat)
    requires Resting(w, t) && k <= |Feed(w.lines, w.queue)| <= 25
    ensures Drained(w, Iterate(TickOf(t, Acknowledged), w, k), k)
  {
    var tick := TickOf(t, Acknowledged);
    forall v | Ready(v, t) ensures Drained(v, tick(v), 1) && Resting(tick(v), t) {
      ReliableTick(v, t);
    }
    IterateDrains(tick, w, t, k);
  }

  /** More than 25 pending orders stop every terminal: nothing is polled, printed or
      stamped again until orders are cancelled or closed. */
  lemma {:induction false} BacklogStops(w: World, steps: seq<Step>)
    requires 25 < |Feed(w.lines, w.queue)|
    requires forall p <- w.terminals :: p.Idle?
    requires forall s <- steps :: s.Poll? || s.Print? || s.Ack?
    ensures Run(w, steps) == w
    decreases |steps|
  {
    if steps != [] {
      assert steps[0] in steps;
      forall t: nat | t < |w.terminals| ensures w.terminals[t].Idle? {
        assert w.terminals[t] in w.terminals;
      }
      assert Apply(w, steps[0]) == w;
      BacklogStops(w, steps[1..]);
    }
  }

  // ---- The header's at-most-once claim is false ----------------------------

  /** Only the tickets of `ids` multiplied, by n; the next poll sees nothing new. */
  predicate Reprinted(w: World, after: World, ids: set<nat>, n: nat) {
    && (after.lines, after.queue, after.terminals) == (w.lines, w.queue, w.terminals)
    && |after.tally| == |w.tally|
    && forall i: nat :: i < |w.tally| ==> after.tally[i].ink == w.tally[i].ink + (if i in ids then n else 0)
  }

  /** A lost acknowledgement prints the first order's lines and changes nothing else the
      next poll could see. */
  lemma LostAckTick(w: World, t: nat)
    requires Ready(w, t)
    ensures Reprinted(w, TickSpec(w, t, true, Success, RequestLost), PendingIds(w.lines, Feed(w.lines, w.queue)[0]), 1)
  {
    var polled := ApplyPoll(w, t, true);
    var printed := ApplyPrint(polled, t, Success);
    assert printed.terminals[t := Idle] == w.terminals;
  }

  lemma ReprintedCompose(a: World, b: World, c: World, ids: set<nat>, k: nat)
    requires Reprinted(a, b, ids, 1) && Reprinted(b, c, ids, k)
    ensures Reprinted(a, c, ids, k + 1)
  {
  }

  lemma {:induction false} IterateReprints(tick: World -> World, w: World, t: nat, k: nat)
    requires forall v :: Ready(v, t) ==> Reprinted(v, tick(v), PendingIds(v.lines, Feed(v.lines, v.queue)[0]), 1)
    requires Ready(w, t)
    ensures Reprinted(w, Iterate(tick, w, k), PendingIds(w.lines, Feed(w.lines, w.queue)[0]), k)
    decreases k
  {
    if k != 0 {
      IterateReprints(tick, tick(w), t, k - 1);
      ReprintedCompose(w, tick(w), Iterate(tick, w, k), PendingIds(w.lines, Feed(w.lines, w.queue)[0]), k - 1);
    }
  }

  /** One terminal reprints a ticket as often as its acknowledgement is lost. */
  lemma LostAcksReprint(w: World, t: nat, k: nat)
    requires Ready(w, t)
    ensures Reprinted(w, Iterate(TickOf(t, RequestLost), w, k), PendingIds(w.lines, Feed(w.lines, w.queue)[0]), k)
  {
    var tick := TickOf(t, RequestLost);
    forall v | Ready(v, t) ensures Reprinted(v, tick(v), PendingIds(v.lines, Feed(v.lines, v.queue)[0]), 1) {
      LostAckTick(v, t);
    }
    IterateReprints(tick, w, t, k);
  }

  function Polls(m: nat): (r: seq<Step>)
    ensures |r| == m
  {
    seq(m, t requires 0 <= t < m => Poll(t, true))
  }

  function Prints(m: nat): (r: seq<Step>)
    ensures |r| == m
  {
    seq(m, t requires 0 <= t < m => Print(t, Success))
  }

  lemma {:induction false} RunSnoc(w: World, steps: seq<Step>, s: Step)
    ensures Run(w, steps + [s]) == Apply(Run(w, steps), s)
    decreases |steps|
  {
    if steps == [] {
      assert [] + [s] == [s] && [s][1..] == [];
    } else {
      RunSnoc(Apply(w, steps[0]), steps[1..], s);
      assert (steps + [s])[1..] == steps[1..] + [s];
    }
  }

  lemma {:induction false} PollsHold(w: World, k: nat)
    requires k <= |w.terminals| && 0 < |Feed(w.lines, w.queue)| <= MAX_BACKLOG
    requires forall p <- w.terminals :: p.Idle?
    ensures var after, ids := Run(w, Polls(k)), PendingIds(w.lines, Feed(w.lines, w.queue)[0]);
      && (after.lines, after.queue, after.tally) == (w.lines, w.queue, w.tally)
      && |after.terminals| == |w.terminals|
      && forall t: nat :: t < |w.terminals| ==> after.terminals[t] == if t < k then Polled(ids) else Idle
    decreases k
  {
    if k != 0 {
      PollsHold(w, k - 1);
      assert Polls(k) == Polls(k - 1) + [Poll(k - 1, true)];
      RunSnoc(w, Polls(k - 1), Poll(k - 1, true));
    }
  }

  lemma {:induction false} PrintsLand(w: World, k: nat, ids: set<nat>)
    requires k <= |w.terminals| && forall p <- w.terminals :: p == Polled(ids)
    ensures var after := Run(w, Prints(k));
      && |after.terminals| == |w.terminals| && |after.tally| == |w.tally|
      && (forall t: nat :: k <= t < |w.terminals| ==> after.terminals[t] == Polled(ids))
      && forall i: nat :: i < |w.tally| && i in ids ==> after.tally[i] == w.tally[i].(ink := w.tally[i].ink + k)
    decreases k
  {
    forall t: nat | t < |w.terminals| ensures w.terminals[t] == Polled(ids) {
      assert w.terminals[t] in w.terminals;
    }
    if k != 0 {
      PrintsLand(w, k - 1, ids);
      assert Prints(k) == Prints(k - 1) + [Print(k - 1, Success)];
      RunSnoc(w, Prints(k - 1), Print(k - 1, Success));
    }
  }

  /** And m terminals racing print m copies with no fault at all, so the bound m + lost +
      inked failures is attained for every m. */
  lemma RacePrintsEveryCopy(w: World, i: nat)
    requires |w.tally| == |w.lines| && 0 < |Feed(w.lines, w.queue)| <= MAX_BACKLOG
    requires forall p <- w.terminals :: p.Idle?
    requires i in PendingIds(w.lines, Feed(w.lines, w.queue)[0])
    ensures var m := |w.terminals|; var after := Run(Run(w, Polls(m)), Prints(m));
      && |after.tally| == |w.tally|
      && after.tally[i] == w.tally[i].(ink := w.tally[i].ink + m)
  {
    var m := |w.terminals|;
    PollsHold(w, m);
    var polled := Run(w, Polls(m));
    var ids := PendingIds(w.lines, Feed(w.lines, w.queue)[0]);
    forall p <- polled.terminals ensures p == Polled(ids) {
      var t :| 0 <= t < |polled.terminals| && polled.terminals[t] == p;
    }
    PrintsLand(polled, m, ids);
  }

  // ---- The terminal and the server ----------------------------------------

  /** The branch server's two endpoints. */
  class Server {
    var lines: seq<Line>
    var queue: seq<nat>

    constructor (lines: seq<Line>, queue: seq<nat>)
      ensures this.lines == lines && this.queue == queue
    {
      this.lines, this.queue := lines, queue;
    }

    /** GET kds/unprinted */
    method Unprinted() returns (feed: seq<nat>)
      ensures feed == Feed(lines, queue)
    {
      feed := [];
      var k: nat := |queue|;
      while k != 0
        invariant 0 <= k <= |queue|
        invariant feed == Feed(lines, queue[k..])
      {
        k := k - 1;
        assert queue[k..][1..] == queue[k + 1..];
        if PendingIds(lines, queue[k]) != {} {
          feed := [queue[k]] + feed;
        }
      }
    }

    /** POST mark-printed */
    method MarkPrinted(ids: set<nat>) returns (marked: nat)
      modifies this`lines
      ensures lines == Stamp(old(lines), ids)
      ensures marked == |set i: nat | i < |old(lines)| && i in ids && !old(lines)[i].stamped|
    {
      marked := |set i: nat | i < |lines| && i in ids && !lines[i].stamped|;
      var k := 0;
      while k < |lines|
        invariant k <= |lines| == |old(lines)|
        invariant forall j: nat :: j < |lines| ==>
          lines[j] == if j < k then Stamp(old(lines), ids)[j] else old(lines)[j]
      {
        if k in ids && !lines[k].stamped {
          lines := lines[k := lines[k].(stamped := true)];
        }
        k := k + 1;
      }
    }
  }

  /** The module state of one terminal's relay, and the paper it has put out. */
  class Relay {
    var inFlight: bool
    const server: Server
    const me: nat
    var terminals: seq<Phase>
    var tally: seq<Tally>

    constructor (server: Server, me: nat, terminals: seq<Phase>, tally: seq<Tally>)
      ensures this.server == server && this.me == me && !inFlight
      ensures this.terminals == terminals && this.tally == tally
    {
      inFlight := false;
      this.server, this.me := server, me;
      this.terminals, this.tally := terminals, tally;
    }

    ghost function View(): World
      reads this, server
    {
      World(server.lines, server.queue, terminals, tally)
    }

    method PrintKot(ids: set<nat>, outcome: PrintOutcome) returns (success: bool)
      requires me < |terminals| && terminals[me] == Polled(ids)
      modifies this`terminals, this`tally
      ensures View() == ApplyPrint(old(View()), me, outcome)
      ensures success == (outcome == Success)
    {
      success := outcome == Success;
      if outcome != FailedBlank {
        tally := Count(tally, ids, Tally(1, 0, 0, if success then 0 else 1));
      }
      terminals := terminals[me := if success then Printed(ids) else Idle];
    }

    /** One timer tick. It returns at once while another is in flight, and never leaves
        `inFlight` set. */
    method Tick(paired: bool, reached: bool, paper: PrintOutcome, ack: AckOutcome)
      requires me < |terminals| && (!inFlight ==> terminals[me].Idle?)
      modifies this`inFlight, this`terminals, this`tally, server`lines
      ensures inFlight == old(inFlight)
      ensures View() == if old(inFlight) || !paired then old(View())
                        else TickSpec(old(View()), me, reached, paper, ack)
    {
      if inFlight || !paired {
        return;
      }
      inFlight := true;
      if reached {
        var feed := server.Unprinted();
        if 0 < |feed| <= MAX_BACKLOG {
          var ids := PendingIds(server.lines, feed[0]);
          terminals := terminals[me := Polled(ids)];
          var success := PrintKot(ids, paper);
          if success {
            if ack == RequestLost {
              tally := Count(tally, ids, Tally(0, 0, 1, 0));
            } else {
              var _ := server.MarkPrinted(ids);
              tally := Count(tally, ids, Tally(0, 1, 0, 0));
            }
            terminals := terminals[me := Idle];
          }
        }
      }
      inFlight := false;
    }
  }
}

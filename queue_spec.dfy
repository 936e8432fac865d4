/**
 * The barber queue as a value: the ticket counter, the waiting line and the
 * ticket being served, with the effect of each operation on them. The class
 * in BarberQueues is proved to act as these functions say.
 */
module QueueSpec {
  import opened Wrappers
  import opened Tickets

  /** The three fields of a barber queue, tickets taken as values. */
  datatype QueueState = QueueState(lastTicketGiven: int, queue: seq<TicketState>, current: Option<TicketState>)

  /** A new queue: no ticket given, nobody waiting, nobody served. */
  function Init(): QueueState {
    QueueState(0, [], None)
  }

  /** takeTicket at clock reading `now`: the next number goes to a new ticket at the tail. */
  function Take(s: QueueState, now: Time): QueueState {
    var number := s.lastTicketGiven + 1;
    s.(lastTicketGiven := number, queue := s.queue + [TicketState(number, now, None)])
  }

  /**
   * serveNext at clock reading `now`: the head leaves the line, is marked
   * served and becomes the current ticket; with nobody waiting there is no
   * current ticket any more.
   */
  function Serve(s: QueueState, now: Time): QueueState {
    if |s.queue| > 0 then s.(queue := s.queue[1..], current := Some(Served(s.queue[0], now)))
    else s.(current := None)
  }

  /** The numbers of the waiting tickets, head first. */
  function Numbers(q: seq<TicketState>): (ns: seq<int>)
    ensures |ns| == |q| && forall i :: 0 <= i < |q| ==> ns[i] == q[i].number
  {
    seq(|q|, i requires 0 <= i < |q| => q[i].number)
  }

  /** The integers lo, lo + 1, ..., lo + n - 1. */
  function Iota(lo: int, n: nat): (r: seq<int>)
    ensures |r| == n && forall i :: 0 <= i < n ==> r[i] == lo + i
  {
    seq(n, i requires 0 <= i < n => lo + i)
  }

  // ---------------------------------------------------------------- views

  /** One line of the status report: a waiting ticket's number and time taken. */
  datatype WaitingLine = WaitingLine(number: int, timeTaken: Time)

  /** viewStatus: the number being served, if any, and the waiting tickets head first. */
  datatype StatusView = StatusView(serving: Option<int>, waiting: seq<WaitingLine>)

  function Status(s: QueueState): (r: StatusView)
    ensures r.serving.None? <==> s.current.None?
    ensures s.current.Some? ==> r.serving == Some(s.current.value.number)
    ensures |r.waiting| == |s.queue|
    ensures forall i :: 0 <= i < |s.queue| ==>
      r.waiting[i].number == s.queue[i].number && r.waiting[i].timeTaken == s.queue[i].timeTaken
  {
    StatusView(if s.current.Some? then Some(s.current.value.number) else None,
               seq(|s.queue|, i requires 0 <= i < |s.queue| => WaitingLine(s.queue[i].number, s.queue[i].timeTaken)))
  }

  /** viewCurrent: the number and the two times of the ticket being served. */
  datatype ServingView = ServingView(number: int, timeTaken: Time, timeServed: Time)

  /** viewCurrent fails when the current ticket carries no service time (it formats None). */
  datatype ViewError = NoServiceTime

  function ViewCurrent(s: QueueState): (r: Result<Option<ServingView>, ViewError>)
    ensures r.Failure? <==> s.current.Some? && s.current.value.timeServed.None?
    ensures r == Success(None) <==> s.current.None?
    ensures r.Success? && r.value.Some? ==>
      && s.current == Some(TicketState(r.value.value.number, r.value.value.timeTaken, Some(r.value.value.timeServed)))
  {
    match s.current
    case None => Success(None)
    case Some(t) =>
      if t.timeServed.None? then Failure(NoServiceTime)
      else Success(Some(ServingView(t.number, t.timeTaken, t.timeServed.value)))
  }

  /** After takeTicket the report lists one more line, the new ticket's, at the end. */
  lemma StatusAfterTake(s: QueueState, now: Time)
    ensures Status(Take(s, now)).serving == Status(s).serving
    ensures Status(Take(s, now)).waiting == Status(s).waiting + [WaitingLine(s.lastTicketGiven + 1, now)]
  {
  }

  /** After serveNext the report serves the old head and lists the rest, in the same order. */
  lemma StatusAfterServe(s: QueueState, now: Time)
    ensures |s.queue| > 0 ==> Status(Serve(s, now)).serving == Some(s.queue[0].number)
    ensures |s.queue| > 0 ==> Status(Serve(s, now)).waiting == Status(s).waiting[1..]
    ensures |s.queue| == 0 ==> Status(Serve(s, now)) == StatusView(None, [])
  {
  }

  // ---------------------------------------------------------------- invariants

  /** Waiting numbers rise strictly from head to tail and none exceeds the counter. */
  ghost predicate Ordered(s: QueueState) {
    && (forall i, j :: 0 <= i < j < |s.queue| ==> s.queue[i].number < s.queue[j].number)
    && (forall i :: 0 <= i < |s.queue| ==> s.queue[i].number <= s.lastTicketGiven)
  }

  lemma TakePreservesOrdered(s: QueueState, now: Time)
    requires Ordered(s)
    ensures Ordered(Take(s, now))
  {
  }

  lemma ServePreservesOrdered(s: QueueState, now: Time)
    requires Ordered(s)
    ensures Ordered(Serve(s, now))
  {
  }

  /**
   * Stronger than Ordered: the waiting numbers are exactly the last |queue|
   * numbers given, lastTicketGiven - |queue| + 1 up to lastTicketGiven.
   */
  ghost predicate Gapless(s: QueueState) {
    && |s.queue| <= s.lastTicketGiven
    && Numbers(s.queue) == Iota(s.lastTicketGiven - |s.queue| + 1, |s.queue|)
  }

  lemma GaplessIsOrdered(s: QueueState)
    requires Gapless(s)
    ensures Ordered(s)
  {
  }

  /**
   * The times a queue holds agree with a clock that now reads `clock`: no
   * waiting ticket is served yet, every time is at most `clock`, and the
   * current ticket was served no earlier than it was taken.
   */
  ghost predicate TimesAgree(s: QueueState, clock: Time) {
    && (forall i :: 0 <= i < |s.queue| ==> s.queue[i].timeServed.None? && s.queue[i].timeTaken <= clock)
    && (s.current.Some? ==>
          && s.current.value.timeServed.Some?
          && s.current.value.timeTaken <= s.current.value.timeServed.value <= clock)
  }

  // ---------------------------------------------------------------- runs

  /** One call of the caller: takeTicket or serveNext, with the clock reading it sees. */
  datatype Op = TakeTicket(now: Time) | ServeNext(now: Time)

  function Step(s: QueueState, op: Op): QueueState {
    match op
    case TakeTicket(now) => Take(s, now)
    case ServeNext(now) => Serve(s, now)
  }

  /** The queue after the calls `ops`, made one after another from `s`. */
  function Run(s: QueueState, ops: seq<Op>): QueueState
    decreases |ops|
  {
    if ops == [] then s else Step(Run(s, ops[..|ops| - 1]), ops[|ops| - 1])
  }

  /** The numbers of the tickets the calls `ops` served, in the order they were served. */
  function ServedLog(s: QueueState, ops: seq<Op>): seq<int>
    decreases |ops|
  {
    if ops == [] then []
    else
      var before := Run(s, ops[..|ops| - 1]);
      ServedLog(s, ops[..|ops| - 1])
        + if ops[|ops| - 1].ServeNext? && |before.queue| > 0 then [before.queue[0].number] else []
  }

  /** The clock never runs backwards over the calls. */
  ghost predicate Chronological(ops: seq<Op>) {
    forall i, j :: 0 <= i < j < |ops| ==> ops[i].now <= ops[j].now
  }

  // ---------------------------------------------------------------- run lemmas

  lemma TakePreservesGapless(s: QueueState, now: Time)
    requires Gapless(s)
    ensures Gapless(Take(s, now))
  {
  }

  lemma ServePreservesGapless(s: QueueState, now: Time)
    requires Gapless(s)
    ensures Gapless(Serve(s, now))
  {
  }

  /**
   * First come, first served, with no gaps or repeats: from a new queue,
   * whatever the calls, the tickets served so far are exactly 1, 2, ..., k in
   * that order, and the waiting ones are exactly k + 1, ..., lastTicketGiven.
   */
  lemma {:induction false} FifoService(ops: seq<Op>)
    ensures Gapless(Run(Init(), ops))
    ensures var r := Run(Init(), ops);
      ServedLog(Init(), ops) == Iota(1, r.lastTicketGiven - |r.queue|)
  {
    if ops != [] {
      var pre, op := ops[..|ops| - 1], ops[|ops| - 1];
      FifoService(pre);
      var s := Run(Init(), pre);
      var k := s.lastTicketGiven - |s.queue|;
      assert Run(Init(), ops) == Step(s, op);
      match op
      case TakeTicket(now) =>
        TakePreservesGapless(s, now);
      case ServeNext(now) =>
        ServePreservesGapless(s, now);
        if |s.queue| > 0 {
          assert s.queue[0].number == Numbers(s.queue)[0] == k + 1;
          assert Iota(1, k) + [k + 1] == Iota(1, k + 1);
        }
    }
  }

  /** From a new queue, n calls of takeTicket leave tickets 1 to n waiting, in call order. */
  lemma {:induction false} IssueFromFresh(ops: seq<Op>)
    requires forall i :: 0 <= i < |ops| ==> ops[i].TakeTicket?
    ensures var r := Run(Init(), ops);
      && r.lastTicketGiven == |ops|
      && r.current == None
      && r.queue == seq(|ops|, i requires 0 <= i < |ops| => TicketState(i + 1, ops[i].now, None))
  {
    if ops != [] {
      var pre := ops[..|ops| - 1];
      IssueFromFresh(pre);
    }
  }

  lemma TakeKeepsTimes(s: QueueState, clock: Time, now: Time)
    requires TimesAgree(s, clock) && clock <= now
    ensures TimesAgree(Take(s, now), now)
  {
  }

  lemma ServeKeepsTimes(s: QueueState, clock: Time, now: Time)
    requires TimesAgree(s, clock) && clock <= now
    ensures TimesAgree(Serve(s, now), now)
  {
  }

  /** The last clock reading the calls saw (0 before any call). */
  function LastClock(ops: seq<Op>): Time {
    if ops == [] then 0 else ops[|ops| - 1].now
  }

  /**
   * With a clock that never runs backwards, every ticket served from a new
   * queue was served no earlier than it was taken, and viewCurrent never fails.
   */
  lemma {:induction false} ServedNotBeforeTaken(ops: seq<Op>)
    requires Chronological(ops)
    ensures TimesAgree(Run(Init(), ops), LastClock(ops))
    ensures ViewCurrent(Run(Init(), ops)).Success?
  {
    if ops != [] {
      var pre, op := ops[..|ops| - 1], ops[|ops| - 1];
      ServedNotBeforeTaken(pre);
      var s := Run(Init(), pre);
      assert LastClock(pre) <= op.now by {
        if pre != [] { assert pre[|pre| - 1] == ops[|ops| - 2]; }
      }
      match op
      case TakeTicket(now) => TakeKeepsTimes(s, LastClock(pre), now);
      case ServeNext(now) => ServeKeepsTimes(s, LastClock(pre), now);
    }
  }
}

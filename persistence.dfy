/**
 * The saved state of a barber queue: the payload written by saveToFile and
 * read by loadFromFile. Only the payload is modelled; reading and writing the
 * file and the JSON text are not.
 */
module Persistence {
  import opened Wrappers
  import opened Tickets
  import opened QueueSpec

  /** The saved payload: the counter, the waiting tickets' records head first, and the current ticket's record or null. */
  datatype Payload = Payload(lastTicketGiven: int, queue: seq<TicketDict>, currentTicket: Option<TicketDict>)

  /** The records of the tickets ts, in order. */
  function ToDicts(ts: seq<TicketState>): (ds: seq<TicketDict>)
    ensures |ds| == |ts| && forall i :: 0 <= i < |ts| ==> ds[i] == ToDict(ts[i])
  {
    seq(|ts|, i requires 0 <= i < |ts| => ToDict(ts[i]))
  }

  /**
   * Reads the waiting tickets back, in order. The first record that cannot
   * be read decides the error.
   */
  function ParseTickets(ds: seq<TicketDict>): (r: Result<seq<TicketState>, ParseError>)
    decreases |ds|
    ensures r.Success? ==> |r.value| == |ds| && forall i :: 0 <= i < |ds| ==> FromDict(ds[i]) == Success(r.value[i])
    ensures r.Failure? ==> exists k :: 0 <= k < |ds| && FromDict(ds[k]) == Failure(r.error) &&
                                      forall j :: 0 <= j < k ==> FromDict(ds[j]).Success?
    ensures (forall i :: 0 <= i < |ds| ==> FromDict(ds[i]).Success?) ==> r.Success?
  {
    if ds == [] then Success([])
    else
      match ParseTickets(ds[..|ds| - 1])
      case Failure(e) => Failure(e)
      case Success(front) =>
        match FromDict(ds[|ds| - 1])
        case Failure(e) => Failure(e)
        case Success(t) => Success(front + [t])
  }

  /** Reads the current ticket back; null and an empty record both mean "nobody is being served". */
  function ParseCurrent(c: Option<TicketDict>): (r: Result<Option<TicketState>, ParseError>)
    ensures (c.None? || c.value == map[]) ==> r == Success(None)
    ensures c.Some? && c.value != map[] ==>
      (r.Success? <==> FromDict(c.value).Success?) &&
      (r.Success? ==> r.value == Some(FromDict(c.value).value))
    ensures c.Some? && c.value != map[] && FromDict(c.value).Failure? ==> r == Failure(FromDict(c.value).error)
  {
    match c
    case None => Success(None)
    case Some(d) =>
      if d == map[] then Success(None)
      else
        match FromDict(d)
        case Failure(e) => Failure(e)
        case Success(t) => Success(Some(t))
  }

  /** saveToFile: the payload records exactly the counter, the waiting tickets in order and the current ticket. */
  function Snapshot(s: QueueState): (p: Payload)
    ensures p.lastTicketGiven == s.lastTicketGiven
    ensures p.queue == ToDicts(s.queue)
    ensures p.currentTicket == if s.current.Some? then Some(ToDict(s.current.value)) else None
    ensures ParseTickets(p.queue) == Success(s.queue)
    ensures ParseCurrent(p.currentTicket) == Success(s.current)
  {
    var p := Payload(s.lastTicketGiven, ToDicts(s.queue),
                     if s.current.Some? then Some(ToDict(s.current.value)) else None);
    ParseTicketsOfRecords(s.queue);
    p
  }

  /** What loadFromFile leaves behind: the new state and the error it raised, if any. */
  datatype LoadOutcome = LoadOutcome(state: QueueState, error: Option<ParseError>)

  /**
   * loadFromFile from state s, where `file` is None when there is no file.
   * The fields are replaced one after another, counter first: a record that
   * cannot be read stops the load with the fields before it already replaced.
   */
  function Restore(s: QueueState, file: Option<Payload>): (r: LoadOutcome)
    ensures file.None? ==> r == LoadOutcome(s, None)
    ensures file.Some? ==> r.state.lastTicketGiven == file.value.lastTicketGiven
    ensures r.error.None? <==>
      file.None? || (ParseTickets(file.value.queue).Success? && ParseCurrent(file.value.currentTicket).Success?)
    ensures r.error.Some? ==> r.state.current == s.current
    ensures file.Some? && ParseTickets(file.value.queue).Success? ==> r.state.queue == ParseTickets(file.value.queue).value
    ensures file.Some? && ParseTickets(file.value.queue).Failure? ==> r.state.queue == s.queue
    ensures file.Some? && r.error.None? ==> r.state.current == ParseCurrent(file.value.currentTicket).value
    ensures file.Some? && ParseTickets(file.value.queue).Failure? ==>
      r.error == Some(ParseTickets(file.value.queue).error)
    ensures file.Some? && ParseTickets(file.value.queue).Success? && ParseCurrent(file.value.currentTicket).Failure? ==>
      r.error == Some(ParseCurrent(file.value.currentTicket).error)
  {
    match file
    case None => LoadOutcome(s, None)
    case Some(p) =>
      var s1 := s.(lastTicketGiven := p.lastTicketGiven);
      match ParseTickets(p.queue)
      case Failure(e) => LoadOutcome(s1, Some(e))
      case Success(q) =>
        var s2 := s1.(queue := q);
        match ParseCurrent(p.currentTicket)
        case Failure(e) => LoadOutcome(s2, Some(e))
        case Success(c) => LoadOutcome(s2.(current := c), None)
  }

  /** The records of any tickets read back as exactly those tickets, in order. */
  lemma {:induction false} ParseTicketsOfRecords(ts: seq<TicketState>)
    ensures ParseTickets(ToDicts(ts)) == Success(ts)
  {
    if ts != [] {
      var front := ts[..|ts| - 1];
      ParseTicketsOfRecords(front);
      assert ToDicts(ts)[..|ts| - 1] == ToDicts(front);
      assert ts == front + [ts[|ts| - 1]];
    }
  }

  /**
   * Snapshot round trip: loading the payload saved from s gives back s
   * exactly (counter, waiting tickets in order, current ticket), whatever
   * the state loaded into, and raises nothing.
   */
  lemma RestoreSnapshot(before: QueueState, s: QueueState)
    ensures Restore(before, Some(Snapshot(s))) == LoadOutcome(s, None)
  {
  }

  /** A record that cannot be read stops the reading of the whole line with its error. */
  lemma {:induction false} ParseTicketsStopsAtFailure(ds: seq<TicketDict>, i: nat)
    requires i < |ds| && ParseTickets(ds[..i]).Success? && FromDict(ds[i]).Failure?
    ensures ParseTickets(ds) == Failure(FromDict(ds[i]).error)
  {
  }

  /**
   * A payload whose current ticket has no service time loads without error,
   * and then viewCurrent fails: loading is the one way to a current ticket
   * that was never served.
   */
  lemma LoadedCurrentMayBeUnserved(s: QueueState, t: TicketState)
    requires t.timeServed.None?
    ensures var r := Restore(s, Some(Payload(s.lastTicketGiven, [], Some(ToDict(t)))));
      r.error.None? && ViewCurrent(r.state) == Failure(NoServiceTime)
  {
  }
}

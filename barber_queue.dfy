/**
 * The barber queue object: a counter, a line of ticket objects and the
 * ticket being served, updated in place by takeTicket, serveNext and
 * loadFromFile. Each method is proved to act on State() as the functions of
 * QueueSpec and Persistence say.
 */
module BarberQueues {
  import opened Wrappers
  import opened Tickets
  import opened QueueSpec
  import opened Persistence

  class BarberQueue {
    var currentTicket: Ticket?
    var lastTicketGiven: int
    var queue: seq<Ticket>

    /** No ticket object waits twice, and the one being served is not waiting. */
    ghost predicate Valid()
      reads this
    {
      && (forall i, j :: 0 <= i < j < |queue| ==> queue[i] != queue[j])
      && (currentTicket != null ==> currentTicket !in queue)
    }

    /** The three fields, tickets taken as values. */
    function State(): QueueState
      reads this, queue, currentTicket
    {
      QueueState(lastTicketGiven, Values(queue),
                 if currentTicket == null then None else Some(currentTicket.Value()))
    }

    constructor ()
      ensures Valid() && State() == Init()
    {
      currentTicket := null;
      lastTicketGiven := 0;
      queue := [];
    }

    /**
     * Gives the next number to a new ticket taken at clock reading `now` and
     * appends it to the line. Returns the number and how many people are
     * ahead of it: the tickets before it in the line.
     */
    method TakeTicket(now: Time) returns (number: int, ahead: nat)
      requires Valid()
      modifies this
      ensures Valid() && State() == Take(old(State()), now)
      ensures number == old(lastTicketGiven) + 1 == lastTicketGiven
      ensures ahead == |queue| - 1 == |old(queue)| && queue[ahead].Value() == TicketState(number, now, None)
      ensures queue[..ahead] == old(queue) && currentTicket == old(currentTicket)
    {
      lastTicketGiven := lastTicketGiven + 1;
      var ticket := new Ticket(lastTicketGiven, now);
      queue := queue + [ticket];
      number := ticket.number;
      ahead := |queue| - 1;
      assert Values(queue) == Values(old(queue)) + [ticket.Value()];
    }

    /**
     * Takes the head of the line, marks it served at clock reading `now` and
     * makes it the current ticket; with nobody waiting, clears the current ticket.
     */
    method ServeNext(now: Time)
      requires Valid()
      modifies this, if queue == [] then {} else {queue[0]}
      ensures Valid() && State() == Serve(old(State()), now)
      ensures |old(queue)| > 0 ==> currentTicket == old(queue[0]) && queue == old(queue[1..])
      ensures |old(queue)| == 0 ==> currentTicket == null && queue == old(queue)
    {
      if |queue| > 0 {
        var head := queue[0];
        queue := queue[1..];
        currentTicket := head;
        head.MarkServed(now);
        assert Values(queue) == old(Values(queue))[1..];
      } else {
        currentTicket := null;
      }
    }

    /**
     * Replaces the counter, the line and the current ticket by those of the
     * payload `file` (None: there is no file, and nothing changes). A record
     * that cannot be read stops the load with its error; the fields replaced
     * before it stay replaced.
     */
    method LoadFromFile(file: Option<Payload>) returns (err: Option<ParseError>)
      requires Valid()
      modifies this
      ensures Valid() && LoadOutcome(State(), err) == Restore(old(State()), file)
      ensures forall t :: t in queue && t !in old(queue) ==> fresh(t)
      ensures file.Some? && err.None? && currentTicket != null ==> fresh(currentTicket)
    {
      err := None;
      if file.None? {
        return;
      }
      var data := file.value;
      lastTicketGiven := data.lastTicketGiven;

      var loaded, failure := LoadTickets(data.queue);
      if failure.Some? {
        err := failure;
        return;
      }
      queue := loaded;

      var current := ParseCurrent(data.currentTicket);
      if current.Failure? {
        err := Some(current.error);
      } else if current.value.None? {
        currentTicket := null;
      } else {
        var v := current.value.value;
        currentTicket := new Ticket.Restored(v.number, v.timeTaken, v.timeServed);
      }
    }
  }

  /**
   * The line of a payload as new ticket objects, head first; or the error of
   * the first record that cannot be read.
   */
  method LoadTickets(ds: seq<TicketDict>) returns (loaded: seq<Ticket>, err: Option<ParseError>)
    ensures err.None? ==> ParseTickets(ds) == Success(Values(loaded))
    ensures err.Some? ==> ParseTickets(ds) == Failure(err.value)
    ensures forall k :: 0 <= k < |loaded| ==> fresh(loaded[k])
    ensures forall k, l :: 0 <= k < l < |loaded| ==> loaded[k] != loaded[l]
  {
    loaded, err := [], None;
    var i := 0;
    while i < |ds|
      invariant 0 <= i <= |ds|
      invariant ParseTickets(ds[..i]) == Success(Values(loaded))
      invariant forall k :: 0 <= k < |loaded| ==> fresh(loaded[k])
      invariant forall k, l :: 0 <= k < l < |loaded| ==> loaded[k] != loaded[l]
    {
      var parsed := FromDict(ds[i]);
      if parsed.Failure? {
        ParseTicketsStopsAtFailure(ds, i);
        err := Some(parsed.error);
        return;
      }
      var v := parsed.value;
      var ticket := new Ticket.Restored(v.number, v.timeTaken, v.timeServed);
      assert ds[..i + 1][..i] == ds[..i];
      assert Values(loaded + [ticket]) == Values(loaded) + [v];
      loaded := loaded + [ticket];
      i := i + 1;
    }
    assert ds[..i] == ds;
  }
}

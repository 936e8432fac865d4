/**
 * A ticket: its number, the time it was taken and, once served, the time it
 * was served; and the flat record a ticket is written to and read back from.
 */
module Tickets {
  import opened Wrappers

  /** A clock reading. The program reads the wall clock; here the reading is a parameter. */
  type Time = nat

  /** What the three fields of a ticket hold at one instant. */
  datatype TicketState = TicketState(number: int, timeTaken: Time, timeServed: Option<Time>)

  /** A value stored under one key of a ticket record (a JSON object once written out). */
  datatype FieldValue =
    | Null            // JSON null
    | Int(i: int)     // a JSON integer
    | Iso(t: Time)    // the ISO 8601 text of the timestamp t
    | Str(s: string)  // any other text: one that is not an ISO 8601 timestamp

  /** A ticket record: the dictionary built by `toDict` and read by `fromDict`. */
  type TicketDict = map<string, FieldValue>

  /** Why a ticket record cannot be read back: a missing key (KeyError) or a bad value. */
  datatype ParseError =
    | MissingKey(key: string)
    | BadTimestamp(key: string)
    | BadNumber

  /** Python's truth value of a stored value: null, 0 and the empty text are false. */
  predicate Truthy(v: FieldValue) {
    match v
    case Null => false
    case Int(i) => i != 0
    case Iso(_) => true
    case Str(s) => s != ""
  }

  /** The ticket t once it has been served at clock reading `now`. */
  function Served(t: TicketState, now: Time): TicketState {
    t.(timeServed := Some(now))
  }

  /** The record of a ticket; an absent service time is written as null. */
  function ToDict(t: TicketState): (d: TicketDict)
    ensures d.Keys == {"number", "timeTaken", "timeServed"}
    ensures d["timeServed"] == Null <==> t.timeServed == None
    ensures FromDict(d) == Success(t)
  {
    map["number" := Int(t.number),
        "timeTaken" := Iso(t.timeTaken),
        "timeServed" := if t.timeServed.Some? then Iso(t.timeServed.value) else Null]
  }

  /**
   * Reads a ticket back from its record. The keys are looked up in the
   * order the program looks them up: timeTaken, timeServed, number. A false
   * timeServed value (null, 0, empty text) means "not served yet".
   */
  function FromDict(d: TicketDict): (r: Result<TicketState, ParseError>)
    ensures "timeTaken" !in d ==> r == Failure(MissingKey("timeTaken"))
    ensures "timeTaken" in d && !d["timeTaken"].Iso? ==> r == Failure(BadTimestamp("timeTaken"))
    ensures "timeTaken" in d && d["timeTaken"].Iso? && "timeServed" !in d ==> r == Failure(MissingKey("timeServed"))
    ensures "timeTaken" in d && d["timeTaken"].Iso? && "timeServed" in d && Truthy(d["timeServed"]) && !d["timeServed"].Iso?
      ==> r == Failure(BadTimestamp("timeServed"))
    ensures ("timeTaken" in d && d["timeTaken"].Iso? && "timeServed" in d && (!Truthy(d["timeServed"]) || d["timeServed"].Iso?)
             && "number" !in d)
      ==> r == Failure(MissingKey("number"))
    ensures ("timeTaken" in d && d["timeTaken"].Iso? && "timeServed" in d && (!Truthy(d["timeServed"]) || d["timeServed"].Iso?)
             && "number" in d && d["number"].Int?)
      ==> r.Success?
    ensures r.Success? ==>
      && d.Keys >= {"number", "timeTaken", "timeServed"}
      && d["number"] == Int(r.value.number)
      && d["timeTaken"] == Iso(r.value.timeTaken)
      && (r.value.timeServed.None? <==> !Truthy(d["timeServed"]))
      && (r.value.timeServed.Some? ==> d["timeServed"] == Iso(r.value.timeServed.value))
  {
    if "timeTaken" !in d then Failure(MissingKey("timeTaken"))
    else if !d["timeTaken"].Iso? then Failure(BadTimestamp("timeTaken"))
    else if "timeServed" !in d then Failure(MissingKey("timeServed"))
    else if Truthy(d["timeServed"]) && !d["timeServed"].Iso? then Failure(BadTimestamp("timeServed"))
    else if "number" !in d then Failure(MissingKey("number"))
    else if !d["number"].Int? then Failure(BadNumber)
    else
      var served := if Truthy(d["timeServed"]) then Some(d["timeServed"].t) else None;
      Success(TicketState(d["number"].i, d["timeTaken"].t, served))
  }

  /** A ticket object; serving it changes its `timeServed` field in place. */
  class Ticket {
    var number: int
    var timeTaken: Time
    var timeServed: Option<Time>

    /** The ticket's fields as a value. */
    function Value(): TicketState
      reads this
    {
      TicketState(number, timeTaken, timeServed)
    }

    /** `Ticket(number)`: a new, unserved ticket stamped with the clock reading `now`. */
    constructor (number: int, now: Time)
      ensures Value() == TicketState(number, now, None)
    {
      this.number := number;
      this.timeTaken := now;
      this.timeServed := None;
    }

    /** `Ticket(number, timeTaken, timeServed)`: a ticket rebuilt from stored times. */
    constructor Restored(number: int, timeTaken: Time, timeServed: Option<Time>)
      ensures Value() == TicketState(number, timeTaken, timeServed)
    {
      this.number := number;
      this.timeTaken := timeTaken;
      this.timeServed := timeServed;
    }

    /**
     * Records the clock reading `now` as the service time; the number and
     * the time taken stay. Read from the same non-decreasing clock as the
     * time taken, the service time is never before it.
     */
    method MarkServed(now: Time)
      modifies this
      ensures Value() == Served(old(Value()), now)
      ensures number == old(number) && timeTaken == old(timeTaken) && timeServed == Some(now)
      ensures old(timeTaken) <= now ==> timeTaken <= timeServed.value
    {
      timeServed := Some(now);
    }
  }

  /** The values of a sequence of ticket objects, in order. */
  function Values(ts: seq<Ticket>): (vs: seq<TicketState>)
    reads ts
    ensures |vs| == |ts|
    ensures forall i :: 0 <= i < |ts| ==> vs[i] == ts[i].Value()
  {
    seq(|ts|, i reads ts requires 0 <= i < |ts| => ts[i].Value())
  }
}

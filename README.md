# Barber queue: a verified model

This project models the ticket queue of a barber shop's queue system in Dafny.
Customers take sequentially numbered tickets and wait in one line. The barber
serves the line one ticket at a time, head first. The state can be saved to a
file and loaded back.

The model follows the program's two classes:

- `Tickets` holds a ticket's value (`TicketState`: number, time taken, optional
  time served) and the class `Ticket`, whose `MarkServed` sets the service time
  in place. It also holds the flat record a ticket is written to (`ToDict`) and
  read back from (`FromDict`). A record maps keys to `FieldValue`s: `Null`,
  `Int`, `Iso(t)` for the ISO 8601 text of a timestamp, and `Str` for any other
  text.
- `BarberQueues.BarberQueue` is the queue object. Its fields are
  `lastTicketGiven`, `queue` (a sequence of `Ticket` objects) and
  `currentTicket`. `TakeTicket`, `ServeNext` and `LoadFromFile` update them in
  place. Each method is proved to act on `State()` as the matching function in
  `QueueSpec` or `Persistence` says.
- `QueueSpec` holds the queue as a value (`QueueState`) and the effect of each
  operation (`Take`, `Serve`). It has the two read-only views: `Status`
  (viewStatus) and `ViewCurrent` (viewCurrent). It also holds runs of calls
  (`Run`, `ServedLog`) and the invariants proved over them.
- `Persistence` holds the payload that saveToFile writes (`Payload`,
  `Snapshot`) and what loadFromFile does with it (`Restore`).

The wall clock is a parameter: every operation that reads the time takes a
clock reading `now`, a natural number. A missing file is `None` in place of a
payload. The exceptions `fromDict` raises while loading (a missing key, a bad
timestamp) are returned as a `ParseError`.

The model follows barber_queue.py. Some of its behaviour is easy to misread:

- `serveNext` on an empty line sets `currentTicket` to none. It does not leave
  it unchanged (barber_queue.py:52-53).
- Loading is not atomic. `lastTicketGiven` is replaced first. The line is
  replaced only if every record in it can be read. The current ticket is
  replaced last. A load that fails keeps the fields replaced before the
  failure (barber_queue.py:93-95). `Persistence.Restore` states this.
- There is no served-ticket history, no average wait time and no new-day
  reset in this code. The tests (test_barber_queue.py:22, 33, 59) use
  `servedTickets`, `getAverageWaitTime` and `lastResetDate`, which the code
  does not define. The payload holds only `lastTicketGiven`, `queue` and
  `currentTicket` (barber_queue.py:80-84).
- A current ticket read from a file may have no service time. `viewCurrent`
  then fails, because it formats a missing time. `QueueSpec.ViewCurrent`
  returns `NoServiceTime` for this case.

## Model

| member | source | states |
|---|---|---|
| `Tickets.Ticket.constructor` | barber_queue.py:6-9 | `Ticket(number)` stamps the ticket with the clock reading; it is unserved |
| `Tickets.Ticket.Restored` | barber_queue.py:6-9 | `Ticket(number, timeTaken, timeServed)` keeps the given times |
| `Tickets.Ticket.MarkServed` | barber_queue.py:11-12 | sets `timeServed` to the clock reading; number and time taken unchanged; if `timeTaken <= now` the ticket is served no earlier than taken |
| `Tickets.ToDict` | barber_queue.py:14-19 | the record has exactly the keys number, timeTaken, timeServed; an absent service time is written as null; `FromDict` reads the record back as the same ticket |
| `Tickets.FromDict` | barber_queue.py:21-25 | keys are checked in the program's order: a missing timeTaken, timeServed or number is a missing-key error for that key; a timeTaken that is not an ISO timestamp, or a true timeServed that is not one, is a bad-timestamp error; every record with all keys present, an ISO timeTaken, a timeServed that is false or ISO and an integer number is read successfully; on success every field comes from the record, and a false timeServed value reads as "not served" |
| `QueueSpec.Status` | barber_queue.py:64-77 | the status serves the current ticket's number, or nobody when there is none; it lists one line per waiting ticket, head first, with that ticket's number and time taken; the people waiting are the number of lines |
| `QueueSpec.ViewCurrent` | barber_queue.py:56-62 | no current ticket gives "nobody"; a current ticket without a service time is an error; otherwise it reports exactly the current ticket's number and two times |
| `QueueSpec.StatusAfterTake` | barber_queue.py:64-77 | after takeTicket the status lists the old lines plus the new ticket's line at the end; the serving number is unchanged |
| `QueueSpec.StatusAfterServe` | barber_queue.py:64-77 | after serveNext the status serves the old head and lists the old lines after the head, in order; on an empty line it serves nobody |
| `QueueSpec.TakePreservesOrdered` | barber_queue.py:34-37 | takeTicket keeps waiting numbers strictly increasing and at most `lastTicketGiven` |
| `QueueSpec.ServePreservesOrdered` | barber_queue.py:44-53 | serveNext keeps waiting numbers strictly increasing and at most `lastTicketGiven` |
| `QueueSpec.GaplessIsOrdered` | barber_queue.py:34-37 | waiting numbers that are exactly the last numbers given are strictly increasing and at most the counter |
| `QueueSpec.TakePreservesGapless` | barber_queue.py:34-37 | takeTicket keeps the waiting numbers exactly the last numbers given, one per waiting ticket |
| `QueueSpec.ServePreservesGapless` | barber_queue.py:44-53 | serveNext keeps the waiting numbers exactly the last numbers given, one per waiting ticket |
| `QueueSpec.FifoService` | barber_queue.py:34-53 | from a new queue, after any calls, the tickets served are exactly 1..k in that order and the waiting ones are exactly k+1..lastTicketGiven |
| `QueueSpec.IssueFromFresh` | barber_queue.py:29-37 | from a new queue, n takeTicket calls give counter n and waiting tickets numbered 1..n in call order, each stamped with its call's clock reading, unserved |
| `QueueSpec.TakeKeepsTimes` | barber_queue.py:34-37 | with a clock that does not run backwards, takeTicket keeps every time at most the clock and the current ticket served no earlier than taken |
| `QueueSpec.ServeKeepsTimes` | barber_queue.py:44-53 | with a clock that does not run backwards, serveNext keeps waiting tickets unserved and the current ticket served no earlier than taken |
| `QueueSpec.ServedNotBeforeTaken` | barber_queue.py:8-12 | from a new queue, with a clock that never runs backwards, the current ticket was served no earlier than it was taken, and viewCurrent never fails |
| `Persistence.ParseTickets` | barber_queue.py:94 | on success the tickets are the records read one by one, in order; a failure is the error of the first record that cannot be read; if every record can be read, reading succeeds |
| `Persistence.ParseCurrent` | barber_queue.py:95 | null and an empty record mean no current ticket; otherwise the result is the ticket `FromDict` reads from the record, or exactly the error `FromDict` reports |
| `Persistence.Snapshot` | barber_queue.py:79-84 | the payload records the counter, the `ToDict` record of each waiting ticket in order, and the current ticket's `ToDict` record or null when there is none; its records read back as exactly the waiting tickets in order and the current ticket |
| `Persistence.Restore` | barber_queue.py:89-98 | no file: state unchanged, no error; with a payload the counter is always replaced; a failed load keeps the current ticket, and keeps the old line when a waiting record is unreadable; it succeeds exactly when all records can be read, and then the current ticket is the one read from the payload; a failed load reports the error of the first unreadable waiting record, or else of the current ticket's record |
| `Persistence.ParseTicketsOfRecords` | barber_queue.py:82 | the records of any tickets read back as exactly those tickets, in order |
| `Persistence.RestoreSnapshot` | barber_queue.py:79-98 | loading the saved payload of a state gives back that state exactly, from any state, with no error |
| `Persistence.ParseTicketsStopsAtFailure` | barber_queue.py:94 | a record that cannot be read, after records that can, makes reading the whole line fail with its error |
| `Persistence.LoadedCurrentMayBeUnserved` | barber_queue.py:95 | a payload whose current ticket is unserved loads without error, and viewCurrent then fails |
| `BarberQueues.BarberQueue.constructor` | barber_queue.py:29-32 | a new queue has counter 0, no waiting tickets and no current ticket |
| `BarberQueues.BarberQueue.TakeTicket` | barber_queue.py:34-41 | the counter rises by one; a new unserved ticket with that number, stamped now, is appended; waiting tickets stay in order; people ahead equals the tickets before it |
| `BarberQueues.BarberQueue.ServeNext` | barber_queue.py:44-54 | a non-empty line loses exactly its head, which is marked served and becomes current; the rest keep their order; an empty line clears the current ticket; the counter never changes |
| `BarberQueues.LoadTickets` | barber_queue.py:94 | builds new, distinct ticket objects whose values are the records read in order, or returns the first record's error |
| `BarberQueues.BarberQueue.LoadFromFile` | barber_queue.py:89-98 | the new state and the error are exactly those `Restore` gives from the old state; newly waiting tickets are fresh objects, and after a successful load a current ticket is a fresh object |

## Left out

- The interactive menu loop (`mainMenu`): it only dispatches the user's choice to the operations above.
- All printed output and the `%I:%M:%S %p` formatting of times. `viewStatus` and `viewCurrent` are modelled as functions returning what they would print.
- Opening, writing and reading the file, and the JSON text. Only the payload and the "no file" case are modelled. Other I/O errors are not modelled.
- The wall clock: each operation takes the clock reading as a parameter.
- The ISO 8601 text of timestamps. A record holds `Iso(t)` for the text of the timestamp `t`, and `Str(s)` for any other text.
- saveToFile, viewStatus and viewCurrent are not class members here. The payload saveToFile writes is `Persistence.Snapshot(q.State())`, the status viewStatus shows is `QueueSpec.Status(q.State())`, and what viewCurrent shows is `QueueSpec.ViewCurrent(q.State())`.
- Tickets.FromDict: rejects a `number` that is not an integer (`BadNumber`), because the model types ticket numbers as integers; the program accepts any JSON value there.
- Persistence.Restore: the payload's `lastTicketGiven`, `queue` and `currentTicket` are typed. A payload missing one of these keys, or holding a value of another JSON type, is not modelled.
- Persistence.ParseTickets: ticket records hold only null, integers and text. JSON floats, booleans, lists and objects inside a ticket record are not modelled.
- The served-ticket history, the average wait time and the new-day reset: this code has none of them.

# Protohackers servers: models and proofs

A Dafny model of the servers in this repository that carry state or arithmetic worth a proof: the Zig speed daemon, the Boguscoin rewriter of the Zig mob-in-the-middle proxy, the buffer, session list and price store behind the C servers, the means-to-an-end interpreters in both languages, and the Zig prime-time server.

- `Protocol.dfy` is the speed daemon as a state machine. A step is one locked region, or work on data that only the running thread may touch; a run is an arbitrary interleaving of any number of worker threads. The region under the cars lock is split into the sighting and one step per ticket appended, a dispatch pass into one step per ticket looked at, setting a timer and a removal into their two parts, so other threads may run in between. `Passes.dfy` joins an undisturbed pass to the loop of the queue object and says what stays of the order of the queue; `Stranding.dfy` is one particular run.
- `Sightings.dfy`, `Cars.dfy` and `Dispatch.dfy` hold the per-car logic, the mutable cars, the road index and the ticket queue. `Histories.dfy` is a reference for a car that looks only at what was reported, and `Logs.dfy` ties cars and tickets to the log of handled messages. `Partition.dfy`, `Bags.dfy` and `Marks.dfy` are the general facts about stable partitions, conservation, and pairs that mark keys as they go.
- `Reads.dfy` says what becomes of the messages of a read and where roles come from; `Progress.dfy` that the daemon never locks itself out.
- `Calendar.dfy` is the conversion from Unix seconds to dates, proved against the formula of "Seconds Since the Epoch", section 4.16 of the Base Definitions of IEEE Std 1003.1-2017.
- `Messages.dfy` and `Wire.dfy` are the binary codec; `Framing.dfy` the theory of self-delimiting frames over any messages.
- `Boguscoin.dfy` is the in-place rewriter; `Rewriting.dfy` and `Words.dfy` the theories of left-to-right rewriting and of rewriting word by word.
- `ByteQueue.dfy`, `SessionList.dfy`, `Prices.dfy` and `PriceServers.dfy` are the C utilities and the two means-to-an-end servers; `Machines.dfy` the theory of servers behind a gate that hands over whole messages.
- `PrimeTime.dfy` is trial division and the line server, over `Lines.dfy`. `Slices.dfy` collects facts about parts of sequences.

Code that updates state in place is a class or a method with loops, proved equal to a function of its inputs; the theorems are about those functions and about whole runs. `dafny verify dfyconfig.toml` checks the project.

Results about the code that its comments do not say:

- `addDays` is right from the first of January (the only way the daemon calls it) but not from every date: `Calendar.AddedDaysExactIff` says exactly when it completes and when it is right, for every date. From 15 December it cannot add 20 days (`Calendar.DecemberTraps`); 365 days after 1 March of a common year before a leap year it answers a day too late (`Calendar.AddedDaysMiscounts`). `addSecs`, `addMins` and `addHours` carry nothing from one unit to the next but what the count itself holds, so one second after second 59 is second 60 (`Calendar.NothingCarried`); `Calendar.AddedSecsExact` and its companions are the exact conditions, which the epoch always meets.
- A failed send ends a dispatch pass with its ticket still queued, and nobody owes another pass: `Protocol.PassStrandsIff` is the exact condition and `Stranding.StrandedTicket` a run in which a deliverable ticket stays behind.
- The speed on a ticket is cast to 16 bits without a check: `Sightings.TicketSpeedFitsIff` says when that is safe, and `Sightings.OneMileInFourSeconds` is an input on which it is not.
- The `IAmDispatcher` branch of `decode` computes lengths that are not relative to `start`, in 8 bits: `Wire.DispatcherDecodedIff`, `Wire.DispatcherTruncated` and `Wire.DispatcherRepeats` say what follows.
- The Boguscoin scan looks only for a space before an address, and not behind the start of its slice. So an address at the start of a later line of the buffer is left alone (`Boguscoin.LaterLineMissed`), and a word such as `x77...` may have its tail replaced (`Boguscoin.HiddenAddressReplaced`). `Boguscoin.ScanIsIntendedIff` says for every message exactly when it is handled as meant. `Boguscoin.FitsOnlyAfterwards` gives messages that fail although their rewritten form would fit the buffer.
- `decode` fails on a buffer of more than 64 whole messages, and with it the client: `Wire.CameraChunks` is an if-and-only-if in that limit.
- `i * i` in trial division overflows exactly on primes from 3037000499 squared on: `PrimeTime.IsPrime`.
- The C and Zig price servers can differ on repeated timestamps and on negative means that are not whole (`Prices.ServersDiffer`); `Prices.SameBytesIff` is the exact condition for every batch, `Prices.UnrepeatedBytesIff` its plain form where no timestamp is repeated inside a query's range.

## Model

| member | source | states |
|---|---|---|
| Protocol.AllReachable | zig/src/6-speed-daemon/main.zig:148-284 | Whatever the interleaving of worker threads, every reachable state satisfies the whole invariant: index, timers, cars, tickets, conservation, debts. |
| Protocol.TicketsAreDue | zig/src/6-speed-daemon/logic.zig:448-554 | In every reachable state every plate has exactly the tickets issued, in order, the marks and the histories that its reports, as handled, make due: none is missed and none issued for less. |
| Reads.ReadHandled | zig/src/6-speed-daemon/main.zig:194-283 | From taking up a read until it is idle again, a thread handles the messages of the read in order: all of them, or the first of them when it removes the client. |
| Reads.ReadSoFar | zig/src/6-speed-daemon/main.zig:194-283 | At any moment between, the messages handled and those left are the messages of the read. |
| Reads.MessageEffects | zig/src/6-speed-daemon/main.zig:200-281 | A message is refused exactly when it identifies a second time, asks for a heartbeat a second time, reports a plate without being a camera or an empty one, or is a server's; a refused one changes nothing and ends in removal, any other does to its client what it says and leaves the rest to be handled. |
| Reads.RoleComesFrom | zig/src/6-speed-daemon/logic.zig:301-320 | A client has its role, with every field, from a message of its own that was handled while it lived. |
| Reads.HeartbeatOnce | zig/src/6-speed-daemon/main.zig:240-251 | A second heartbeat request of a living client is refused, whatever the intervals. |
| Reads.IdentifiedOnce | zig/src/6-speed-daemon/main.zig:205-224 | So is a second identification. |
| Progress.NoDeadlock | zig/src/6-speed-daemon/main.zig:264-275 | In every reachable state in which a thread is busy, a busy thread can take a step: the locks never shut all of them out. |
| Progress.IdleStarts | zig/src/6-speed-daemon/main.zig:385-408 | An idle thread can take up anything a client nobody works on sends, or its removal. |
| Protocol.ExactlyOnce | zig/src/6-speed-daemon/logic.zig:54-105 | Each ticket ever issued was issued once and is at any moment in exactly one place: held by the thread that issued it, queued, or sent; no other ticket is anywhere. |
| Protocol.OneTicketPerDay | zig/src/6-speed-daemon/logic.zig:516-548 | In every reachable state two tickets issued for one plate have disjoint sets of end-point days, whatever their roads and whichever threads issued them. |
| Protocol.OneDeliveryPerDay | zig/src/6-speed-daemon/logic.zig:65-105 | Two deliveries for one plate never share a day either: no ticket is sent twice. |
| Protocol.EveryTicketJustified | zig/src/6-speed-daemon/logic.zig:491-548 | Every ticket ever issued says what two handled reports of its plate on its road say: where and when, in order, at least four seconds apart, over the limit, and the correctly rounded speed. |
| Protocol.NoTicketStranded | zig/src/6-speed-daemon/main.zig:226-275 | Unless the last pass to end did so in a failed send, a queued ticket whose road has a registered dispatcher is owed a pass by some running thread, or a pass is under way. |
| Protocol.PassStrandsIff | zig/src/6-speed-daemon/logic.zig:90-105 | The exact condition: a pass that ends leaves a deliverable ticket nobody owes a pass exactly when it ended in a failed send and no other thread owes one; after a failed send the ticket is still queued and deliverable. |
| Stranding.StrandedTicket | zig/src/6-speed-daemon/logic.zig:90 | A run that ends with a sendable ticket in the queue, a dispatcher registered for its road, and no thread that owes or runs a pass. |
| Passes.UndisturbedPass | zig/src/6-speed-daemon/logic.zig:65-105 | A pass with no other step in between sends the first deliverable tickets of its queue in order and leaves the rest, as the loop of the queue object does; when it ends, these are all of them exactly if no send failed. |
| Passes.QueueOrder | zig/src/6-speed-daemon/logic.zig:54-63 | While two tickets are queued their order never changes, whatever the interleaving. |
| Passes.JoinsTheEnd | zig/src/6-speed-daemon/logic.zig:54-63 | A ticket that a thread queues goes behind all that are queued. |
| Passes.QueueMoves | zig/src/6-speed-daemon/logic.zig:71-104 | What a step does to the queue: nothing, a ticket joins its end, or the ticket looked at leaves it and the pass starts again at the head. |
| Protocol.PassSendsFirst | zig/src/6-speed-daemon/logic.zig:74-94 | While no other thread owes a pass, what a pass sends is the first ticket of the stable partition of the queue at that moment, and it leaves what the partition leaves. |
| Protocol.DeliveredToRegistered | zig/src/6-speed-daemon/logic.zig:78-90 | Each delivery was made by one look of a pass, out of the queue, to a live client that was at that moment identified as a dispatcher of the road and registered for it. |
| Protocol.RoleIsFinal | zig/src/6-speed-daemon/logic.zig:301-320 | While a client lives its role is set at most once and never changes. |
| Protocol.StepKeepsInv | zig/src/6-speed-daemon/main.zig:129-284 | Every enabled step of any thread keeps the invariant. |
| Protocol.StepKeepsIndex | zig/src/6-speed-daemon/logic.zig:672-704 | After every step a descriptor is in a road's set exactly when a live client identified as a dispatcher lists the road, a removal in progress excepted. |
| Protocol.StepKeepsTimers | zig/src/6-speed-daemon/logic.zig:322-367 | After every step timers and clients point at each other one to one, a timer that its thread is about to enter in the table excepted. |
| Protocol.StepKeepsThreads | zig/src/6-speed-daemon/main.zig:129-145 | Busy threads work on distinct live clients, and at most one holds the cars lock and at most one the tickets lock. |
| Protocol.StepKeepsCars | zig/src/6-speed-daemon/main.zig:264-271 | Every step keeps cars and tickets exactly what the log of handled messages makes them. |
| Logs.ReportKeeps | zig/src/6-speed-daemon/main.zig:264-271 | A handled report changes one car and issues exactly the tickets it makes due. |
| Protocol.StepKeepsConservation | zig/src/6-speed-daemon/logic.zig:54-105 | Every step moves tickets between holder, queue and log without losing or inventing one. |
| Protocol.StepKeepsNoneStranded | zig/src/6-speed-daemon/main.zig:230-235 | After every step, also inside a pass and with other threads changing the roads, a deliverable queued ticket is owed a pass or a pass is under way, unless a send failed; and a pass has walked past nothing deliverable that nobody owes. |
| Protocol.LookKeepsDue | zig/src/6-speed-daemon/logic.zig:72-104 | So does one look of a pass at a ticket: walking on, sending and starting over, or ending. |
| Protocol.StepDelivers | zig/src/6-speed-daemon/logic.zig:75-94 | What a step sends comes out of the queue and goes to a dispatcher registered at that moment. |
| Dispatch.TicketsQueue.DispatchTicketsQueue | zig/src/6-speed-daemon/logic.zig:65-105 | The restart-from-the-head loop sends the deliverable tickets in queue order, to registered dispatchers, up to the first failed send, whose ticket stays queued; the queue is what a stable partition leaves. |
| Dispatch.TicketsQueue.FirstDeliverable | zig/src/6-speed-daemon/logic.zig:74-95 | The inner walk finds the first deliverable ticket, or shows that there is none. |
| Dispatch.TicketsQueue.Append | zig/src/6-speed-daemon/logic.zig:54-63 | A ticket joins the end of the queue. |
| Dispatch.FullPassPartitions | zig/src/6-speed-daemon/logic.zig:71-104 | A complete pass sends exactly the deliverable tickets, and none that is left is deliverable. |
| Dispatch.PassConserves | zig/src/6-speed-daemon/logic.zig:71-104 | However far a pass gets, sent and left tickets together are the queue it started from. |
| Dispatch.LeftAfter | zig/src/6-speed-daemon/logic.zig:97-103 | Removing the ticket just sent and starting over is one more step of the same partition. |
| Dispatch.FirstOutgoing | zig/src/6-speed-daemon/logic.zig:74-94 | The first deliverable ticket of the queue is the first the partition sends. |
| Dispatch.Roads.AddDispatcher | zig/src/6-speed-daemon/logic.zig:686-704 | The index afterwards lists the dispatcher for each of its roads and is unchanged otherwise. |
| Dispatch.Roads.RemoveDispatcher | zig/src/6-speed-daemon/logic.zig:672-684 | The index afterwards lists the dispatcher for none of its roads and is unchanged otherwise. |
| Dispatch.Registered | zig/src/6-speed-daemon/logic.zig:692-703 | Per road, the dispatchers are the old ones, and the new one exactly on the roads it lists. |
| Dispatch.Unregistered | zig/src/6-speed-daemon/logic.zig:678-683 | Per road, the dispatchers are the old ones without the one removed from the roads it lists; emptied roads stay. |
| Cars.Car.AddObservation | zig/src/6-speed-daemon/logic.zig:448-554 | A message of the wrong type, an empty plate or another car's plate changes nothing; otherwise the car becomes the one specified, its new tickets go to the end of the queue in order, and the result counts them. |
| Cars.Car.CheckHistory | zig/src/6-speed-daemon/logic.zig:489-553 | The loop over neighbouring pairs marks days and appends tickets as specified, returning how many it appended. |
| Cars.CarTable.GetOrPut | zig/src/6-speed-daemon/logic.zig:591-604 | A plate gets the car it has, else a new one without history; no other car is touched, and the empty plate is an error. |
| Histories.ReplayIsReference | zig/src/6-speed-daemon/logic.zig:465-553 | After any sightings a car has exactly the marks, the histories and the tickets of the reference, which looks only at what was reported. |
| Histories.ReferenceKeeps | zig/src/6-speed-daemon/logic.zig:516-548 | The tickets of a car take pairwise disjoint days, all of them marked, and each is justified by two reports. |
| Histories.SightingIssues | zig/src/6-speed-daemon/logic.zig:515-548 | When a sighting makes a speeding neighbouring pair whose days were both unmarked, it issues a ticket for one of these days. |
| Histories.MarkHasReason | zig/src/6-speed-daemon/logic.zig:515-532 | Every marked day is a day of a ticket or the first day of two reports on one road that are too fast. |
| Histories.Covered | zig/src/6-speed-daemon/logic.zig:491-522 | In every history, on roads touched or not, every speeding neighbouring pair has its first day marked. |
| Histories.HistoryMeans | zig/src/6-speed-daemon/logic.zig:465-481 | A history is a sorted permutation of the records of its road, in which reports of one instant keep their order. |
| Histories.ObserveKeeps | zig/src/6-speed-daemon/logic.zig:465-553 | One sighting keeps the car what the reference makes it, on every road, also those it does not touch, and issues exactly the tickets the reference does. |
| Sightings.ScanIsDue | zig/src/6-speed-daemon/logic.zig:491-553 | The pair loop issues exactly the tickets that are due: one for every speeding neighbouring pair, in order, whose two days were neither marked before nor taken by an earlier ticket of the call; the order of its tests does not matter. |
| Marks.ScanIsDue | zig/src/6-speed-daemon/logic.zig:515-532 | The same over any pairs and keys, where a first key returns in a later pair only if it is both keys of its own. |
| Sightings.SortedOrdered | zig/src/6-speed-daemon/logic.zig:480-481 | Which holds because the history is sorted. |
| Sightings.UnmarkedPairTicketed | zig/src/6-speed-daemon/logic.zig:515-548 | Every speeding neighbouring pair with neither day marked before the call shares a day with a ticket of the call. |
| Sightings.MarkExplained | zig/src/6-speed-daemon/logic.zig:521-531 | A newly marked day is the first day of a speeding neighbouring pair or a day of a ticket. |
| Sightings.DueKeeps | zig/src/6-speed-daemon/logic.zig:515-548 | The tickets due take pairwise disjoint days, none marked before, all marked afterwards, each for a speeding neighbouring pair. |
| Sightings.NeighboursAreEnough | zig/src/6-speed-daemon/logic.zig:491-512 | On a road with one limit and gaps over three seconds, if any two sightings imply an average over the limit, some neighbouring pair between them is over it. |
| Histories.SpeederIsMarked | zig/src/6-speed-daemon/logic.zig:491-522 | So after any run a car that averaged over the limit between any two such sightings has a marked day in between. |
| Sightings.SpeedingInIntegers | zig/src/6-speed-daemon/logic.zig:498-512 | The tests in fractions of an hour mean: a gap of at most 3 seconds is too close, and speeding is 7200 d > (2 limit + 1) s. |
| Sightings.TicketSpeedRounds | zig/src/6-speed-daemon/logic.zig:542 | The speed on a ticket is the average in hundredths rounded to nearest, halves up, stated in integers. |
| Sightings.TicketSpeedOverLimit | zig/src/6-speed-daemon/logic.zig:512-542 | A ticket's speed is at least 100 limit + 50. |
| Sightings.TicketSpeedFitsIff | zig/src/6-speed-daemon/logic.zig:542 | The 16-bit cast of the speed is safe exactly when 720000 d < 131071 s. |
| Sightings.OneMileInFourSeconds | zig/src/6-speed-daemon/logic.zig:542 | An input on which it is not: a mile in four seconds is a ticket for 90000 hundredths. |
| Sightings.OneMileInFortyFiveSeconds | zig/src/6-speed-daemon/logic.zig:498-542 | An input on which it is: a mile in 45 seconds at a limit of 60 is a ticket for 8000 hundredths. |
| Sightings.TwoSightings | zig/src/6-speed-daemon/logic.zig:465-548 | A new car seen twice on a road, the second time over the limit, gets one ticket. |
| Sightings.SortSorts | zig/src/6-speed-daemon/logic.zig:403-406 | Sorting by timestamp yields an ordered history. |
| Sightings.SortStable | zig/src/6-speed-daemon/logic.zig:480-481 | Observations of one instant stay in order. |
| Sightings.SortByTime | zig/src/6-speed-daemon/logic.zig:480-481 | Sorting permutes the history. |
| Sightings.DisjointDays | zig/src/6-speed-daemon/logic.zig:516-526 | Disjoint date keys mean disjoint days. |
| Calendar.InitUnix | zig/src/6-speed-daemon/time.zig:23-25 | Never traps: all assertions at the end of addDays hold, and the fields are the calendar date of the Unix time. At the epoch no unit can run over. |
| Calendar.DateOfMeetsPosix | zig/src/6-speed-daemon/time.zig:72-148 | Those fields are in range and put back into the standard's seconds-since-the-epoch formula, with the calendar's month starts written out, give the Unix time; the day number is the time divided by 86400. |
| Calendar.MonthStarts | zig/src/6-speed-daemon/time.zig:469-474 | The month tables add up to the calendar's month starts, so every month has its true length. |
| Calendar.PosixSecondsInjective | zig/src/6-speed-daemon/time.zig:72-148 | They are the only in-range fields that do. |
| Calendar.SameKeyIffSameDay | zig/src/6-speed-daemon/logic.zig:442-444 | Two timestamps get the same MM/DD/YYYY key exactly when their quotients by 86400 are equal. |
| Calendar.DateKeyInjective | zig/src/6-speed-daemon/time.zig:219-325 | Different dates have different keys, although years are not cut to four digits. |
| Calendar.DateKeyReads | zig/src/6-speed-daemon/logic.zig:442-444 | The key reads, as decimal numbers, month, day and year, between slashes. |
| Calendar.DayNumberInjective | zig/src/6-speed-daemon/time.zig:93-148 | A day number names one date only. |
| Calendar.AddDays | zig/src/6-speed-daemon/time.zig:93-148 | The two subtraction loops and the settling block, traps included, compute the specified date. |
| Calendar.SettleDays | zig/src/6-speed-daemon/time.zig:121-147 | The last block carries at most once and traps exactly where an assertion or a 16-bit subtraction of the source would fail. |
| Calendar.AddSecs | zig/src/6-speed-daemon/time.zig:72-77 | Seconds, minutes and hours each take their share of the count, and only whole days of it reach the date. |
| Calendar.AddedSecsExact | zig/src/6-speed-daemon/time.zig:72-77 | From any in-range date the result is a date and time of day exactly when no unit runs over and addDays completes; it is then `count` seconds later by the standard's formula, but for the leap day addDays may miscount. |
| Calendar.NothingCarried | zig/src/6-speed-daemon/time.zig:72-91 | Inputs on which a unit runs over: one second after second 59 is second 60, and the same for minutes and hours. |
| Calendar.AddMins | zig/src/6-speed-daemon/time.zig:79-84 | Minutes and hours each take their share of the count, and only whole days of it reach the date. |
| Calendar.AddedMinsExact | zig/src/6-speed-daemon/time.zig:79-84 | The same exact statement for minutes. |
| Calendar.AddHours | zig/src/6-speed-daemon/time.zig:86-91 | The hours of the day take their share of the count, and only whole days of it reach the date. |
| Calendar.AddedHoursExact | zig/src/6-speed-daemon/time.zig:86-91 | The same exact statement for hours. |
| Calendar.AddedDaysExactIff | zig/src/6-speed-daemon/time.zig:93-148 | From any in-range date addDays completes exactly when the day of the month and the days left over reach at most into the next month of the same year, always from the first of a month; and when it completes it counts exactly `count` days if and only if the month is January or February or the whole years stepped over end in a year as long as the first. |
| Calendar.AddedDaysCompletesIff | zig/src/6-speed-daemon/time.zig:121-147 | The first half on its own: when the settling block passes all its checks. |
| Calendar.DecemberTraps | zig/src/6-speed-daemon/time.zig:121-147 | An input on which it does not: 15 December plus 20 days stops at a failed check in every year. |
| Calendar.AddedDaysCounts | zig/src/6-speed-daemon/time.zig:98-106 | From any date on which it completes, it is off by exactly the leap-day shift of the whole years it stepped over. |
| Calendar.AddedDaysMiscounts | zig/src/6-speed-daemon/time.zig:98-106 | The inputs on which it is wrong: 365 days after 1 March of a common year before a leap year it answers 1 March, 366 days later. |
| Calendar.YearLength | zig/src/6-speed-daemon/time.zig:457-474 | The month lengths of a year add up to the year length. |
| Calendar.ClosedForm | zig/src/6-speed-daemon/time.zig:457-467 | Counting years one at a time is the closed leap-year formula of the standard. |
| Calendar.YearOfTimestamp | zig/src/6-speed-daemon/time.zig:7-17 | A 32-bit timestamp has a year of at most 2106, so the 16-bit year never overflows. |
| Calendar.DaysInMonth | zig/src/6-speed-daemon/time.zig:469-474 | Months have 28 to 31 days. |
| Wire.Decode | zig/src/6-speed-daemon/messages.zig:186-317 | The decode loop computes the specified result on every buffer: message boundaries, all errors, the 64 slots, and the places where a 16-bit or 8-bit overflow or an index traps. |
| Wire.DecodesWholeMessages | zig/src/6-speed-daemon/messages.zig:198-316 | On a stream of plate, heartbeat and camera frames of any length decode consumes exactly the whole messages and leaves the beginning of the next one, or fails exactly when they are more than 64. |
| Wire.CameraChunks | zig/src/6-speed-daemon/main.zig:160-192 | However a camera client's stream is cut into reads, append, decode and discard handle the same messages in the same order and leave the same rest, exactly when no buffer of the series holds more than 64 whole messages; else they fail. |
| Wire.CameraSelfDelimiting | zig/src/6-speed-daemon/messages.zig:207-283 | No frame of a camera client begins another. |
| Wire.PlateBytes | zig/src/6-speed-daemon/messages.zig:207-241 | Byte for byte: 0x20, a length, that many bytes and a timestamp, highest byte first. |
| Wire.HeartbeatBytes | zig/src/6-speed-daemon/messages.zig:242-261 | 0x40 and an interval. |
| Wire.CameraBytes | zig/src/6-speed-daemon/messages.zig:262-283 | 0x80 and road, mile and limit. |
| Wire.DispatcherBytes | zig/src/6-speed-daemon/messages.zig:284-309 | 0x81, the number of roads and the roads. |
| Wire.RefusedBytes | zig/src/6-speed-daemon/messages.zig:202-215 | Which first bytes are unexpected or unknown types, and when a plate is empty; each fails the whole read. |
| Wire.ErrorBehind | zig/src/6-speed-daemon/messages.zig:198-311 | Such a byte fails the whole read also behind whole messages. |
| Wire.DispatcherDecodedIff | zig/src/6-speed-daemon/messages.zig:284-309 | A whole IAmDispatcher frame is read as sent exactly when it is at offset 0, lists at most 126 roads and the buffer has four bytes. |
| Wire.DispatcherTruncated | zig/src/6-speed-daemon/messages.zig:285-303 | What becomes of a frame cut short anywhere, at any offset: once four bytes are there it is waited for only while the whole buffer is shorter than the frame less a byte, then decode reads past the buffer; more than 127 roads overflow. |
| Wire.DispatcherRepeats | zig/src/6-speed-daemon/messages.zig:291-312 | At an offset equal to its own length the frame is taken as zero bytes long until the 64 slots are full. |
| Wire.Buffer.WriteTicket | zig/src/6-speed-daemon/messages.zig:131-161 | A ticket is written in full exactly when its plate fits a length byte and the frame fits the buffer; otherwise an error, with what was there still in front. |
| Wire.Buffer.AppendParts | zig/src/6-speed-daemon/messages.zig:137-151 | A row of appends succeeds exactly when all of it fits and then joins the contents. |
| Wire.Buffer.AppendSlice | zig/src/6-speed-daemon/messages.zig:137-138 | An append that does not fit changes nothing. |
| Wire.SendTicket | zig/src/6-speed-daemon/logic.zig:86-90 | Written into the cleared buffer, a ticket always fits: exactly its frame goes out, unless the plate exceeds a length byte. |
| Wire.TicketFrame | zig/src/6-speed-daemon/messages.zig:134-151 | A ticket frame has 18 bytes and the plate. |
| Wire.TicketBytes | zig/src/6-speed-daemon/messages.zig:131-151 | The frame byte for byte: 0x21, the plate and its length, road, first mile and time, second mile and time, speed, highest bytes first. |
| Wire.ReadsTicket | zig/src/6-speed-daemon/messages.zig:134-151 | The ticket at the head of a dispatcher's stream is read back field by field. |
| Wire.TicketsSelfDelimiting | zig/src/6-speed-daemon/messages.zig:131-161 | Ticket frames are injective and none begins another. |
| Wire.TicketsRoundTrip | zig/src/6-speed-daemon/logic.zig:87-90 | Any tickets sent one after the other parse back to exactly that list. |
| Framing.StreamUnique | zig/src/6-speed-daemon/main.zig:182-192 | A stream of self-delimiting frames reads in one way only. |
| Framing.PrefixOfStream | zig/src/6-speed-daemon/main.zig:160-175 | What has arrived of a stream is a stream, and the bytes to come continue it. |
| Framing.ChunksDoNotMatter | zig/src/6-speed-daemon/main.zig:160-192 | A reader that takes exactly the whole messages of its buffer does not depend on how the stream is cut, and gives up exactly when some buffer exceeds its limits. |
| Boguscoin.BoundedText.FindAndReplace | zig/src/5-mob-in-the-middle/main.zig:184-227 | The in-place scan terminates although the text changes length, succeeds exactly when every replacement fits the buffer, and then leaves the rewritten message. |
| Boguscoin.BoundedText.Advance | zig/src/5-mob-in-the-middle/main.zig:198-225 | One turn of the loop is one step of the rewriter, and leaves less to scan. |
| Boguscoin.BoundedText.DealWithToken | zig/src/5-mob-in-the-middle/main.zig:204-225 | A token is replaced exactly when it is 26 to 35 alphanumeric characters, if the result fits. |
| Boguscoin.WalkToken | zig/src/5-mob-in-the-middle/main.zig:205-214 | The walk ends at the next space, newline or end, and raises its flag exactly on a character that is not alphanumeric. |
| Boguscoin.BoundedText.ReplaceRange | zig/src/5-mob-in-the-middle/main.zig:224 | The range is replaced exactly when the result fits. |
| Boguscoin.RewrittenTwice | zig/src/5-mob-in-the-middle/main.zig:184-227 | Rewriting a rewritten message changes nothing. |
| Boguscoin.RewrittenKeepsDelimiters | zig/src/5-mob-in-the-middle/main.zig:207-225 | The rewritten message has the same spaces and newlines in the same order. |
| Boguscoin.RewrittenHasNoForeign | zig/src/5-mob-in-the-middle/main.zig:201-225 | At the start of the rewritten message and after a space no valid address other than the fixed one is left. |
| Boguscoin.ScanIsWordByWord | zig/src/5-mob-in-the-middle/main.zig:192-226 | On every message the scan equals a rewriting word by word, which says which words it looks at and from where. |
| Boguscoin.ScanIsIntendedIff | zig/src/5-mob-in-the-middle/main.zig:192-226 | On every message the scan replaces exactly the words that are addresses if and only if no word is mishandled: an open word that starts otherwise hides no foreign address from the second 7 of its first "77" on, and a closed word neither is one nor hides one. Words are open at the start, after a space, and after a word the scan looked at. |
| Boguscoin.LineIsIntendedIff | zig/src/5-mob-in-the-middle/main.zig:192-226 | The same for one-line messages, where every word is open. |
| Boguscoin.MishandledMeans | zig/src/5-mob-in-the-middle/main.zig:201-221 | Word by word: what the scan does is what was meant exactly when the word is not mishandled. |
| Boguscoin.LaterLineMissed | zig/src/5-mob-in-the-middle/main.zig:202 | Inputs with a closed word: a foreign address at the start of a later line stays, although it was meant to be replaced. |
| Boguscoin.HiddenAddressReplaced | zig/src/5-mob-in-the-middle/main.zig:194-202 | Inputs with a hidden address: the tail of a word is replaced, although the word was meant to stay. |
| Boguscoin.OneToken | zig/src/5-mob-in-the-middle/main.zig:199-225 | A token that starts with 7 becomes the fixed address, written out, exactly when it has 26 to 35 characters, all of them ASCII digits or letters; any other stays. |
| Boguscoin.TokenEnds | zig/src/5-mob-in-the-middle/main.zig:207-209 | A token ends at the next space or newline, and only there. |
| Boguscoin.UpTo988 | zig/src/5-mob-in-the-middle/main.zig:21-21 | A message of up to 988 characters never overflows the buffer on the way. |
| Boguscoin.ShortMessagesFit | zig/src/5-mob-in-the-middle/main.zig:21-21 | Nor does any rest of a message, if one more character for every 27 fits. |
| Boguscoin.FitsOnlyAfterwards | zig/src/5-mob-in-the-middle/main.zig:224 | A family of messages that fail on the way although the rewritten message fits. |
| Boguscoin.FixedAddress | zig/src/5-mob-in-the-middle/main.zig:190 | The fixed address is itself a valid address of 27 characters. |
| Rewriting.Idempotent | zig/src/5-mob-in-the-middle/main.zig:192-226 | Any left-to-right rewriter whose steps are stable is idempotent. |
| Rewriting.Unique | zig/src/5-mob-in-the-middle/main.zig:192-226 | Any function that follows the steps is the rewriter. |
| Words.AgreeIff | zig/src/5-mob-in-the-middle/main.zig:205-214 | A word-by-word treatment and one that does not care whether words are open agree on a text exactly when they agree on each word of it. |
| ByteQueue.Queue.Push | c/source/utils/queue.c:115-136 | Pushed bytes join the contents, the slack rule holds again, and the copy stays in bounds. |
| ByteQueue.Queue.PushEx | c/source/utils/queue.c:148-167 | Bytes already written behind the head join the contents, even when the buffer is reallocated. |
| ByteQueue.Queue.ExpandCapacity | c/source/utils/queue.c:36-54 | The doubling loop terminates with room to spare for the bytes asked for, after no more doublings than that takes, keeping every byte of the old buffer. |
| ByteQueue.SlackMeans | c/source/utils/queue.c:41-43 | The slack rule leaves a fifth of the free bytes. |
| ByteQueue.Queue.InitData | c/source/utils/queue.c:16-34 | The buffer never shrinks and keeps its bytes. |
| ByteQueue.Queue.PopNoCopy | c/source/utils/queue.c:234-252 | The contents are handed over and the queue is empty. |
| ByteQueue.Queue.Peek | c/source/utils/queue.c:254-266 | The contents, left in place. |
| ByteQueue.RecvRequest | c/source/utils/utils.c:51-78 | In any pieces, everything that arrives joins the contents, recv never gets an empty window, and the result says how the row of calls ended. |
| ByteQueue.WriteAtHead | c/source/utils/queue.c:148-167 | Writing at the head first and reserving afterwards appends the bytes. |
| ByteQueue.BuildResponse | c/source/prime-time/is-prime-request.c:54-55 | A response printed at the head fits the free bytes with its terminator, and joins the contents without it. |
| ByteQueue.AnyUse | c/source/utils/queue.c:115-167 | A new queue under any sequence of pushes, receives, responses printed in place and pops stays valid, never shrinks and holds everything since the last pop; a response of up to a fifth of its first capacity, less the terminator, can be printed at any time. |
| SessionList.Sessions.GetBeg | c/source/means-to-an-end/client-session.c:33-46 | From any cursor position the cursor reaches the first node. |
| SessionList.Sessions.GetEnd | c/source/means-to-an-end/client-session.c:95-108 | From any cursor position the cursor reaches the last node. |
| SessionList.Sessions.Add | c/source/means-to-an-end/client-session.c:110-124 | From any cursor position a new last node is appended and the rest stays. |
| SessionList.Sessions.Find | c/source/means-to-an-end/client-session.c:140-160 | Succeeds exactly when the id is present, on its first node; else the cursor is on the first node. |
| SessionList.Sessions.Free | c/source/means-to-an-end/client-session.c:48-83 | Only the node under the cursor goes, the rest keep their order and links both ways, and the cursor moves to its neighbour. |
| SessionList.Sessions.Remove | c/source/means-to-an-end/client-session.c:126-138 | Only the first node with the id goes; without one nothing changes. |
| SessionList.Sessions.FreeAll | c/source/means-to-an-end/client-session.c:85-93 | Terminates with no node left. |
| SessionList.LinkedWithout | c/source/means-to-an-end/client-session.c:57-62 | Once both neighbours lead past a node, the list without it is linked. |
| Prices.CServerIsMap | c/source/means-to-an-end/messages.c:29-51 | For every batch the C interpreter answers as a first-insert-wins map with truncated range means, and its array holds exactly that map. |
| Prices.MapKeepsFirsts | c/source/means-to-an-end/asset-prices.c:64-77 | That map holds for each timestamp the price of its first insert, and nothing else. |
| Prices.MeanBetween | c/source/means-to-an-end/asset-prices.c:79-104 | Both means lie between the smallest and largest matched price, and are 0 when nothing matches, as in an empty range. |
| Prices.AnswerIsMean | c/source/means-to-an-end/asset-prices.c:92-103 | The 64-bit sum does not overflow while the 32-bit count does not, and the 32-bit answer is the mean. |
| Prices.InsertOrderIsIrrelevant | c/source/means-to-an-end/messages.c:40-46 | Inserts with distinct timestamps may come in any order: everything that follows is answered alike. |
| Prices.ChunksAreOneBatch | c/source/means-to-an-end/main.c:135-164 | However the input is cut into reads, the gate sends a prefix of the answers to one batch; it has sent all of them, and nothing waits, exactly when the input is a whole number of messages. |
| Prices.SameBytesIff | zig/src/2-means-to-an-end/main.zig:81-114 | For every batch the C and Zig interpreters send the same bytes if and only if for every query the truncated mean of the first prices of each timestamp is the mean of all prices rounded down. |
| Prices.UnrepeatedBytesIff | zig/src/2-means-to-an-end/main.zig:81-114 | When no timestamp is repeated inside a query's range, that is: every query's sum is non-negative or a multiple of its count. |
| Prices.DistinctBytesIff | zig/src/2-means-to-an-end/main.zig:81-114 | The same when no timestamp is repeated at all. |
| Prices.StoresAfter | c/source/means-to-an-end/asset-prices.c:64-77 | For every batch the Zig server holds every price inserted and the C server the first of each timestamp, in order. |
| Prices.SameBytes | zig/src/2-means-to-an-end/main.zig:105 | In particular when no price is negative. |
| Prices.ServersAgreeIff | zig/src/2-means-to-an-end/main.zig:152-175 | The equivalence for every batch over connections, with the input cut differently for each server. |
| Prices.ServersDiffer | zig/src/2-means-to-an-end/main.zig:89-107 | A negative mean and a repeated timestamp each can tell the servers apart; a timestamp repeated with its price need not. |
| Prices.ParseMeans | c/source/means-to-an-end/messages.c:33-46 | What nine bytes say: 0x49 a timestamp and a price, 0x51 the two ends of a range, any other first byte nothing; the Zig server reads the same. |
| Prices.RequestsMeans | c/source/means-to-an-end/messages.c:27-34 | A stream is read nine bytes at a time, and what is shorter is not read. |
| Prices.WordValue | c/source/means-to-an-end/messages.c:33-41 | Four bytes are a number in two's complement, highest byte first. |
| Prices.InsertThenQuery | zig/src/2-means-to-an-end/main.zig:84-107 | Byte for byte: after one insert, a query of just its timestamp is answered its price, by both servers. |
| Prices.OnlyQueriesAnswered | c/source/means-to-an-end/messages.c:36-50 | Only queries are answered, with four bytes, and only inserts are stored. |
| Prices.TruncatedMeans | c/source/means-to-an-end/asset-prices.c:103 | The C mean is rounded toward zero. |
| Prices.RequestsAppend | c/source/means-to-an-end/messages.c:29-34 | Whole messages read the same whatever follows them. |
| Prices.WordKept | c/source/means-to-an-end/messages.c:33-41 | A signed 32-bit word survives encoding and decoding. |
| Prices.BytesKept | c/source/means-to-an-end/messages.c:33-41 | Four bytes survive decoding and encoding. |
| Machines.ServeIsOneBatch | c/source/means-to-an-end/main.c:135-164 | Any server behind a gate that hands over whole messages owes, at any moment, exactly the answers to one batch. |
| Machines.SimulationRuns | c/source/means-to-an-end/messages.c:29-51 | Related machines answer alike on every batch. |
| PriceServers.MessageParse | c/source/means-to-an-end/messages.c:11-52 | The loop over nine-byte frames updates the store and appends the answers as the C machine specifies; bytes short of a frame are ignored. |
| PriceServers.ParseOne | c/source/means-to-an-end/messages.c:32-49 | One message is answered or stored as specified; unknown types do nothing. |
| PriceServers.PriceStore.Push | c/source/means-to-an-end/asset-prices.c:51-62 | The growable array takes the price at its end, within its capacity. |
| PriceServers.PriceStore.InitData | c/source/means-to-an-end/asset-prices.c:10-22 | A larger array with the same prices. |
| PriceServers.PriceStore.DuplicateTimestampCheck | c/source/means-to-an-end/asset-prices.c:64-77 | True exactly when a stored price has the timestamp. |
| PriceServers.PriceStore.Query | c/source/means-to-an-end/asset-prices.c:81-104 | The truncated mean of the prices in the range, or 0. |
| PriceServers.HandleInput | c/source/means-to-an-end/main.c:115-172 | One event receives what arrived, answers a whole number of messages or lets it wait, and leaves the shared send queue empty; a failed receive answers nothing. The client stays exactly when its receive would block and its answers, if any, were delivered. |
| PriceServers.ServeClient | c/source/means-to-an-end/main.c:109-164 | A whole-number input is answered as the map answers one batch, however it arrives. |
| PriceServers.MessagesParse | zig/src/2-means-to-an-end/main.zig:81-114 | The Zig loop updates the list and the response as the Zig machine specifies. |
| PriceServers.Mean | zig/src/2-means-to-an-end/main.zig:95-105 | The mean rounded down of the prices in the range, or 0. |
| PriceServers.HandleRead | zig/src/2-means-to-an-end/main.zig:152-175 | One read answers a whole number of messages or lets it wait. |
| PriceServers.HandleConnection | zig/src/2-means-to-an-end/main.zig:134-176 | A whole-number input is answered as one batch, however it arrives. |
| PrimeTime.IsPrime | zig/src/1-prime-time/main.zig:96-106 | Trial division answers true exactly for primes wherever `i * i` stays within 64 bits, and leaves that range exactly on primes from 3037000499 squared on. |
| PrimeTime.SquareFitsIff | c/source/prime-time/is-prime-request.c:177 | Squares fit 64 bits exactly up to 3037000499. |
| PrimeTime.ProcessMessages | zig/src/1-prime-time/main.zig:118-153 | The complete lines are answered in order up to the first malformed one; a number that overflows the square stops the server. |
| PrimeTime.AnswerLine | zig/src/1-prime-time/main.zig:132-145 | One line gets the answer to its number, or the malformed response. |
| PrimeTime.HandleRead | zig/src/1-prime-time/main.zig:193-226 | A read is answered up to its last newline and the rest waits. |
| PrimeTime.HandleConnection | zig/src/1-prime-time/main.zig:175-227 | For every cutting of the input into reads the total output is that of the complete lines in one piece. |
| PrimeTime.EndsAtFirstMalformed | zig/src/1-prime-time/main.zig:133-150 | That output is one response per complete line, in order, ending with the first malformed line. |
| PrimeTime.TrueMeansPrime | zig/src/1-prime-time/main.zig:71-94 | Letter by letter: the true reply goes exactly to objects with method "isPrime" and a prime integer, the false reply exactly to those with any other number, floats included, and the malformed reply to everything else. |
| PrimeTime.Replies | zig/src/1-prime-time/main.zig:132-145 | The three replies, written out. |
| PrimeTime.LineEnds | zig/src/1-prime-time/main.zig:123-131 | A line ends at the first newline. |
| Lines.LinesAppend | zig/src/1-prime-time/main.zig:195-203 | Complete lines read the same whatever follows them. |
| Lines.LastEndSpec | zig/src/1-prime-time/main.zig:197-199 | What is handed over ends with the last newline, and what waits holds none. |

## Left out

- Protocol.NoTicketStranded: says nothing after a failed send; what is stranded then is stated exactly by `Protocol.PassStrandsIff`.
- Protocol.StepKeepsInv: one look at a ticket (the road lookup, the choice of a dispatcher, the send and the removal from the queue) is one step, although `Roads.get` (zig/src/6-speed-daemon/logic.zig:706-711) hands out a pointer after unlocking.
- Protocol.StepKeepsThreads: a descriptor is handled by one thread at a time, as one-shot events arrange. A removal for any cause, a timer event included, may start whenever no thread is at work on the client; a timer event that removes a client its handler is still at work on, reuse of a closed descriptor by the kernel while a thread still holds it, and pointers into hash maps that grow are not modelled.
- Protocol.StepKeepsTimers: timer reads and heartbeats that succeed change nothing and are not steps.
- Protocol.AllReachable: cars and clients are values in the state machine; that the methods of `Cars.dfy` and `Dispatch.dfy` have the same effect on objects is their contracts.
- Sightings.SpeedingInIntegers: floating point is replaced by exact reals, so rounding of the quotient near the thresholds is not modelled.
- Sightings.TicketSpeedRounds: the speed is unbounded where the source casts to 16 bits; the exact condition is `Sightings.TicketSpeedFitsIff`, and `Wire.Buffer.WriteTicket` asks for a speed that fits.
- Sightings.NeighboursAreEnough: needs one limit and gaps over three seconds, because the code compares with the limit of the first of two neighbours and skips closer pairs.
- Calendar.InitUnix: years are unbounded where the source has 16 bits; `Calendar.YearOfTimestamp` shows that no 32-bit timestamp comes near.
- Wire.Decode: the early return on a message array that is not empty never happens, since it is cleared before every event.
- Wire.DispatcherDecodedIff: is about whole frames; streams of dispatcher clients are not proved independent of how they are cut, because they are not.
- Boguscoin.BoundedText.FindAndReplace: the address is a parameter (`Boguscoin.FixedAddress` shows that the constant qualifies, with its 27 characters); when a replacement does not fit, what stands in the buffer is not specified.
- ByteQueue.Queue.PopNoCopy: returns a copy where the source returns a pointer into the buffer, which the next push overwrites. Sizes are unbounded, the factor 0.8 is four fifths rounded down, and a failing realloc is left out; `queue_pop` with a caller's buffer is left out.
- ByteQueue.BuildResponse: asks for a capacity of five times the response, which QUEUE_CAPACITY exceeds.
- SessionList.Sessions.Free: the price store and queue a session owns, and the freeing of memory, are left out; sessions are identified by the node and its id.
- Prices.AnswerIsMean: the count of matched prices is unbounded; the statement about the sum is for fewer than 2^31 prices.
- PriceServers.HandleInput: how much of the answers a failed send delivered is not specified; `PriceServers.ServeClient` takes sending to succeed.
- PriceServers.HandleConnection: the standard library's list and FIFO are the sequences they hold.
- PrimeTime.HandleConnection: what the JSON library makes of a line is a parameter; when the square overflows only the outcome is specified, not which earlier answers had left the send buffer.
- The C prime-time main loop, whose receive queue is shared by all connections, and json-c.
- `DateTime.toUnix`, `weekday`, `since`, `addMonths`, `addYears` and the general `format` machinery beyond the MM/DD/YYYY key.
- Error frames to speed-daemon clients, whose text and frame share one buffer, and the path after a failed accept.
- Budget chat in both languages, the unusual database, the proxy's connection map and the Zig `Queue`: either known to deviate or simple.
- Sockets, epoll, timers of the operating system, threads, logging, allocation failure and build files.

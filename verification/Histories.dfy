/** A car over all its sightings: the mutable history and marks, against a reference that looks only at
    what the cameras reported. */
module Histories {
  import opened Calendar
  import opened Messages
  import opened Sightings

  // ----- The reference

  /** The sightings on one road, in the order of their reports. */
  function OnRoad(seen: seq<Sighting>, road: u16): (r: seq<Sighting>)
    ensures forall s :: s in r ==> s in seen && s.cam.road == road
  {
    if seen == [] then []
    else
      var s := seen[|seen| - 1];
      OnRoad(seen[..|seen| - 1], road) + if s.cam.road == road then [s] else []
  }

  function Records(seen: seq<Sighting>): seq<Observation> {
    if seen == [] then []
    else Records(seen[..|seen| - 1]) + [ObservationOf(seen[|seen| - 1].cam, seen[|seen| - 1].timestamp)]
  }

  /** The history of a road: its sightings in the order of their timestamps. */
  function HistoryOf(seen: seq<Sighting>, road: u16): seq<Observation> {
    SortByTime(Records(OnRoad(seen, road)))
  }

  /** The days a car is marked for, and its tickets in the order of their issue. */
  datatype Verdict = Verdict(marked: set<string>, tickets: seq<Ticket>)

  /** Sighting by sighting: the tickets due for the history of the road it is on. */
  ghost function Reference(plate: Plate, seen: seq<Sighting>): Verdict {
    if seen == [] then Verdict({}, [])
    else
      var past, road := Reference(plate, seen[..|seen| - 1]), seen[|seen| - 1].cam.road;
      var h := HistoryOf(seen, road);
      Verdict(DueMarks(h, past.marked), past.tickets + DueTickets(plate, road, h, past.marked))
  }

  lemma OnRoadSnoc(seen: seq<Sighting>, s: Sighting, road: u16)
    ensures s.cam.road == road ==> OnRoad(seen + [s], road) == OnRoad(seen, road) + [s]
    ensures s.cam.road != road ==> OnRoad(seen + [s], road) == OnRoad(seen, road)
  {
    assert (seen + [s])[..|seen|] == seen;
    assert OnRoad(seen, road) + [] == OnRoad(seen, road);
  }

  lemma RecordsSnoc(seen: seq<Sighting>, s: Sighting)
    ensures Records(seen + [s]) == Records(seen) + [ObservationOf(s.cam, s.timestamp)]
  {
    assert (seen + [s])[..|seen|] == seen;
  }

  lemma ReferenceSnoc(plate: Plate, seen: seq<Sighting>, s: Sighting)
    ensures var past, h := Reference(plate, seen), HistoryOf(seen + [s], s.cam.road);
            Reference(plate, seen + [s]) ==
            Verdict(DueMarks(h, past.marked), past.tickets + DueTickets(plate, s.cam.road, h, past.marked))
  {
    assert (seen + [s])[..|seen|] == seen;
  }

  lemma {:induction false} RecordOf(seen: seq<Sighting>, o: Observation) returns (s: Sighting)
    requires o in Records(seen)
    ensures s in seen && o == ObservationOf(s.cam, s.timestamp)
  {
    s := seen[|seen| - 1];
    if o != ObservationOf(s.cam, s.timestamp) {
      s := RecordOf(seen[..|seen| - 1], o);
    }
  }

  /** An observation in the history of a road was reported there. */
  lemma ReportedOf(seen: seq<Sighting>, road: u16, o: Observation) returns (s: Sighting)
    requires o in HistoryOf(seen, road)
    ensures s in seen && s.cam.road == road && o == ObservationOf(s.cam, s.timestamp)
  {
    assert o in multiset(HistoryOf(seen, road));
    s := RecordOf(OnRoad(seen, road), o);
  }

  lemma HistoryDated(seen: seq<Sighting>, road: u16)
    ensures Dated(HistoryOf(seen, road))
  {
    forall o | o in HistoryOf(seen, road)
      ensures o.datestamp == DateOf(o.timestamp)
    {
      var s := ReportedOf(seen, road, o);
    }
  }

  // ----- The car follows the reference

  /** A road has a history if it has sightings, and then theirs. */
  ghost predicate HistoryInv(history: map<u16, seq<Observation>>, seen: seq<Sighting>, road: u16) {
    && (road in history <==> OnRoad(seen, road) != [])
    && (road in history ==> history[road] == HistoryOf(seen, road))
  }

  ghost predicate HistoriesInv(history: map<u16, seq<Observation>>, seen: seq<Sighting>) {
    forall road: u16 :: HistoryInv(history, seen, road)
  }

  /** The car has the marks of the reference and its histories. */
  ghost predicate CarInv(plate: Plate, car: CarState, seen: seq<Sighting>) {
    car.marked == Reference(plate, seen).marked && HistoriesInv(car.history, seen)
  }

  lemma NewCarInv(plate: Plate)
    ensures CarInv(plate, NEW_CAR, [])
  {
  }

  lemma HistorySnoc(seen: seq<Sighting>, s: Sighting)
    ensures HistoryOf(seen + [s], s.cam.road) ==
            SortByTime(HistoryOf(seen, s.cam.road) + [ObservationOf(s.cam, s.timestamp)])
  {
    OnRoadSnoc(seen, s, s.cam.road);
    RecordsSnoc(OnRoad(seen, s.cam.road), s);
    SortAgain(Records(OnRoad(seen, s.cam.road)), ObservationOf(s.cam, s.timestamp));
  }

  lemma SortOne(o: Observation)
    ensures SortByTime([o]) == [o]
  {
    assert [o][..0] == [];
  }

  /** Nothing is due for a single observation. */
  lemma NothingDue(plate: Plate, road: u16, o: Observation, marked: set<string>)
    ensures DueTickets(plate, road, [o], marked) == [] && DueMarks([o], marked) == marked
  {
  }

  lemma FirstOnRoad(plate: Plate, car: CarState, seen: seq<Sighting>, s: Sighting)
    requires CarInv(plate, car, seen) && s.cam.road !in car.history
    ensures var o, h := ObservationOf(s.cam, s.timestamp), HistoryOf(seen + [s], s.cam.road);
            h == [o] && DueTickets(plate, s.cam.road, h, car.marked) == [] && DueMarks(h, car.marked) == car.marked
  {
    var o := ObservationOf(s.cam, s.timestamp);
    assert HistoryInv(car.history, seen, s.cam.road);
    HistorySnoc(seen, s);
    SortOne(o);
    assert HistoryOf(seen, s.cam.road) + [o] == [o];
    NothingDue(plate, s.cam.road, o, car.marked);
  }

  lemma AgainOnRoad(plate: Plate, car: CarState, seen: seq<Sighting>, s: Sighting)
    requires CarInv(plate, car, seen) && s.cam.road in car.history
    ensures var h := HistoryOf(seen + [s], s.cam.road);
            && h == SortByTime(car.history[s.cam.road] + [ObservationOf(s.cam, s.timestamp)])
            && ScanPairs(plate, s.cam.road, h, |h|, Scan(car.marked, [])) ==
               Scan(DueMarks(h, car.marked), DueTickets(plate, s.cam.road, h, car.marked))
  {
    var h := HistoryOf(seen + [s], s.cam.road);
    assert HistoryInv(car.history, seen, s.cam.road);
    HistorySnoc(seen, s);
    SortSorts(Records(OnRoad(seen + [s], s.cam.road)));
    HistoryDated(seen + [s], s.cam.road);
    ScanIsDue(plate, s.cam.road, h, car.marked);
  }

  /** What one sighting does to a car, in terms of the reference. */
  lemma ObserveIs(plate: Plate, car: CarState, seen: seq<Sighting>, s: Sighting)
    requires CarInv(plate, car, seen)
    ensures var r, h := Observe(plate, car, s.cam, s.timestamp), HistoryOf(seen + [s], s.cam.road);
            && r.tickets == DueTickets(plate, s.cam.road, h, car.marked)
            && r.car == CarState(DueMarks(h, car.marked), car.history[s.cam.road := h])
  {
    if s.cam.road in car.history {
      AgainOnRoad(plate, car, seen, s);
    } else {
      FirstOnRoad(plate, car, seen, s);
    }
  }

  lemma HistoryKept(history: map<u16, seq<Observation>>, seen: seq<Sighting>, s: Sighting, h: seq<Observation>,
                    road: u16)
    requires HistoryInv(history, seen, road) && h == HistoryOf(seen + [s], s.cam.road)
    ensures HistoryInv(history[s.cam.road := h], seen + [s], road)
  {
    OnRoadSnoc(seen, s, road);
  }

  lemma HistoriesKept(history: map<u16, seq<Observation>>, seen: seq<Sighting>, s: Sighting, h: seq<Observation>)
    requires HistoriesInv(history, seen) && h == HistoryOf(seen + [s], s.cam.road)
    ensures HistoriesInv(history[s.cam.road := h], seen + [s])
  {
    var history', seen' := history[s.cam.road := h], seen + [s];
    forall road: u16
      ensures HistoryInv(history', seen', road)
    {
      assert HistoryInv(history, seen, road);
      HistoryKept(history, seen, s, h, road);
    }
  }

  /** One sighting keeps the car's invariant on every road, also those it does not touch, and issues
      exactly the tickets the reference does. */
  lemma ObserveKeeps(plate: Plate, car: CarState, seen: seq<Sighting>, s: Sighting)
    requires CarInv(plate, car, seen)
    ensures var r := Observe(plate, car, s.cam, s.timestamp);
            && CarInv(plate, r.car, seen + [s])
            && Reference(plate, seen + [s]).tickets == Reference(plate, seen).tickets + r.tickets
  {
    ObserveIs(plate, car, seen, s);
    ReferenceSnoc(plate, seen, s);
    HistoriesKept(car.history, seen, s, HistoryOf(seen + [s], s.cam.road));
  }

  datatype Replay = Replay(car: CarState, tickets: seq<Ticket>)

  /** A new car after any sightings. */
  function ReplayOf(plate: Plate, seen: seq<Sighting>): Replay {
    if seen == [] then Replay(NEW_CAR, [])
    else
      var s, past := seen[|seen| - 1], ReplayOf(plate, seen[..|seen| - 1]);
      var r := Observe(plate, past.car, s.cam, s.timestamp);
      Replay(r.car, past.tickets + r.tickets)
  }

  /** After any sightings the car has exactly the marks, histories and tickets of the reference. */
  lemma {:induction false} ReplayIsReference(plate: Plate, seen: seq<Sighting>)
    ensures CarInv(plate, ReplayOf(plate, seen).car, seen)
    ensures ReplayOf(plate, seen).tickets == Reference(plate, seen).tickets
  {
    if seen == [] {
      NewCarInv(plate);
    } else {
      var front, s := seen[..|seen| - 1], seen[|seen| - 1];
      assert seen == front + [s];
      ReplayIsReference(plate, front);
      ObserveKeeps(plate, ReplayOf(plate, front).car, front, s);
    }
  }

  // ----- What the reference promises

  /** A history is a stable, sorted permutation of the records of its road. */
  lemma HistoryMeans(seen: seq<Sighting>, road: u16, timestamp: int)
    ensures var h, records := HistoryOf(seen, road), Records(OnRoad(seen, road));
            multiset(h) == multiset(records) && Sorted(h) && At(h, timestamp) == At(records, timestamp)
  {
    SortSorts(Records(OnRoad(seen, road)));
    SortStable(Records(OnRoad(seen, road)), timestamp);
  }

  /** Over the limit between two reports, with a gap of more than three seconds. */
  predicate TooFast(a: Sighting, b: Sighting) {
    var s := b.timestamp - a.timestamp;
    s > 3 && 7200 * Apart(a.cam.mile, b.cam.mile) > (2 * a.cam.limit + 1) * s
  }

  /** `t` says what two reports on its road say: where and when, at least four seconds apart, and the
      average speed in hundredths, rounded to nearest. */
  ghost predicate Reports(t: Ticket, a: Sighting, b: Sighting) {
    && a.cam.road == t.road && b.cam.road == t.road
    && a.timestamp == t.timestamp1 && b.timestamp == t.timestamp2 && t.timestamp1 + 4 <= t.timestamp2
    && a.cam.mile == t.mile1 && b.cam.mile == t.mile2
    && TooFast(a, b) && t.speed >= 100 * a.cam.limit + 50
    && var s, d := t.timestamp2 - t.timestamp1, Apart(t.mile1, t.mile2);
       2 * s * t.speed <= 720000 * d + s < 2 * s * (t.speed + 1)
  }

  ghost predicate Justified(t: Ticket, plate: Plate, seen: seq<Sighting>) {
    t.plate == plate && exists a, b :: a in seen && b in seen && Reports(t, a, b)
  }

  lemma SpeedingReported(a: Sighting, b: Sighting)
    ensures Speeding(ObservationOf(a.cam, a.timestamp), ObservationOf(b.cam, b.timestamp)) <==> TooFast(a, b)
  {
    SpeedingInIntegers(ObservationOf(a.cam, a.timestamp), ObservationOf(b.cam, b.timestamp));
  }

  lemma TicketReports(plate: Plate, road: u16, a: Sighting, b: Sighting)
    requires a.cam.road == road && b.cam.road == road
    requires Speeding(ObservationOf(a.cam, a.timestamp), ObservationOf(b.cam, b.timestamp))
    ensures var o, p := ObservationOf(a.cam, a.timestamp), ObservationOf(b.cam, b.timestamp);
            TooFast(a, b) && Reports(TicketFor(plate, road, o, p), a, b)
  {
    var o, p := ObservationOf(a.cam, a.timestamp), ObservationOf(b.cam, b.timestamp);
    SpeedingInIntegers(o, p);
    TicketSpeedRounds(o, p);
    TicketSpeedOverLimit(o, p);
  }

  lemma DueJustified(plate: Plate, seen: seq<Sighting>, road: u16, marked: set<string>, t: Ticket)
    requires t in DueTickets(plate, road, HistoryOf(seen, road), marked)
    ensures Justified(t, plate, seen)
  {
    var h := HistoryOf(seen, road);
    DueTicket(plate, road, h, marked, t);
    var o, p :| o in h && p in h && Speeding(o, p) && t == TicketFor(plate, road, o, p);
    var a := ReportedOf(seen, road, o);
    var b := ReportedOf(seen, road, p);
    TicketReports(plate, road, a, b);
  }

  lemma JustifiedByMore(t: Ticket, plate: Plate, seen: seq<Sighting>, s: Sighting)
    requires Justified(t, plate, seen)
    ensures Justified(t, plate, seen + [s])
  {
    var a, b :| a in seen && b in seen && Reports(t, a, b);
    assert a in seen + [s] && b in seen + [s];
  }

  lemma DisjointAppend(ts: seq<Ticket>, us: seq<Ticket>, marked: set<string>)
    requires PairwiseDisjoint(ts) && PairwiseDisjoint(us)
    requires (forall t :: t in ts ==> Keys(t) <= marked) && (forall u :: u in us ==> Keys(u) !! marked)
    ensures PairwiseDisjoint(ts + us)
  {
    var all := ts + us;
    forall i, j | 0 <= i < j < |all|
      ensures Keys(all[i]) !! Keys(all[j])
    {
      if i < |ts| <= j {
        assert all[i] in ts && all[j] in us;
      }
    }
  }

  lemma MarksGrow(h: seq<Observation>, marked: set<string>)
    ensures marked <= DueMarks(h, marked)
  {
  }

  ghost predicate Kept(plate: Plate, seen: seq<Sighting>, v: Verdict) {
    PairwiseDisjoint(v.tickets) && forall t :: t in v.tickets ==> Keys(t) <= v.marked && Justified(t, plate, seen)
  }

  lemma KeptNext(plate: Plate, seen: seq<Sighting>, s: Sighting, past: Verdict)
    requires Kept(plate, seen, past)
    ensures var h := HistoryOf(seen + [s], s.cam.road);
            Kept(plate, seen + [s],
                 Verdict(DueMarks(h, past.marked), past.tickets + DueTickets(plate, s.cam.road, h, past.marked)))
  {
    var h := HistoryOf(seen + [s], s.cam.road);
    var due := DueTickets(plate, s.cam.road, h, past.marked);
    DueKeeps(plate, s.cam.road, h, past.marked);
    DisjointAppend(past.tickets, due, past.marked);
    MarksGrow(h, past.marked);
    forall t | t in past.tickets + due
      ensures Keys(t) <= DueMarks(h, past.marked) && Justified(t, plate, seen + [s])
    {
      if t in past.tickets {
        JustifiedByMore(t, plate, seen, s);
      } else {
        DueJustified(plate, seen + [s], s.cam.road, past.marked, t);
      }
    }
  }

  /** The car's tickets take disjoint days, all of them marked, and each is justified by two reports. */
  lemma {:induction false} ReferenceKeeps(plate: Plate, seen: seq<Sighting>)
    ensures Kept(plate, seen, Reference(plate, seen))
  {
    if seen != [] {
      var front, s := seen[..|seen| - 1], seen[|seen| - 1];
      assert seen == front + [s];
      ReferenceKeeps(plate, front);
      KeptNext(plate, front, s, Reference(plate, front));
      ReferenceSnoc(plate, front, s);
    }
  }

  /** `k` is the first day of two reports on one road that are too fast. */
  ghost predicate TooFastFrom(seen: seq<Sighting>, k: string) {
    exists a, b :: a in seen && b in seen && a.cam.road == b.cam.road && TooFast(a, b) && DayKey(a.timestamp) == k
  }

  lemma FirstDayReported(seen: seq<Sighting>, road: u16, i: int, k: string)
    requires FirstDay(HistoryOf(seen, road), i, k)
    ensures TooFastFrom(seen, k)
  {
    var h := HistoryOf(seen, road);
    var a := ReportedOf(seen, road, h[i - 1]);
    var b := ReportedOf(seen, road, h[i]);
    SpeedingReported(a, b);
  }

  /** Every marked day is a day of a ticket or the first day of two reports that are too fast. */
  lemma {:induction false} MarkHasReason(plate: Plate, seen: seq<Sighting>, k: string)
    requires k in Reference(plate, seen).marked
    ensures TooFastFrom(seen, k) || exists t :: t in Reference(plate, seen).tickets && k in Keys(t)
  {
    var front, s := seen[..|seen| - 1], seen[|seen| - 1];
    var past, h := Reference(plate, front), HistoryOf(seen, s.cam.road);
    if k in past.marked {
      MarkHasReason(plate, front, k);
      assert forall x :: x in front ==> x in seen;
      assert forall t :: t in past.tickets ==> t in Reference(plate, seen).tickets;
    } else {
      MarkExplained(plate, s.cam.road, h, past.marked, k);
      if i :| FirstDay(h, i, k) {
        FirstDayReported(seen, s.cam.road, i, k);
      } else {
        var t :| t in DueTickets(plate, s.cam.road, h, past.marked) && k in Keys(t);
        assert t in Reference(plate, seen).tickets;
      }
    }
  }

  /** When a sighting makes a speeding neighbouring pair whose days were both unmarked, it issues a ticket
      for one of these days. */
  lemma SightingIssues(plate: Plate, seen: seq<Sighting>, s: Sighting, i: nat) returns (t: Ticket)
    requires 0 < i < |HistoryOf(seen + [s], s.cam.road)|
    requires var h := HistoryOf(seen + [s], s.cam.road);
             Speeding(h[i - 1], h[i])
             && DayKey(h[i - 1].timestamp) !in Reference(plate, seen).marked
             && DayKey(h[i].timestamp) !in Reference(plate, seen).marked
    ensures var h, n := HistoryOf(seen + [s], s.cam.road), |Reference(plate, seen).tickets|;
            && t in Reference(plate, seen + [s]).tickets[n..]
            && (DayKey(h[i - 1].timestamp) in Keys(t) || DayKey(h[i].timestamp) in Keys(t))
  {
    ReferenceSnoc(plate, seen, s);
    t := UnmarkedPairTicketed(plate, s.cam.road, HistoryOf(seen + [s], s.cam.road), Reference(plate, seen).marked, i);
  }

  lemma PairCovered(plate: Plate, seen: seq<Sighting>, s: Sighting, i: nat)
    requires 0 < i < |HistoryOf(seen + [s], s.cam.road)|
    requires var h := HistoryOf(seen + [s], s.cam.road); Speeding(h[i - 1], h[i])
    ensures DayKey(HistoryOf(seen + [s], s.cam.road)[i - 1].timestamp) in Reference(plate, seen + [s]).marked
  {
    ReferenceSnoc(plate, seen, s);
    FirstDayMarked(HistoryOf(seen + [s], s.cam.road), Reference(plate, seen).marked, i);
  }

  /** In every history, every speeding neighbouring pair has its first day marked. */
  lemma {:induction false} Covered(plate: Plate, seen: seq<Sighting>, road: u16, i: nat)
    requires 0 < i < |HistoryOf(seen, road)| && Speeding(HistoryOf(seen, road)[i - 1], HistoryOf(seen, road)[i])
    ensures DayKey(HistoryOf(seen, road)[i - 1].timestamp) in Reference(plate, seen).marked
  {
    if seen != [] {
      var front, s := seen[..|seen| - 1], seen[|seen| - 1];
      assert seen == front + [s];
      if s.cam.road == road {
        PairCovered(plate, front, s, i);
      } else {
        OnRoadSnoc(front, s, road);
        Covered(plate, front, road, i);
        MarksGrow(HistoryOf(seen, s.cam.road), Reference(plate, front).marked);
      }
    }
  }

  /** No speeder goes unmarked: on a road with one limit and gaps over three seconds, two sightings any
      distance apart with an average over the limit leave a marked day. */
  lemma SpeederIsMarked(plate: Plate, seen: seq<Sighting>, road: u16, i: nat, j: nat, limit: nat) returns (k: nat)
    requires i < j < |HistoryOf(seen, road)|
    requires var h := HistoryOf(seen, road);
             && AverageOver(h[i], h[j], limit)
             && (forall m :: i <= m <= j ==> h[m].limit == limit)
             && (forall m :: i < m <= j ==> h[m].timestamp - h[m - 1].timestamp > 3)
    ensures i < k <= j && var h := HistoryOf(seen, road);
                          Speeding(h[k - 1], h[k]) && DayKey(h[k - 1].timestamp) in ReplayOf(plate, seen).car.marked
  {
    k := NeighboursAreEnough(HistoryOf(seen, road), i, j, limit);
    Covered(plate, seen, road, k);
    ReplayIsReference(plate, seen);
  }
}

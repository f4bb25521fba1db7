/** The log of messages handled, and what the cars and the tickets issued have to be by it. */
module Logs {
  import opened Calendar
  import opened Messages
  import opened Sightings
  import opened Histories
  import opened Dispatch
  import opened Partition

  datatype Role = Unidentified | AsCamera(cam: Camera) | AsDispatcher(roads: seq<u16>)

  /** A message handled: by which thread, for which client, and what the client was then. */
  datatype Entry = Entry(tid: nat, fd: Fd, role: Role, m: Message)

  /** A camera's report of a plate. */
  predicate IsReport(e: Entry) {
    e.m.PlateM? && e.role.AsCamera? && e.m.plate != []
  }

  function SightingOf(e: Entry): Sighting
    requires IsReport(e)
  {
    Sighting(e.role.cam, e.m.timestamp)
  }

  /** The reports of a plate, in the order in which they were handled. */
  function ReportsOf(log: seq<Entry>, plate: Plate): seq<Sighting> {
    if log == [] then []
    else
      var e := log[|log| - 1];
      ReportsOf(log[..|log| - 1], plate) + if IsReport(e) && e.m.plate == plate then [SightingOf(e)] else []
  }

  /** The messages a thread handled, in order. */
  function ByThread(log: seq<Entry>, tid: nat): seq<Message> {
    if log == [] then []
    else
      var e := log[|log| - 1];
      ByThread(log[..|log| - 1], tid) + if e.tid == tid then [e.m] else []
  }

  lemma ReportsSnoc(log: seq<Entry>, e: Entry, plate: Plate)
    ensures IsReport(e) && e.m.plate == plate ==> ReportsOf(log + [e], plate) == ReportsOf(log, plate) + [SightingOf(e)]
    ensures !(IsReport(e) && e.m.plate == plate) ==> ReportsOf(log + [e], plate) == ReportsOf(log, plate)
  {
    assert (log + [e])[..|log|] == log;
    assert ReportsOf(log, plate) + [] == ReportsOf(log, plate);
  }

  lemma ByThreadSnoc(log: seq<Entry>, e: Entry, tid: nat)
    ensures e.tid == tid ==> ByThread(log + [e], tid) == ByThread(log, tid) + [e.m]
    ensures e.tid != tid ==> ByThread(log + [e], tid) == ByThread(log, tid)
  {
    assert (log + [e])[..|log|] == log;
    assert ByThread(log, tid) + [] == ByThread(log, tid);
  }

  /** getOrPut. */
  function CarOf(cars: map<Plate, CarState>, plate: Plate): CarState {
    if plate in cars then cars[plate] else NEW_CAR
  }

  function OfPlate(plate: Plate): Ticket -> bool {
    (t: Ticket) => t.plate == plate
  }

  // ----- What the log fixes

  /** A plate has a car if it was reported, and then the car its reports make. */
  ghost predicate CarAt(cars: map<Plate, CarState>, log: seq<Entry>, plate: Plate) {
    && (plate in cars <==> ReportsOf(log, plate) != [])
    && (plate in cars ==> CarInv(plate, cars[plate], ReportsOf(log, plate)))
  }

  ghost predicate CarsInv(cars: map<Plate, CarState>, log: seq<Entry>) {
    forall plate: Plate :: CarAt(cars, log, plate)
  }

  /** The tickets issued for a plate are exactly those its reports make due, in that order. */
  ghost predicate TicketsAt(issued: seq<Ticket>, log: seq<Entry>, plate: Plate) {
    Matching(OfPlate(plate), issued) == Reference(plate, ReportsOf(log, plate)).tickets
  }

  ghost predicate IssuedInv(issued: seq<Ticket>, log: seq<Entry>) {
    forall plate: Plate :: TicketsAt(issued, log, plate)
  }

  ghost predicate LogInv(cars: map<Plate, CarState>, issued: seq<Ticket>, log: seq<Entry>) {
    CarsInv(cars, log) && IssuedInv(issued, log)
  }

  lemma NothingYet()
    ensures LogInv(map[], [], [])
  {
  }

  lemma CarOfInv(cars: map<Plate, CarState>, log: seq<Entry>, plate: Plate)
    requires CarAt(cars, log, plate)
    ensures CarInv(plate, CarOf(cars, plate), ReportsOf(log, plate))
  {
    NewCarInv(plate);
  }

  lemma OnlyThatPlate(plate: Plate, seen: seq<Sighting>, ts: seq<Ticket>, other: Plate)
    requires forall t :: t in ts ==> t in Reference(plate, seen).tickets
    ensures Matching(OfPlate(other), ts) == if other == plate then ts else []
  {
    ReferenceKeeps(plate, seen);
    assert forall t :: t in ts ==> t.plate == plate;
    if other == plate {
      MatchingAll(OfPlate(other), ts);
    } else {
      MatchingNone(OfPlate(other), ts);
    }
  }

  lemma TicketsJoin(issued: seq<Ticket>, log: seq<Entry>, e: Entry, news: seq<Ticket>, plate: Plate)
    requires IsReport(e) && TicketsAt(issued, log, plate)
    requires var seen := ReportsOf(log, e.m.plate);
             Reference(e.m.plate, seen + [SightingOf(e)]).tickets == Reference(e.m.plate, seen).tickets + news
    ensures TicketsAt(issued + news, log + [e], plate)
  {
    ReportsSnoc(log, e, plate);
    MatchingConcat(OfPlate(plate), issued, news);
    OnlyThatPlate(e.m.plate, ReportsOf(log, e.m.plate) + [SightingOf(e)], news, plate);
    assert Matching(OfPlate(plate), issued) + [] == Matching(OfPlate(plate), issued);
  }

  lemma CarJoins(cars: map<Plate, CarState>, log: seq<Entry>, e: Entry, car: CarState, plate: Plate)
    requires IsReport(e) && CarAt(cars, log, plate)
    requires CarInv(e.m.plate, car, ReportsOf(log, e.m.plate) + [SightingOf(e)])
    ensures CarAt(cars[e.m.plate := car], log + [e], plate)
  {
    ReportsSnoc(log, e, plate);
  }

  /** A report handled: one car changes, and its new tickets are issued. */
  lemma ReportKeeps(cars: map<Plate, CarState>, issued: seq<Ticket>, log: seq<Entry>, e: Entry)
    requires CarsInv(cars, log) && IssuedInv(issued, log) && IsReport(e)
    ensures var o := Observe(e.m.plate, CarOf(cars, e.m.plate), e.role.cam, e.m.timestamp);
            CarsInv(cars[e.m.plate := o.car], log + [e]) && IssuedInv(issued + o.tickets, log + [e])
  {
    var plate, s := e.m.plate, SightingOf(e);
    var o := Observe(plate, CarOf(cars, plate), e.role.cam, e.m.timestamp);
    assert CarAt(cars, log, plate);
    CarOfInv(cars, log, plate);
    ObserveKeeps(plate, CarOf(cars, plate), ReportsOf(log, plate), s);
    var cars', issued', log' := cars[plate := o.car], issued + o.tickets, log + [e];
    forall p: Plate
      ensures CarAt(cars', log', p)
    {
      assert CarAt(cars, log, p);
      CarJoins(cars, log, e, o.car, p);
    }
    forall p: Plate
      ensures TicketsAt(issued', log', p)
    {
      assert TicketsAt(issued, log, p);
      TicketsJoin(issued, log, e, o.tickets, p);
    }
  }

  /** Any other message changes no car and issues nothing. */
  lemma OtherKeeps(cars: map<Plate, CarState>, issued: seq<Ticket>, log: seq<Entry>, e: Entry)
    requires CarsInv(cars, log) && IssuedInv(issued, log) && !IsReport(e)
    ensures CarsInv(cars, log + [e]) && IssuedInv(issued, log + [e])
  {
    var log' := log + [e];
    forall p: Plate
      ensures CarAt(cars, log', p) && TicketsAt(issued, log', p)
    {
      assert CarAt(cars, log, p) && TicketsAt(issued, log, p);
      ReportsSnoc(log, e, p);
    }
  }

  /** What handling one message does to cars and tickets. */
  lemma EntryKeeps(cars: map<Plate, CarState>, issued: seq<Ticket>, log: seq<Entry>, e: Entry)
    requires LogInv(cars, issued, log)
    ensures !IsReport(e) ==> LogInv(cars, issued, log + [e])
    ensures IsReport(e) ==>
              var o := Observe(e.m.plate, CarOf(cars, e.m.plate), e.role.cam, e.m.timestamp);
              LogInv(cars[e.m.plate := o.car], issued + o.tickets, log + [e])
  {
    if IsReport(e) {
      ReportKeeps(cars, issued, log, e);
    } else {
      OtherKeeps(cars, issued, log, e);
    }
  }

  // ----- What that means for the tickets issued

  /** Each is justified by two reports of its plate. */
  lemma IssuedJustified(issued: seq<Ticket>, log: seq<Entry>, t: Ticket)
    requires IssuedInv(issued, log) && t in issued
    ensures Justified(t, t.plate, ReportsOf(log, t.plate))
  {
    assert TicketsAt(issued, log, t.plate);
    MatchingPass(OfPlate(t.plate), issued);
    assert OfPlate(t.plate)(t);
    ReferenceKeeps(t.plate, ReportsOf(log, t.plate));
  }

  lemma HasKey(t: Ticket)
    ensures !(Keys(t) !! Keys(t))
  {
    assert DayKey(t.timestamp1) in Keys(t);
  }

  /** Two of one plate share no day. */
  lemma IssuedDisjoint(issued: seq<Ticket>, log: seq<Entry>, i: nat, j: nat)
    requires IssuedInv(issued, log) && i < j < |issued| && issued[i].plate == issued[j].plate
    ensures Keys(issued[i]) !! Keys(issued[j]) && issued[i] != issued[j]
  {
    var plate := issued[i].plate;
    assert TicketsAt(issued, log, plate);
    var a, b := MatchingOrder(OfPlate(plate), issued, i, j);
    ReferenceKeeps(plate, ReportsOf(log, plate));
    HasKey(issued[i]);
  }
}

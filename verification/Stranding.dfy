/** A run of the speed daemon that leaves a deliverable ticket behind. */
module Stranding {
  import opened Messages
  import opened Sightings
  import opened Dispatch
  import opened Logs
  import opened Protocol

  ghost predicate Reached(n: nat, w: World) {
    exists ws, acts :: Run(n, ws, acts) && ws[|acts|] == w
  }

  lemma ReachedStart(n: nat)
    ensures Reached(n, Start(n))
  {
    assert Run(n, [Start(n)], []);
  }

  lemma ReachedNext(n: nat, w: World, a: Action, v: World)
    requires Reached(n, w) && Next(w, a, v)
    ensures Reached(n, v)
  {
    var ws, acts :| Run(n, ws, acts) && ws[|acts|] == w;
    var ws', acts' := ws + [v], acts + [a];
    forall i | 0 <= i < |acts'|
      ensures Next(ws'[i], acts'[i], ws'[i + 1])
    {
      if i < |acts| {
        assert Next(ws[i], acts[i], ws[i + 1]);
      }
    }
    assert Run(n, ws', acts') && ws'[|acts'|] == v;
  }

  function Dispatching(road: u16, p: Phase, roads: RoadMap): World {
    Start(3).(clients := map[1 := Client(AsDispatcher([road]), None, false)], roads := roads,
              threads := [p, Idle, Idle])
  }

  lemma ClientComes(m: Message) returns (w: World)
    ensures Reached(3, w)
    ensures w == Start(3).(clients := map[1 := Client(Unidentified, None, false)],
                           threads := [Handling(1, [m]), Idle, Idle])
  {
    var w0 := Start(3);
    ReachedStart(3);
    var w1 := Step(w0, Accept(1));
    ReachedNext(3, w0, Accept(1), w1);
    w := Step(w1, Receive(0, 1, [m]));
    ReachedNext(3, w1, Receive(0, 1, [m]), w);
  }

  /** A dispatcher of a road comes to be served by the first of three threads. */
  lemma DispatcherComes(road: u16) returns (w: World)
    ensures Reached(3, w) && w == Dispatching(road, Handling(1, []), Registered(map[], 1, [road])).(log := w.log)
  {
    var m := IAmDispatcher([road]);
    var w1 := ClientComes(m);
    assert [m][1..] == [];
    var log := [] + [Entry(0, 1, Unidentified, m)];
    var w2 := Dispatching(road, Owing(1, []), Registered(map[], 1, [road])).(log := log);
    assert w2 == Step(w1, Handle(0, 9));
    ReachedNext(3, w1, Handle(0, 9), w2);
    w := Dispatching(road, Handling(1, []), w2.roads).(log := log);
    assert w == Step(w2, Begin(0));
    ReachedNext(3, w2, Begin(0), w);
  }

  /** No client has a timer, and descriptor 9 is free. */
  ghost predicate NoTimers(w: World) {
    w.timers == map[] && 9 !in w.clients && forall c :: c in w.clients ==> w.clients[c].timer == None
  }

  /** A camera comes, identifies itself and is about to report a plate, by an idle thread. */
  lemma CameraComes(w: World, tid: nat, fd: Fd, cam: Camera, plate: Plate, timestamp: u32) returns (v: World)
    requires Reached(3, w) && tid < |w.threads| && w.threads[tid].Idle? && ThreadsInv(w.threads, w.clients)
    requires fd !in w.clients && fd != 9 && NoTimers(w)
    ensures Reached(3, v)
    ensures v == w.(clients := w.clients[fd := Client(AsCamera(cam), None, false)],
                    threads := w.threads[tid := Handling(fd, [PlateM(plate, timestamp)])], log := v.log)
  {
    var id, report := IAmCamera(cam.road, cam.mile, cam.limit), PlateM(plate, timestamp);
    var w1 := Step(w, Accept(fd));
    ReachedNext(3, w, Accept(fd), w1);
    forall p | p in w1.threads
      ensures !BusyWith(p, fd)
    {
    }
    var w2 := Step(w1, Receive(tid, fd, [id, report]));
    ReachedNext(3, w1, Receive(tid, fd, [id, report]), w2);
    assert [id, report][1..] == [report];
    v := Step(w2, Handle(tid, 9));
    ReachedNext(3, w2, Handle(tid, 9), v);
    assert v.threads == w.threads[tid := Handling(fd, [report])];
  }

  /** It reports the plate, and the thread holds the cars lock. */
  lemma PlateReported(w: World, tid: nat, fd: Fd, cam: Camera, plate: Plate, timestamp: u32) returns (v: World)
    requires Reached(3, w) && tid < |w.threads| && w.threads[tid] == Handling(fd, [PlateM(plate, timestamp)])
    requires fd in w.clients && w.clients[fd].role == AsCamera(cam) && plate != []
    requires CarsFree(w.threads) && NoTimers(w)
    ensures Reached(3, v) && v == SeePlate(w.(log := v.log), tid, fd, plate, cam, timestamp, [])
  {
    var report := PlateM(plate, timestamp);
    assert [report][1..] == [];
    v := Step(w, Handle(tid, 9));
    ReachedNext(3, w, Handle(tid, 9), v);
  }

  /** The first camera's thread goes on; its sighting issued nothing. */
  lemma NothingIssued(w: World, tid: nat, fd: Fd) returns (v: World)
    requires Reached(3, w) && tid < |w.threads| && w.threads[tid] == Appending(fd, [], [], 0)
    ensures Reached(3, v) && v == Go(w, tid, Handling(fd, []))
  {
    v := Step(w, Unlock(tid));
    ReachedNext(3, w, Unlock(tid), v);
  }

  /** The second camera's thread queues its ticket and owes a pass. */
  lemma TicketQueued(w: World, tid: nat, fd: Fd, t: Ticket) returns (v: World)
    requires Reached(3, w) && tid < |w.threads| && w.threads[tid] == Appending(fd, [], [t], 1)
    requires w.queue == [] && TicketsFree(w.threads)
    ensures Reached(3, v) && v == Go(w.(queue := [t]), tid, Owing(fd, []))
  {
    assert [t][1..] == [] && [] + [t] == [t];
    var w1 := Go(w.(queue := [t]), tid, Appending(fd, [], [], 1));
    ReachedNext(3, w, Append(tid), w1);
    v := Go(w1, tid, Owing(fd, []));
    ReachedNext(3, w1, Unlock(tid), v);
  }

  /** It looks at the ticket, and the send fails. */
  lemma SendFails(w: World, tid: nat, fd: Fd, t: Ticket, to: Fd) returns (v: World)
    requires Reached(3, w) && tid < |w.threads| && w.threads[tid] == Owing(fd, [])
    requires w.queue == [t] && to in DispatchersOf(w.roads, t.road) && TicketsFree(w.threads)
    ensures Reached(3, v) && v == Go(w.(stalled := true), tid, Closing(fd))
  {
    var w1 := Go(w, tid, Passing(fd, [], 0, 1));
    ReachedNext(3, w, Begin(tid), w1);
    v := Go(w1.(stalled := true), tid, Closing(fd));
    assert w.sent + [] == w.sent;
    ReachedNext(3, w1, Look(tid, to, false), v);
  }

  lemma FirstReport(plate: Plate, a: Camera, w: World) returns (v: World)
    requires plate != [] && Observe(plate, NEW_CAR, a, 0).tickets == [] && plate !in w.cars
    requires Reached(3, w) && w.threads == [Handling(1, []), Idle, Idle] && NoTimers(w) && w.clients.Keys == {1}
    ensures Reached(3, v) && v.queue == w.queue && v.roads == w.roads
    ensures v.threads == [Handling(1, []), Handling(2, []), Idle] && NoTimers(v) && v.clients.Keys == {1, 2}
    ensures plate in v.cars && v.cars[plate] == Observe(plate, NEW_CAR, a, 0).car
  {
    var w2 := CameraComes(w, 1, 2, a, plate, 0);
    var w3 := PlateReported(w2, 1, 2, a, plate, 0);
    assert w3.threads[1] == Appending(2, [], [], 0);
    v := NothingIssued(w3, 1, 2);
  }

  lemma SecondReport(w: World, plate: Plate, cam: Camera, car: CarState) returns (v: World)
    requires plate != [] && Reached(3, w) && w.threads == [Handling(1, []), Handling(2, []), Idle]
    requires plate in w.cars && w.cars[plate] == car && NoTimers(w) && w.clients.Keys == {1, 2}
    ensures var ts := Observe(plate, car, cam, 45).tickets;
            && Reached(3, v) && v.queue == w.queue && v.roads == w.roads
            && v.threads == [Handling(1, []), Handling(2, []), Appending(3, [], ts, |ts|)]
  {
    var w1 := CameraComes(w, 2, 3, cam, plate, 45);
    v := PlateReported(w1, 2, 3, cam, plate, 45);
  }

  /** Both cameras have reported; the second one's thread holds a ticket. */
  lemma TicketIssued(road: u16, plate: Plate, a: Camera, b: Camera, w1: World) returns (w: World)
    requires plate != [] && a.road == b.road && Speeding(ObservationOf(a, 0), ObservationOf(b, 45))
    requires Reached(3, w1) && w1 == Dispatching(road, Handling(1, []), Registered(map[], 1, [road])).(log := w1.log)
    ensures Reached(3, w) && w.queue == [] && w.roads == w1.roads
    ensures w.threads == [Handling(1, []), Handling(2, []),
                          Appending(3, [], [TicketFor(plate, a.road, ObservationOf(a, 0), ObservationOf(b, 45))], 1)]
  {
    TwoSightings(plate, a, 0, b, 45);
    var w2 := FirstReport(plate, a, w1);
    w := SecondReport(w2, plate, b, Observe(plate, NEW_CAR, a, 0).car);
  }

  /** After a failed send a ticket can be left in the queue although its road has a dispatcher, while no
      thread owes or runs a pass. */
  lemma StrandedTicket(road: u16, plate: Plate) returns (w: World, t: Ticket)
    requires plate != []
    ensures Reached(3, w) && t in w.queue && Deliverable(w.roads, t)
    ensures t.plate == plate && t.road == road && t.speed < 0x1_0000
    ensures w.stalled && !Owed(w.threads) && TicketsFree(w.threads) && !NoneStranded(w.queue, w.roads, w.threads)
  {
    var a, b := Camera(road, 0, 60), Camera(road, 1, 60);
    OneMileInFortyFiveSeconds(ObservationOf(a, 0), ObservationOf(b, 45));
    var w1 := DispatcherComes(road);
    var w2 := TicketIssued(road, plate, a, b, w1);
    t := TicketFor(plate, road, ObservationOf(a, 0), ObservationOf(b, 45));
    assert 1 in DispatchersOf(w2.roads, t.road);
    var w3 := TicketQueued(w2, 2, 3, t);
    w := SendFails(w3, 2, 3, t, 1);
    assert w.threads == [Handling(1, []), Handling(2, []), Closing(3)];
    assert w.queue[0] == t;
  }
}

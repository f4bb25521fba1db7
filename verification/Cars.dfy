/** The mutable side of the cars (logic.zig, `Car` and `Cars`). */
module Cars {
  import opened Calendar
  import opened Messages
  import opened Sightings
  import opened Dispatch

  datatype LogicError = MessageWrongType | EmptyPlate | PlateMismatch

  datatype Result<+T> = Ok(value: T) | Err(error: LogicError)

  class Car {
    const plate: Plate
    const ticketsQueue: TicketsQueue
    var tickets: set<string>
    var observations: map<u16, seq<Observation>>

    constructor (plate: Plate, ticketsQueue: TicketsQueue)
      ensures this.plate == plate && this.ticketsQueue == ticketsQueue && State() == NEW_CAR
    {
      this.plate, this.ticketsQueue := plate, ticketsQueue;
      tickets, observations := {}, map[];
    }

    function State(): CarState
      reads this
    {
      CarState(tickets, observations)
    }

    /** A rejected message changes nothing; an accepted one has the effect of `Observe` on the
        car, and its tickets, counted by the result, go to the end of the queue in order. */
    method AddObservation(message: Message, cam: Camera) returns (r: Result<nat>)
      modifies this, ticketsQueue
      ensures r == Err(MessageWrongType) <==> !message.PlateM?
      ensures r == Err(EmptyPlate) <==> message.PlateM? && (|message.plate| == 0 || |plate| == 0)
      ensures r == Err(PlateMismatch) <==>
              message.PlateM? && |message.plate| > 0 && |plate| > 0 && message.plate != plate
      ensures r.Err? ==> State() == old(State()) && ticketsQueue.queue == old(ticketsQueue.queue)
      ensures r.Ok? ==> var o := Observe(plate, old(State()), cam, message.timestamp);
                        && State() == o.car
                        && ticketsQueue.queue == old(ticketsQueue.queue) + o.tickets
                        && r.value == |o.tickets|
    {
      if !message.PlateM? { return Err(MessageWrongType); }
      if message.plate == [] { return Err(EmptyPlate); }
      if plate == [] { return Err(EmptyPlate); }
      if message.plate != plate { return Err(PlateMismatch); }

      var date := InitUnix(message.timestamp);
      var o := Observation(message.timestamp, date.value, cam.road, cam.mile, cam.limit);
      if cam.road !in observations {
        observations := observations[cam.road := [o]];
        return Ok(0);
      }
      observations := observations[cam.road := SortByTime(observations[cam.road] + [o])];
      var n := CheckHistory(cam.road);
      r := Ok(n);
    }

    /** The loop over neighbouring pairs of one road. */
    method CheckHistory(road: u16) returns (n: nat)
      requires road in observations
      modifies `tickets, ticketsQueue
      ensures var st := ScanPairs(plate, road, observations[road], |observations[road]|, Scan(old(tickets), []));
              && tickets == st.marked
              && ticketsQueue.queue == old(ticketsQueue.queue) + st.issued
              && n == |st.issued|
    {
      n := 0;
      var h := observations[road];
      ghost var start, issued := Scan(tickets, []), [];
      for i := 0 to |h|
        invariant observations == old(observations)
        invariant ScanPairs(plate, road, h, i, start) == Scan(tickets, issued)
        invariant ticketsQueue.queue == old(ticketsQueue.queue) + issued
        invariant n == |issued|
      {
        if i == 0 { continue; }
        var a, b := h[i - 1], h[i];
        if !Speeding(a, b) { continue; }
        var key1 := DateKey(a.datestamp);
        if key1 in tickets { continue; }
        tickets := tickets + {key1};
        var key2 := DateKey(b.datestamp);
        if key1 != key2 {
          if key2 in tickets { continue; }
          tickets := tickets + {key2};
        }
        var t := TicketFor(plate, road, a, b);
        ticketsQueue.Append(t);
        issued := issued + [t];
        n := n + 1;
      }
    }
  }

  class CarTable {
    const ticketsQueue: TicketsQueue
    var cars: map<Plate, Car>

    constructor (ticketsQueue: TicketsQueue)
      ensures this.ticketsQueue == ticketsQueue && cars == map[]
    {
      this.ticketsQueue, cars := ticketsQueue, map[];
    }

    ghost predicate Valid()
      reads this
    {
      forall p :: p in cars ==> p != [] && cars[p].plate == p && cars[p].ticketsQueue == ticketsQueue
    }

    /** The car of a plate, created on its first sighting; no other car is touched. */
    method GetOrPut(plate: Plate) returns (r: Result<Car>)
      requires Valid()
      modifies this
      ensures Valid()
      ensures r.Err? <==> plate == []
      ensures r.Err? ==> r.error == EmptyPlate && cars == old(cars)
      ensures r.Ok? ==> cars == old(cars)[plate := r.value] && r.value.plate == plate
      ensures r.Ok? && plate in old(cars) ==> r.value == old(cars)[plate]
      ensures r.Ok? && plate !in old(cars) ==> fresh(r.value) && r.value.State() == NEW_CAR
    {
      if plate == [] { return Err(EmptyPlate); }
      if plate in cars { return Ok(cars[plate]); }
      var car := new Car(plate, ticketsQueue);
      cars := cars[plate := car];
      r := Ok(car);
    }
  }
}

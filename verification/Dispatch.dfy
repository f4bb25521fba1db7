/** The road index and the ticket queue of the speed daemon (logic.zig, `Roads` and
    `TicketsQueue`), with the restart-from-the-head dispatch loop. */
module Dispatch {
  import opened Messages
  import opened Partition

  type Fd = int
  type RoadMap = map<u16, set<Fd>>

  datatype Delivery = Delivery(ticket: Ticket, fd: Fd)

  // ----- The road index

  function DispatchersOf(m: RoadMap, road: u16): set<Fd> {
    if road in m then m[road] else {}
  }

  /** The index after `fd` is added to the first `roads`, in order. */
  function Registered(m: RoadMap, fd: Fd, roads: seq<u16>): (r: RoadMap)
    ensures forall road: u16 :: DispatchersOf(r, road) == DispatchersOf(m, road) + if road in roads then {fd} else {}
    ensures forall road: u16 :: road in r <==> road in m || road in roads
  {
    if roads == [] then m
    else
      var road, past := roads[|roads| - 1], Registered(m, fd, roads[..|roads| - 1]);
      assert roads == roads[..|roads| - 1] + [road];
      past[road := DispatchersOf(past, road) + {fd}]
  }

  /** The index after `fd` is taken from `roads`; emptied roads stay in the index. */
  function Unregistered(m: RoadMap, fd: Fd, roads: seq<u16>): (r: RoadMap)
    ensures forall road: u16 :: DispatchersOf(r, road) == DispatchersOf(m, road) - if road in roads then {fd} else {}
    ensures r.Keys == m.Keys
  {
    if roads == [] then m
    else
      var road, past := roads[|roads| - 1], Unregistered(m, fd, roads[..|roads| - 1]);
      assert roads == roads[..|roads| - 1] + [road];
      if road in past then past[road := past[road] - {fd}] else past
  }

  class Roads {
    var index: RoadMap

    method AddDispatcher(fd: Fd, roads: seq<u16>)
      modifies this
      ensures index == Registered(old(index), fd, roads)
    {
      for i := 0 to |roads|
        invariant index == Registered(old(index), fd, roads[..i])
      {
        var road := roads[i];
        assert roads[..i + 1] == roads[..i] + [road] && roads[..i + 1][..i] == roads[..i];
        if road in index {
          index := index[road := index[road] + {fd}];
        } else {
          assert {} + {fd} == {fd};
          index := index[road := {fd}];
        }
      }
      assert roads[..|roads|] == roads;
    }

    method RemoveDispatcher(fd: Fd, roads: seq<u16>)
      modifies this
      ensures index == Unregistered(old(index), fd, roads)
    {
      for i := 0 to |roads|
        invariant index == Unregistered(old(index), fd, roads[..i])
      {
        var road := roads[i];
        assert roads[..i + 1] == roads[..i] + [road] && roads[..i + 1][..i] == roads[..i];
        if road in index {
          index := index[road := index[road] - {fd}];
        }
      }
      assert roads[..|roads|] == roads;
    }
  }

  // ----- What a dispatch pass means

  predicate Deliverable(m: RoadMap, t: Ticket) {
    DispatchersOf(m, t.road) != {}
  }

  function CanDeliver(m: RoadMap): Ticket -> bool {
    t => Deliverable(m, t)
  }

  /** The deliverable tickets of a queue, in queue order. */
  function Outgoing(m: RoadMap, q: seq<Ticket>): seq<Ticket> {
    Matching(CanDeliver(m), q)
  }

  /** The queue after a pass that made `k` deliveries. */
  function After(m: RoadMap, q: seq<Ticket>, k: nat): seq<Ticket> {
    Without(CanDeliver(m), q, k)
  }

  function TicketsOf(ds: seq<Delivery>): (r: seq<Ticket>)
    ensures |r| == |ds| && forall i :: 0 <= i < |ds| ==> r[i] == ds[i].ticket
  {
    if ds == [] then [] else TicketsOf(ds[..|ds| - 1]) + [ds[|ds| - 1].ticket]
  }

  /** Every delivery went to a dispatcher that the index listed for the ticket's road. */
  ghost predicate WellAddressed(m: RoadMap, ds: seq<Delivery>) {
    forall d :: d in ds ==> d.fd in DispatchersOf(m, d.ticket.road)
  }

  /** A pass that delivers all it can is a stable partition: it sends the deliverable tickets,
      and none that is left is deliverable. */
  lemma FullPassPartitions(m: RoadMap, q: seq<Ticket>)
    ensures forall t :: t in Outgoing(m, q) <==> t in q && Deliverable(m, t)
    ensures forall t :: t in After(m, q, |Outgoing(m, q)|) ==> !Deliverable(m, t)
  {
    MatchingPass(CanDeliver(m), q);
    Exhausted(CanDeliver(m), q, |Outgoing(m, q)|);
    assert forall t :: t in After(m, q, |Outgoing(m, q)|) ==> !CanDeliver(m)(t);
  }

  /** What is left to do after `k` deliveries, and one delivery more. */
  lemma LeftAfter(m: RoadMap, q: seq<Ticket>, k: nat)
    requires k <= |Outgoing(m, q)|
    ensures Outgoing(m, After(m, q, k)) == Outgoing(m, q)[k..]
    ensures |After(m, q, k)| == |q| - k
    ensures After(m, After(m, q, k), 1) == After(m, q, k + 1)
  {
    MatchingAfter(CanDeliver(m), q, k);
    WithoutMore(CanDeliver(m), q, k);
  }

  /** A pass loses and invents nothing, however far it gets. */
  lemma PassConserves(m: RoadMap, q: seq<Ticket>, k: nat)
    requires k <= |Outgoing(m, q)|
    ensures multiset(q) == multiset(Outgoing(m, q)[..k]) + multiset(After(m, q, k))
  {
    Conserves(CanDeliver(m), q, k);
  }

  /** The first deliverable ticket of a queue is the first to go. */
  lemma FirstOutgoing(m: RoadMap, q: seq<Ticket>, i: nat)
    requires i < |q| && Deliverable(m, q[i]) && forall j :: 0 <= j < i ==> !Deliverable(m, q[j])
    ensures Outgoing(m, q) != [] && Outgoing(m, q)[0] == q[i] && After(m, q, 1) == q[..i] + q[i + 1..]
  {
    FirstMatch(CanDeliver(m), q, i);
  }

  class TicketsQueue {
    var queue: seq<Ticket>

    constructor ()
      ensures queue == []
    {
      queue := [];
    }

    method Append(t: Ticket)
      modifies this
      ensures queue == old(queue) + [t]
    {
      queue := queue + [t];
    }

    /** The nested loop: look from the head for a deliverable ticket, send it, remove it and
        start over, at most once per queued ticket. `successes` sends succeed before one fails;
        a failed send ends the pass with its ticket still queued. */
    method DispatchTicketsQueue(roads: Roads, successes: nat) returns (ok: bool, sent: seq<Delivery>)
      modifies this
      ensures ok <==> |Outgoing(roads.index, old(queue))| <= successes
      ensures |sent| == if ok then |Outgoing(roads.index, old(queue))| else successes
      ensures TicketsOf(sent) == Outgoing(roads.index, old(queue))[..|sent|]
      ensures queue == After(roads.index, old(queue), |sent|)
      ensures WellAddressed(roads.index, sent)
    {
      ok, sent := true, [];
      ghost var m, q := roads.index, queue;
      var rounds := |queue|;
      for round := 0 to rounds
        invariant |sent| == round <= |Outgoing(m, q)| && round <= successes
        invariant TicketsOf(sent) == Outgoing(m, q)[..round]
        invariant queue == After(m, q, round)
        invariant WellAddressed(m, sent)
      {
        LeftAfter(m, q, round);
        var i := FirstDeliverable(roads);
        if i == |queue| {
          return;
        }
        if round == successes {
          ok := false;
          return;
        }
        var fd := AnyOf(DispatchersOf(roads.index, queue[i].road));
        sent := sent + [Delivery(queue[i], fd)];
        queue := queue[..i] + queue[i + 1..];
      }
      LeftAfter(m, q, rounds);
    }

    method FirstDeliverable(roads: Roads) returns (i: nat)
      ensures i <= |queue| && (i == |queue| <==> Outgoing(roads.index, queue) == [])
      ensures i < |queue| ==> && Deliverable(roads.index, queue[i])
                              && Outgoing(roads.index, queue)[0] == queue[i]
                              && After(roads.index, queue, 1) == queue[..i] + queue[i + 1..]
    {
      i := 0;
      while i < |queue| && (queue[i].road !in roads.index || roads.index[queue[i].road] == {})
        invariant i <= |queue|
        invariant forall j :: 0 <= j < i ==> !Deliverable(roads.index, queue[j])
      {
        i := i + 1;
      }
      ghost var f := CanDeliver(roads.index);
      MatchingPass(f, queue);
      if i < |queue| {
        FirstMatch(f, queue, i);
      } else if Outgoing(roads.index, queue) != [] {
        assert f(Outgoing(roads.index, queue)[0]);
      }
    }
  }

  /** The first element a set iterator yields: some member. */
  method AnyOf(s: set<Fd>) returns (fd: Fd)
    requires s != {}
    ensures fd in s
  {
    assert (forall x :: x !in s) ==> s == {};
    fd :| fd in s;
  }
}

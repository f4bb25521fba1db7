/** The ticket queue of the state machine. A dispatch pass with no other step in between is the dispatch
    loop of the ticket queue object: the same stable partition, cut at the first failed send. And whatever
    the interleaving, queued tickets keep their order. */
module Passes {
  import opened Messages
  import opened Dispatch
  import opened Bags
  import opened Protocol

  /** `n` deliveries into a pass over the queue `q`: what is left and what was sent. */
  ghost predicate Delivered(m: RoadMap, q: seq<Ticket>, sent: seq<Ticket>, n: nat,
                            queue: seq<Ticket>, sent': seq<Ticket>) {
    && n <= |Outgoing(m, q)|
    && queue == After(m, q, n)
    && sent' == sent + Outgoing(m, q)[..n]
  }

  /** Where the thread then is: at a ticket, with nothing deliverable before it; at the end of the pass,
      with all delivered; or at a failed send. */
  ghost predicate Stands(m: RoadMap, q: seq<Ticket>, n: nat, queue: seq<Ticket>, p: Phase) {
    || (p.Passing? && p.rounds == |queue| && p.pos <= |queue| && Stuck(queue, m, p.pos))
    || (p.Handling? && n == |Outgoing(m, q)|)
    || (p.Closing? && n < |Outgoing(m, q)|)
  }

  lemma StartDelivers(m: RoadMap, q: seq<Ticket>, sent: seq<Ticket>)
    ensures Delivered(m, q, sent, 0, q, sent)
  {
    assert sent + Outgoing(m, q)[..0] == sent;
  }

  lemma FirstIn<T>(s: seq<T>)
    ensures s == [] || s[0] in s
  {
  }

  /** A queue in which nothing is deliverable has nothing to send. */
  lemma NothingOutgoing(m: RoadMap, queue: seq<Ticket>)
    requires Stuck(queue, m, |queue|)
    ensures Outgoing(m, queue) == []
  {
    FullPassPartitions(m, queue);
    FirstIn(Outgoing(m, queue));
  }

  lemma OneMore(m: RoadMap, q: seq<Ticket>, sent: seq<Ticket>, n: nat, queue: seq<Ticket>, sent': seq<Ticket>,
                pos: nat)
    requires Delivered(m, q, sent, n, queue, sent')
    requires pos < |queue| && Deliverable(m, queue[pos]) && Stuck(queue, m, pos)
    ensures n < |Outgoing(m, q)|
    ensures Delivered(m, q, sent, n + 1, queue[..pos] + queue[pos + 1..], sent' + [queue[pos]])
  {
    LeftAfter(m, q, n);
    FirstOutgoing(m, queue, pos);
    var out := Outgoing(m, q);
    assert out[n..][0] == out[n] && out[..n + 1] == out[..n] + [out[n]];
    assert sent + out[..n] + [out[n]] == sent + (out[..n] + [out[n]]);
  }

  lemma AllDelivered(m: RoadMap, q: seq<Ticket>, n: nat)
    requires n <= |Outgoing(m, q)| && Outgoing(m, After(m, q, n)) == []
    ensures n == |Outgoing(m, q)|
  {
    LeftAfter(m, q, n);
  }

  /** One look. */
  lemma LookDelivers(m: RoadMap, q: seq<Ticket>, sent: seq<Ticket>, n: nat, queue: seq<Ticket>, sent': seq<Ticket>,
                     p: Phase, to: Fd, ok: bool, stalled: bool)
      returns (n': nat)
    requires p.Passing? && Delivered(m, q, sent, n, queue, sent') && Stands(m, q, n, queue, p)
    ensures var r := Looked(p, queue, m, to, ok, stalled);
            Delivered(m, q, sent, n', r.queue, sent' + TicketsOf(r.sent)) && Stands(m, q, n', r.queue, r.phase)
  {
    n' := n;
    assert TicketsOf([]) == [] && sent' + [] == sent';
    if FindsIn(p, queue, m) {
      OneMore(m, q, sent, n, queue, sent', p.pos);
      if ok {
        TicketsOfOne(Delivery(queue[p.pos], to));
        n' := n + 1;
      }
    } else if p.pos == |queue| {
      NothingOutgoing(m, queue);
      AllDelivered(m, q, n);
    }
  }

  /** The steps `i` to `j` are one thread's, from the beginning of a pass on. */
  ghost predicate OnePass(acts: seq<Action>, i: nat, j: nat, tid: nat) {
    && i < j <= |acts| && acts[i] == Begin(tid)
    && forall k :: i < k < j ==> acts[k].Look? && acts[k].tid == tid
  }

  ghost predicate PassAt(w0: World, w: World, tid: nat, n: nat) {
    && tid < |w.threads| && w.roads == w0.roads
    && Delivered(w0.roads, w0.queue, TicketsOf(w0.sent), n, w.queue, TicketsOf(w.sent))
    && Stands(w0.roads, w0.queue, n, w.queue, w.threads[tid])
  }

  lemma BeginsPass(w: World, tid: nat, v: World)
    requires Next(w, Begin(tid), v)
    ensures PassAt(w, v, tid, 0)
  {
    StartDelivers(w.roads, w.queue, TicketsOf(w.sent));
    if w.queue == [] {
      NothingOutgoing(w.roads, w.queue);
    }
  }

  lemma PassGoesOn(w0: World, w: World, a: Action, v: World, n: nat) returns (n': nat)
    requires a.Look? && Next(w, a, v) && PassAt(w0, w, a.tid, n)
    ensures PassAt(w0, v, a.tid, n')
  {
    var r := Looked(w.threads[a.tid], w.queue, w.roads, a.to, a.ok, w.stalled);
    TicketsOfAppend(w.sent, r.sent);
    n' := LookDelivers(w0.roads, w0.queue, TicketsOf(w0.sent), n, w.queue, TicketsOf(w.sent),
                       w.threads[a.tid], a.to, a.ok, w.stalled);
  }

  lemma {:induction false} PassSoFar(n: nat, ws: seq<World>, acts: seq<Action>, i: nat, j: nat, tid: nat)
      returns (k: nat)
    requires Run(n, ws, acts) && OnePass(acts, i, j, tid)
    ensures PassAt(ws[i], ws[j], tid, k)
    decreases j
  {
    StepOfRun(n, ws, acts, j);
    if j == i + 1 {
      k := 0;
      BeginsPass(ws[i], tid, ws[j]);
    } else {
      k := PassSoFar(n, ws, acts, i, j - 1, tid);
      k := PassGoesOn(ws[i], ws[j - 1], acts[j - 1], ws[j], k);
    }
  }

  /** A pass with no other step in between sends the first `k` deliverable tickets of its queue, in order,
      and leaves the rest; when it has ended, these are all of them exactly if no send failed. */
  lemma UndisturbedPass(n: nat, ws: seq<World>, acts: seq<Action>, i: nat, j: nat, tid: nat) returns (k: nat)
    requires Run(n, ws, acts) && OnePass(acts, i, j, tid)
    ensures var w, v := ws[i], ws[j];
            && k <= |Outgoing(w.roads, w.queue)|
            && TicketsOf(v.sent) == TicketsOf(w.sent) + Outgoing(w.roads, w.queue)[..k]
            && v.queue == After(w.roads, w.queue, k)
            && tid < |v.threads|
            && (!v.threads[tid].Passing? ==>
                  (v.threads[tid].Handling? <==> k == |Outgoing(w.roads, w.queue)|)
                  && (v.threads[tid].Closing? <==> k < |Outgoing(w.roads, w.queue)|))
  {
    k := PassSoFar(n, ws, acts, i, j, tid);
  }

  // ----- The order of the queue

  ghost predicate Before<T(!new)>(q: seq<T>, t: T, u: T) {
    exists a, b :: 0 <= a < b < |q| && q[a] == t && q[b] == u
  }

  lemma RemovalKeepsOrder<T(!new)>(q: seq<T>, i: nat, t: T, u: T)
    requires Distinct(q) && i < |q| && Before(q, t, u) && q[i] != t && q[i] != u
    ensures Before(q[..i] + q[i + 1..], t, u)
  {
    var a, b :| 0 <= a < b < |q| && q[a] == t && q[b] == u;
    var r := q[..i] + q[i + 1..];
    var c, d := if a < i then a else a - 1, if b < i then b else b - 1;
    assert r[c] == t && r[d] == u;
  }

  lemma RemovedIsGone<T(!new)>(q: seq<T>, i: nat)
    requires Distinct(q) && i < |q|
    ensures q[i] !in q[..i] + q[i + 1..]
  {
  }

  lemma {:induction false} CountedOnce<T(!new)>(q: seq<T>)
    requires forall t :: multiset(q)[t] <= 1
    ensures Distinct(q)
  {
    forall i, j | 0 <= i < j < |q|
      ensures q[i] != q[j]
    {
      if q[i] == q[j] {
        TwiceCounts(q, i, j);
      }
    }
  }

  lemma QueueDistinct(n: nat, ws: seq<World>, acts: seq<Action>, k: nat)
    requires Run(n, ws, acts) && k < |ws|
    ensures Distinct(ws[k].queue)
  {
    forall t: Ticket
      ensures multiset(ws[k].queue)[t] <= 1
    {
      ExactlyOnce(n, ws, acts, k, t);
    }
    CountedOnce(ws[k].queue);
  }

  lemma LookRemoves(p: Phase, queue: seq<Ticket>, roads: RoadMap, to: Fd, ok: bool, stalled: bool)
    requires p.Passing?
    ensures var r := Looked(p, queue, roads, to, ok, stalled);
            && (r.queue == queue || (p.pos < |queue| && r.queue == queue[..p.pos] + queue[p.pos + 1..]))
            && (r.queue != queue ==> r.phase.Passing? && r.phase.pos == 0)
  {
  }

  /** What a step does to the queue: nothing, a ticket joins its end, or the ticket looked at leaves it and
      the pass starts again at the head. */
  lemma QueueMoves(w: World, a: Action, v: World)
    requires Next(w, a, v)
    ensures || v.queue == w.queue
            || (a.Append? && v.queue == w.queue + [w.threads[a.tid].todo[0]])
            || (a.Look? && w.threads[a.tid].pos < |w.queue|
                && v.queue == w.queue[..w.threads[a.tid].pos] + w.queue[w.threads[a.tid].pos + 1..]
                && v.threads[a.tid].Passing? && v.threads[a.tid].pos == 0)
    ensures a.Append? ==> v.queue == w.queue + [w.threads[a.tid].todo[0]]
  {
    if a.Look? {
      LookRemoves(w.threads[a.tid], w.queue, w.roads, a.to, a.ok, w.stalled);
    } else if Plain(w, a) {
      PlainOutline(w, a);
    }
  }

  lemma OrderNext(n: nat, ws: seq<World>, acts: seq<Action>, k: nat, t: Ticket, u: Ticket)
    requires Run(n, ws, acts) && k < |acts| && Before(ws[k].queue, t, u)
    requires t in ws[k + 1].queue && u in ws[k + 1].queue
    ensures Before(ws[k + 1].queue, t, u)
  {
    var w, a, v := ws[k], acts[k], ws[k + 1];
    StepOfRun(n, ws, acts, k + 1);
    QueueMoves(w, a, v);
    if a.Append? {
      var i, j :| 0 <= i < j < |w.queue| && w.queue[i] == t && w.queue[j] == u;
      assert v.queue[i] == t && v.queue[j] == u;
    } else if v.queue != w.queue {
      var i := w.threads[a.tid].pos;
      QueueDistinct(n, ws, acts, k);
      RemovedIsGone(w.queue, i);
      RemovalKeepsOrder(w.queue, i, t, u);
    }
  }

  /** While two tickets are queued, their order never changes. */
  lemma {:induction false} QueueOrder(n: nat, ws: seq<World>, acts: seq<Action>, i: nat, j: nat, t: Ticket, u: Ticket)
    requires Run(n, ws, acts) && i <= j < |ws| && Before(ws[i].queue, t, u)
    requires forall k :: i <= k <= j ==> t in ws[k].queue && u in ws[k].queue
    ensures Before(ws[j].queue, t, u)
    decreases j
  {
    if i < j {
      QueueOrder(n, ws, acts, i, j - 1, t, u);
      OrderNext(n, ws, acts, j - 1, t, u);
    }
  }

  /** A ticket that a thread queues goes behind all that are queued. */
  lemma JoinsTheEnd(w: World, tid: nat, v: World, t: Ticket)
    requires Next(w, Append(tid), v) && t in w.queue
    ensures Before(v.queue, t, w.threads[tid].todo[0]) && v.threads[tid].todo == w.threads[tid].todo[1..]
  {
    QueueMoves(w, Append(tid), v);
    var i :| 0 <= i < |w.queue| && w.queue[i] == t;
    assert v.queue[i] == t && v.queue[|w.queue|] == w.threads[tid].todo[0];
  }
}

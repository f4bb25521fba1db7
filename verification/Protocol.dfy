/** The handlers of the speed daemon (main.zig) as a state machine. Every step is one locked
    region, or work on data only the running thread may touch, so a run of the machine is an
    interleaving of worker threads. */
module Protocol {
  import opened Messages
  import opened Sightings
  import opened Histories
  import opened Dispatch
  import opened Logs
  import opened Partition
  import opened Bags

  datatype Option<+T> = None | Some(value: T)

  datatype Client = Client(role: Role, timer: Option<Fd>, heartbeatRequested: bool)

  /** Where a worker thread is. */
  datatype Phase =
    | Idle
    | Handling(fd: Fd, msgs: seq<Message>)
      // holds the cars lock; `todo` of its `count` new tickets are not in the queue yet
    | Appending(fd: Fd, msgs: seq<Message>, todo: seq<Ticket>, count: nat)
      // has set its client's timer, about to enter it in the timer table
    | Arming(fd: Fd, msgs: seq<Message>, timerfd: Fd)
      // about to run a dispatch pass
    | Owing(fd: Fd, msgs: seq<Message>)
      // in a pass, with the tickets lock: about to look at the ticket at `pos`
    | Passing(fd: Fd, msgs: seq<Message>, pos: nat, rounds: nat)
      // removeFd: about to take the client off the road index, then to delete it
    | Closing(fd: Fd)
    | Dropping(fd: Fd)

  /** The shared state, the threads, and three logs: messages handled, tickets ever issued and
      deliveries ever made. `stalled` says that the last pass to end did so in a failed send. */
  datatype World = World(
    cars: map<Plate, CarState>,
    queue: seq<Ticket>,
    roads: RoadMap,
    clients: map<Fd, Client>,
    timers: map<Fd, Fd>,
    threads: seq<Phase>,
    log: seq<Entry>,
    issued: seq<Ticket>,
    sent: seq<Delivery>,
    stalled: bool)

  function Start(n: nat): World {
    World(map[], [], map[], map[], map[], seq(n, _ => Idle), [], [], [], false)
  }

  /** `timerfd` is the descriptor a new timer would get, `to` the dispatcher a pass picks, and `ok`
      whether the send succeeds. */
  datatype Action =
    | Accept(fd: Fd)
    | Receive(tid: nat, fd: Fd, msgs: seq<Message>)
    | HangUp(tid: nat, fd: Fd)
    | Handle(tid: nat, timerfd: Fd)
    | Arm(tid: nat)
    | Append(tid: nat)
    | Unlock(tid: nat)
    | Begin(tid: nat)
    | Look(tid: nat, to: Fd, ok: bool)
    | Unroad(tid: nat)
    | Drop(tid: nat)

  predicate BusyWith(p: Phase, fd: Fd) {
    !p.Idle? && p.fd == fd
  }

  predicate CarsFree(threads: seq<Phase>) {
    forall p :: p in threads ==> !p.Appending?
  }

  predicate TicketsFree(threads: seq<Phase>) {
    forall p :: p in threads ==> !p.Passing?
  }

  predicate AcceptsPlate(c: Client, m: Message) {
    m.PlateM? && c.role.AsCamera? && m.plate != []
  }

  ghost predicate Enabled(w: World, a: Action) {
    match a
    case Accept(fd) => Unused(w, fd)
    case Receive(tid, fd, _) => CanStart(w, tid, fd)
    case HangUp(tid, fd) => CanStart(w, tid, fd)
    case Handle(tid, timerfd) =>
      && tid < |w.threads| && w.threads[tid].Handling? && w.threads[tid].fd in w.clients
      && Unused(w, timerfd)
      && (w.threads[tid].msgs != [] && AcceptsPlate(w.clients[w.threads[tid].fd], w.threads[tid].msgs[0])
          ==> CarsFree(w.threads))
    case Arm(tid) => tid < |w.threads| && w.threads[tid].Arming?
    case Append(tid) =>
      tid < |w.threads| && w.threads[tid].Appending? && w.threads[tid].todo != [] && TicketsFree(w.threads)
    case Unlock(tid) => tid < |w.threads| && w.threads[tid].Appending? && w.threads[tid].todo == []
    case Begin(tid) => tid < |w.threads| && w.threads[tid].Owing? && (w.queue == [] || TicketsFree(w.threads))
    case Look(tid, to, _) =>
      && tid < |w.threads| && w.threads[tid].Passing?
      && (Finds(w, tid) ==> to in DispatchersOf(w.roads, w.queue[w.threads[tid].pos].road))
    case Unroad(tid) => tid < |w.threads| && w.threads[tid].Closing? && w.threads[tid].fd in w.clients
    case Drop(tid) => tid < |w.threads| && w.threads[tid].Dropping? && w.threads[tid].fd in w.clients
  }

  /** A descriptor the kernel can give out. */
  ghost predicate Unused(w: World, fd: Fd) {
    fd !in w.clients && fd !in w.timers && forall c :: c in w.clients ==> w.clients[c].timer != Some(fd)
  }

  /** A pass has come to a ticket it can deliver. */
  predicate FindsIn(p: Phase, queue: seq<Ticket>, roads: RoadMap)
    requires p.Passing?
  {
    p.rounds > 0 && p.pos < |queue| && Deliverable(roads, queue[p.pos])
  }

  predicate Finds(w: World, tid: nat)
    requires tid < |w.threads| && w.threads[tid].Passing?
  {
    FindsIn(w.threads[tid], w.queue, w.roads)
  }

  datatype LookResult = LookResult(phase: Phase, queue: seq<Ticket>, sent: seq<Delivery>, stalled: bool)

  /** One look of a pass: it ends when the rounds or the tickets do, walks on, or sends a ticket, takes
      it out of the queue and starts again at the head. A failed send ends it, the ticket still queued. */
  function Looked(p: Phase, queue: seq<Ticket>, roads: RoadMap, to: Fd, ok: bool, stalled: bool): (r: LookResult)
    requires p.Passing?
    ensures BusyWith(r.phase, p.fd) && (r.phase.Passing? || r.phase.Handling? || r.phase.Closing?)
  {
    if p.rounds == 0 || p.pos >= |queue| then LookResult(Handling(p.fd, p.msgs), queue, [], false)
    else if !FindsIn(p, queue, roads) then LookResult(p.(pos := p.pos + 1), queue, [], stalled)
    else if !ok then LookResult(Closing(p.fd), queue, [], true)
    else LookResult(p.(pos := 0, rounds := p.rounds - 1), queue[..p.pos] + queue[p.pos + 1..],
                    [Delivery(queue[p.pos], to)], stalled)
  }

  /** One-shot events: a descriptor is handled by one thread at a time. */
  predicate CanStart(w: World, tid: nat, fd: Fd) {
    && tid < |w.threads| && w.threads[tid].Idle? && fd in w.clients
    && forall p :: p in w.threads ==> !BusyWith(p, fd)
  }

  function Go(w: World, tid: nat, p: Phase): World
    requires tid < |w.threads|
  {
    w.(threads := w.threads[tid := p])
  }

  function Step(w: World, a: Action): World
    requires Enabled(w, a)
  {
    match a
    case Accept(fd) => w.(clients := w.clients[fd := Client(Unidentified, None, false)])
    case Receive(tid, fd, msgs) => Go(w, tid, Handling(fd, msgs))
    case HangUp(tid, fd) => Go(w, tid, Closing(fd))
    case Handle(tid, timerfd) =>
      var Handling(fd, msgs) := w.threads[tid];
      if msgs == [] then Go(w, tid, Idle)
      else HandleMessage(w, tid, fd, msgs[0], msgs[1..], timerfd)
    case Arm(tid) =>
      var Arming(fd, msgs, timerfd) := w.threads[tid];
      Go(w.(timers := w.timers[timerfd := fd]), tid, Handling(fd, msgs))
    case Append(tid) =>
      var Appending(fd, msgs, todo, count) := w.threads[tid];
      Go(w.(queue := w.queue + [todo[0]]), tid, Appending(fd, msgs, todo[1..], count))
    case Unlock(tid) =>
      var Appending(fd, msgs, _, count) := w.threads[tid];
      Go(w, tid, if count > 0 then Owing(fd, msgs) else Handling(fd, msgs))
    case Begin(tid) =>
      var Owing(fd, msgs) := w.threads[tid];
      if w.queue == [] then Go(w.(stalled := false), tid, Handling(fd, msgs))
      else Go(w, tid, Passing(fd, msgs, 0, |w.queue|))
    case Look(tid, to, ok) =>
      var r := Looked(w.threads[tid], w.queue, w.roads, to, ok, w.stalled);
      Go(w.(queue := r.queue, sent := w.sent + r.sent, stalled := r.stalled), tid, r.phase)
    case Unroad(tid) =>
      var fd := w.threads[tid].fd;
      var role := w.clients[fd].role;
      Go(if role.AsDispatcher? then w.(roads := Unregistered(w.roads, fd, role.roads)) else w, tid, Dropping(fd))
    case Drop(tid) =>
      var fd := w.threads[tid].fd;
      var timer := w.clients[fd].timer;
      Go(w.(clients := w.clients - {fd}, timers := if timer.Some? then w.timers - {timer.value} else w.timers),
         tid, Idle)
  }

  /** What a message other than an accepted plate does to its client and its thread. */
  function Reaction(c: Client, fd: Fd, m: Message, rest: seq<Message>, timerfd: Fd): (r: (Client, Phase))
    ensures BusyWith(r.1, fd) && !r.1.Appending? && !r.1.Passing? && !r.1.Dropping?
    ensures c.role.Unidentified? || r.0.role == c.role
  {
    match m
    case IAmCamera(road, mile, limit) =>
      if !c.role.Unidentified? then (c, Closing(fd))
      else (c.(role := AsCamera(Camera(road, mile, limit))), Handling(fd, rest))
    case IAmDispatcher(roads) =>
      if !c.role.Unidentified? then (c, Closing(fd))
      else (c.(role := AsDispatcher(roads)), Owing(fd, rest))
    case WantHeartbeat(interval) =>
      if c.heartbeatRequested || c.timer.Some? then (c, Closing(fd))
      else if interval == 0 then (c.(heartbeatRequested := true), Handling(fd, rest))
      else (c.(timer := Some(timerfd)), Arming(fd, rest, timerfd))
    case _ => (c, Closing(fd))
  }

  function HandleMessage(w: World, tid: nat, fd: Fd, m: Message, rest: seq<Message>, timerfd: Fd): World
    requires tid < |w.threads| && fd in w.clients
  {
    var c := w.clients[fd];
    var logged := w.(log := w.log + [Entry(tid, fd, c.role, m)]);
    if AcceptsPlate(c, m) then
      SeePlate(logged, tid, fd, m.plate, c.role.cam, m.timestamp, rest)
    else
      var (c', p) := Reaction(c, fd, m, rest, timerfd);
      Go(logged.(clients := w.clients[fd := c'],
                 roads := if p.Owing? then Registered(w.roads, fd, m.roads) else w.roads),
         tid, p)
  }

  /** The region under the cars lock, up to the tickets it has to append. */
  function SeePlate(w: World, tid: nat, fd: Fd, plate: Plate, cam: Camera, timestamp: u32, rest: seq<Message>): World
    requires tid < |w.threads|
  {
    var o := Observe(plate, CarOf(w.cars, plate), cam, timestamp);
    Go(w.(cars := w.cars[plate := o.car], issued := w.issued + o.tickets),
       tid, Appending(fd, rest, o.tickets, |o.tickets|))
  }

  // ----- The invariant, one concern at a time

  /** Busy threads work on live clients, each on its own, and one at most holds a lock. */
  ghost predicate ThreadsInv(threads: seq<Phase>, clients: map<Fd, Client>) {
    && (forall i :: 0 <= i < |threads| && !threads[i].Idle? ==> threads[i].fd in clients)
    && (forall i, j :: 0 <= i < j < |threads| && !threads[i].Idle? && !threads[j].Idle? ==>
          && threads[i].fd != threads[j].fd
          && !(threads[i].Appending? && threads[j].Appending?) && !(threads[i].Passing? && threads[j].Passing?))
  }

  predicate Listed(clients: map<Fd, Client>, road: u16, fd: Fd) {
    fd in clients && clients[fd].role.AsDispatcher? && road in clients[fd].role.roads
  }

  /** A descriptor is in a road's set exactly when a live dispatcher lists the road, unless its
      removal is half done. */
  ghost predicate IndexInv(roads: RoadMap, clients: map<Fd, Client>, threads: seq<Phase>) {
    forall road: u16, fd: Fd ::
      fd in DispatchersOf(roads, road) <==> Listed(clients, road, fd) && Dropping(fd) !in threads
  }

  /** Timers and clients point at each other one to one, except for a timer about to be entered in the
      table. */
  ghost predicate TimerInv(timers: map<Fd, Fd>, clients: map<Fd, Client>, threads: seq<Phase>) {
    && (forall t :: t in timers ==> timers[t] in clients && clients[timers[t]].timer == Some(t))
    && (forall fd :: fd in clients && clients[fd].timer.Some? ==>
          && clients[fd].timer.value !in clients
          && (Armed(threads, fd) ==> clients[fd].timer.value in timers && timers[clients[fd].timer.value] == fd))
    && (forall p :: p in threads && p.Arming? ==>
          p.fd in clients && clients[p.fd].timer == Some(p.timerfd) && p.timerfd !in timers)
    && (forall fd, g ::
          fd in clients && g in clients && clients[fd].timer.Some? && clients[fd].timer == clients[g].timer ==> fd == g)
  }

  /** No thread is about to enter a timer of this client. */
  ghost predicate Armed(threads: seq<Phase>, fd: Fd) {
    forall p :: p in threads && p.Arming? ==> p.fd != fd
  }

  function Todo(p: Phase): seq<Ticket> {
    if p.Appending? then p.todo else []
  }

  /** Tickets issued by a thread that has not queued them yet. */
  function Pending(threads: seq<Phase>): multiset<Ticket> {
    if threads == [] then multiset{} else Pending(threads[1..]) + multiset(Todo(threads[0]))
  }

  /** Every ticket issued is on its way to the queue, in the queue, or sent; and nothing else is. */
  ghost predicate ConservationInv(w: World) {
    Balanced(multiset(w.issued), Pending(w.threads), multiset(w.queue), multiset(TicketsOf(w.sent)))
  }

  predicate Owes(p: Phase) {
    p.Owing? || (p.Appending? && p.count > 0)
  }

  ghost predicate Owed(threads: seq<Phase>) {
    exists p :: p in threads && Owes(p)
  }

  /** The first `n` tickets of the queue cannot be delivered. */
  ghost predicate Stuck(queue: seq<Ticket>, roads: RoadMap, n: nat) {
    forall i :: 0 <= i < n && i < |queue| ==> !Deliverable(roads, queue[i])
  }

  /** A deliverable ticket in the queue is owed a pass by some thread, or a pass is under way. */
  ghost predicate NoneStranded(queue: seq<Ticket>, roads: RoadMap, threads: seq<Phase>) {
    Owed(threads) || !TicketsFree(threads) || Stuck(queue, roads, |queue|)
  }

  /** A pass has a round for every ticket in the queue, and those it has walked past cannot be
      delivered, unless some thread owes another pass. */
  ghost predicate PassInv(queue: seq<Ticket>, roads: RoadMap, threads: seq<Phase>) {
    forall p :: p in threads && p.Passing? ==>
      p.rounds == |queue| && p.pos <= |queue| && (Owed(threads) || Stuck(queue, roads, p.pos))
  }

  ghost predicate AppendingInv(threads: seq<Phase>) {
    forall p :: p in threads && p.Appending? ==> |p.todo| <= p.count
  }

  ghost predicate Inv(w: World) {
    && ThreadsInv(w.threads, w.clients) && AppendingInv(w.threads)
    && IndexInv(w.roads, w.clients, w.threads)
    && TimerInv(w.timers, w.clients, w.threads)
    && LogInv(w.cars, w.issued, w.log)
    && ConservationInv(w)
    && PassInv(w.queue, w.roads, w.threads)
    && (w.stalled || NoneStranded(w.queue, w.roads, w.threads))
  }

  lemma {:induction false} StartPending(n: nat)
    ensures Pending(Start(n).threads) == multiset{}
  {
    if n > 0 {
      StartPending(n - 1);
      assert Start(n).threads[1..] == Start(n - 1).threads;
    }
  }

  lemma StartInv(n: nat)
    ensures Inv(Start(n))
  {
    StartPending(n);
    NothingYet();
  }

  // ----- Every step keeps it: threads

  /** A thread moves on with its own client, or takes up one nobody works on. */
  lemma ThreadMoves(threads: seq<Phase>, clients: map<Fd, Client>, tid: nat, p: Phase, clients': map<Fd, Client>)
    requires ThreadsInv(threads, clients) && AppendingInv(threads) && tid < |threads|
    requires clients.Keys <= clients'.Keys
    requires !p.Idle? ==> p.fd in clients'
    requires !p.Idle? ==> BusyWith(threads[tid], p.fd) || forall q :: q in threads ==> !BusyWith(q, p.fd)
    requires p.Appending? ==> |p.todo| <= p.count && (threads[tid].Appending? || CarsFree(threads))
    requires p.Passing? ==> threads[tid].Passing? || TicketsFree(threads)
    ensures ThreadsInv(threads[tid := p], clients') && AppendingInv(threads[tid := p])
  {
    var after := threads[tid := p];
    forall i, j | 0 <= i < j < |after| && !after[i].Idle? && !after[j].Idle?
      ensures after[i].fd != after[j].fd
      ensures !(after[i].Appending? && after[j].Appending?) && !(after[i].Passing? && after[j].Passing?)
    {
      if i == tid {
        assert threads[j] in threads;
      } else if j == tid {
        assert threads[i] in threads;
      }
    }
    forall q | q in after && q.Appending?
      ensures |q.todo| <= q.count
    {
      assert q == p || q in threads;
    }
  }

  lemma ThreadDrops(threads: seq<Phase>, clients: map<Fd, Client>, tid: nat)
    requires ThreadsInv(threads, clients) && AppendingInv(threads) && tid < |threads| && !threads[tid].Idle?
    ensures ThreadsInv(threads[tid := Idle], clients - {threads[tid].fd}) && AppendingInv(threads[tid := Idle])
  {
    var after := threads[tid := Idle];
    forall q | q in after && q.Appending?
      ensures |q.todo| <= q.count
    {
      assert q in threads;
    }
  }

  /** What handling one message does to the threads and clients, in outline. */
  lemma HandleOutline(w: World, tid: nat, fd: Fd, m: Message, rest: seq<Message>, timerfd: Fd)
    requires tid < |w.threads| && fd in w.clients
    ensures var v := HandleMessage(w, tid, fd, m, rest, timerfd);
            && |v.threads| == |w.threads| && v.threads == w.threads[tid := v.threads[tid]]
            && BusyWith(v.threads[tid], fd) && !v.threads[tid].Passing?
            && (v.threads[tid].Appending? ==>
                  AcceptsPlate(w.clients[fd], m) && |v.threads[tid].todo| <= v.threads[tid].count)
            && v.clients.Keys == w.clients.Keys
  {
  }

  lemma HandledThreadMoves(w: World, tid: nat, v: World)
    requires ThreadsInv(w.threads, w.clients) && AppendingInv(w.threads)
    requires tid < |w.threads| == |v.threads| && v.threads == w.threads[tid := v.threads[tid]]
    requires w.threads[tid].Handling?
    requires BusyWith(v.threads[tid], w.threads[tid].fd) && !v.threads[tid].Passing? && w.clients.Keys <= v.clients.Keys
    requires v.threads[tid].Appending? ==> CarsFree(w.threads) && |v.threads[tid].todo| <= v.threads[tid].count
    ensures ThreadsInv(v.threads, v.clients) && AppendingInv(v.threads)
  {
    ThreadMoves(w.threads, w.clients, tid, v.threads[tid], v.clients);
  }

  lemma PassKeepsThreads(w: World, a: Action)
    requires ThreadsInv(w.threads, w.clients) && AppendingInv(w.threads) && Enabled(w, a) && (a.Begin? || a.Look?)
    ensures var v := Step(w, a); ThreadsInv(v.threads, v.clients) && AppendingInv(v.threads)
  {
    ThreadMoves(w.threads, w.clients, a.tid, Step(w, a).threads[a.tid], w.clients);
  }

  lemma StepKeepsThreads(w: World, a: Action)
    requires ThreadsInv(w.threads, w.clients) && AppendingInv(w.threads) && Enabled(w, a)
    ensures var v := Step(w, a); ThreadsInv(v.threads, v.clients) && AppendingInv(v.threads)
  {
    if a.Handle? && w.threads[a.tid].msgs != [] {
      var Handling(fd, msgs) := w.threads[a.tid];
      HandleOutline(w, a.tid, fd, msgs[0], msgs[1..], a.timerfd);
      HandledThreadMoves(w, a.tid, HandleMessage(w, a.tid, fd, msgs[0], msgs[1..], a.timerfd));
    } else if a.Drop? {
      ThreadDrops(w.threads, w.clients, a.tid);
    } else if a.Begin? || a.Look? {
      PassKeepsThreads(w, a);
    } else if !a.Accept? {
      assert w.threads[a.tid] in w.threads;
      ThreadMoves(w.threads, w.clients, a.tid, Step(w, a).threads[a.tid], w.clients);
    }
  }

  // ----- Timers

  lemma MembersAfter(threads: seq<Phase>, tid: nat, p: Phase, q: Phase)
    requires tid < |threads|
    ensures p in threads[tid := p]
    ensures q != p && q != threads[tid] ==> (q in threads[tid := p] <==> q in threads)
  {
    var after := threads[tid := p];
    assert after[tid] == p;
    if q in threads && q != threads[tid] {
      var i :| 0 <= i < |threads| && threads[i] == q;
      assert after[i] == q;
    }
  }

  lemma ArmingStays(threads: seq<Phase>, tid: nat, p: Phase)
    requires tid < |threads| && !threads[tid].Arming? && !p.Arming?
    ensures forall q :: q in threads[tid := p] && q.Arming? <==> q in threads && q.Arming?
    ensures forall fd :: Armed(threads[tid := p], fd) <==> Armed(threads, fd)
  {
    forall q: Phase | q.Arming?
      ensures q in threads[tid := p] <==> q in threads
    {
      MembersAfter(threads, tid, p, q);
    }
  }

  lemma TimersKeptByRole(timers: map<Fd, Fd>, clients: map<Fd, Client>, threads: seq<Phase>, tid: nat, p: Phase,
                         fd: Fd, c: Client)
    requires TimerInv(timers, clients, threads) && tid < |threads| && !threads[tid].Arming? && !p.Arming?
    requires fd in clients && c.timer == clients[fd].timer
    ensures TimerInv(timers, clients[fd := c], threads[tid := p])
  {
    ArmingStays(threads, tid, p);
  }

  lemma TimersKeptByMove(timers: map<Fd, Fd>, clients: map<Fd, Client>, threads: seq<Phase>, tid: nat, p: Phase)
    requires TimerInv(timers, clients, threads) && tid < |threads| && !threads[tid].Arming? && !p.Arming?
    ensures TimerInv(timers, clients, threads[tid := p])
  {
    ArmingStays(threads, tid, p);
  }

  /** The only thread that can be arming a client is the one at work on it. */
  lemma OnlyOwnerArms(threads: seq<Phase>, clients: map<Fd, Client>, tid: nat, p: Phase, q: Phase)
    requires ThreadsInv(threads, clients) && tid < |threads| && !threads[tid].Idle?
    requires q in threads[tid := p] && q != p && !q.Idle?
    ensures q in threads && q.fd != threads[tid].fd
  {
    var i :| 0 <= i < |threads| && threads[tid := p][i] == q;
  }

  lemma ArmedBefore(threads: seq<Phase>, tid: nat, p: Phase, fd: Fd)
    requires tid < |threads| && Armed(threads[tid := p], fd) && (threads[tid].Arming? ==> threads[tid].fd != fd)
    ensures Armed(threads, fd)
  {
    forall q | q in threads && q.Arming?
      ensures q.fd != fd
    {
      MembersAfter(threads, tid, p, q);
    }
  }

  lemma TimerSet(timers: map<Fd, Fd>, clients: map<Fd, Client>, threads: seq<Phase>, tid: nat, p: Phase)
    requires ThreadsInv(threads, clients) && TimerInv(timers, clients, threads)
    requires tid < |threads| && threads[tid].Handling? && p.Arming? && p.fd == threads[tid].fd
    requires clients[p.fd].timer == None && p.timerfd !in timers && p.timerfd !in clients
    requires forall c :: c in clients ==> clients[c].timer != Some(p.timerfd)
    ensures TimerInv(timers, clients[p.fd := clients[p.fd].(timer := Some(p.timerfd))], threads[tid := p])
  {
    var after := threads[tid := p];
    MembersAfter(threads, tid, p, p);
    forall q | q in after && q.Arming? && q != p
      ensures q in threads && q.fd != p.fd
    {
      OnlyOwnerArms(threads, clients, tid, p, q);
    }
    forall fd | Armed(after, fd)
      ensures Armed(threads, fd)
    {
      ArmedBefore(threads, tid, p, fd);
    }
  }

  lemma TimerEntered(timers: map<Fd, Fd>, clients: map<Fd, Client>, threads: seq<Phase>, tid: nat, p: Phase)
    requires ThreadsInv(threads, clients) && TimerInv(timers, clients, threads)
    requires tid < |threads| && threads[tid].Arming? && !p.Arming?
    ensures TimerInv(timers[threads[tid].timerfd := threads[tid].fd], clients, threads[tid := p])
  {
    var was, after := threads[tid], threads[tid := p];
    assert was in threads;
    forall q | q in after && q.Arming?
      ensures q in threads && q.fd != was.fd
    {
      OnlyOwnerArms(threads, clients, tid, p, q);
    }
    forall fd | Armed(after, fd) && fd != was.fd
      ensures Armed(threads, fd)
    {
      ArmedBefore(threads, tid, p, fd);
    }
  }

  lemma TimerDropped(timers: map<Fd, Fd>, clients: map<Fd, Client>, threads: seq<Phase>, tid: nat)
    requires ThreadsInv(threads, clients) && TimerInv(timers, clients, threads)
    requires tid < |threads| && threads[tid].Dropping? && threads[tid].fd in clients
    ensures var fd := threads[tid].fd;
            TimerInv(if clients[fd].timer.Some? then timers - {clients[fd].timer.value} else timers,
                     clients - {fd}, threads[tid := Idle])
  {
    ArmingStays(threads, tid, Idle);
    assert threads[tid := threads[tid]] == threads;
    forall q | q in threads && q.Arming?
      ensures q.fd != threads[tid].fd
    {
      OnlyOwnerArms(threads, clients, tid, threads[tid], q);
    }
  }

  lemma HandleKeepsTimers(w: World, tid: nat, m: Message, rest: seq<Message>, timerfd: Fd)
    requires ThreadsInv(w.threads, w.clients) && TimerInv(w.timers, w.clients, w.threads)
    requires tid < |w.threads| && w.threads[tid].Handling? && Unused(w, timerfd)
    ensures var v := HandleMessage(w, tid, w.threads[tid].fd, m, rest, timerfd);
            TimerInv(v.timers, v.clients, v.threads)
  {
    var fd := w.threads[tid].fd;
    var c, v := w.clients[fd], HandleMessage(w, tid, fd, m, rest, timerfd);
    if AcceptsPlate(c, m) {
      TimersKeptByMove(w.timers, w.clients, w.threads, tid, v.threads[tid]);
    } else {
      var (c', p) := Reaction(c, fd, m, rest, timerfd);
      if p.Arming? {
        TimerSet(w.timers, w.clients, w.threads, tid, p);
      } else {
        TimersKeptByRole(w.timers, w.clients, w.threads, tid, p, fd, c');
      }
    }
  }

  lemma PassKeepsTimers(w: World, a: Action)
    requires TimerInv(w.timers, w.clients, w.threads) && Enabled(w, a) && (a.Begin? || a.Look?)
    ensures var v := Step(w, a); TimerInv(v.timers, v.clients, v.threads)
  {
    TimersKeptByMove(w.timers, w.clients, w.threads, a.tid, Step(w, a).threads[a.tid]);
  }

  lemma StepKeepsTimers(w: World, a: Action)
    requires ThreadsInv(w.threads, w.clients) && TimerInv(w.timers, w.clients, w.threads) && Enabled(w, a)
    ensures var v := Step(w, a); TimerInv(v.timers, v.clients, v.threads)
  {
    if a.Handle? && w.threads[a.tid].msgs != [] {
      HandleKeepsTimers(w, a.tid, w.threads[a.tid].msgs[0], w.threads[a.tid].msgs[1..], a.timerfd);
    } else if a.Drop? {
      TimerDropped(w.timers, w.clients, w.threads, a.tid);
    } else if a.Arm? {
      TimerEntered(w.timers, w.clients, w.threads, a.tid, Step(w, a).threads[a.tid]);
    } else if a.Begin? || a.Look? {
      PassKeepsTimers(w, a);
    } else if !a.Accept? {
      TimersKeptByMove(w.timers, w.clients, w.threads, a.tid, Step(w, a).threads[a.tid]);
    }
  }

  // ----- The road index

  /** Only the thread at work on a client can be removing it. */
  lemma OnlyOwnerDrops(threads: seq<Phase>, clients: map<Fd, Client>, tid: nat)
    requires ThreadsInv(threads, clients) && tid < |threads| && !threads[tid].Idle?
    ensures Dropping(threads[tid].fd) in threads <==> threads[tid].Dropping?
    ensures Dropping(threads[tid].fd) !in threads[tid := Idle]
  {
    var q := Dropping(threads[tid].fd);
    if q in threads {
      var i :| 0 <= i < |threads| && threads[i] == q;
      assert i == tid;
    }
    assert threads[tid] in threads;
    assert forall i :: 0 <= i < |threads| && i != tid ==> threads[i] != q;
  }

  /** Nobody starts or ends a removal, and nobody's list of roads changes. */
  lemma IndexKept(w: World, v: World, tid: nat)
    requires IndexInv(w.roads, w.clients, w.threads) && tid < |w.threads| == |v.threads|
    requires v.roads == w.roads && v.threads == w.threads[tid := v.threads[tid]]
    requires !w.threads[tid].Dropping? && !v.threads[tid].Dropping?
    requires forall road: u16, fd: Fd :: Listed(v.clients, road, fd) <==> Listed(w.clients, road, fd)
    ensures IndexInv(v.roads, v.clients, v.threads)
  {
    forall fd: Fd
      ensures Dropping(fd) in v.threads <==> Dropping(fd) in w.threads
    {
      MembersAfter(w.threads, tid, v.threads[tid], Dropping(fd));
    }
  }

  lemma IndexGrows(w: World, v: World, tid: nat, roads: seq<u16>)
    requires ThreadsInv(w.threads, w.clients) && IndexInv(w.roads, w.clients, w.threads)
    requires tid < |w.threads| == |v.threads| && w.threads[tid].Handling? && v.threads[tid].Owing?
    requires v.threads == w.threads[tid := v.threads[tid]]
    requires var fd := w.threads[tid].fd;
             && fd in w.clients && w.clients[fd].role.Unidentified?
             && v.roads == Registered(w.roads, fd, roads)
             && v.clients == w.clients[fd := w.clients[fd].(role := AsDispatcher(roads))]
    ensures IndexInv(v.roads, v.clients, v.threads)
  {
    OnlyOwnerDrops(w.threads, w.clients, tid);
    forall road: u16, fd: Fd
      ensures fd in DispatchersOf(v.roads, road) <==> Listed(v.clients, road, fd) && Dropping(fd) !in v.threads
    {
      MembersAfter(w.threads, tid, v.threads[tid], Dropping(fd));
      assert fd in DispatchersOf(w.roads, road) <==> Listed(w.clients, road, fd) && Dropping(fd) !in w.threads;
    }
  }

  lemma IndexShrinks(index: RoadMap, clients: map<Fd, Client>, threads: seq<Phase>, tid: nat, fd: Fd)
    requires ThreadsInv(threads, clients) && IndexInv(index, clients, threads)
    requires tid < |threads| && threads[tid] == Closing(fd) && fd in clients
    ensures var role := clients[fd].role;
            IndexInv(if role.AsDispatcher? then Unregistered(index, fd, role.roads) else index,
                     clients, threads[tid := Dropping(fd)])
  {
    var role := clients[fd].role;
    var index' := if role.AsDispatcher? then Unregistered(index, fd, role.roads) else index;
    forall road: u16, f: Fd
      ensures f in DispatchersOf(index', road) <==>
              Listed(clients, road, f) && Dropping(f) !in threads[tid := Dropping(fd)]
    {
      MembersAfter(threads, tid, Dropping(fd), Dropping(f));
      assert f in DispatchersOf(index, road) <==> Listed(clients, road, f) && Dropping(f) !in threads;
    }
  }

  lemma IndexForgets(w: World, v: World, tid: nat)
    requires ThreadsInv(w.threads, w.clients) && IndexInv(w.roads, w.clients, w.threads)
    requires Enabled(w, Drop(tid)) && v == Step(w, Drop(tid))
    ensures IndexInv(v.roads, v.clients, v.threads)
  {
    OnlyOwnerDrops(w.threads, w.clients, tid);
    forall road: u16, fd: Fd
      ensures fd in DispatchersOf(v.roads, road) <==> Listed(v.clients, road, fd) && Dropping(fd) !in v.threads
    {
      MembersAfter(w.threads, tid, v.threads[tid], Dropping(fd));
      assert fd in DispatchersOf(w.roads, road) <==> Listed(w.clients, road, fd) && Dropping(fd) !in w.threads;
    }
  }

  lemma HandleKeepsIndex(w: World, tid: nat, m: Message, rest: seq<Message>, timerfd: Fd)
    requires ThreadsInv(w.threads, w.clients) && IndexInv(w.roads, w.clients, w.threads)
    requires tid < |w.threads| && w.threads[tid].Handling? && w.threads[tid].fd in w.clients
    ensures var v := HandleMessage(w, tid, w.threads[tid].fd, m, rest, timerfd);
            IndexInv(v.roads, v.clients, v.threads)
  {
    var fd := w.threads[tid].fd;
    var v := HandleMessage(w, tid, fd, m, rest, timerfd);
    if !AcceptsPlate(w.clients[fd], m) && Reaction(w.clients[fd], fd, m, rest, timerfd).1.Owing? {
      IndexGrows(w, v, tid, m.roads);
    } else {
      IndexKept(w, v, tid);
    }
  }

  lemma StepKeepsIndex(w: World, a: Action)
    requires ThreadsInv(w.threads, w.clients) && IndexInv(w.roads, w.clients, w.threads) && Enabled(w, a)
    ensures var v := Step(w, a); IndexInv(v.roads, v.clients, v.threads)
  {
    var v := Step(w, a);
    if a.Accept? {
      assert forall road: u16, fd: Fd :: Listed(v.clients, road, fd) <==> Listed(w.clients, road, fd);
    } else if a.Unroad? {
      IndexShrinks(w.roads, w.clients, w.threads, a.tid, w.threads[a.tid].fd);
    } else if a.Drop? {
      IndexForgets(w, v, a.tid);
    } else if a.Handle? && w.threads[a.tid].msgs != [] {
      HandleKeepsIndex(w, a.tid, w.threads[a.tid].msgs[0], w.threads[a.tid].msgs[1..], a.timerfd);
    } else {
      IndexKept(w, v, a.tid);
    }
  }

  // ----- Cars and tickets

  lemma HandleKeepsCars(w: World, tid: nat, fd: Fd, m: Message, rest: seq<Message>, timerfd: Fd)
    requires LogInv(w.cars, w.issued, w.log) && tid < |w.threads| && fd in w.clients
    ensures var v := HandleMessage(w, tid, fd, m, rest, timerfd); LogInv(v.cars, v.issued, v.log)
  {
    EntryKeeps(w.cars, w.issued, w.log, Entry(tid, fd, w.clients[fd].role, m));
  }

  lemma OthersLogNothing(w: World, a: Action)
    requires Enabled(w, a) && (a.Handle? ==> w.threads[a.tid].msgs == [])
    ensures var v := Step(w, a); v.cars == w.cars && v.issued == w.issued && v.log == w.log
  {
  }

  lemma StepKeepsCars(w: World, a: Action)
    requires LogInv(w.cars, w.issued, w.log) && Enabled(w, a)
    ensures var v := Step(w, a); LogInv(v.cars, v.issued, v.log)
  {
    if a.Handle? && w.threads[a.tid].msgs != [] {
      var Handling(fd, msgs) := w.threads[a.tid];
      HandleKeepsCars(w, a.tid, fd, msgs[0], msgs[1..], a.timerfd);
    } else {
      OthersLogNothing(w, a);
    }
  }

  // ----- Conservation

  lemma {:induction false} PendingAfter(threads: seq<Phase>, tid: nat, p: Phase)
    requires tid < |threads|
    ensures Pending(threads[tid := p]) + multiset(Todo(threads[tid])) == Pending(threads) + multiset(Todo(p))
  {
    var after, rest := threads[tid := p], threads[1..];
    if tid == 0 {
      assert after[1..] == rest;
    } else {
      assert after[1..] == rest[tid - 1 := p];
      PendingAfter(rest, tid - 1, p);
      AddToBoth(Pending(after[1..]), multiset(Todo(threads[tid])), Pending(rest), multiset(Todo(p)),
                multiset(Todo(threads[0])));
    }
  }

  /** A thread's own list of tickets to append does not change. */
  lemma PendingKept(threads: seq<Phase>, tid: nat, p: Phase)
    requires tid < |threads| && Todo(p) == Todo(threads[tid])
    ensures Pending(threads[tid := p]) == Pending(threads)
  {
    PendingAfter(threads, tid, p);
    Cancel(Pending(threads[tid := p]), Pending(threads), multiset(Todo(p)));
  }

  lemma TicketsOfAppend(ds: seq<Delivery>, es: seq<Delivery>)
    ensures TicketsOf(ds + es) == TicketsOf(ds) + TicketsOf(es)
  {
  }

  lemma TicketsOfOne(d: Delivery)
    ensures TicketsOf([d]) == [d.ticket] && multiset(TicketsOf([d])) == multiset{d.ticket}
  {
  }

  lemma SendConserves(queue: seq<Ticket>, pos: nat, to: Fd)
    requires pos < |queue|
    ensures multiset(queue) ==
            multiset(TicketsOf([Delivery(queue[pos], to)])) + multiset(queue[..pos] + queue[pos + 1..])
  {
    RemoveAt(queue, pos);
    TicketsOfOne(Delivery(queue[pos], to));
  }

  lemma LookConserves(p: Phase, queue: seq<Ticket>, roads: RoadMap, to: Fd, ok: bool, stalled: bool)
    requires p.Passing?
    ensures var r := Looked(p, queue, roads, to, ok, stalled);
            multiset(queue) == multiset(TicketsOf(r.sent)) + multiset(r.queue) && Todo(r.phase) == []
  {
    if FindsIn(p, queue, roads) && ok {
      SendConserves(queue, p.pos, to);
    } else {
      assert TicketsOf([]) == [];
    }
  }

  lemma LookKeepsConservation(w: World, tid: nat, to: Fd, ok: bool)
    requires ConservationInv(w) && Enabled(w, Look(tid, to, ok))
    ensures ConservationInv(Step(w, Look(tid, to, ok)))
  {
    var r := Looked(w.threads[tid], w.queue, w.roads, to, ok, w.stalled);
    LookConserves(w.threads[tid], w.queue, w.roads, to, ok, w.stalled);
    PendingKept(w.threads, tid, r.phase);
    TicketsOfAppend(w.sent, r.sent);
    SecondToThird(multiset(w.issued), Pending(w.threads), multiset(w.queue), multiset(TicketsOf(w.sent)),
                  multiset(r.queue), multiset(TicketsOf(r.sent)));
  }

  lemma BeginKeepsConservation(w: World, tid: nat)
    requires ConservationInv(w) && Enabled(w, Begin(tid))
    ensures ConservationInv(Step(w, Begin(tid)))
  {
    PendingKept(w.threads, tid, Step(w, Begin(tid)).threads[tid]);
  }

  lemma AppendKeepsConservation(w: World, tid: nat)
    requires ConservationInv(w) && Enabled(w, Append(tid))
    ensures ConservationInv(Step(w, Append(tid)))
  {
    var v, todo := Step(w, Append(tid)), w.threads[tid].todo;
    PendingAfter(w.threads, tid, v.threads[tid]);
    assert todo == [todo[0]] + todo[1..];
    FirstToSecond(multiset(w.issued), Pending(w.threads), multiset(w.queue), multiset(TicketsOf(w.sent)),
                  Pending(v.threads), multiset([todo[0]]), multiset(todo[1..]));
  }

  lemma SightingKeepsConservation(w: World, tid: nat, news: seq<Ticket>, p: Phase)
    requires ConservationInv(w) && tid < |w.threads| && Todo(w.threads[tid]) == [] && Todo(p) == news
    ensures ConservationInv(w.(issued := w.issued + news, threads := w.threads[tid := p]))
  {
    PendingAfter(w.threads, tid, p);
    IntoFirst(multiset(w.issued), Pending(w.threads), multiset(w.queue), multiset(TicketsOf(w.sent)), multiset(news));
  }

  predicate Plain(w: World, a: Action)
    requires Enabled(w, a)
  {
    !a.Accept? && !a.Append? && !a.Begin? && !a.Look? && (a.Handle? ==> w.threads[a.tid].msgs == [])
  }

  /** Every other step moves its thread and touches no ticket. */
  lemma PlainOutline(w: World, a: Action)
    requires Enabled(w, a) && Plain(w, a)
    ensures var v := Step(w, a);
            && |v.threads| == |w.threads| && v.threads == w.threads[a.tid := v.threads[a.tid]]
            && Todo(v.threads[a.tid]) == Todo(w.threads[a.tid])
            && v.issued == w.issued && v.queue == w.queue && v.sent == w.sent
  {
  }

  lemma ConservedByMove(w: World, v: World, tid: nat)
    requires ConservationInv(w) && tid < |w.threads| == |v.threads| && v.threads == w.threads[tid := v.threads[tid]]
    requires Todo(v.threads[tid]) == Todo(w.threads[tid])
    requires v.issued == w.issued && v.queue == w.queue && v.sent == w.sent
    ensures ConservationInv(v)
  {
    PendingKept(w.threads, tid, v.threads[tid]);
  }

  lemma HandleKeepsConservation(w: World, tid: nat, m: Message, rest: seq<Message>, timerfd: Fd)
    requires ConservationInv(w)
    requires tid < |w.threads| && w.threads[tid].Handling? && w.threads[tid].fd in w.clients
    ensures ConservationInv(HandleMessage(w, tid, w.threads[tid].fd, m, rest, timerfd))
  {
    var fd := w.threads[tid].fd;
    var v := HandleMessage(w, tid, fd, m, rest, timerfd);
    if AcceptsPlate(w.clients[fd], m) {
      SightingKeepsConservation(w, tid, v.threads[tid].todo, v.threads[tid]);
    } else {
      PendingKept(w.threads, tid, v.threads[tid]);
    }
  }

  lemma StepKeepsConservation(w: World, a: Action)
    requires ConservationInv(w) && Enabled(w, a)
    ensures ConservationInv(Step(w, a))
  {
    if a.Append? {
      AppendKeepsConservation(w, a.tid);
    } else if a.Look? {
      LookKeepsConservation(w, a.tid, a.to, a.ok);
    } else if a.Begin? {
      BeginKeepsConservation(w, a.tid);
    } else if a.Handle? && w.threads[a.tid].msgs != [] {
      HandleKeepsConservation(w, a.tid, w.threads[a.tid].msgs[0], w.threads[a.tid].msgs[1..], a.timerfd);
    } else if !a.Accept? {
      PlainOutline(w, a);
      ConservedByMove(w, Step(w, a), a.tid);
    }
  }

  // ----- No ticket is stranded

  /** A debt stays while its thread does not move, or moves and still owes. */
  lemma DebtStays(threads: seq<Phase>, tid: nat, p: Phase)
    requires tid < |threads| && (Owes(threads[tid]) ==> Owes(p))
    ensures Owed(threads) ==> Owed(threads[tid := p])
    ensures Owes(p) ==> Owed(threads[tid := p])
  {
    MembersAfter(threads, tid, p, p);
    if q :| q in threads && Owes(q) {
      MembersAfter(threads, tid, p, q);
      assert (if q == threads[tid] then p else q) in threads[tid := p];
    }
  }

  /** What the queue is due, for one state. */
  ghost predicate DueInv(w: World) {
    && PassInv(w.queue, w.roads, w.threads)
    && (w.stalled || NoneStranded(w.queue, w.roads, w.threads))
  }

  lemma PassesStay(threads: seq<Phase>, tid: nat, p: Phase)
    requires tid < |threads| && !threads[tid].Passing? && !p.Passing?
    ensures forall q :: q in threads[tid := p] && q.Passing? <==> q in threads && q.Passing?
    ensures TicketsFree(threads[tid := p]) <==> TicketsFree(threads)
  {
    forall q: Phase | q.Passing?
      ensures q in threads[tid := p] <==> q in threads
    {
      MembersAfter(threads, tid, p, q);
    }
  }

  /** A thread outside any pass moves on; it makes tickets deliverable only if it owes a pass. */
  lemma DueByMove(w: World, v: World, tid: nat)
    requires DueInv(w)
    requires tid < |w.threads| == |v.threads| && v.threads == w.threads[tid := v.threads[tid]]
    requires !w.threads[tid].Passing? && !v.threads[tid].Passing?
    requires Owes(w.threads[tid]) ==> Owes(v.threads[tid])
    requires v.queue == w.queue && v.stalled == w.stalled
    requires Owes(v.threads[tid]) || forall t: Ticket :: Deliverable(v.roads, t) ==> Deliverable(w.roads, t)
    ensures DueInv(v)
  {
    DebtStays(w.threads, tid, v.threads[tid]);
    PassesStay(w.threads, tid, v.threads[tid]);
  }

  /** The thread in a pass is the only one. */
  lemma OnlyPass(threads: seq<Phase>, clients: map<Fd, Client>, tid: nat, p: Phase)
    requires ThreadsInv(threads, clients) && tid < |threads|
    requires threads[tid].Passing? || (p.Passing? && TicketsFree(threads))
    ensures forall q :: q in threads[tid := p] && q.Passing? ==> q == p
    ensures !p.Passing? ==> TicketsFree(threads[tid := p])
  {
    forall q | q in threads[tid := p] && q.Passing?
      ensures q == p
    {
      var i :| 0 <= i < |threads| && threads[tid := p][i] == q;
      assert threads[i] in threads;
      if i != tid { assert false; }
    }
  }

  lemma AppendKeepsDue(w: World, tid: nat)
    requires AppendingInv(w.threads) && DueInv(w) && Enabled(w, Append(tid))
    ensures DueInv(Step(w, Append(tid)))
  {
    var p := Step(w, Append(tid)).threads[tid];
    assert w.threads[tid] in w.threads;
    DebtStays(w.threads, tid, p);
    PassesStay(w.threads, tid, p);
  }

  lemma NothingDue(roads: RoadMap, threads: seq<Phase>, threads': seq<Phase>)
    requires PassInv([], roads, threads) && forall q :: q in threads' && q.Passing? <==> q in threads && q.Passing?
    ensures PassInv([], roads, threads') && NoneStranded([], roads, threads')
  {
  }

  lemma PassStarts(queue: seq<Ticket>, roads: RoadMap, threads: seq<Phase>, clients: map<Fd, Client>,
                   tid: nat, p: Phase)
    requires ThreadsInv(threads, clients) && tid < |threads| && TicketsFree(threads)
    requires p.Passing? && p.pos == 0 && p.rounds == |queue|
    ensures PassInv(queue, roads, threads[tid := p]) && NoneStranded(queue, roads, threads[tid := p])
  {
    MembersAfter(threads, tid, p, p);
    OnlyPass(threads, clients, tid, p);
  }

  lemma BeginKeepsDue(w: World, tid: nat)
    requires ThreadsInv(w.threads, w.clients) && DueInv(w) && Enabled(w, Begin(tid))
    ensures DueInv(Step(w, Begin(tid)))
  {
    var p := Step(w, Begin(tid)).threads[tid];
    if w.queue == [] {
      PassesStay(w.threads, tid, p);
      NothingDue(w.roads, w.threads, w.threads[tid := p]);
    } else {
      PassStarts(w.queue, w.roads, w.threads, w.clients, tid, p);
    }
  }

  /** The thread in a pass moves on: the debts of the others stay. */
  lemma PassMoves(threads: seq<Phase>, clients: map<Fd, Client>, tid: nat, p: Phase)
    requires ThreadsInv(threads, clients) && tid < |threads| && threads[tid].Passing? && !Owes(p)
    ensures Owed(threads[tid := p]) <==> Owed(threads)
    ensures forall q :: q in threads[tid := p] && q.Passing? ==> q == p
    ensures p.Passing? <==> !TicketsFree(threads[tid := p])
    ensures threads[tid] in threads
  {
    MembersAfter(threads, tid, p, p);
    OnlyPass(threads, clients, tid, p);
    DebtStays(threads, tid, p);
    assert threads[tid := p][tid := threads[tid]] == threads;
    DebtStays(threads[tid := p], tid, threads[tid]);
  }

  /** A pass that walks on, sends or ends: what it leaves behind. */
  lemma PassLeaves(queue: seq<Ticket>, roads: RoadMap, threads: seq<Phase>, clients: map<Fd, Client>, tid: nat,
                   p: Phase, queue': seq<Ticket>)
    requires ThreadsInv(threads, clients) && tid < |threads| && threads[tid].Passing? && !Owes(p)
    requires PassInv(queue, roads, threads)
    requires p.Passing? ==>
               p.rounds == |queue'| && p.pos <= |queue'| && (Owed(threads) || Stuck(queue', roads, p.pos))
    ensures PassInv(queue', roads, threads[tid := p])
    ensures p.Passing? || Owed(threads) || Stuck(queue', roads, |queue'|) ==>
              NoneStranded(queue', roads, threads[tid := p])
  {
    PassMoves(threads, clients, tid, p);
  }

  /** One look of a pass. When the pass ends without a failed send, nothing deliverable is left that
      no other thread owes a pass. */
  lemma LookKeepsDue(w: World, tid: nat, to: Fd, ok: bool)
    requires ThreadsInv(w.threads, w.clients) && DueInv(w) && Enabled(w, Look(tid, to, ok))
    ensures DueInv(Step(w, Look(tid, to, ok)))
  {
    var v := Step(w, Look(tid, to, ok));
    assert w.threads[tid] in w.threads;
    PassLeaves(w.queue, w.roads, w.threads, w.clients, tid, v.threads[tid], v.queue);
  }

  lemma HandleKeepsDue(w: World, tid: nat, m: Message, rest: seq<Message>, timerfd: Fd)
    requires DueInv(w)
    requires tid < |w.threads| && w.threads[tid].Handling? && w.threads[tid].fd in w.clients
    ensures DueInv(HandleMessage(w, tid, w.threads[tid].fd, m, rest, timerfd))
  {
    DueByMove(w, HandleMessage(w, tid, w.threads[tid].fd, m, rest, timerfd), tid);
  }

  lemma StepKeepsNoneStranded(w: World, a: Action)
    requires ThreadsInv(w.threads, w.clients) && AppendingInv(w.threads) && DueInv(w) && Enabled(w, a)
    ensures DueInv(Step(w, a))
  {
    if a.Append? {
      AppendKeepsDue(w, a.tid);
    } else if a.Begin? {
      BeginKeepsDue(w, a.tid);
    } else if a.Look? {
      LookKeepsDue(w, a.tid, a.to, a.ok);
    } else if a.Handle? && w.threads[a.tid].msgs != [] {
      HandleKeepsDue(w, a.tid, w.threads[a.tid].msgs[0], w.threads[a.tid].msgs[1..], a.timerfd);
    } else if !a.Accept? {
      assert w.threads[a.tid] in w.threads;
      DueByMove(w, Step(w, a), a.tid);
    }
  }

  // ----- All of it, over every run

  ghost predicate Next(w: World, a: Action, v: World) {
    Enabled(w, a) && v == Step(w, a)
  }

  lemma StepKeepsInv(w: World, a: Action, v: World)
    requires Inv(w) && Next(w, a, v)
    ensures Inv(v)
  {
    StepKeepsThreads(w, a);
    StepKeepsIndex(w, a);
    StepKeepsTimers(w, a);
    StepKeepsCars(w, a);
    StepKeepsConservation(w, a);
    StepKeepsNoneStranded(w, a);
  }

  /** A run of the daemon with `n` worker threads: its worlds and the actions between them. */
  ghost predicate Run(n: nat, ws: seq<World>, acts: seq<Action>) {
    && |ws| == |acts| + 1 && ws[0] == Start(n)
    && forall i :: 0 <= i < |acts| ==> Next(ws[i], acts[i], ws[i + 1])
  }

  lemma StepOfRun(n: nat, ws: seq<World>, acts: seq<Action>, i: nat)
    requires Run(n, ws, acts) && 0 < i < |ws|
    ensures Next(ws[i - 1], acts[i - 1], ws[i])
  {
    var k := i - 1;
    assert Next(ws[k], acts[k], ws[k + 1]);
  }

  lemma {:induction false} AllReachable(n: nat, ws: seq<World>, acts: seq<Action>, i: nat)
    requires Run(n, ws, acts) && i < |ws|
    ensures Inv(ws[i])
  {
    if i == 0 {
      StartInv(n);
    } else {
      AllReachable(n, ws, acts, i - 1);
      StepOfRun(n, ws, acts, i);
      StepKeepsInv(ws[i - 1], acts[i - 1], ws[i]);
    }
  }

  lemma IssuedDistinct(w: World)
    requires Inv(w)
    ensures Distinct(w.issued)
  {
    forall i, j | 0 <= i < j < |w.issued|
      ensures w.issued[i] != w.issued[j]
    {
      if w.issued[i].plate == w.issued[j].plate {
        IssuedDisjoint(w.issued, w.log, i, j);
      }
    }
  }

  /** Each ticket ever issued was issued once, and at any moment it is in exactly one place: held
      by the thread that issued it, in the queue, or sent; and no other ticket is in any place. */
  lemma ExactlyOnce(n: nat, ws: seq<World>, acts: seq<Action>, i: nat, t: Ticket)
    requires Run(n, ws, acts) && i < |ws|
    ensures var w := ws[i];
            var places := Pending(w.threads)[t] + multiset(w.queue)[t] + multiset(TicketsOf(w.sent))[t];
            && multiset(w.issued)[t] == places
            && places == if t in w.issued then 1 else 0
  {
    AllReachable(n, ws, acts, i);
    IssuedDistinct(ws[i]);
    DistinctCounts(ws[i].issued, t);
  }

  /** Tickets issued for one plate never share a day, whatever their roads. */
  lemma OneTicketPerDay(n: nat, ws: seq<World>, acts: seq<Action>, k: nat, i: nat, j: nat)
    requires Run(n, ws, acts) && k < |ws| && i < j < |ws[k].issued|
    requires ws[k].issued[i].plate == ws[k].issued[j].plate
    ensures Days(ws[k].issued[i]) !! Days(ws[k].issued[j])
  {
    AllReachable(n, ws, acts, k);
    IssuedDisjoint(ws[k].issued, ws[k].log, i, j);
    DisjointDays(ws[k].issued[i], ws[k].issued[j]);
  }

  /** Nor do two deliveries. */
  lemma OneDeliveryPerDay(n: nat, ws: seq<World>, acts: seq<Action>, k: nat, i: nat, j: nat)
    requires Run(n, ws, acts) && k < |ws| && i < j < |ws[k].sent|
    requires ws[k].sent[i].ticket.plate == ws[k].sent[j].ticket.plate
    ensures Days(ws[k].sent[i].ticket) !! Days(ws[k].sent[j].ticket)
  {
    var w := ws[k];
    var ts := TicketsOf(w.sent);
    ExactlyOnce(n, ws, acts, k, ts[i]);
    ExactlyOnce(n, ws, acts, k, ts[j]);
    if ts[i] == ts[j] {
      TwiceCounts(ts, i, j);
    }
    assert ts[i] in multiset(ts) && ts[j] in multiset(ts);
    var a :| 0 <= a < |w.issued| && w.issued[a] == ts[i];
    var b :| 0 <= b < |w.issued| && w.issued[b] == ts[j];
    OneTicketPerDay(n, ws, acts, k, if a < b then a else b, if a < b then b else a);
  }

  /** Every ticket has the reports, the order, the gap and the rounded speed it claims. */
  lemma EveryTicketJustified(n: nat, ws: seq<World>, acts: seq<Action>, k: nat, t: Ticket)
    requires Run(n, ws, acts) && k < |ws| && t in ws[k].issued
    ensures exists a, b :: a in ReportsOf(ws[k].log, t.plate) && b in ReportsOf(ws[k].log, t.plate) && Reports(t, a, b)
  {
    AllReachable(n, ws, acts, k);
    IssuedJustified(ws[k].issued, ws[k].log, t);
  }

  /** Every plate has exactly the tickets, the marks and the histories that its reports, as handled, make
      due: none is missed, and none is issued for less. */
  lemma TicketsAreDue(n: nat, ws: seq<World>, acts: seq<Action>, k: nat, plate: Plate)
    requires Run(n, ws, acts) && k < |ws|
    ensures var w, reports := ws[k], ReportsOf(ws[k].log, plate);
            && Matching(OfPlate(plate), w.issued) == Reference(plate, reports).tickets
            && (plate in w.cars <==> reports != [])
            && (plate in w.cars ==>
                  && w.cars[plate].marked == Reference(plate, reports).marked
                  && forall road: u16 :: road in w.cars[plate].history ==>
                       w.cars[plate].history[road] == HistoryOf(reports, road))
  {
    var w := ws[k];
    AllReachable(n, ws, acts, k);
    assert TicketsAt(w.issued, w.log, plate) && CarAt(w.cars, w.log, plate);
    if plate in w.cars {
      forall road: u16 | road in w.cars[plate].history
        ensures w.cars[plate].history[road] == HistoryOf(ReportsOf(w.log, plate), road)
      {
        assert HistoryInv(w.cars[plate].history, ReportsOf(w.log, plate), road);
      }
    }
  }

  /** Unless the last pass to end failed to send, a deliverable ticket in the queue is owed a pass by
      some thread or a pass is under way; so when neither is the case, nothing in the queue can be
      delivered. */
  lemma NoTicketStranded(n: nat, ws: seq<World>, acts: seq<Action>, k: nat, t: Ticket)
    requires Run(n, ws, acts) && k < |ws| && !ws[k].stalled
    requires t in ws[k].queue && Deliverable(ws[k].roads, t)
    ensures exists p :: p in ws[k].threads && (Owes(p) || p.Passing?)
  {
    AllReachable(n, ws, acts, k);
  }

  /** A step that ends a pass. */
  predicate EndsPass(w: World, a: Action, v: World)
    requires Enabled(w, a) && v == Step(w, a)
  {
    a.Look? && !v.threads[a.tid].Passing?
  }

  /** A pass that ends strands a deliverable ticket exactly when it ended in a failed send and no other
      thread owes a pass; the ticket whose send failed is then still in the queue. */
  lemma PassStrandsIff(n: nat, ws: seq<World>, acts: seq<Action>, k: nat)
    requires Run(n, ws, acts) && k < |acts|
    requires Next(ws[k], acts[k], ws[k + 1]) && EndsPass(ws[k], acts[k], ws[k + 1])
    ensures var w, a, v := ws[k], acts[k], ws[k + 1];
            && (v.stalled <==> Finds(w, a.tid) && !a.ok)
            && (v.stalled ==> exists t :: t in v.queue && Deliverable(v.roads, t))
            && (NoneStranded(v.queue, v.roads, v.threads) <==> !v.stalled || Owed(v.threads))
  {
    var w, a, v := ws[k], acts[k], ws[k + 1];
    AllReachable(n, ws, acts, k);
    AllReachable(n, ws, acts, k + 1);
    OnlyPass(w.threads, w.clients, a.tid, v.threads[a.tid]);
    if v.stalled {
      var i := w.threads[a.tid].pos;
      assert v.queue[i] in v.queue && Deliverable(v.roads, v.queue[i]);
    }
  }

  /** While no other thread owes a pass, what a pass sends is the first ticket of the stable partition
      its queue has at that moment, and it leaves what the partition leaves. */
  lemma PassSendsFirst(n: nat, ws: seq<World>, acts: seq<Action>, k: nat)
    requires Run(n, ws, acts) && k < |acts| && acts[k].Look? && acts[k].ok
    requires Next(ws[k], acts[k], ws[k + 1]) && Finds(ws[k], acts[k].tid) && !Owed(ws[k].threads)
    ensures var w, v := ws[k], ws[k + 1];
            && Outgoing(w.roads, w.queue) != []
            && TicketsOf(v.sent) == TicketsOf(w.sent) + [Outgoing(w.roads, w.queue)[0]]
            && v.queue == After(w.roads, w.queue, 1)
  {
    var w, v := ws[k], ws[k + 1];
    var p := w.threads[acts[k].tid];
    AllReachable(n, ws, acts, k);
    assert p in w.threads;
    TicketsOfAppend(w.sent, [Delivery(w.queue[p.pos], acts[k].to)]);
    TicketsOfOne(Delivery(w.queue[p.pos], acts[k].to));
    FirstOutgoing(w.roads, w.queue, p.pos);
  }

  lemma LookLogs(p: Phase, queue: seq<Ticket>, roads: RoadMap, to: Fd, ok: bool, stalled: bool)
    requires p.Passing?
    ensures var r := Looked(p, queue, roads, to, ok, stalled);
            r.sent == [] || (FindsIn(p, queue, roads) && r.sent == [Delivery(queue[p.pos], to)])
  {
  }

  lemma StepLogs(w: World, a: Action, v: World)
    requires Next(w, a, v)
    ensures v.sent == w.sent
            || (a.Look? && Finds(w, a.tid) && v.sent == w.sent + [Delivery(w.queue[w.threads[a.tid].pos], a.to)])
  {
    if a.Look? {
      LookLogs(w.threads[a.tid], w.queue, w.roads, a.to, a.ok, w.stalled);
      assert w.sent + [] == w.sent;
    } else {
      if Plain(w, a) {
        PlainOutline(w, a);
      }
    }
  }

  /** What a step sends comes out of the queue and goes to a dispatcher registered at that moment. */
  lemma StepDelivers(w: World, a: Action, v: World, d: nat)
    requires IndexInv(w.roads, w.clients, w.threads) && Next(w, a, v) && |w.sent| <= d < |v.sent|
    ensures var Delivery(t, fd) := v.sent[d];
            t in w.queue && fd in DispatchersOf(w.roads, t.road) && Listed(w.clients, t.road, fd)
  {
    StepLogs(w, a, v);
  }

  /** Every delivery was made by one step of the run, out of the queue, to a client that was live,
      identified as a dispatcher of the ticket's road and listed in the index at that moment. */
  lemma {:induction false} DeliveredToRegistered(n: nat, ws: seq<World>, acts: seq<Action>, j: nat, d: nat)
      returns (k: nat)
    requires Run(n, ws, acts) && j < |ws| && d < |ws[j].sent|
    ensures k < j && |ws[k].sent| <= d < |ws[k + 1].sent| && ws[k + 1].sent[d] == ws[j].sent[d]
    ensures var Delivery(t, fd) := ws[j].sent[d];
            && t in ws[k].queue && fd in DispatchersOf(ws[k].roads, t.road) && Listed(ws[k].clients, t.road, fd)
    decreases j
  {
    k := j - 1;
    StepOfRun(n, ws, acts, j);
    StepLogs(ws[k], acts[k], ws[j]);
    if d < |ws[k].sent| {
      k := DeliveredToRegistered(n, ws, acts, k, d);
    } else {
      AllReachable(n, ws, acts, k);
      StepDelivers(ws[k], acts[k], ws[j], d);
    }
  }

  lemma HandleKeepsRole(w: World, tid: nat, fd: Fd, m: Message, rest: seq<Message>, timerfd: Fd, f: Fd)
    requires tid < |w.threads| && fd in w.clients && f in w.clients
    ensures var v := HandleMessage(w, tid, fd, m, rest, timerfd);
            f in v.clients && (w.clients[f].role.Unidentified? || v.clients[f].role == w.clients[f].role)
  {
  }

  lemma StepKeepsRole(w: World, a: Action, v: World, fd: Fd)
    requires Next(w, a, v) && fd in w.clients && fd in v.clients
    ensures w.clients[fd].role.Unidentified? || v.clients[fd].role == w.clients[fd].role
  {
    if a.Handle? && w.threads[a.tid].msgs != [] {
      var Handling(f, msgs) := w.threads[a.tid];
      HandleKeepsRole(w, a.tid, f, msgs[0], msgs[1..], a.timerfd, fd);
    }
  }

  /** While a client lives, its role is set at most once. */
  lemma {:induction false} RoleIsFinal(n: nat, ws: seq<World>, acts: seq<Action>, i: nat, j: nat, fd: Fd)
    requires Run(n, ws, acts) && i <= j < |ws|
    requires forall k :: i <= k <= j ==> fd in ws[k].clients
    requires !ws[i].clients[fd].role.Unidentified?
    ensures ws[j].clients[fd].role == ws[i].clients[fd].role
    decreases j
  {
    if i < j {
      RoleIsFinal(n, ws, acts, i, j - 1, fd);
      StepOfRun(n, ws, acts, j);
      StepKeepsRole(ws[j - 1], acts[j - 1], ws[j], fd);
    }
  }
}

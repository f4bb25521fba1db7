/** What becomes of the messages of a read (handleMessages), and of the clients that send them. */
module Reads {
  import opened Messages
  import opened Sightings
  import opened Dispatch
  import opened Logs
  import opened Protocol

  // ----- All messages of a read are handled, in order

  /** The messages a thread still has to handle. */
  function Left(p: Phase): seq<Message> {
    match p
    case Idle => []
    case Handling(_, msgs) => msgs
    case Appending(_, msgs, _, _) => msgs
    case Arming(_, msgs, _) => msgs
    case Owing(_, msgs) => msgs
    case Passing(_, msgs, _, _) => msgs
    case Closing(_) => []
    case Dropping(_) => []
  }

  /** The thread is removing its client. */
  predicate Ending(p: Phase) {
    p.Closing? || p.Dropping?
  }

  /** Of `msgs`, these are handled and the rest is left, unless the client is being removed. */
  ghost predicate Underway(msgs: seq<Message>, handled: seq<Message>, p: Phase) {
    if Ending(p) then handled <= msgs else handled + Left(p) == msgs
  }

  /** What a step makes of the messages of a thread that stays busy: the thread's own step handles the next
      one or none, and nobody else's touches them. */
  ghost predicate Moves(p: Phase, q: Phase, handled: seq<Message>) {
    if Ending(p) then Ending(q) && handled == []
    else if Ending(q) then handled <= Left(p)
    else handled + Left(q) == Left(p)
  }

  lemma UnderwayMoves(msgs: seq<Message>, handled: seq<Message>, p: Phase, more: seq<Message>, q: Phase)
    requires Underway(msgs, handled, p) && Moves(p, q, more)
    ensures Underway(msgs, handled + more, q)
  {
    assert handled + (more + Left(q)) == (handled + more) + Left(q);
    if Ending(q) && !Ending(p) {
      assert Left(p) == more + Left(p)[|more|..];
      assert msgs == (handled + more) + Left(p)[|more|..];
    }
  }

  lemma FirstAndRest(msgs: seq<Message>)
    requires msgs != []
    ensures msgs == [msgs[0]] + msgs[1..] && [msgs[0]] <= msgs
  {
  }

  lemma HandleMoves(w: World, tid: nat, fd: Fd, msgs: seq<Message>, timerfd: Fd)
    requires tid < |w.threads| && fd in w.clients && msgs != []
    ensures var v := HandleMessage(w, tid, fd, msgs[0], msgs[1..], timerfd);
            && Moves(Handling(fd, msgs), v.threads[tid], [msgs[0]])
            && v.log == w.log + [Entry(tid, fd, w.clients[fd].role, msgs[0])]
            && v.threads == w.threads[tid := v.threads[tid]] && v.threads[tid].fd == fd && !v.threads[tid].Idle?
  {
    FirstAndRest(msgs);
  }

  lemma PassMoves(w: World, a: Action)
    requires Enabled(w, a) && (a.Begin? || a.Look?)
    ensures var v := Step(w, a);
            Moves(w.threads[a.tid], v.threads[a.tid], []) && v.threads[a.tid].fd == w.threads[a.tid].fd
            && !v.threads[a.tid].Idle? && v.threads == w.threads[a.tid := v.threads[a.tid]]
  {
  }

  lemma OtherMoves(w: World, a: Action)
    requires Enabled(w, a) && !a.Accept? && !a.Begin? && !a.Look?
    requires !w.threads[a.tid].Idle? && (a.Handle? ==> w.threads[a.tid].msgs == [])
    ensures var v := Step(w, a);
            && v.threads == w.threads[a.tid := v.threads[a.tid]]
            && (!v.threads[a.tid].Idle? ==>
                  Moves(w.threads[a.tid], v.threads[a.tid], []) && v.threads[a.tid].fd == w.threads[a.tid].fd)
  {
  }

  lemma LogTail(log: seq<Entry>, e: Entry, tid: nat)
    ensures ByThread((log + [e])[|log|..], tid) == if e.tid == tid then [e.m] else []
  {
    assert (log + [e])[|log|..] == [] + [e];
    ByThreadSnoc([], e, tid);
    assert ByThread([], tid) == [] && [] + [e.m] == [e.m];
  }

  lemma LogStays(log: seq<Entry>, tid: nat)
    ensures ByThread(log[|log|..], tid) == []
  {
    assert log[|log|..] == [];
  }

  /** What a step of its own does to the messages of a busy thread that stays busy. */
  lemma OwnMoves(w: World, a: Action, v: World)
    requires Next(w, a, v) && !a.Accept? && !w.threads[a.tid].Idle? && a.tid < |v.threads| && !v.threads[a.tid].Idle?
    ensures w.log <= v.log && v.threads[a.tid].fd == w.threads[a.tid].fd
    ensures Moves(w.threads[a.tid], v.threads[a.tid], ByThread(v.log[|w.log|..], a.tid))
  {
    if a.Handle? && w.threads[a.tid].msgs != [] {
      var Handling(fd, msgs) := w.threads[a.tid];
      HandleMoves(w, a.tid, fd, msgs, a.timerfd);
      LogTail(w.log, Entry(a.tid, fd, w.clients[fd].role, msgs[0]), a.tid);
    } else {
      OthersLogNothing(w, a);
      LogStays(w.log, a.tid);
      if a.Begin? || a.Look? {
        PassMoves(w, a);
      } else {
        OtherMoves(w, a);
      }
    }
  }

  lemma OthersStay(w: World, a: Action, tid: nat)
    requires Enabled(w, a) && tid < |w.threads| && (a.Accept? || a.tid != tid)
    requires a.Handle? ==> w.threads[a.tid].msgs == []
    ensures var v := Step(w, a); tid < |v.threads| && v.threads[tid] == w.threads[tid]
  {
  }

  /** The step of another thread leaves a thread and its messages alone. */
  lemma OthersMove(w: World, a: Action, v: World, tid: nat)
    requires Next(w, a, v) && tid < |w.threads| && (a.Accept? || a.tid != tid)
    ensures w.log <= v.log && tid < |v.threads| && v.threads[tid] == w.threads[tid]
    ensures ByThread(v.log[|w.log|..], tid) == []
  {
    if a.Handle? && w.threads[a.tid].msgs != [] {
      var Handling(fd, msgs) := w.threads[a.tid];
      HandleMoves(w, a.tid, fd, msgs, a.timerfd);
      LogTail(w.log, Entry(a.tid, fd, w.clients[fd].role, msgs[0]), tid);
    } else {
      OthersLogNothing(w, a);
      LogStays(w.log, tid);
      OthersStay(w, a, tid);
    }
  }

  lemma StepMoves(w: World, a: Action, v: World, tid: nat)
    requires Next(w, a, v) && tid < |w.threads| && !w.threads[tid].Idle? && tid < |v.threads| && !v.threads[tid].Idle?
    ensures w.log <= v.log && v.threads[tid].fd == w.threads[tid].fd
    ensures Moves(w.threads[tid], v.threads[tid], ByThread(v.log[|w.log|..], tid))
  {
    if a.Accept? || a.tid != tid {
      OthersMove(w, a, v, tid);
      assert [] + Left(w.threads[tid]) == Left(w.threads[tid]);
    } else {
      OwnMoves(w, a, v);
    }
  }

  lemma {:induction false} ByThreadAppend(a: seq<Entry>, b: seq<Entry>, tid: nat)
    ensures ByThread(a + b, tid) == ByThread(a, tid) + ByThread(b, tid)
    decreases |b|
  {
    if b == [] {
      assert a + b == a;
    } else {
      var front, e := b[..|b| - 1], b[|b| - 1];
      assert a + b == (a + front) + [e] && b == front + [e];
      ByThreadAppend(a, front, tid);
      ByThreadSnoc(a + front, e, tid);
      ByThreadSnoc(front, e, tid);
    }
  }

  lemma LogGrows(a: seq<Entry>, b: seq<Entry>, c: seq<Entry>, tid: nat)
    requires a <= b <= c
    ensures ByThread(c[|a|..], tid) == ByThread(b[|a|..], tid) + ByThread(c[|b|..], tid)
  {
    assert c[|a|..] == b[|a|..] + c[|b|..];
    ByThreadAppend(b[|a|..], c[|b|..], tid);
  }

  /** The thread has been busy since step `i`, at which it took up a read. */
  ghost predicate BusySince(ws: seq<World>, acts: seq<Action>, i: nat, j: nat, tid: nat) {
    && i < j < |ws| && j <= |acts| && acts[i].Receive? && acts[i].tid == tid
    && forall k :: i < k <= j ==> tid < |ws[k].threads| && !ws[k].threads[tid].Idle?
  }

  lemma ReceiveStarts(w: World, a: Action, v: World)
    requires Next(w, a, v) && a.Receive?
    ensures a.tid < |v.threads| && v.threads[a.tid] == Handling(a.fd, a.msgs) && v.log == w.log
  {
  }

  /** At any moment, the messages handled since the read and those left are the messages of the read. */
  lemma {:induction false} ReadSoFar(n: nat, ws: seq<World>, acts: seq<Action>, i: nat, j: nat, tid: nat)
    requires Run(n, ws, acts) && BusySince(ws, acts, i, j, tid)
    ensures ws[i].log <= ws[j].log && ws[j].threads[tid].fd == acts[i].fd
    ensures Underway(acts[i].msgs, ByThread(ws[j].log[|ws[i].log|..], tid), ws[j].threads[tid])
    decreases j
  {
    StepOfRun(n, ws, acts, j);
    if j == i + 1 {
      ReceiveStarts(ws[i], acts[i], ws[j]);
      LogStays(ws[i].log, tid);
      assert [] + acts[i].msgs == acts[i].msgs;
    } else {
      ReadSoFar(n, ws, acts, i, j - 1, tid);
      StepMoves(ws[j - 1], acts[j - 1], ws[j], tid);
      LogGrows(ws[i].log, ws[j - 1].log, ws[j].log, tid);
      UnderwayMoves(acts[i].msgs, ByThread(ws[j - 1].log[|ws[i].log|..], tid), ws[j - 1].threads[tid],
                    ByThread(ws[j].log[|ws[j - 1].log|..], tid), ws[j].threads[tid]);
    }
  }

  lemma GoesIdle(w: World, a: Action, v: World, tid: nat)
    requires Next(w, a, v) && tid < |w.threads| && !w.threads[tid].Idle? && tid < |v.threads| && v.threads[tid].Idle?
    ensures v.log == w.log
    ensures if w.threads[tid].Handling? then w.threads[tid].msgs == []
            else w.threads[tid].Dropping? && w.threads[tid].fd !in v.clients
  {
    if a.Accept? || a.tid != tid {
      OthersMove(w, a, v, tid);
    } else if a.Handle? && w.threads[a.tid].msgs != [] {
      HandleMoves(w, tid, w.threads[tid].fd, w.threads[tid].msgs, a.timerfd);
    } else {
      OthersLogNothing(w, a);
    }
  }

  /** From taking up a read until it is idle again, a thread handles the messages of the read in order: all
      of them, or, when one of them or a failed send makes it remove the client, the first of them. */
  lemma ReadHandled(n: nat, ws: seq<World>, acts: seq<Action>, i: nat, j: nat, tid: nat)
    requires Run(n, ws, acts) && BusySince(ws, acts, i, j, tid) && j < |acts|
    requires tid < |ws[j + 1].threads| && ws[j + 1].threads[tid].Idle?
    ensures ws[i].log <= ws[j + 1].log
    ensures var handled := ByThread(ws[j + 1].log[|ws[i].log|..], tid);
            handled == acts[i].msgs || (handled <= acts[i].msgs && acts[i].fd !in ws[j + 1].clients)
  {
    ReadSoFar(n, ws, acts, i, j, tid);
    StepOfRun(n, ws, acts, j + 1);
    GoesIdle(ws[j], acts[j], ws[j + 1], tid);
    var handled := ByThread(ws[j].log[|ws[i].log|..], tid);
    assert handled + [] == handled;
  }

  // ----- What a message does to its client

  /** The messages that make a handler remove its client. */
  predicate Refused(c: Client, m: Message) {
    || ((m.IAmCamera? || m.IAmDispatcher?) && c.role != Unidentified)
    || (m.PlateM? && (!c.role.AsCamera? || |m.plate| == 0))
    || (m.WantHeartbeat? && (c.heartbeatRequested || c.timer != None))
    || m.ErrorM? || m.TicketM? || m.Heartbeat?
  }

  /** A refused message changes no client and ends the thread's work; any other does to its client what it
      says and leaves the rest of the read to be handled. */
  lemma MessageEffects(w: World, tid: nat, fd: Fd, m: Message, rest: seq<Message>, timerfd: Fd)
    requires tid < |w.threads| && fd in w.clients
    ensures var c, v := w.clients[fd], HandleMessage(w, tid, fd, m, rest, timerfd);
            && (Refused(c, m) <==> v.threads[tid] == Closing(fd))
            && (Refused(c, m) ==>
                  v.clients == w.clients && v.cars == w.cars && v.issued == w.issued && v.roads == w.roads)
            && (!Refused(c, m) ==> Left(v.threads[tid]) == rest && v.clients.Keys == w.clients.Keys)
            && (forall f :: f in w.clients && f != fd ==> f in v.clients && v.clients[f] == w.clients[f])
            && (!Refused(c, m) ==>
                  && (m.IAmCamera? ==> v.clients[fd] == c.(role := AsCamera(Camera(m.road, m.mile, m.limit))))
                  && (m.IAmDispatcher? ==> v.clients[fd] == c.(role := AsDispatcher(m.roads)) && v.threads[tid].Owing?)
                  && (m.WantHeartbeat? && m.interval == 0 ==> v.clients[fd] == c.(heartbeatRequested := true))
                  && (m.WantHeartbeat? && m.interval > 0 ==> v.clients[fd] == c.(timer := Some(timerfd)))
                  && (m.PlateM? ==> v.clients[fd] == c && v.threads[tid].Appending?))
  {
  }

  // ----- Where a client's role and heartbeat come from

  /** The step in which a thread handles a message of a client. */
  ghost predicate Handles(w: World, a: Action, fd: Fd, m: Message) {
    && Enabled(w, a) && a.Handle? && w.threads[a.tid].fd == fd
    && w.threads[a.tid].msgs != [] && w.threads[a.tid].msgs[0] == m
  }

  /** The message that identifies a client in this role. */
  ghost predicate Identifies(m: Message, role: Role) {
    match role
    case Unidentified => false
    case AsCamera(cam) => m == IAmCamera(cam.road, cam.mile, cam.limit)
    case AsDispatcher(roads) => m == IAmDispatcher(roads)
  }

  lemma HandlerOf(w: World, tid: nat, fd: Fd, m: Message, rest: seq<Message>, timerfd: Fd, f: Fd)
    requires tid < |w.threads| && fd in w.clients
    ensures var v := HandleMessage(w, tid, fd, m, rest, timerfd);
            && (f in v.clients <==> f in w.clients)
            && (f in w.clients && v.clients[f].role != w.clients[f].role ==>
                  f == fd && Identifies(m, v.clients[f].role))
            && (f in w.clients && (w.clients[f].heartbeatRequested || w.clients[f].timer != None) ==>
                  v.clients[f].heartbeatRequested || v.clients[f].timer != None)
  {
  }

  lemma OthersKeepClients(w: World, a: Action, f: Fd)
    requires Enabled(w, a) && (a.Handle? ==> w.threads[a.tid].msgs == [])
    ensures var v := Step(w, a);
            && (f in w.clients && f in v.clients ==> v.clients[f] == w.clients[f])
            && (f !in w.clients && f in v.clients ==>
                  a == Accept(f) && v.clients[f] == Client(Unidentified, None, false))
  {
  }

  /** A client's role changes only by the message that says so. */
  lemma RoleChanges(w: World, a: Action, v: World, fd: Fd) returns (m: Message)
    requires Next(w, a, v) && fd in v.clients && v.clients[fd].role != Unidentified
    requires fd !in w.clients || w.clients[fd].role != v.clients[fd].role
    ensures fd in w.clients && Handles(w, a, fd, m) && Identifies(m, v.clients[fd].role)
  {
    if a.Handle? && w.threads[a.tid].msgs != [] {
      var Handling(f, msgs) := w.threads[a.tid];
      m := msgs[0];
      HandlerOf(w, a.tid, f, msgs[0], msgs[1..], a.timerfd, fd);
    } else {
      OthersKeepClients(w, a, fd);
      assert false;
    }
  }

  /** A client has its role from a message of its own, handled while it lived. */
  lemma {:induction false} RoleComesFrom(n: nat, ws: seq<World>, acts: seq<Action>, j: nat, fd: Fd)
      returns (k: nat, m: Message)
    requires Run(n, ws, acts) && j < |ws| && fd in ws[j].clients && ws[j].clients[fd].role != Unidentified
    ensures k < j && Handles(ws[k], acts[k], fd, m) && Identifies(m, ws[j].clients[fd].role)
    ensures forall i :: k <= i <= j ==> fd in ws[i].clients
    decreases j
  {
    assert j > 0;
    StepOfRun(n, ws, acts, j);
    if fd in ws[j - 1].clients && ws[j - 1].clients[fd].role == ws[j].clients[fd].role {
      k, m := RoleComesFrom(n, ws, acts, j - 1, fd);
    } else {
      k := j - 1;
      m := RoleChanges(ws[k], acts[k], ws[j], fd);
    }
  }

  predicate HasHeartbeat(c: Client) {
    c.heartbeatRequested || c.timer != None
  }

  lemma HeartbeatStays(w: World, a: Action, v: World, fd: Fd)
    requires Next(w, a, v) && fd in w.clients && fd in v.clients && HasHeartbeat(w.clients[fd])
    ensures HasHeartbeat(v.clients[fd])
  {
    if a.Handle? && w.threads[a.tid].msgs != [] {
      var Handling(f, msgs) := w.threads[a.tid];
      HandlerOf(w, a.tid, f, msgs[0], msgs[1..], a.timerfd, fd);
    } else {
      OthersKeepClients(w, a, fd);
    }
  }

  lemma {:induction false} HeartbeatLasts(n: nat, ws: seq<World>, acts: seq<Action>, i: nat, j: nat, fd: Fd)
    requires Run(n, ws, acts) && i <= j < |ws| && (forall k :: i <= k <= j ==> fd in ws[k].clients)
    requires HasHeartbeat(ws[i].clients[fd])
    ensures HasHeartbeat(ws[j].clients[fd])
    decreases j
  {
    if i < j {
      HeartbeatLasts(n, ws, acts, i, j - 1, fd);
      StepOfRun(n, ws, acts, j);
      HeartbeatStays(ws[j - 1], acts[j - 1], ws[j], fd);
    }
  }

  lemma HandlesSteps(w: World, a: Action, v: World, fd: Fd, m: Message)
    requires Handles(w, a, fd, m) && Next(w, a, v)
    ensures fd in w.clients && v == HandleMessage(w, a.tid, fd, m, w.threads[a.tid].msgs[1..], a.timerfd)
  {
  }

  /** A second heartbeat request of a living client, whatever the intervals, is refused: the thread goes on
      to remove the client. */
  lemma HeartbeatOnce(n: nat, ws: seq<World>, acts: seq<Action>, i: nat, j: nat, fd: Fd, m: Message, m': Message)
    requires Run(n, ws, acts) && i < j < |acts| && (forall k :: i <= k <= j ==> fd in ws[k].clients)
    requires Handles(ws[i], acts[i], fd, m) && Handles(ws[j], acts[j], fd, m')
    requires m.WantHeartbeat? && m'.WantHeartbeat?
    ensures ws[j + 1].threads[acts[j].tid] == Closing(fd)
  {
    StepOfRun(n, ws, acts, i + 1);
    HandlesSteps(ws[i], acts[i], ws[i + 1], fd, m);
    MessageEffects(ws[i], acts[i].tid, fd, m, ws[i].threads[acts[i].tid].msgs[1..], acts[i].timerfd);
    HeartbeatLasts(n, ws, acts, i + 1, j, fd);
    StepOfRun(n, ws, acts, j + 1);
    HandlesSteps(ws[j], acts[j], ws[j + 1], fd, m');
    MessageEffects(ws[j], acts[j].tid, fd, m', ws[j].threads[acts[j].tid].msgs[1..], acts[j].timerfd);
  }

  /** So is a second identification. */
  lemma IdentifiedOnce(n: nat, ws: seq<World>, acts: seq<Action>, i: nat, j: nat, fd: Fd, m: Message, m': Message)
    requires Run(n, ws, acts) && i < j < |acts| && (forall k :: i <= k <= j ==> fd in ws[k].clients)
    requires Handles(ws[i], acts[i], fd, m) && Handles(ws[j], acts[j], fd, m')
    requires (m.IAmCamera? || m.IAmDispatcher?) && (m'.IAmCamera? || m'.IAmDispatcher?)
    ensures ws[j + 1].threads[acts[j].tid] == Closing(fd)
  {
    StepOfRun(n, ws, acts, i + 1);
    HandlesSteps(ws[i], acts[i], ws[i + 1], fd, m);
    MessageEffects(ws[i], acts[i].tid, fd, m, ws[i].threads[acts[i].tid].msgs[1..], acts[i].timerfd);
    RoleIsFinal(n, ws, acts, i + 1, j, fd);
    StepOfRun(n, ws, acts, j + 1);
    HandlesSteps(ws[j], acts[j], ws[j + 1], fd, m');
    MessageEffects(ws[j], acts[j].tid, fd, m', ws[j].threads[acts[j].tid].msgs[1..], acts[j].timerfd);
  }
}

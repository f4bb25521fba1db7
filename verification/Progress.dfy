/** The daemon never locks itself out: while a thread has work, some thread with work can go on. */
module Progress {
  import opened Messages
  import opened Dispatch
  import opened Logs
  import opened Protocol

  lemma MemberOf(s: set<int>) returns (x: int)
    requires s != {}
    ensures x in s
  {
    assert (forall y :: y !in s) ==> s == {};
    x :| x in s;
  }

  lemma {:induction false} Above(s: set<int>) returns (m: int)
    ensures forall x :: x in s ==> x < m
    decreases |s|
  {
    if s == {} {
      m := 0;
    } else {
      var x := MemberOf(s);
      m := Above(s - {x});
      m := if x < m then m else x + 1;
      assert forall y :: y in s ==> y == x || y in s - {x};
    }
  }

  /** There is always a descriptor to give out. */
  lemma UnusedExists(w: World) returns (fd: Fd)
    ensures Unused(w, fd)
  {
    var armed := set c | c in w.clients && w.clients[c].timer.Some? :: w.clients[c].timer.value;
    fd := Above(w.clients.Keys + w.timers.Keys + armed);
    forall c | c in w.clients
      ensures w.clients[c].timer != Some(fd)
    {
      if w.clients[c].timer.Some? {
        assert w.clients[c].timer.value in armed;
      }
    }
  }

  lemma PassGoesOn(w: World, tid: nat) returns (a: Action)
    requires tid < |w.threads| && w.threads[tid].Passing?
    ensures a.Look? && a.tid == tid && Enabled(w, a)
  {
    if Finds(w, tid) {
      var to := MemberOf(DispatchersOf(w.roads, w.queue[w.threads[tid].pos].road));
      a := Look(tid, to, true);
    } else {
      a := Look(tid, 0, true);
    }
  }

  /** A thread that waits for the tickets lock waits for a pass, which goes on. */
  lemma LockedPass(w: World) returns (a: Action)
    requires !TicketsFree(w.threads)
    ensures a.Look? && Enabled(w, a)
  {
    var p :| p in w.threads && p.Passing?;
    var i :| 0 <= i < |w.threads| && w.threads[i] == p;
    a := PassGoesOn(w, i);
  }

  lemma AppendGoesOn(w: World, tid: nat) returns (a: Action)
    requires tid < |w.threads| && w.threads[tid].Appending?
    ensures (a.Append? || a.Unlock? || a.Look?) && Enabled(w, a)
  {
    if w.threads[tid].todo == [] {
      a := Unlock(tid);
    } else if TicketsFree(w.threads) {
      a := Append(tid);
    } else {
      a := LockedPass(w);
    }
  }

  /** A thread that waits for the cars lock waits for one that is appending its tickets. */
  lemma HandleGoesOn(w: World, tid: nat) returns (a: Action)
    requires tid < |w.threads| && w.threads[tid].Handling? && w.threads[tid].fd in w.clients
    ensures (a.Handle? || a.Append? || a.Unlock? || a.Look?) && Enabled(w, a)
  {
    if CarsFree(w.threads) {
      var fd := UnusedExists(w);
      a := Handle(tid, fd);
    } else {
      var p :| p in w.threads && p.Appending?;
      var i :| 0 <= i < |w.threads| && w.threads[i] == p;
      a := AppendGoesOn(w, i);
    }
  }

  lemma ThreadGoesOn(w: World, tid: nat) returns (a: Action)
    requires ThreadsInv(w.threads, w.clients) && tid < |w.threads| && !w.threads[tid].Idle?
    ensures Enabled(w, a) && !a.Accept? && !a.Receive? && !a.HangUp?
  {
    match w.threads[tid]
    case Handling(_, _) => a := HandleGoesOn(w, tid);
    case Appending(_, _, _, _) => a := AppendGoesOn(w, tid);
    case Arming(_, _, _) => a := Arm(tid);
    case Owing(_, _) =>
      if TicketsFree(w.threads) {
        a := Begin(tid);
      } else {
        a := LockedPass(w);
      }
    case Passing(_, _, _, _) => a := PassGoesOn(w, tid);
    case Closing(_) => a := Unroad(tid);
    case Dropping(_) => a := Drop(tid);
  }

  /** In every reachable state in which a thread is busy, a busy thread can take a step. */
  lemma NoDeadlock(n: nat, ws: seq<World>, acts: seq<Action>, k: nat, tid: nat) returns (a: Action)
    requires Run(n, ws, acts) && k < |ws| && tid < |ws[k].threads| && !ws[k].threads[tid].Idle?
    ensures Enabled(ws[k], a) && !a.Accept? && a.tid < |ws[k].threads| && !ws[k].threads[a.tid].Idle?
  {
    AllReachable(n, ws, acts, k);
    a := ThreadGoesOn(ws[k], tid);
  }

  /** An idle thread can take up anything that a client nobody works on sends, or its removal. */
  lemma IdleStarts(w: World, tid: nat, fd: Fd, msgs: seq<Message>)
    requires tid < |w.threads| && w.threads[tid].Idle? && fd in w.clients
    requires forall p :: p in w.threads && !p.Idle? ==> p.fd != fd
    ensures Enabled(w, Receive(tid, fd, msgs)) && Enabled(w, HangUp(tid, fd))
    ensures Step(w, HangUp(tid, fd)).threads[tid] == Closing(fd)
  {
  }
}

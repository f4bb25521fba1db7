/** Servers as machines that read messages and write bytes, fed by a connection that hands over whole
    batches of messages as they arrive. */
module Machines {
  import opened Slices
  import opened Framing

  datatype Machine<!S, !M, !B> = Machine(step: (S, M) -> S, out: (S, M) -> seq<B>)

  function After<S, M, B>(m: Machine<S, M, B>, s: S, ms: seq<M>): S
    decreases |ms|
  {
    if ms == [] then s else After(m, m.step(s, ms[0]), ms[1..])
  }

  function Output<S, M, B>(m: Machine<S, M, B>, s: S, ms: seq<M>): seq<B>
    decreases |ms|
  {
    if ms == [] then [] else m.out(s, ms[0]) + Output(m, m.step(s, ms[0]), ms[1..])
  }

  lemma RunNext<S, M, B>(m: Machine<S, M, B>, s: S, x: M, rest: seq<M>)
    ensures After(m, s, [x] + rest) == After(m, m.step(s, x), rest)
    ensures Output(m, s, [x] + rest) == m.out(s, x) + Output(m, m.step(s, x), rest)
  {
    assert ([x] + rest)[1..] == rest;
  }

  /** Two batches are one batch. */
  lemma {:induction false} RunAppend<S, M, B>(m: Machine<S, M, B>, s: S, a: seq<M>, b: seq<M>)
    ensures After(m, s, a + b) == After(m, After(m, s, a), b)
    ensures Output(m, s, a + b) == Output(m, s, a) + Output(m, After(m, s, a), b)
    decreases |a|
  {
    if a == [] {
      assert a + b == b;
    } else {
      var s' := m.step(s, a[0]);
      Assoc([a[0]], a[1..], b);
      assert a == [a[0]] + a[1..];
      RunNext(m, s, a[0], a[1..] + b);
      RunAppend(m, s', a[1..], b);
      Assoc(m.out(s, a[0]), Output(m, s', a[1..]), Output(m, After(m, s', a[1..]), b));
    }
  }

  lemma RunLast<S, M, B>(m: Machine<S, M, B>, s: S, ms: seq<M>, x: M)
    ensures After(m, s, ms + [x]) == m.step(After(m, s, ms), x)
    ensures Output(m, s, ms + [x]) == Output(m, s, ms) + m.out(After(m, s, ms), x)
  {
    RunAppend(m, s, ms, [x]);
    var t := After(m, s, ms);
    assert [x] == [x] + [];
    RunNext(m, t, x, []);
    assert m.out(t, x) + [] == m.out(t, x);
  }

  /** A server that is in state `s` and has sent `sent` of its answers to `all`, with `rest` to read. */
  ghost predicate Ahead<S, M, B>(m: Machine<S, M, B>, s0: S, all: seq<M>, s: S, sent: seq<B>, rest: seq<M>) {
    After(m, s0, all) == After(m, s, rest) && Output(m, s0, all) == sent + Output(m, s, rest)
  }

  /** One message takes the server from `s` to `s'`, with this answer. */
  ghost predicate Does<S, M, B>(m: Machine<S, M, B>, s: S, x: M, s': S, answer: seq<B>) {
    s' == m.step(s, x) && answer == m.out(s, x)
  }

  lemma AheadCons<S, M, B>(m: Machine<S, M, B>, s0: S, all: seq<M>, s: S, sent: seq<B>, x: M, rest: seq<M>,
                           s': S, answer: seq<B>)
    requires Ahead(m, s0, all, s, sent, [x] + rest) && Does(m, s, x, s', answer)
    ensures Ahead(m, s0, all, s', sent + answer, rest)
  {
    RunNext(m, s, x, rest);
    Assoc(sent, answer, Output(m, s', rest));
  }

  lemma AheadNext<S, M, B>(m: Machine<S, M, B>, s0: S, all: seq<M>, s: S, sent: seq<B>, k: nat, s': S, answer: seq<B>)
    requires k < |all| && Ahead(m, s0, all, s, sent, all[k..]) && Does(m, s, all[k], s', answer)
    ensures Ahead(m, s0, all, s', sent + answer, all[k + 1..])
  {
    assert all[k..] == [all[k]] + all[k + 1..];
    AheadCons(m, s0, all, s, sent, all[k], all[k + 1..], s', answer);
  }

  lemma AheadStart<S, M, B>(m: Machine<S, M, B>, s0: S, all: seq<M>)
    ensures Ahead(m, s0, all, s0, [], all)
  {
    assert [] + Output(m, s0, all) == Output(m, s0, all);
  }

  lemma AheadDone<S, M, B>(m: Machine<S, M, B>, s0: S, all: seq<M>, s: S, sent: seq<B>)
    requires Ahead(m, s0, all, s, sent, [])
    ensures s == After(m, s0, all) && sent == Output(m, s0, all)
  {
    assert sent + [] == sent;
  }

  /** Related machines answer alike, whatever they read. */
  ghost predicate Simulation<S(!new), T(!new), M(!new), B(!new)>(m: Machine<S, M, B>, n: Machine<T, M, B>,
                                                                 rel: (S, T) -> bool) {
    forall s, t, x :: rel(s, t) ==> rel(m.step(s, x), n.step(t, x)) && m.out(s, x) == n.out(t, x)
  }

  lemma {:induction false} SimulationRuns<S(!new), T(!new), M(!new), B(!new)>(
      m: Machine<S, M, B>, n: Machine<T, M, B>, rel: (S, T) -> bool, s: S, t: T, ms: seq<M>)
    requires Simulation(m, n, rel) && rel(s, t)
    ensures rel(After(m, s, ms), After(n, t, ms))
    ensures Output(m, s, ms) == Output(n, t, ms)
    decreases |ms|
  {
    if ms != [] {
      assert rel(m.step(s, ms[0]), n.step(t, ms[0])) && m.out(s, ms[0]) == n.out(t, ms[0]);
      SimulationRuns(m, n, rel, m.step(s, ms[0]), n.step(t, ms[0]), ms[1..]);
    }
  }

  // ----- A connection

  /** `take` says how many buffered bytes are handed over, `split` what messages they are. */
  datatype Wiring<!M, !B> = Wiring(take: seq<B> -> nat, split: seq<B> -> seq<M>)

  /** Batches are no longer than the buffer, and their messages do not depend on what follows. */
  ghost predicate Splits<M(!new), B(!new)>(w: Wiring<M, B>) {
    && (forall buf :: w.take(buf) <= |buf|)
    && (forall buf, b :: w.split(buf[..Cut(w, buf)] + b) == w.split(buf[..Cut(w, buf)]) + w.split(b))
  }

  function Cut<M, B>(w: Wiring<M, B>, buf: seq<B>): (n: nat)
    ensures n <= |buf|
  {
    if w.take(buf) <= |buf| then w.take(buf) else |buf|
  }

  datatype Served<S, B> = Served(state: S, fifo: seq<B>, sent: seq<B>)

  /** One read: append it, hand over a batch, send the answers, discard the batch. */
  function Read<S, M, B>(m: Machine<S, M, B>, w: Wiring<M, B>, c: Served<S, B>, chunk: seq<B>): Served<S, B> {
    var buf := c.fifo + chunk;
    var n := Cut(w, buf);
    var batch := w.split(buf[..n]);
    Served(After(m, c.state, batch), buf[n..], c.sent + Output(m, c.state, batch))
  }

  function Serve<S, M, B>(m: Machine<S, M, B>, w: Wiring<M, B>, c: Served<S, B>, chunks: seq<seq<B>>): Served<S, B>
    decreases |chunks|
  {
    if chunks == [] then c else Serve(m, w, Read(m, w, c, chunks[0]), chunks[1..])
  }

  /** What a connection still has to say about its buffer and the bytes to come. */
  function Final<S, M, B>(m: Machine<S, M, B>, w: Wiring<M, B>, c: Served<S, B>, rest: seq<B>): (S, seq<B>) {
    var ms := w.split(c.fifo + rest);
    (After(m, c.state, ms), c.sent + Output(m, c.state, ms))
  }

  lemma ReadKeepsFinal<S(!new), M(!new), B(!new)>(m: Machine<S, M, B>, w: Wiring<M, B>, c: Served<S, B>,
                                                  chunk: seq<B>, rest: seq<B>)
    requires Splits(w)
    ensures Final(m, w, Read(m, w, c, chunk), rest) == Final(m, w, c, chunk + rest)
  {
    var buf := c.fifo + chunk;
    var n := Cut(w, buf);
    var batch, later := w.split(buf[..n]), w.split(buf[n..] + rest);
    Assoc(c.fifo, chunk, rest);
    Assoc(buf[..n], buf[n..], rest);
    assert buf[..n] + buf[n..] == buf;
    assert w.split(buf[..n] + (buf[n..] + rest)) == batch + later;
    RunAppend(m, c.state, batch, later);
    Assoc(c.sent, Output(m, c.state, batch), Output(m, After(m, c.state, batch), later));
  }

  lemma SentBefore<S, M, B>(m: Machine<S, M, B>, w: Wiring<M, B>, c: Served<S, B>, chunk: seq<B>)
    ensures var r := Read(m, w, Served(c.state, c.fifo, []), chunk);
            Read(m, w, c, chunk) == Served(r.state, r.fifo, c.sent + r.sent)
  {
    var buf := c.fifo + chunk;
    var out := Output(m, c.state, w.split(buf[..Cut(w, buf)]));
    assert [] + out == out;
  }

  /** However the bytes are cut into reads, the answers sent, continued by those to the messages still
      waiting, are the answers to the whole input. */
  lemma {:induction false} ServeIsOneBatch<S(!new), M(!new), B(!new)>(m: Machine<S, M, B>, w: Wiring<M, B>,
                                                                      c: Served<S, B>,
                                                                      chunks: seq<seq<B>>)
    requires Splits(w)
    ensures Final(m, w, Serve(m, w, c, chunks), []) == Final(m, w, c, Concat(chunks))
    decreases |chunks|
  {
    if chunks != [] {
      ServeIsOneBatch(m, w, Read(m, w, c, chunks[0]), chunks[1..]);
      ReadKeepsFinal(m, w, c, chunks[0], Concat(chunks[1..]));
    }
  }

  lemma {:induction false} ServeNext<S, M, B>(m: Machine<S, M, B>, w: Wiring<M, B>, c: Served<S, B>,
                                              chunks: seq<seq<B>>, k: nat)
    requires k < |chunks|
    ensures Serve(m, w, c, chunks[k..]) == Serve(m, w, Read(m, w, c, chunks[k]), chunks[k + 1..])
  {
    assert chunks[k..][0] == chunks[k] && chunks[k..][1..] == chunks[k + 1..];
  }
}

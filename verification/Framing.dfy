/** Streams of self-delimiting frames, over any messages and any encoding: a stream reads in one
    way only, a prefix of a stream is a stream, and a reader that takes the whole messages out of
    its buffer does not depend on how the stream is cut into reads. */
module Framing {
  import opened Slices

  /** An encoding: the frame of a message, and the messages it is meant for. */
  datatype Code<!M, !B> = Code(frame: M -> seq<B>, ok: M -> bool)

  ghost predicate AllOk<M(!new), B(!new)>(c: Code<M, B>, ms: seq<M>) {
    forall m :: m in ms ==> c.ok(m)
  }

  function Frames<M, B>(c: Code<M, B>, ms: seq<M>): seq<B> {
    if ms == [] then [] else c.frame(ms[0]) + Frames(c, ms[1..])
  }

  /** The beginning of a message that has not arrived in full, or nothing. */
  ghost predicate Incomplete<M(!new), B(!new)>(c: Code<M, B>, s: seq<B>) {
    s == [] || exists m :: c.ok(m) && s < c.frame(m)
  }

  /** `s` is `ms` in full and then the beginning of a message. */
  ghost predicate StreamOf<M(!new), B(!new)>(c: Code<M, B>, s: seq<B>, ms: seq<M>, tail: seq<B>) {
    AllOk(c, ms) && Incomplete(c, tail) && s == Frames(c, ms) + tail
  }

  /** No frame is empty or begins another. */
  ghost predicate SelfDelimiting<M(!new), B(!new)>(c: Code<M, B>) {
    && (forall m :: c.ok(m) ==> c.frame(m) != [])
    && (forall m, n :: c.ok(m) && c.ok(n) && c.frame(m) <= c.frame(n) ==> m == n)
  }

  lemma StreamNone<M(!new), B(!new)>(c: Code<M, B>, tail: seq<B>)
    requires Incomplete(c, tail)
    ensures StreamOf(c, tail, [], tail)
  {
    assert [] + tail == tail;
  }

  lemma StreamCons<M(!new), B(!new)>(c: Code<M, B>, m: M, s: seq<B>, ms: seq<M>, tail: seq<B>)
    requires c.ok(m) && StreamOf(c, s, ms, tail)
    ensures StreamOf(c, c.frame(m) + s, [m] + ms, tail)
  {
    assert ([m] + ms)[1..] == ms;
    Assoc(c.frame(m), Frames(c, ms), tail);
  }

  lemma StreamRest<M(!new), B(!new)>(c: Code<M, B>, s: seq<B>, ms: seq<M>, tail: seq<B>)
    requires StreamOf(c, s, ms, tail) && ms != []
    ensures var rest := Frames(c, ms[1..]) + tail;
            c.ok(ms[0]) && s == c.frame(ms[0]) + rest && StreamOf(c, rest, ms[1..], tail)
  {
    assert ms[0] in ms;
    Assoc(c.frame(ms[0]), Frames(c, ms[1..]), tail);
  }

  lemma PrefixIncomplete<M(!new), B(!new)>(c: Code<M, B>, tail: seq<B>, n: nat)
    requires Incomplete(c, tail) && n <= |tail|
    ensures Incomplete(c, tail[..n])
  {
    if tail != [] {
      var m :| c.ok(m) && tail < c.frame(m);
      assert tail[..n] < c.frame(m);
    }
  }

  lemma PrefixOfTail<M(!new), B(!new)>(c: Code<M, B>, s: seq<B>, ms: seq<M>, tail: seq<B>, n: nat)
    requires StreamOf(c, s, ms, tail) && ms == [] && n <= |s|
    ensures StreamOf(c, s[..n], ms[..0], s[..n]) && StreamOf(c, s[..n] + s[n..], ms[0..], tail)
  {
    assert s == tail;
    PrefixIncomplete(c, tail, n);
    StreamNone(c, s[..n]);
    Rejoin(s, 0, n);
  }

  lemma PrefixShort<M(!new), B(!new)>(c: Code<M, B>, s: seq<B>, ms: seq<M>, tail: seq<B>, n: nat)
    requires StreamOf(c, s, ms, tail) && ms != [] && n <= |s| && n < |c.frame(ms[0])|
    ensures StreamOf(c, s[..n], ms[..0], s[..n]) && StreamOf(c, s[..n] + s[n..], ms[0..], tail)
  {
    StreamRest(c, s, ms, tail);
    assert s[..n] < c.frame(ms[0]);
    StreamNone(c, s[..n]);
    Rejoin(s, 0, n);
  }

  lemma PrefixCons<M(!new), B(!new)>(c: Code<M, B>, rest: seq<B>, ms: seq<M>, tail: seq<B>, n: nat, k: nat, t: seq<B>)
    requires ms != [] && c.ok(ms[0]) && n <= |rest| && k <= |ms| - 1
    requires StreamOf(c, rest[..n], ms[1..][..k], t) && StreamOf(c, t + rest[n..], ms[1..][k..], tail)
    ensures StreamOf(c, c.frame(ms[0]) + rest[..n], ms[..k + 1], t) && StreamOf(c, t + rest[n..], ms[k + 1..], tail)
  {
    StreamCons(c, ms[0], rest[..n], ms[1..][..k], t);
    CutCons(ms, k);
  }

  /** A prefix of a stream is a stream, and what it leaves of its last message continues it. */
  lemma {:induction false} PrefixOfStream<M(!new), B(!new)>(c: Code<M, B>, s: seq<B>, ms: seq<M>, tail: seq<B>, n: nat)
      returns (k: nat, t: seq<B>)
    requires StreamOf(c, s, ms, tail) && n <= |s|
    ensures k <= |ms| && StreamOf(c, s[..n], ms[..k], t) && StreamOf(c, t + s[n..], ms[k..], tail)
    decreases |ms|
  {
    if ms == [] {
      k, t := 0, s[..n];
      PrefixOfTail(c, s, ms, tail, n);
    } else {
      StreamRest(c, s, ms, tail);
      var f, rest := c.frame(ms[0]), Frames(c, ms[1..]) + tail;
      if n < |f| {
        k, t := 0, s[..n];
        PrefixShort(c, s, ms, tail, n);
      } else {
        CutConcat(f, rest, n);
        k, t := PrefixOfStream(c, rest, ms[1..], tail, n - |f|);
        PrefixCons(c, rest, ms, tail, n - |f|, k, t);
        k := k + 1;
      }
    }
  }

  lemma FramesCons<M(!new), B(!new)>(c: Code<M, B>, m: M, ms: seq<M>)
    requires AllOk(c, [m] + ms)
    ensures Frames(c, [m] + ms) == c.frame(m) + Frames(c, ms) && c.ok(m) && AllOk(c, ms)
  {
    assert ([m] + ms)[1..] == ms;
    assert m in [m] + ms;
  }

  lemma SameFirst<M(!new), B(!new)>(c: Code<M, B>, m: M, n: M, s: seq<B>)
    requires SelfDelimiting(c) && c.ok(m) && c.ok(n) && c.frame(m) <= s && c.frame(n) <= s
    ensures m == n
  {
    PrefixesOfOne(c.frame(m), c.frame(n), s);
  }

  /** The beginning of a message holds no whole message. */
  lemma NoFrameInside<M(!new), B(!new)>(c: Code<M, B>, m: M, s: seq<B>)
    requires SelfDelimiting(c) && c.ok(m) && c.frame(m) <= s
    ensures !Incomplete(c, s)
  {
    assert c.frame(m) != [];
    assert forall n :: c.ok(n) && s < c.frame(n) ==> c.frame(m) <= c.frame(n);
  }

  /** A stream reads in one way only. */
  lemma {:induction false} StreamUnique<M(!new), B(!new)>(c: Code<M, B>, s: seq<B>, ms: seq<M>, tail: seq<B>,
                                                          ms': seq<M>, tail': seq<B>)
    requires SelfDelimiting(c) && StreamOf(c, s, ms, tail) && StreamOf(c, s, ms', tail')
    ensures ms == ms' && tail == tail'
    decreases |ms|
  {
    if ms == [] {
      assert s == tail;
      if ms' != [] {
        StreamRest(c, s, ms', tail');
        NoFrameInside(c, ms'[0], s);
      }
    } else {
      StreamRest(c, s, ms, tail);
      if ms' == [] {
        assert s == tail';
        NoFrameInside(c, ms[0], s);
      } else {
        StreamRest(c, s, ms', tail');
        SameFirst(c, ms[0], ms'[0], s);
        var f := c.frame(ms[0]);
        assert s[|f|..] == Frames(c, ms[1..]) + tail == Frames(c, ms'[1..]) + tail';
        StreamUnique(c, s[|f|..], ms[1..], tail, ms'[1..], tail');
        assert ms == [ms[0]] + ms[1..] && ms' == [ms'[0]] + ms'[1..];
      }
    }
  }

  // ----- Reading in pieces

  function Concat<B>(chunks: seq<seq<B>>): seq<B> {
    if chunks == [] then [] else chunks[0] + Concat(chunks[1..])
  }

  /** How many elements a decoder consumed and what it read; `None` when it gives up. */
  datatype Taken<+M> = None | Some(len: nat, msgs: seq<M>)

  /** The messages handled so far and what waits in the buffer, unless a read was given up. */
  datatype Fed<+M, +B> = Fed(handled: seq<M>, fifo: seq<B>) | GaveUp

  /** A series of reads: append, decode, handle, discard. */
  function Feed<M, B>(take: seq<B> -> Taken<M>, handled: seq<M>, fifo: seq<B>, chunks: seq<seq<B>>): Fed<M, B>
    decreases |chunks|
  {
    if chunks == [] then Fed(handled, fifo)
    else
      var buf := fifo + chunks[0];
      var r := take(buf);
      if r.None? || r.len > |buf| then GaveUp
      else Feed(take, handled + r.msgs, buf[r.len..], chunks[1..])
  }

  /** The decoder takes exactly the whole messages of a buffer if they fit, and else gives up. */
  ghost predicate TakesWhole<M(!new), B(!new)>(take: seq<B> -> Taken<M>, c: Code<M, B>,
                                               fits: (seq<B>, seq<M>) -> bool) {
    forall buf: seq<B>, ms: seq<M>, tail: seq<B> :: StreamOf(c, buf, ms, tail) ==>
      take(buf) == if fits(buf, ms) then Some(|buf| - |tail|, ms) else None
  }

  /** Every buffer of the series is within the limits. */
  ghost predicate Roomy<M(!new), B(!new)>(c: Code<M, B>, fits: (seq<B>, seq<M>) -> bool,
                                          fifo: seq<B>, chunks: seq<seq<B>>)
    decreases |chunks|
  {
    chunks != [] ==>
      forall ms: seq<M>, tail: seq<B> :: StreamOf(c, fifo + chunks[0], ms, tail) ==>
        fits(fifo + chunks[0], ms) && Roomy(c, fits, tail, chunks[1..])
  }

  /** The limits hold of the first buffer and of those after it. */
  lemma RoomyNext<M(!new), B(!new)>(c: Code<M, B>, fits: (seq<B>, seq<M>) -> bool, fifo: seq<B>, chunks: seq<seq<B>>,
                                    ms: seq<M>, tail: seq<B>)
    requires SelfDelimiting(c) && chunks != [] && StreamOf(c, fifo + chunks[0], ms, tail)
    ensures Roomy(c, fits, fifo, chunks) <==> fits(fifo + chunks[0], ms) && Roomy(c, fits, tail, chunks[1..])
  {
    forall ms': seq<M>, tail': seq<B> | StreamOf(c, fifo + chunks[0], ms', tail')
      ensures ms' == ms && tail' == tail
    {
      StreamUnique(c, fifo + chunks[0], ms, tail, ms', tail');
    }
  }

  /** One read. */
  lemma FeedNext<M(!new), B(!new)>(take: seq<B> -> Taken<M>, c: Code<M, B>, handled: seq<M>, fifo: seq<B>,
                                   chunks: seq<seq<B>>, ms: seq<M>, tail: seq<B>)
    requires chunks != [] && StreamOf(c, fifo + chunks[0], ms, tail)
    ensures take(fifo + chunks[0]) == Some(|fifo + chunks[0]| - |tail|, ms) ==>
              Feed(take, handled, fifo, chunks) == Feed(take, handled + ms, tail, chunks[1..])
    ensures take(fifo + chunks[0]) == None ==> Feed(take, handled, fifo, chunks) == GaveUp
  {
    var buf := fifo + chunks[0];
    assert buf[|buf| - |tail|..] == tail;
  }

  /** However the stream is cut into reads, the same messages are handled and the same beginning of a
      message waits in the buffer, if every buffer keeps within the decoder's limits; else it gives up. */
  lemma {:induction false} ChunksDoNotMatter<M(!new), B(!new)>(
      take: seq<B> -> Taken<M>, c: Code<M, B>, fits: (seq<B>, seq<M>) -> bool,
      handled: seq<M>, fifo: seq<B>, chunks: seq<seq<B>>, ms: seq<M>, tail: seq<B>)
    requires SelfDelimiting(c) && TakesWhole(take, c, fits)
    requires Incomplete(c, fifo) && StreamOf(c, fifo + Concat(chunks), ms, tail)
    ensures Feed(take, handled, fifo, chunks) ==
            if Roomy(c, fits, fifo, chunks) then Fed(handled + ms, tail) else GaveUp
    decreases |chunks|
  {
    var stream := fifo + Concat(chunks);
    if chunks == [] {
      assert stream == fifo;
      StreamNone(c, fifo);
      StreamUnique(c, fifo, [], fifo, ms, tail);
      assert handled + ms == handled;
    } else {
      var buf, later := fifo + chunks[0], Concat(chunks[1..]);
      Assoc(fifo, chunks[0], later);
      assert stream == buf + later && stream[..|buf|] == buf && stream[|buf|..] == later;
      var k, t := PrefixOfStream(c, stream, ms, tail, |buf|);
      RoomyNext(c, fits, fifo, chunks, ms[..k], t);
      FeedNext(take, c, handled, fifo, chunks, ms[..k], t);
      ChunksDoNotMatter(take, c, fits, handled + ms[..k], t, chunks[1..], ms[k..], tail);
      assert handled + ms[..k] + ms[k..] == handled + ms;
    }
  }
}

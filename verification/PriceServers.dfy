/** The means-to-an-end servers step by step, each proved to be the machine of `Prices`: the C one over
    its growable price array and byte queues, the Zig one over a list and a FIFO. */
module PriceServers {
  import opened Messages
  import opened Slices
  import opened Framing
  import opened Machines
  import opened Prices
  import opened ByteQueue

  /** struct asset_prices. */
  class PriceStore {
    var data: array<Price>
    var capacity: nat
    var size: nat

    ghost predicate Valid()
      reads this
    {
      size < capacity == data.Length
    }

    ghost function Contents(): seq<Price>
      requires Valid()
      reads this, data
    {
      data[..size]
    }

    constructor (capacity: nat)
      requires capacity > 0
      ensures Valid() && fresh(data) && Contents() == []
    {
      data := new Price[capacity](_ => Price(0, 0));
      this.capacity, size := capacity, 0;
    }

    /** asset_prices_init_data: a larger array with the same prices. */
    method InitData(newCapacity: nat)
      requires Valid() && newCapacity > capacity
      modifies this
      ensures Valid() && fresh(data) && capacity == newCapacity && Contents() == old(Contents())
    {
      var newData := new Price[newCapacity](_ => Price(0, 0));
      for i := 0 to size
        invariant newData[..i] == data[..i]
        modifies newData
      {
        newData[i] := data[i];
      }
      data, capacity := newData, newCapacity;
    }

    /** asset_prices_push. */
    method Push(p: Price)
      requires Valid()
      modifies this, data
      ensures Valid() && (data == old(data) || fresh(data))
      ensures Contents() == old(Contents()) + [p]
      ensures capacity == if old(size) + 1 >= old(capacity) then 2 * old(capacity) else old(capacity)
    {
      if size + 1 >= capacity {
        InitData(capacity * 2);
      }
      data[size] := p;
      size := size + 1;
    }

    /** asset_prices_duplicate_timestamp_check. */
    method DuplicateTimestampCheck(timestamp: i32) returns (found: bool)
      requires Valid()
      ensures found <==> Has(Contents(), timestamp)
    {
      for k := 0 to size
        invariant forall i :: 0 <= i < k ==> data[i].timestamp != timestamp
      {
        if data[k].timestamp == timestamp {
          assert Contents()[k].timestamp == timestamp;
          return true;
        }
      }
      found := false;
    }

    /** asset_prices_query. */
    method Query(q: Request) returns (mean: int)
      requires Valid() && q.Query?
      ensures mean == CMean(Contents(), q)
    {
      if size == 0 { return 0; }
      var sum, count := 0, 0;
      for k := 0 to size
        invariant sum == Total(data[..k], q) && count == Count(data[..k], q)
      {
        assert data[..k + 1][..k] == data[..k];
        var t := data[k].timestamp;
        if q.mintime <= t && t <= q.maxtime {
          sum, count := sum + data[k].price, count + 1;
        }
      }
      mean := if count == 0 then 0 else Truncated(sum, count);
    }
  }

  lemma RequestCount(b: seq<byte>)
    ensures |Requests(b)| == |b| / MESSAGE_SIZE
  {
  }

  lemma {:induction false} RequestAt(b: seq<byte>, k: nat)
    requires k < |b| / MESSAGE_SIZE
    ensures |Requests(b)| == |b| / MESSAGE_SIZE && k * MESSAGE_SIZE + MESSAGE_SIZE <= |b|
    ensures Requests(b)[k] == Parse(b[k * MESSAGE_SIZE..k * MESSAGE_SIZE + MESSAGE_SIZE])
    decreases |b|
  {
    var rest := b[MESSAGE_SIZE..];
    RequestCount(b);
    assert Requests(b) == [Parse(b[..MESSAGE_SIZE])] + Requests(rest);
    if k > 0 {
      RequestAt(rest, k - 1);
      DropSlice(b, MESSAGE_SIZE, (k - 1) * MESSAGE_SIZE, MESSAGE_SIZE);
      assert Requests(b)[k] == Requests(rest)[k - 1];
    }
  }

  /** One message of message_parse. */
  method ParseOne(ps: PriceStore, sdqu: Queue, r: Request) returns (ghost answer: seq<byte>)
    requires ps.Valid() && sdqu.Valid()
    modifies ps, ps.data, sdqu, sdqu.data
    ensures ps.Valid() && (ps.data == old(ps.data) || fresh(ps.data))
    ensures sdqu.Valid() && (sdqu.data == old(sdqu.data) || fresh(sdqu.data))
    ensures Does(CServer(), old(ps.Contents()), r, ps.Contents(), answer)
    ensures sdqu.Contents() == old(sdqu.Contents()) + answer
  {
    answer := CServer().out(ps.Contents(), r);
    match r {
      case Query(_, _) =>
        var mean := ps.Query(r);
        sdqu.Push(ToWord(mean));
      case Insert(p) =>
        var found := ps.DuplicateTimestampCheck(p.timestamp);
        if !found { ps.Push(p); }
      case Unknown =>
    }
  }

  /** message_parse. */
  method MessageParse(ps: PriceStore, sdqu: Queue, data: seq<byte>)
    requires ps.Valid() && sdqu.Valid()
    modifies ps, ps.data, sdqu, sdqu.data
    ensures ps.Valid() && (ps.data == old(ps.data) || fresh(ps.data))
    ensures sdqu.Valid() && (sdqu.data == old(sdqu.data) || fresh(sdqu.data))
    ensures ps.Contents() == After(CServer(), old(ps.Contents()), Requests(data))
    ensures sdqu.Contents() == old(sdqu.Contents()) + Output(CServer(), old(ps.Contents()), Requests(data))
  {
    var count, at := |data| / MESSAGE_SIZE, 0;
    ghost var rs, s0, sent := Requests(data), ps.Contents(), [];
    ghost var before := sdqu.Contents();
    AheadStart(CServer(), s0, rs);
    assert before + [] == before;
    RequestCount(data);
    for k := 0 to count
      invariant at == k * MESSAGE_SIZE
      invariant ps.Valid() && (ps.data == old(ps.data) || fresh(ps.data))
      invariant sdqu.Valid() && (sdqu.data == old(sdqu.data) || fresh(sdqu.data))
      invariant sdqu.Contents() == before + sent
      invariant Ahead(CServer(), s0, rs, ps.Contents(), sent, rs[k..])
    {
      RequestAt(data, k);
      ghost var s := ps.Contents();
      ghost var answer := ParseOne(ps, sdqu, Parse(data[at..at + MESSAGE_SIZE]));
      AheadNext(CServer(), s0, rs, s, sent, k, ps.Contents(), answer);
      Assoc(before, sent, answer);
      at, sent := at + MESSAGE_SIZE, sent + answer;
    }
    AheadDone(CServer(), s0, rs, ps.Contents(), sent);
  }

  /** What a read does to a connection: a whole number of messages is answered, anything else waits. */
  ghost predicate Handled<S>(m: Machine<S, Request, byte>, s: S, fifo: seq<byte>, chunk: seq<byte>,
                             s': S, fifo': seq<byte>, sent: seq<byte>) {
    var buf := fifo + chunk;
    if |buf| > 0 && |buf| % MESSAGE_SIZE == 0
    then s' == After(m, s, Requests(buf)) && fifo' == [] && sent == Output(m, s, Requests(buf))
    else s' == s && fifo' == buf && sent == []
  }

  lemma HandledIsRead<S>(m: Machine<S, Request, byte>, s: S, fifo: seq<byte>, chunk: seq<byte>,
                         s': S, fifo': seq<byte>, before: seq<byte>, sent: seq<byte>)
    requires Handled(m, s, fifo, chunk, s', fifo', sent)
    ensures Read(m, Gated(), Served(s, fifo, before), chunk) == Served(s', fifo', before + sent)
  {
    var buf := fifo + chunk;
    if |buf| > 0 && |buf| % MESSAGE_SIZE == 0 {
      assert buf[..|buf|] == buf;
    } else {
      assert Requests(buf[..0]) == [];
    }
  }

  /** One readable event of a client in main: receive, and answer a whole number of messages. The send
      queue, shared by all clients, is empty between events. `delivered` says whether sendall succeeds on
      the answers; the client stays exactly when that did and its receive would block. */
  method HandleInput(asset: PriceStore, recvQu: Queue, sdqu: Queue, pending: seq<byte>, end: End, delivered: bool)
      returns (answers: seq<byte>, stays: bool)
    requires asset.Valid() && recvQu.Valid() && sdqu.Valid() && recvQu != sdqu && recvQu.data != sdqu.data
    requires sdqu.Contents() == []
    modifies asset, asset.data, recvQu, recvQu.data, sdqu, sdqu.data
    ensures asset.Valid() && (asset.data == old(asset.data) || fresh(asset.data))
    ensures recvQu.Valid() && (recvQu.data == old(recvQu.data) || fresh(recvQu.data))
    ensures sdqu.Valid() && (sdqu.data == old(sdqu.data) || fresh(sdqu.data)) && sdqu.Contents() == []
    ensures recvQu.data != sdqu.data
    ensures stays <==> end == WouldBlock && (answers == [] || delivered)
    ensures if end.Failed? then asset.Contents() == old(asset.Contents()) && answers == []
            else Handled(CServer(), old(asset.Contents()), old(recvQu.Contents()), pending,
                         asset.Contents(), recvQu.Contents(), answers)
  {
    answers := [];
    var code := RecvRequest(recvQu, pending, end);
    if code < -1 { return answers, false; }
    var peeked := recvQu.Peek();
    if |peeked| > 0 && |peeked| % MESSAGE_SIZE == 0 {
      var data := recvQu.PopNoCopy();
      MessageParse(asset, sdqu, data);
      answers := sdqu.PopNoCopy();
      if |answers| > 0 && !delivered { return answers, false; }
    }
    stays := code == -1;
  }

  /** A client from accept to close: its answers are those of the map, for any cut of its input. */
  method ServeClient(sdqu: Queue, chunks: seq<seq<byte>>) returns (sent: seq<byte>)
    requires sdqu.Valid() && sdqu.Contents() == []
    modifies sdqu, sdqu.data
    ensures sent == Serve(CServer(), Gated(), Served([], [], []), chunks).sent
    ensures |Concat(chunks)| % MESSAGE_SIZE == 0 ==> sent == Output(MapServer(), map[], Requests(Concat(chunks)))
  {
    var asset := new PriceStore(16);
    var recvQu := new Queue(512);
    sent := [];
    for k := 0 to |chunks|
      invariant fresh(asset) && fresh(asset.data) && fresh(recvQu) && fresh(recvQu.data)
      invariant asset.Valid() && recvQu.Valid() && sdqu.Valid() && recvQu.data != sdqu.data && sdqu.Contents() == []
      invariant sdqu.data == old(sdqu.data) || fresh(sdqu.data)
      invariant Serve(CServer(), Gated(), Served([], [], []), chunks) ==
                Serve(CServer(), Gated(), Served(asset.Contents(), recvQu.Contents(), sent), chunks[k..])
    {
      ServeNext(CServer(), Gated(), Served(asset.Contents(), recvQu.Contents(), sent), chunks, k);
      ghost var prices, fifo := asset.Contents(), recvQu.Contents();
      var more, stays := HandleInput(asset, recvQu, sdqu, chunks[k], WouldBlock, true);
      HandledIsRead(CServer(), prices, fifo, chunks[k], asset.Contents(), recvQu.Contents(), sent, more);
      sent := sent + more;
    }
    ChunksAreOneBatch(CServer(), [], chunks);
    CServerIsMap(Requests(Concat(chunks)));
  }

  // ----- Zig

  /** std.ArrayList and std.fifo, as the sequences they hold. */
  class List<T> {
    var items: seq<T>

    constructor ()
      ensures items == []
    {
      items := [];
    }
  }

  /** One message of messages_parse. */
  method ParseNext(r: Request, response: List<byte>, assets: List<Price>) returns (ghost answer: seq<byte>)
    modifies response, assets
    ensures Does(ZigServer(), old(assets.items), r, assets.items, answer)
    ensures response.items == old(response.items) + answer
  {
    answer := ZigServer().out(assets.items, r);
    match r {
      case Insert(p) => assets.items := assets.items + [p];
      case Query(_, _) =>
        var mean := Mean(assets.items, r);
        response.items := response.items + ToWord(mean);
      case Unknown =>
    }
  }

  method Mean(items: seq<Price>, q: Request) returns (mean: int)
    requires q.Query?
    ensures mean == ZigMean(items, q)
  {
    var sum, count := 0, 0;
    for k := 0 to |items|
      invariant sum == Total(items[..k], q) && count == Count(items[..k], q)
    {
      assert items[..k + 1][..k] == items[..k];
      if q.mintime <= items[k].timestamp <= q.maxtime {
        sum, count := sum + items[k].price, count + 1;
      }
    }
    assert items[..|items|] == items;
    mean := if count == 0 then 0 else sum / count;
  }

  /** messages_parse. */
  method MessagesParse(messages: seq<byte>, response: List<byte>, assets: List<Price>)
    modifies response, assets
    ensures assets.items == After(ZigServer(), old(assets.items), Requests(messages))
    ensures response.items == old(response.items) + Output(ZigServer(), old(assets.items), Requests(messages))
  {
    var count := |messages| / MESSAGE_SIZE;
    ghost var rs, s0, sent := Requests(messages), assets.items, [];
    ghost var before := response.items;
    AheadStart(ZigServer(), s0, rs);
    assert before + [] == before;
    RequestCount(messages);
    for i := 0 to count
      invariant response.items == before + sent
      invariant Ahead(ZigServer(), s0, rs, assets.items, sent, rs[i..])
    {
      RequestAt(messages, i);
      var start := i * MESSAGE_SIZE;
      ghost var s := assets.items;
      ghost var answer := ParseNext(Parse(messages[start..start + MESSAGE_SIZE]), response, assets);
      AheadNext(ZigServer(), s0, rs, s, sent, i, assets.items, answer);
      Assoc(before, sent, answer);
      sent := sent + answer;
    }
    AheadDone(ZigServer(), s0, rs, assets.items, sent);
  }

  /** One round of handle_connection: a read that brought at least one byte. */
  method HandleRead(assets: List<Price>, recv: List<byte>, response: List<byte>, chunk: seq<byte>)
      returns (sent: seq<byte>)
    requires |chunk| > 0 && recv != response && response.items == []
    modifies assets, recv, response
    ensures response.items == []
    ensures Handled(ZigServer(), old(assets.items), old(recv.items), chunk, assets.items, recv.items, sent)
  {
    sent := [];
    recv.items := recv.items + chunk;
    if |recv.items| % MESSAGE_SIZE != 0 { return; }
    MessagesParse(recv.items, response, assets);
    sent := response.items;
    response.items := [];
    recv.items := [];
  }

  /** handle_connection. */
  method HandleConnection(chunks: seq<seq<byte>>) returns (sent: seq<byte>)
    requires forall k :: 0 <= k < |chunks| ==> |chunks[k]| > 0
    ensures sent == Serve(ZigServer(), Gated(), Served([], [], []), chunks).sent
    ensures |Concat(chunks)| % MESSAGE_SIZE == 0 ==> sent == Output(ZigServer(), [], Requests(Concat(chunks)))
  {
    var assets := new List<Price>();
    var recv := new List<byte>();
    var response := new List<byte>();
    sent := [];
    for k := 0 to |chunks|
      invariant fresh(assets) && fresh(recv) && fresh(response) && recv != response && response.items == []
      invariant Serve(ZigServer(), Gated(), Served([], [], []), chunks) ==
                Serve(ZigServer(), Gated(), Served(assets.items, recv.items, sent), chunks[k..])
    {
      ServeNext(ZigServer(), Gated(), Served(assets.items, recv.items, sent), chunks, k);
      ghost var prices, fifo := assets.items, recv.items;
      var more := HandleRead(assets, recv, response, chunks[k]);
      HandledIsRead(ZigServer(), prices, fifo, chunks[k], assets.items, recv.items, sent, more);
      sent := sent + more;
    }
    ChunksAreOneBatch(ZigServer(), [], chunks);
  }
}

/** The wire codec of the speed daemon (messages.zig): decoding a growing buffer of client
    messages, and encoding tickets. */
module Wire {
  import opened Messages
  import opened Framing
  import opened Slices

  const PLATE: byte := 0x20
  const TICKET: byte := 0x21
  const WANT_HEARTBEAT: byte := 0x40
  const HEARTBEAT: byte := 0x41
  const I_AM_CAMERA: byte := 0x80
  const I_AM_DISPATCHER: byte := 0x81
  const ERROR: byte := 0x10

  // ----- Big-endian integers

  function Be16(n: u16): seq<byte> {
    [n / 0x100, n % 0x100]
  }

  function Be32(n: u32): seq<byte> {
    [n / 0x100_0000, n / 0x1_0000 % 0x100, n / 0x100 % 0x100, n % 0x100]
  }

  function Read16(s: seq<byte>, at: nat): u16
    requires at + 2 <= |s|
  {
    var a: int, b: int := s[at], s[at + 1];
    a * 0x100 + b
  }

  function Read32(s: seq<byte>, at: nat): u32
    requires at + 4 <= |s|
  {
    var a: int, b: int, c: int, d: int := s[at], s[at + 1], s[at + 2], s[at + 3];
    a * 0x100_0000 + b * 0x1_0000 + c * 0x100 + d
  }

  lemma Read16Be16(s: seq<byte>, at: nat, n: u16)
    requires at + 2 <= |s| && s[at..at + 2] == Be16(n)
    ensures Read16(s, at) == n
  {
    assert s[at] == s[at..at + 2][0] && s[at + 1] == s[at..at + 2][1];
  }

  lemma Bytes32(n: u32)
    ensures n == n / 0x100_0000 * 0x100_0000 + n / 0x1_0000 % 0x100 * 0x1_0000 + n / 0x100 % 0x100 * 0x100 + n % 0x100
  {
    var a := n / 0x100;
    var b := a / 0x100;
    assert b == n / 0x1_0000;
    assert b / 0x100 == n / 0x100_0000;
  }

  lemma Read32Be32(s: seq<byte>, at: nat, n: u32)
    requires at + 4 <= |s| && s[at..at + 4] == Be32(n)
    ensures Read32(s, at) == n
  {
    var b := s[at..at + 4];
    assert s[at] == b[0] && s[at + 1] == b[1] && s[at + 2] == b[2] && s[at + 3] == b[3];
    Bytes32(n);
  }

  // ----- decode

  datatype DecodeError = UnexpectedMessage | InvalidMessageType | EmptyPlate | TooManyMessages

  /** One turn of the loop at `start`: stop for want of bytes, take a message, fail, or trap on a
      checked overflow or an index out of bounds. */
  datatype Turn = Stop | Take(m: Message, len: nat) | Fail(error: DecodeError) | Trap

  predicate Fits16(n: int) {
    0 <= n < 0x1_0000
  }

  function DecodePlate(buf: seq<byte>, start: nat): Turn
    requires start < |buf|
  {
    if |buf| - start < 7 then Stop
    else if !Fits16(start + 1) then Trap
    else
      var plateLen := buf[start + 1];
      var plateStart := start + 2;
      var plateEnd := plateStart + plateLen;
      if plateLen == 0 then Fail(EmptyPlate)
      else if !Fits16(plateEnd) then Trap
      else if |buf| < plateEnd then Stop
      else if !Fits16(plateEnd + 4) then Trap
      else if |buf| < plateEnd + 4 then Stop
      else Take(PlateM(buf[plateStart..plateEnd], Read32(buf, plateEnd)), plateEnd + 4 - start)
  }

  function DecodeWantHeartbeat(buf: seq<byte>, start: nat): Turn
    requires start < |buf|
  {
    if |buf| - start < 3 then Stop
    else if !Fits16(start + 5) then Trap
    else if |buf| < start + 5 then Stop
    else Take(WantHeartbeat(Read32(buf, start + 1)), 5)
  }

  function DecodeCamera(buf: seq<byte>, start: nat): Turn
    requires start < |buf|
  {
    if |buf| - start < 7 then Stop
    else if !Fits16(start + 7) then Trap
    else Take(IAmCamera(Read16(buf, start + 1), Read16(buf, start + 3), Read16(buf, start + 5)), 7)
  }

  function ReadRoads(buf: seq<byte>, at: nat, n: nat): (r: seq<u16>)
    requires at + 2 * n <= |buf|
    ensures |r| == n
  {
    if n == 0 then [] else ReadRoads(buf, at, n - 1) + [Read16(buf, at + 2 * (n - 1))]
  }

  /** The length test and the message length are not relative to `start`, and the products are
      8 bits wide. */
  function DecodeDispatcher(buf: seq<byte>, start: nat): Turn
    requires start < |buf|
  {
    if |buf| - start < 4 then Stop
    else
      var n := buf[start + 1];
      if 2 * n + 1 > 0xFF then Trap
      else if |buf| < 2 * n + 1 then Stop
      else if |buf| < start + 2 + 2 * n || !Fits16(start + 2 + 2 * n) then Trap
      else if 2 * n + 2 > 0xFF || 2 * n + 2 < start then Trap
      else Take(IAmDispatcher(ReadRoads(buf, start + 2, n)), 2 * n + 2 - start)
  }

  function DecodeOne(buf: seq<byte>, start: nat): (t: Turn)
    requires start < |buf|
    ensures t.Take? ==> start + t.len <= |buf|
  {
    var ty := buf[start];
    if ty == ERROR || ty == HEARTBEAT || ty == TICKET then Fail(UnexpectedMessage)
    else if ty == PLATE then DecodePlate(buf, start)
    else if ty == WANT_HEARTBEAT then DecodeWantHeartbeat(buf, start)
    else if ty == I_AM_CAMERA then DecodeCamera(buf, start)
    else if ty == I_AM_DISPATCHER then DecodeDispatcher(buf, start)
    else Fail(InvalidMessageType)
  }

  const CAPACITY := 64

  datatype Decoding = Decoded(len: nat, msgs: seq<Message>) | Failed(error: DecodeError) | Trapped

  /** The loop from `start` on; it ends because every turn that takes a message fills a slot. */
  function DecodeFrom(buf: seq<byte>, start: nat, msgs: seq<Message>): Decoding
    requires start <= |buf| && |msgs| <= CAPACITY
    decreases CAPACITY - |msgs|
  {
    if start == |buf| then Decoded(start, msgs)
    else
      match DecodeOne(buf, start)
      case Stop => Decoded(start, msgs)
      case Fail(e) => Failed(e)
      case Trap => Trapped
      case Take(m, len) =>
        if |msgs| == CAPACITY then Failed(TooManyMessages) else DecodeFrom(buf, start + len, msgs + [m])
  }

  function DecodeAll(buf: seq<byte>): Decoding {
    if |buf| < 2 then Decoded(0, []) else DecodeFrom(buf, 0, [])
  }

  method Decode(buf: seq<byte>) returns (r: Decoding)
    ensures r == DecodeAll(buf)
  {
    if |buf| < 2 { return Decoded(0, []); }
    var start, len, msgs := 0, 0, [];
    while start < |buf|
      invariant start == len <= |buf| && |msgs| <= CAPACITY
      invariant DecodeFrom(buf, start, msgs) == DecodeFrom(buf, 0, [])
      decreases CAPACITY - |msgs|
    {
      var turn := DecodeOne(buf, start);
      match turn {
        case Stop => return Decoded(len, msgs);
        case Fail(e) => return Failed(e);
        case Trap => return Trapped;
        case Take(m, msgLen) =>
          len := len + msgLen;
          if |msgs| == CAPACITY { return Failed(TooManyMessages); }
          msgs := msgs + [m];
          start := start + msgLen;
      }
    }
    r := Decoded(len, msgs);
  }

  // ----- What a camera client sends

  predicate CameraMessage(m: Message) {
    (m.PlateM? && 1 <= |m.plate| <= 0xFF) || m.WantHeartbeat? || m.IAmCamera?
  }

  /** The longest of them; with 64 slots, decode never gets further than 64 of these. */
  const MAX_FRAME := 261

  function Frame(m: Message): (s: seq<byte>)
    requires CameraMessage(m)
    ensures 5 <= |s| <= MAX_FRAME
  {
    match m
    case PlateM(plate, timestamp) => [PLATE, |plate|] + plate + Be32(timestamp)
    case WantHeartbeat(interval) => [WANT_HEARTBEAT] + Be32(interval)
    case IAmCamera(road, mile, limit) => [I_AM_CAMERA] + Be16(road) + Be16(mile) + Be16(limit)
  }

  /** The frames of a camera client. */
  const CAMERA: Code<Message, byte> :=
    Code((m: Message) => if CameraMessage(m) then Frame(m) else [], (m: Message) => CameraMessage(m))

  lemma PlateTurn(buf: seq<byte>, start: nat, plate: Plate, timestamp: u32)
    requires start + 6 + |plate| <= |buf| && 1 <= |plate| <= 0xFF && Fits16(start + 6 + |plate|)
    requires buf[start] == PLATE && buf[start + 1] == |plate| && buf[start + 2..start + 2 + |plate|] == plate
    requires Read32(buf, start + 2 + |plate|) == timestamp
    ensures DecodeOne(buf, start) == Take(PlateM(plate, timestamp), 6 + |plate|)
  {
  }

  lemma TakesPlate(buf: seq<byte>, start: nat, m: Message)
    requires CameraMessage(m) && m.PlateM?
    requires start + |Frame(m)| <= |buf| && buf[start..start + |Frame(m)|] == Frame(m) && Fits16(start + |Frame(m)|)
    ensures DecodeOne(buf, start) == Take(m, |Frame(m)|)
  {
    var f, n := Frame(m), |m.plate|;
    SubSlice(buf, start, f, 0, 2);
    assert buf[start..start + 2][0] == PLATE && buf[start..start + 2][1] == n;
    SubSlice(buf, start, f, 2, 2 + n);
    assert f[2..2 + n] == m.plate;
    SubSlice(buf, start, f, 2 + n, 6 + n);
    assert f[2 + n..6 + n] == Be32(m.timestamp);
    Read32Be32(buf, start + 2 + n, m.timestamp);
    PlateTurn(buf, start, m.plate, m.timestamp);
  }

  lemma TakesHeartbeat(buf: seq<byte>, start: nat, m: Message)
    requires m.WantHeartbeat?
    requires start + |Frame(m)| <= |buf| && buf[start..start + |Frame(m)|] == Frame(m) && Fits16(start + |Frame(m)|)
    ensures DecodeOne(buf, start) == Take(m, |Frame(m)|)
  {
    var f := Frame(m);
    SubSlice(buf, start, f, 0, 1);
    assert buf[start..start + 1][0] == WANT_HEARTBEAT;
    SubSlice(buf, start, f, 1, 5);
    assert f[1..5] == Be32(m.interval);
    Read32Be32(buf, start + 1, m.interval);
  }

  lemma TakesCamera(buf: seq<byte>, start: nat, m: Message)
    requires m.IAmCamera?
    requires start + |Frame(m)| <= |buf| && buf[start..start + |Frame(m)|] == Frame(m) && Fits16(start + |Frame(m)|)
    ensures DecodeOne(buf, start) == Take(m, |Frame(m)|)
  {
    var f := Frame(m);
    SubSlice(buf, start, f, 0, 1);
    assert buf[start..start + 1][0] == I_AM_CAMERA;
    SubSlice(buf, start, f, 1, 3);
    SubSlice(buf, start, f, 3, 5);
    SubSlice(buf, start, f, 5, 7);
    assert f[1..3] == Be16(m.road) && f[3..5] == Be16(m.mile) && f[5..7] == Be16(m.limit);
    Read16Be16(buf, start + 1, m.road);
    Read16Be16(buf, start + 3, m.mile);
    Read16Be16(buf, start + 5, m.limit);
  }

  lemma TakesFrame(buf: seq<byte>, start: nat, m: Message)
    requires CameraMessage(m)
    requires start + |Frame(m)| <= |buf| && buf[start..start + |Frame(m)|] == Frame(m) && Fits16(start + |Frame(m)|)
    ensures DecodeOne(buf, start) == Take(m, |Frame(m)|)
  {
    match m
    case PlateM(_, _) => TakesPlate(buf, start, m);
    case WantHeartbeat(_) => TakesHeartbeat(buf, start, m);
    case IAmCamera(_, _, _) => TakesCamera(buf, start, m);
  }

  lemma StopsInPlate(buf: seq<byte>, start: nat, n: nat)
    requires start < |buf| && buf[start] == PLATE && 1 <= n <= 0xFF && |buf| - start < 6 + n
    requires (|buf| - start > 1 ==> buf[start + 1] == n) && Fits16(start + MAX_FRAME)
    ensures DecodeOne(buf, start) == Stop
  {
  }

  lemma StopsInOther(buf: seq<byte>, start: nat)
    requires start < |buf| && Fits16(start + MAX_FRAME)
    requires || (buf[start] == WANT_HEARTBEAT && |buf| - start < 5)
             || (buf[start] == I_AM_CAMERA && |buf| - start < 7)
    ensures DecodeOne(buf, start) == Stop
  {
  }

  lemma FrameHead(m: Message)
    requires CameraMessage(m)
    ensures m.PlateM? ==> Frame(m)[0] == PLATE && Frame(m)[1] == |m.plate| && |Frame(m)| == 6 + |m.plate|
    ensures m.WantHeartbeat? ==> Frame(m)[0] == WANT_HEARTBEAT && |Frame(m)| == 5
    ensures m.IAmCamera? ==> Frame(m)[0] == I_AM_CAMERA && |Frame(m)| == 7
  {
  }

  lemma StopsInside(buf: seq<byte>, start: nat)
    requires start < |buf| && Incomplete(CAMERA, buf[start..]) && Fits16(start + MAX_FRAME)
    ensures DecodeOne(buf, start) == Stop
  {
    var tail := buf[start..];
    var m :| CAMERA.ok(m) && tail < CAMERA.frame(m);
    var f := Frame(m);
    assert buf[start] == tail[0] == f[0];
    assert |tail| > 1 ==> buf[start + 1] == tail[1] == f[1];
    FrameHead(m);
    if m.PlateM? {
      StopsInPlate(buf, start, |m.plate|);
    } else {
      StopsInOther(buf, start);
    }
  }

  lemma TurnTakes(buf: seq<byte>, start: nat, msgs: seq<Message>, m: Message, len: nat)
    requires start < |buf| && |msgs| < CAPACITY && DecodeOne(buf, start) == Take(m, len)
    ensures start + len <= |buf| && DecodeFrom(buf, start, msgs) == DecodeFrom(buf, start + len, msgs + [m])
  {
  }

  lemma TakesFirst(buf: seq<byte>, start: nat, past: seq<Message>, ms: seq<Message>, tail: seq<byte>)
      returns (next: nat)
    requires start <= |buf| && StreamOf(CAMERA, buf[start..], ms, tail) && ms != []
    requires |past| < CAPACITY && start <= MAX_FRAME * |past|
    ensures start < next <= |buf| && next <= MAX_FRAME * (|past| + 1) && StreamOf(CAMERA, buf[next..], ms[1..], tail)
    ensures DecodeFrom(buf, start, past) == DecodeFrom(buf, next, past + [ms[0]])
  {
    var m, rest := ms[0], Frames(CAMERA, ms[1..]) + tail;
    StreamRest(CAMERA, buf[start..], ms, tail);
    SplitFront(buf, start, Frame(m), rest);
    TakesFrame(buf, start, m);
    TurnTakes(buf, start, past, m, |Frame(m)|);
    next := start + |Frame(m)|;
  }

  lemma DecodesTail(buf: seq<byte>, start: nat, past: seq<Message>)
    requires start <= |buf| && Incomplete(CAMERA, buf[start..]) && |past| <= CAPACITY && start <= MAX_FRAME * |past|
    ensures DecodeFrom(buf, start, past) == Decoded(start, past)
  {
    if start < |buf| {
      StopsInside(buf, start);
    }
  }

  lemma NoSlotLeft(buf: seq<byte>, start: nat, past: seq<Message>, ms: seq<Message>, tail: seq<byte>)
    requires start <= |buf| && StreamOf(CAMERA, buf[start..], ms, tail) && ms != []
    requires |past| == CAPACITY && start <= MAX_FRAME * |past|
    ensures DecodeFrom(buf, start, past) == Failed(TooManyMessages)
  {
    StreamRest(CAMERA, buf[start..], ms, tail);
    SplitFront(buf, start, Frame(ms[0]), Frames(CAMERA, ms[1..]) + tail);
    TakesFrame(buf, start, ms[0]);
  }

  /** decode takes exactly the whole messages at the front of the buffer, or fails when they are more
      than it has slots for. */
  lemma {:induction false} DecodesRest(buf: seq<byte>, start: nat, past: seq<Message>, ms: seq<Message>,
                                       tail: seq<byte>)
    requires start <= |buf| && StreamOf(CAMERA, buf[start..], ms, tail)
    requires |past| <= CAPACITY && start <= MAX_FRAME * |past|
    ensures DecodeFrom(buf, start, past) ==
            if |past| + |ms| <= CAPACITY then Decoded(|buf| - |tail|, past + ms) else Failed(TooManyMessages)
    decreases |ms|
  {
    if ms == [] {
      DecodesTail(buf, start, past);
      assert past + ms == past;
    } else if |past| == CAPACITY {
      NoSlotLeft(buf, start, past, ms, tail);
    } else {
      var next := TakesFirst(buf, start, past, ms, tail);
      DecodesRest(buf, next, past + [ms[0]], ms[1..], tail);
      ConsAppend(past, ms);
    }
  }

  predicate FitsSlots(buf: seq<byte>, ms: seq<Message>) {
    |ms| <= 64
  }

  lemma {:induction false} FramesLength(ms: seq<Message>)
    requires AllOk(CAMERA, ms)
    ensures |Frames(CAMERA, ms)| >= 5 * |ms|
  {
    if ms != [] {
      assert CAMERA.ok(ms[0]);
      FramesLength(ms[1..]);
    }
  }

  lemma DecodesWholeMessages(buf: seq<byte>, ms: seq<Message>, tail: seq<byte>)
    requires StreamOf(CAMERA, buf, ms, tail)
    ensures DecodeAll(buf) == if FitsSlots(buf, ms) then Decoded(|buf| - |tail|, ms) else Failed(TooManyMessages)
  {
    if |buf| >= 2 {
      assert buf[0..] == buf;
      DecodesRest(buf, 0, [], ms, tail);
      assert [] + ms == ms;
    } else {
      FramesLength(ms);
    }
  }

  /** No camera frame begins another. */
  lemma CameraSelfDelimiting()
    ensures SelfDelimiting(CAMERA)
  {
    forall m, n | CAMERA.ok(m) && CAMERA.ok(n) && CAMERA.frame(m) <= CAMERA.frame(n)
      ensures m == n
    {
      TakesFrame(Frame(n), 0, m);
      TakesFrame(Frame(n), 0, n);
    }
  }

  function TakeAll(buf: seq<byte>): Taken<Message> {
    var r := DecodeAll(buf);
    if r.Decoded? then Some(r.len, r.msgs) else None
  }

  /** The reads of a camera client, however its stream is cut, handle the same messages in the same
      order if no buffer holds more messages than decode has slots for, and else fail. */
  lemma CameraChunks(chunks: seq<seq<byte>>, ms: seq<Message>, tail: seq<byte>)
    requires StreamOf(CAMERA, Concat(chunks), ms, tail)
    ensures Feed(TakeAll, [], [], chunks) == if Roomy(CAMERA, FitsSlots, [], chunks) then Fed(ms, tail) else GaveUp
  {
    CameraSelfDelimiting();
    forall buf, ms, tail | StreamOf(CAMERA, buf, ms, tail)
      ensures TakeAll(buf) == if FitsSlots(buf, ms) then Some(|buf| - |tail|, ms) else None
    {
      DecodesWholeMessages(buf, ms, tail);
    }
    assert [] + Concat(chunks) == Concat(chunks) && [] + ms == ms;
    ChunksDoNotMatter(TakeAll, CAMERA, FitsSlots, [], [], chunks, ms, tail);
  }

  // ----- IAmDispatcher, whose lengths are not relative to the offset

  function RoadBytes(roads: seq<u16>): (s: seq<byte>)
    ensures |s| == 2 * |roads|
  {
    if roads == [] then [] else RoadBytes(roads[..|roads| - 1]) + Be16(roads[|roads| - 1])
  }

  function DispatcherFrame(roads: seq<u16>): seq<byte>
    requires |roads| <= 0xFF
  {
    [I_AM_DISPATCHER, |roads|] + RoadBytes(roads)
  }

  lemma {:induction false} ReadsRoads(buf: seq<byte>, at: nat, roads: seq<u16>)
    requires at + 2 * |roads| <= |buf| && buf[at..at + 2 * |roads|] == RoadBytes(roads)
    ensures ReadRoads(buf, at, |roads|) == roads
  {
    if roads != [] {
      var n, init := |roads| - 1, roads[..|roads| - 1];
      var a, b := RoadBytes(init), Be16(roads[n]);
      assert |a| == 2 * n && |b| == 2 && RoadBytes(roads) == a + b;
      CutSlice(buf, at, a, b);
      ReadsRoads(buf, at, init);
      Read16Be16(buf, at + 2 * n, roads[n]);
      SnocOf(roads);
    }
  }

  lemma DispatcherHeader(buf: seq<byte>, start: nat, roads: seq<u16>)
    requires |roads| <= 0xFF && start + 2 + 2 * |roads| <= |buf|
    requires buf[start..start + 2 + 2 * |roads|] == DispatcherFrame(roads)
    ensures buf[start] == I_AM_DISPATCHER && buf[start + 1] == |roads|
    ensures ReadRoads(buf, start + 2, |roads|) == roads
  {
    var f := DispatcherFrame(roads);
    SubSlice(buf, start, f, 0, 2);
    assert buf[start..start + 2][0] == f[0] && buf[start..start + 2][1] == f[1];
    SubSlice(buf, start, f, 2, 2 + 2 * |roads|);
    assert f[2..2 + 2 * |roads|] == RoadBytes(roads);
    ReadsRoads(buf, start + 2, roads);
  }

  /** A whole IAmDispatcher frame is read as it was sent exactly when it is at the head of the
      buffer, lists at most 126 roads and the buffer holds four bytes. */
  lemma DispatcherDecodedIff(buf: seq<byte>, start: nat, roads: seq<u16>)
    requires |roads| <= 0xFF && start + 2 + 2 * |roads| <= |buf|
    requires buf[start..start + 2 + 2 * |roads|] == DispatcherFrame(roads)
    ensures DecodeOne(buf, start) == Take(IAmDispatcher(roads), 2 + 2 * |roads|)
            <==> start == 0 && |roads| <= 126 && |buf| >= 4
  {
    DispatcherHeader(buf, start, roads);
  }

  /** What becomes of a frame that has not arrived in full, at any offset: once four bytes are there, it
      is waited for only while the whole buffer is shorter than the frame less a byte; then decode
      reads past the buffer. More than 127 roads overflow 8 bits at once. */
  lemma DispatcherTruncated(buf: seq<byte>, start: nat, roads: seq<u16>)
    requires |roads| <= 0xFF && start < |buf| && buf[start..] < DispatcherFrame(roads)
    ensures DecodeOne(buf, start) ==
            if |buf| - start < 4 then Stop
            else if |roads| <= 127 && |buf| < 2 * |roads| + 1 then Stop
            else Trap
  {
    var f, t := DispatcherFrame(roads), buf[start..];
    assert |f| == 2 + 2 * |roads| && |t| == |buf| - start < |f|;
    assert buf[start] == t[0] == f[0];
    if |t| > 1 {
      assert buf[start + 1] == t[1] == f[1];
    }
  }

  /** At an offset equal to its own length the frame is read as zero bytes long, again and again,
      until the slots run out. */
  lemma {:induction false} DispatcherRepeats(buf: seq<byte>, start: nat, roads: seq<u16>, msgs: seq<Message>)
    requires 1 <= |roads| <= 126 && start == 2 + 2 * |roads| && 2 * start <= |buf| && |msgs| <= CAPACITY
    requires buf[start..start + 2 + 2 * |roads|] == DispatcherFrame(roads)
    ensures DecodeFrom(buf, start, msgs) == Failed(TooManyMessages)
    decreases CAPACITY - |msgs|
  {
    DispatcherHeader(buf, start, roads);
    if |msgs| < CAPACITY {
      TurnTakes(buf, start, msgs, IAmDispatcher(roads), 0);
      DispatcherRepeats(buf, start, roads, msgs + [IAmDispatcher(roads)]);
    }
  }

  // ----- Byte by byte

  /** Two and four bytes, the first one the highest. */
  function Value16(a: byte, b: byte): int {
    a as int * 256 + b as int
  }

  function Value32(a: byte, b: byte, c: byte, d: byte): int {
    a as int * 16777216 + b as int * 65536 + c as int * 256 + d as int
  }

  lemma OneTurn(buf: seq<byte>, m: Message)
    requires |buf| >= 2 && DecodeOne(buf, 0) == Take(m, |buf|)
    ensures DecodeAll(buf) == Decoded(|buf|, [m])
  {
    TurnTakes(buf, 0, [], m, |buf|);
  }

  /** A plate of `n` bytes and a timestamp behind the byte 0x20. */
  lemma PlateBytes(plate: Plate, a: byte, b: byte, c: byte, d: byte)
    requires 1 <= |plate| <= 0xFF
    ensures DecodeAll([0x20, |plate|] + plate + [a, b, c, d]) ==
            Decoded(6 + |plate|, [PlateM(plate, Value32(a, b, c, d))])
  {
    var buf := [0x20, |plate|] + plate + [a, b, c, d];
    assert |buf| == 6 + |plate| && buf[2..2 + |plate|] == plate && buf[2 + |plate|] == a;
    assert buf[3 + |plate|] == b && buf[4 + |plate|] == c && buf[5 + |plate|] == d;
    PlateTurn(buf, 0, plate, Value32(a, b, c, d));
    OneTurn(buf, PlateM(plate, Value32(a, b, c, d)));
  }

  lemma HeartbeatBytes(a: byte, b: byte, c: byte, d: byte)
    ensures DecodeAll([0x40, a, b, c, d]) == Decoded(5, [WantHeartbeat(Value32(a, b, c, d))])
  {
    OneTurn([0x40, a, b, c, d], WantHeartbeat(Value32(a, b, c, d)));
  }

  lemma CameraBytes(a: byte, b: byte, c: byte, d: byte, e: byte, f: byte)
    ensures DecodeAll([0x80, a, b, c, d, e, f]) ==
            Decoded(7, [IAmCamera(Value16(a, b), Value16(c, d), Value16(e, f))])
  {
    OneTurn([0x80, a, b, c, d, e, f], IAmCamera(Value16(a, b), Value16(c, d), Value16(e, f)));
  }

  lemma {:induction false} RoadsAt(buf: seq<byte>, roads: seq<u16>)
    requires 2 + 2 * |roads| <= |buf|
    requires forall i :: 0 <= i < |roads| ==> roads[i] == Value16(buf[2 + 2 * i], buf[3 + 2 * i])
    ensures ReadRoads(buf, 2, |roads|) == roads
  {
    if roads != [] {
      var n, front := |roads| - 1, roads[..|roads| - 1];
      RoadsAt(buf, front);
      assert roads[n] == Read16(buf, 2 + 2 * n);
      SnocOf(roads);
    }
  }

  /** The number of roads and two bytes for each behind the byte 0x81. */
  lemma DispatcherBytes(buf: seq<byte>, roads: seq<u16>)
    requires 1 <= |roads| <= 126 && |buf| == 2 + 2 * |roads| && buf[0] == 0x81 && buf[1] == |roads|
    requires forall i :: 0 <= i < |roads| ==> roads[i] == Value16(buf[2 + 2 * i], buf[3 + 2 * i])
    ensures DecodeAll(buf) == Decoded(|buf|, [IAmDispatcher(roads)])
  {
    RoadsAt(buf, roads);
    OneTurn(buf, IAmDispatcher(roads));
  }

  /** Every other first byte is an error: 0x10, 0x21 and 0x41 are messages a server sends itself. So is a
      plate of no bytes. */
  lemma RefusedBytes(buf: seq<byte>)
    requires |buf| >= 2
    ensures buf[0] in {0x10, 0x21, 0x41} <==> DecodeOne(buf, 0) == Fail(UnexpectedMessage)
    ensures buf[0] !in {0x10, 0x20, 0x21, 0x40, 0x41, 0x80, 0x81} <==> DecodeOne(buf, 0) == Fail(InvalidMessageType)
    ensures buf[0] == 0x20 && |buf| >= 7 && buf[1] == 0 <==> DecodeOne(buf, 0) == Fail(EmptyPlate)
    ensures DecodeOne(buf, 0).Fail? ==> DecodeAll(buf) == Failed(DecodeOne(buf, 0).error)
  {
  }

  lemma FailsAt(buf: seq<byte>, start: nat, past: seq<Message>, rest: seq<byte>)
    requires start < |buf| && buf[start..] == rest && |past| <= CAPACITY
    requires rest[0] !in {0x20, 0x40, 0x80, 0x81}
    ensures DecodeFrom(buf, start, past) ==
            Failed(if rest[0] in {0x10, 0x21, 0x41} then UnexpectedMessage else InvalidMessageType)
  {
    assert buf[start] == rest[0];
  }

  /** A first byte that no client message has fails the whole read, also behind whole messages. */
  lemma {:induction false} ErrorBehind(buf: seq<byte>, start: nat, past: seq<Message>, ms: seq<Message>,
                                       rest: seq<byte>)
    requires start <= |buf| && buf[start..] == Frames(CAMERA, ms) + rest && AllOk(CAMERA, ms)
    requires |past| + |ms| <= 64 && start <= MAX_FRAME * |past|
    requires |rest| > 0 && rest[0] !in {0x20, 0x40, 0x80, 0x81}
    ensures DecodeFrom(buf, start, past) ==
            Failed(if rest[0] in {0x10, 0x21, 0x41} then UnexpectedMessage else InvalidMessageType)
    decreases |ms|
  {
    if ms == [] {
      assert [] + rest == rest;
      FailsAt(buf, start, past, rest);
    } else {
      var m, later := ms[0], ms[1..];
      assert ms == [m] + later;
      FramesCons(CAMERA, m, later);
      Assoc(Frame(m), Frames(CAMERA, later), rest);
      SplitFront(buf, start, Frame(m), Frames(CAMERA, later) + rest);
      TakesFrame(buf, start, m);
      TurnTakes(buf, start, past, m, |Frame(m)|);
      ErrorBehind(buf, start + |Frame(m)|, past + [m], later, rest);
    }
  }

  // ----- Tickets to dispatchers

  /** A ticket with a speed of 16 bits and a plate whose length fits its byte. */
  predicate Sendable(t: Ticket) {
    |t.plate| <= 0xFF && Fits16(t.speed)
  }

  function TicketFields(t: Ticket): (s: seq<byte>)
    requires Sendable(t)
    ensures |s| == 16
  {
    Be16(t.road) + Be16(t.mile1) + Be32(t.timestamp1) + Be16(t.mile2) + Be32(t.timestamp2) + Be16(t.speed)
  }

  function TicketFrame(t: Ticket): (s: seq<byte>)
    requires Sendable(t)
    ensures |s| == 18 + |t.plate|
  {
    [TICKET, |t.plate|] + t.plate + TicketFields(t)
  }

  lemma FieldSlices(t: Ticket)
    requires Sendable(t)
    ensures var f := TicketFields(t);
            && f[0..2] == Be16(t.road) && f[2..4] == Be16(t.mile1) && f[4..8] == Be32(t.timestamp1)
            && f[8..10] == Be16(t.mile2) && f[10..14] == Be32(t.timestamp2) && f[14..16] == Be16(t.speed)
  {
  }

  lemma ReadsFields(s: seq<byte>, n: nat, t: Ticket)
    requires Sendable(t) && n + 16 <= |s| && s[n..n + 16] == TicketFields(t)
    ensures Read16(s, n) == t.road && Read16(s, n + 2) == t.mile1 && Read32(s, n + 4) == t.timestamp1
    ensures Read16(s, n + 8) == t.mile2 && Read32(s, n + 10) == t.timestamp2 && Read16(s, n + 14) == t.speed
  {
    var f := TicketFields(t);
    SubSlice(s, n, f, 0, 2);
    SubSlice(s, n, f, 2, 4);
    SubSlice(s, n, f, 4, 8);
    SubSlice(s, n, f, 8, 10);
    SubSlice(s, n, f, 10, 14);
    SubSlice(s, n, f, 14, 16);
    FieldSlices(t);
    Read16Be16(s, n, t.road);
    Read16Be16(s, n + 2, t.mile1);
    Read32Be32(s, n + 4, t.timestamp1);
    Read16Be16(s, n + 8, t.mile2);
    Read32Be32(s, n + 10, t.timestamp2);
    Read16Be16(s, n + 14, t.speed);
  }

  /** The frame, byte by byte: 0x21, the plate and its length, road, first mile and time, second mile and
      time, speed. */
  lemma TicketBytes(t: Ticket)
    requires Sendable(t)
    ensures var f, n := TicketFrame(t), 2 + |t.plate|;
            && |f| == n + 16 && f[0] == 0x21 && f[1] == |t.plate| && f[2..n] == t.plate
            && Value16(f[n], f[n + 1]) == t.road && Value16(f[n + 2], f[n + 3]) == t.mile1
            && Value32(f[n + 4], f[n + 5], f[n + 6], f[n + 7]) == t.timestamp1
            && Value16(f[n + 8], f[n + 9]) == t.mile2
            && Value32(f[n + 10], f[n + 11], f[n + 12], f[n + 13]) == t.timestamp2
            && Value16(f[n + 14], f[n + 15]) == t.speed
  {
    var f, n, g := TicketFrame(t), 2 + |t.plate|, TicketFields(t);
    assert f[2..n] == t.plate && f[n..n + 16] == g;
    ReadsFields(f, n, t);
  }

  const TICKETS: Code<Ticket, byte> :=
    Code((t: Ticket) => if Sendable(t) then TicketFrame(t) else [], (t: Ticket) => Sendable(t))

  datatype SendError = NotEnoughBytes | Overflow

  datatype Sent = Written(len: nat) | NotSent(error: SendError)

  const BUFFER_SIZE := 1024

  /** The bounded buffer a thread writes replies into. */
  class Buffer {
    var data: seq<byte>

    ghost predicate Valid()
      reads this
    {
      |data| <= BUFFER_SIZE
    }

    constructor ()
      ensures Valid() && data == []
    {
      data := [];
    }

    method Clear()
      modifies this
      ensures Valid() && data == []
    {
      data := [];
    }

    method AppendSlice(s: seq<byte>) returns (ok: bool)
      requires Valid()
      modifies this
      ensures Valid()
      ensures ok <==> |old(data)| + |s| <= 1024
      ensures data == if ok then old(data) + s else old(data)
    {
      ok := |data| + |s| <= BUFFER_SIZE;
      if ok { data := data + s; }
    }

    /** A row of appends, each made only if the ones before it fitted. */
    method AppendParts(parts: seq<seq<byte>>) returns (ok: bool)
      requires Valid()
      modifies this
      ensures Valid() && old(data) <= data
      ensures ok <==> |old(data)| + |Concat(parts)| <= 1024
      ensures ok ==> data == old(data) + Concat(parts)
    {
      ok := true;
      for i := 0 to |parts|
        invariant ok && Valid() && old(data) <= data
        invariant data + Concat(parts[i..]) == old(data) + Concat(parts)
      {
        ghost var rest := Concat(parts[i + 1..]);
        assert Concat(parts[i..]) == parts[i] + rest by { assert parts[i..][1..] == parts[i + 1..]; }
        Assoc(data, parts[i], rest);
        assert |data| + |parts[i]| + |rest| == |old(data)| + |Concat(parts)|;
        ok := AppendSlice(parts[i]);
        if !ok { return; }
      }
    }

    /** host_to_network for a ticket: writes the whole frame when it fits; on an error what was
        there is still in front. */
    method WriteTicket(t: Ticket) returns (r: Sent)
      requires Valid() && Fits16(t.speed)
      modifies this
      ensures Valid()
      ensures r.Written? <==> |t.plate| <= 0xFF && |old(data)| + 18 + |t.plate| <= 1024
      ensures r.Written? ==> data == old(data) + TicketFrame(t) && r.len == |data|
      ensures r.NotSent? ==> old(data) <= data
    {
      var ok := AppendSlice([TICKET]);
      if !ok { return NotSent(Overflow); }
      if |t.plate| > 0xFF { return NotSent(NotEnoughBytes); }
      TicketParts(t);
      ok := AppendParts(PartsAfterType(t));
      if !ok { return NotSent(Overflow); }
      Assoc(old(data), [TICKET], TicketFrame(t)[1..]);
      r := Written(|data|);
    }
  }

  /** What dispatching a ticket puts on the wire: the buffer is cleared, so the frame always fits. */
  method SendTicket(buf: Buffer, t: Ticket) returns (r: Sent)
    requires buf.Valid() && Fits16(t.speed)
    modifies buf
    ensures buf.Valid()
    ensures r.Written? <==> |t.plate| <= 0xFF
    ensures r.Written? ==> buf.data == TicketFrame(t)
  {
    buf.Clear();
    r := buf.WriteTicket(t);
    if r.Written? {
      assert [] + TicketFrame(t) == TicketFrame(t);
    }
  }

  /** What host_to_network appends after the type byte, one append each. */
  function PartsAfterType(t: Ticket): seq<seq<byte>>
    requires Sendable(t)
  {
    [[|t.plate|], t.plate, Be16(t.road), Be16(t.mile1), Be32(t.timestamp1),
     Be16(t.mile2), Be32(t.timestamp2), Be16(t.speed)]
  }

  lemma Concat8<T>(a: seq<T>, b: seq<T>, c: seq<T>, d: seq<T>, e: seq<T>, f: seq<T>, g: seq<T>, h: seq<T>)
    ensures Concat([a, b, c, d, e, f, g, h]) == a + b + (c + d + e + f + g + h)
  {
    assert Concat([h]) == h + Concat([][..]) == h;
    assert [g, h][1..] == [h] && [f, g, h][1..] == [g, h] && [e, f, g, h][1..] == [f, g, h];
    assert [d, e, f, g, h][1..] == [e, f, g, h] && [c, d, e, f, g, h][1..] == [d, e, f, g, h];
    assert [b, c, d, e, f, g, h][1..] == [c, d, e, f, g, h];
    assert [a, b, c, d, e, f, g, h][1..] == [b, c, d, e, f, g, h];
    assert Concat([g, h]) == g + h;
    assert Concat([e, f, g, h]) == e + (f + (g + h));
    assert Concat([c, d, e, f, g, h]) == c + (d + (e + (f + (g + h))));
    assert c + (d + (e + (f + (g + h)))) == c + d + e + f + g + h;
  }

  lemma TicketParts(t: Ticket)
    requires Sendable(t)
    ensures Concat(PartsAfterType(t)) == TicketFrame(t)[1..]
    ensures TicketFrame(t) == [TICKET] + TicketFrame(t)[1..]
  {
    Concat8<byte>([|t.plate|], t.plate, Be16(t.road), Be16(t.mile1), Be32(t.timestamp1),
            Be16(t.mile2), Be32(t.timestamp2), Be16(t.speed));
    HeadOf<byte>(TICKET, |t.plate|, t.plate, TicketFields(t));
  }

  lemma HeadOf<T>(a: T, b: T, p: seq<T>, f: seq<T>)
    ensures ([a, b] + p + f)[1..] == [b] + p + f
    ensures [a, b] + p + f == [a] + ([a, b] + p + f)[1..]
  {
  }

  /** A dispatcher's side: the ticket at the head of its stream. */
  function ReadTicket(s: seq<byte>): Taken<Ticket> {
    var plateLen: int := if |s| < 2 then 0 else s[1];
    if |s| < 2 || s[0] != TICKET || |s| < 18 + plateLen then None
    else
      var n := 2 + plateLen;
      Some(n + 16, [Ticket(s[2..n], Read16(s, n), Read16(s, n + 2), Read32(s, n + 4),
                           Read16(s, n + 8), Read32(s, n + 10), Read16(s, n + 14))])
  }

  function ReadTickets(s: seq<byte>): Taken<Ticket>
    decreases |s|
  {
    if s == [] then Some(0, [])
    else
      var first := ReadTicket(s);
      if first.None? || first.len > |s| || first.len == 0 then None
      else
        var rest := ReadTickets(s[first.len..]);
        if rest.None? then None else Some(first.len + rest.len, first.msgs + rest.msgs)
  }

  lemma ReadsTicket(s: seq<byte>, t: Ticket)
    requires Sendable(t) && TicketFrame(t) <= s
    ensures ReadTicket(s) == Some(|TicketFrame(t)|, [t])
  {
    var f, n := TicketFrame(t), 2 + |t.plate|;
    assert s[0..0 + |f|] == f;
    SubSlice(s, 0, f, 0, 2);
    assert s[0..2][0] == TICKET && s[0..2][1] == |t.plate|;
    SubSlice(s, 0, f, 2, n);
    assert f[2..n] == t.plate;
    SubSlice(s, 0, f, n, n + 16);
    assert f[n..n + 16] == TicketFields(t);
    ReadsFields(s, n, t);
  }

  /** No ticket frame begins another, so a dispatcher can read the tickets in one way only. */
  lemma TicketsSelfDelimiting()
    ensures SelfDelimiting(TICKETS)
  {
    forall t, u | TICKETS.ok(t) && TICKETS.ok(u) && TICKETS.frame(t) <= TICKETS.frame(u)
      ensures t == u
    {
      ReadsTicket(TicketFrame(u), t);
      ReadsTicket(TicketFrame(u), u);
    }
  }

  lemma ReadsNext(f: seq<byte>, rest: seq<byte>, t: Ticket, ts: seq<Ticket>)
    requires f != [] && ReadTicket(f + rest) == Some(|f|, [t]) && ReadTickets(rest) == Some(|rest|, ts)
    ensures ReadTickets(f + rest) == Some(|f + rest|, [t] + ts)
  {
    assert (f + rest)[|f|..] == rest;
  }

  /** Any tickets sent one after the other are read back as they were. */
  lemma {:induction false} TicketsRoundTrip(ts: seq<Ticket>)
    requires AllOk(TICKETS, ts)
    ensures ReadTickets(Frames(TICKETS, ts)) == Some(|Frames(TICKETS, ts)|, ts)
  {
    if ts != [] {
      var t, later := ts[0], ts[1..];
      assert ts == [t] + later;
      FramesCons(TICKETS, t, later);
      TicketsRoundTrip(later);
      ReadsTicket(TicketFrame(t) + Frames(TICKETS, later), t);
      ReadsNext(TicketFrame(t), Frames(TICKETS, later), t, later);
    }
  }
}

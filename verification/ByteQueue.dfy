/** The growable byte buffer of the C servers (utils/queue.c) and the receive loop that writes into
    it (utils/utils.c). The queue keeps more than a fifth of its capacity free, so that a caller may
    write at its head first and reserve afterwards. */
module ByteQueue {
  import opened Messages

  /** QUEUE_FREE_CAP_BUFFER of the free capacity: four fifths, rounded down. */
  function Slack(free: nat): nat {
    4 * free / 5
  }

  /** What QUEUE_FREE_CAP_BUFFER leaves: the largest whole number of bytes that is at most four fifths. */
  lemma SlackMeans(free: nat)
    ensures 5 * Slack(free) <= 4 * free < 5 * (Slack(free) + 1)
  {
  }

  /** `capacity` doubled `k` times. */
  function Doubled(capacity: nat, k: nat): nat {
    if k == 0 then capacity else 2 * Doubled(capacity, k - 1)
  }

  predicate TooSmall(capacity: nat, size: nat, n: nat) {
    capacity < size || size + n >= Slack(capacity - size)
  }

  lemma PrefixKept(a: seq<byte>, b: seq<byte>, n: nat)
    requires a <= b && n <= |a|
    ensures a[..n] == b[..n]
  {
  }

  method Memcpy(to: array<byte>, at: nat, bytes: seq<byte>)
    requires at + |bytes| <= to.Length
    modifies to
    ensures to[..at + |bytes|] == old(to[..at]) + bytes
  {
    for i := 0 to |bytes|
      invariant to[..at + i] == old(to[..at]) + bytes[..i]
    {
      to[at + i] := bytes[i];
    }
  }

  class Queue {
    var data: array<byte>
    var capacity: nat
    var size: nat
    var freeCapacity: nat
    var head: nat

    /** What every reachable queue satisfies. */
    ghost predicate Valid()
      reads this
    {
      && 0 < capacity == data.Length
      && head == size && size + freeCapacity == capacity
      && 5 * size < 4 * capacity
    }

    ghost function Contents(): seq<byte>
      requires Valid()
      reads this, data
    {
      data[..size]
    }

    constructor (capacity: nat)
      requires capacity > 0
      ensures Valid() && fresh(data) && Contents() == [] && this.capacity == capacity
    {
      data := new byte[capacity](_ => 0);
      this.capacity, size, freeCapacity, head := capacity, 0, capacity, 0;
    }

    /** queue_init_data: never shrinks, keeps every byte of the old buffer, used or not. */
    method InitData(newCapacity: nat)
      requires Valid()
      modifies this
      ensures Valid() && size == old(size)
      ensures capacity == if newCapacity < old(capacity) then old(capacity) else newCapacity
      ensures data == old(data) || fresh(data)
      ensures old(data[..]) <= data[..]
    {
      if newCapacity == 0 || capacity > newCapacity { return; }
      var newData := new byte[newCapacity](_ => 0);
      for i := 0 to capacity
        invariant newData[..i] == data[..i]
        modifies newData
      {
        newData[i] := data[i];
      }
      data, capacity, freeCapacity, head := newData, newCapacity, newCapacity - size, size;
    }

    /** queue_expand_capacity: afterwards `n` more bytes leave the slack that is asked for, and no fewer
        doublings would have done. */
    method ExpandCapacity(n: nat) returns (ghost k: nat)
      requires Valid()
      modifies this
      ensures Valid() && size == old(size) && old(capacity) <= capacity
      ensures n > 0 ==> size + n < Slack(freeCapacity)
      ensures capacity == Doubled(old(capacity), k)
      ensures n > 0 ==> forall j :: 0 <= j < k ==> TooSmall(Doubled(old(capacity), j), size, n)
      ensures data == old(data) || fresh(data)
      ensures old(data[..]) <= data[..]
    {
      k := 0;
      if n == 0 || size + n < Slack(freeCapacity) { return; }
      k := 1;
      assert Doubled(capacity, 1) == 2 * Doubled(capacity, 0) && capacity - size == freeCapacity;
      var newCap := capacity * 2;
      var newFree := newCap - size;
      while size + n >= Slack(newFree)
        invariant capacity <= newCap && newFree == newCap - size && newCap == Doubled(capacity, k)
        invariant forall j :: 0 <= j < k ==> TooSmall(Doubled(capacity, j), size, n)
        decreases 9 * size + 5 * n + 5 - 4 * newCap
      {
        k := k + 1;
        newCap := newCap * 2;
        newFree := newCap - size;
      }
      InitData(newCap);
    }

    /** queue_push: the bytes are appended. */
    method Push(bytes: seq<byte>)
      requires Valid()
      modifies this, data
      ensures Valid() && Contents() == old(Contents()) + bytes && old(capacity) <= capacity
      ensures data == old(data) || fresh(data)
    {
      if |bytes| == 0 { return; }
      if size + |bytes| >= Slack(freeCapacity) {
        ghost var _ := ExpandCapacity(|bytes|);
      }
      PrefixKept(old(data[..]), data[..], size);
      Memcpy(data, head, bytes);
      head, size := head + |bytes|, size + |bytes|;
      freeCapacity := capacity - size;
    }

    /** queue_push_ex: whatever stands at the head, up to `n` bytes of it, joins the contents. */
    method PushEx(n: nat)
      requires Valid()
      modifies this
      ensures Valid() && |Contents()| == old(size) + n && Contents()[..old(size)] == old(Contents())
      ensures n <= old(freeCapacity) ==> Contents() == old(data[..size + n])
      ensures data == old(data) || fresh(data)
      ensures old(capacity) <= capacity
    {
      if n == 0 { return; }
      if size + n >= Slack(freeCapacity) {
        ghost var _ := ExpandCapacity(n);
      }
      PrefixKept(old(data[..]), data[..], size);
      if n <= old(freeCapacity) {
        PrefixKept(old(data[..]), data[..], size + n);
      }
      head, size := head + n, size + n;
      freeCapacity := capacity - size;
    }

    /** queue_pop_no_copy: what was there, and an empty queue. */
    method PopNoCopy() returns (bytes: seq<byte>)
      requires Valid()
      modifies this
      ensures Valid() && bytes == old(Contents()) && Contents() == []
      ensures data == old(data) && capacity == old(capacity)
    {
      bytes := data[..size];
      size, head, freeCapacity := 0, 0, capacity;
    }

    method Peek() returns (bytes: seq<byte>)
      requires Valid()
      ensures bytes == Contents()
    {
      bytes := data[..size];
    }
  }

  /** How a row of recv calls ends. */
  datatype End = Closed | WouldBlock | Failed

  function Code(end: End): int {
    match end
    case Closed => 0
    case WouldBlock => -1
    case Failed => -2
  }

  /** recv_request: `pending` arrives in any pieces that fit the window recv is given. The window is
      never empty, so a result of zero bytes can only mean that the peer closed. */
  method RecvRequest(q: Queue, pending: seq<byte>, end: End) returns (code: int)
    requires q.Valid()
    modifies q, q.data
    ensures q.Valid() && q.Contents() == old(q.Contents()) + pending && old(q.capacity) <= q.capacity
    ensures q.data == old(q.data) || fresh(q.data)
    ensures code == 0 <==> end.Closed?
    ensures code == -1 <==> end.WouldBlock?
    ensures code == -2 <==> end.Failed?
  {
    var rest := pending;
    while rest != []
      invariant q.Valid() && q.Contents() + rest == old(q.Contents()) + pending && old(q.capacity) <= q.capacity
      invariant q.data == old(q.data) || fresh(q.data)
      decreases |rest|
    {
      var n := ReadSome(q.freeCapacity, |rest|);
      WriteAtHead(q, rest[..n]);
      rest := rest[n..];
    }
    code := Code(end);
  }

  /** How many bytes the kernel hands over: some, and no more than the window or what is there. */
  method ReadSome(window: nat, available: nat) returns (n: nat)
    requires window > 0 && available > 0
    ensures 1 <= n <= window && n <= available
  {
    n :| 1 <= n <= window && n <= available;
  }

  /** Write first, reserve afterwards: the bytes join the contents. */
  method WriteAtHead(q: Queue, bytes: seq<byte>)
    requires q.Valid() && |bytes| <= q.freeCapacity
    modifies q, q.data
    ensures q.Valid() && q.Contents() == old(q.Contents()) + bytes && old(q.capacity) <= q.capacity
    ensures q.data == old(q.data) || fresh(q.data)
  {
    Memcpy(q.data, q.head, bytes);
    q.PushEx(|bytes|);
  }

  /** A response printed at the head, with the terminator sprintf puts behind it, always fits a queue
      of five times its length; the terminator does not join the contents. */
  method BuildResponse(q: Queue, response: seq<byte>)
    requires q.Valid() && 5 * (|response| + 1) <= q.capacity
    modifies q, q.data
    ensures |response| + 1 <= old(q.freeCapacity)
    ensures q.Valid() && q.Contents() == old(q.Contents()) + response && old(q.capacity) <= q.capacity
    ensures q.data == old(q.data) || fresh(q.data)
  {
    Memcpy(q.data, q.head, response + [0]);
    PrefixKept(q.data[..q.head + |response| + 1], q.data[..], q.head + |response|);
    q.PushEx(|response|);
  }

  // ----- Any use of a queue

  datatype Use = Pushed(bytes: seq<byte>) | Received(bytes: seq<byte>) | Printed(bytes: seq<byte>) | Popped

  /** Everything pushed, received or printed since the last pop. */
  function SinceLastPop(uses: seq<Use>): seq<byte> {
    if uses == [] then []
    else
      var u := uses[|uses| - 1];
      if u.Popped? then [] else SinceLastPop(uses[..|uses| - 1]) + u.bytes
  }

  /** A new queue under any uses: it stays valid, never shrinks and holds what came since the last pop.
      So a response of a fifth of its capacity can be printed in place at any time. */
  method AnyUse(capacity: nat, uses: seq<Use>) returns (q: Queue)
    requires capacity > 0
    requires forall u :: u in uses && u.Printed? ==> 5 * (|u.bytes| + 1) <= capacity
    ensures q.Valid() && q.Contents() == SinceLastPop(uses) && capacity <= q.capacity
  {
    q := new Queue(capacity);
    for i := 0 to |uses|
      invariant fresh(q) && fresh(q.data) && q.Valid() && capacity <= q.capacity
      invariant q.Contents() == SinceLastPop(uses[..i])
    {
      assert uses[..i + 1][..i] == uses[..i];
      match uses[i] {
        case Pushed(bytes) => q.Push(bytes);
        case Received(bytes) => var _ := RecvRequest(q, bytes, WouldBlock);
        case Printed(bytes) => BuildResponse(q, bytes);
        case Popped => var _ := q.PopNoCopy();
      }
    }
    assert uses[..|uses|] == uses;
  }
}

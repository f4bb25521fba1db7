/** The clients of the C means-to-an-end server (client-session.c): a doubly linked list reached
    through a cursor that may stand on any of its nodes. */
module SessionList {

  class Session {
    const clientId: int
    var next: Session?
    var prev: Session?

    constructor (clientId: int)
      ensures this.clientId == clientId && next == null && prev == null
    {
      this.clientId, next, prev := clientId, null, null;
    }
  }

  /** The node before and the node behind position `i`, or null. */
  ghost function Before(nodes: seq<Session>, i: nat): Session?
    requires i < |nodes|
  {
    if i == 0 then null else nodes[i - 1]
  }

  ghost function After(nodes: seq<Session>, i: nat): Session?
    requires i < |nodes|
  {
    if i + 1 == |nodes| then null else nodes[i + 1]
  }

  /** The nodes are distinct and linked in this order, both ways. */
  ghost predicate Linked(nodes: seq<Session>)
    reads nodes
  {
    && (forall i, j :: 0 <= i < j < |nodes| ==> nodes[i] != nodes[j])
    && (forall i {:trigger nodes[i].prev} :: 0 <= i < |nodes| ==> nodes[i].prev == Before(nodes, i))
    && (forall i {:trigger nodes[i].next} :: 0 <= i < |nodes| ==> nodes[i].next == After(nodes, i))
  }

  ghost function Removed(nodes: seq<Session>, k: nat): seq<Session>
    requires k < |nodes|
  {
    nodes[..k] + nodes[k + 1..]
  }

  /** The nodes are distinct, and their neighbours lead past the one at `k`. */
  ghost predicate LinkedPast(nodes: seq<Session>, k: nat)
    requires k < |nodes|
    reads nodes
  {
    && (forall i, j :: 0 <= i < j < |nodes| ==> nodes[i] != nodes[j])
    && (forall i {:trigger nodes[i].prev} :: 0 <= i < |nodes| && i != k ==>
          nodes[i].prev == Before(nodes, if i == k + 1 then k else i))
    && (forall i {:trigger nodes[i].next} :: 0 <= i < |nodes| && i != k ==>
          nodes[i].next == After(nodes, if i + 1 == k then k else i))
  }

  ghost function Origin(k: nat, i: nat): nat {
    if i < k then i else i + 1
  }

  /** Where the nodes of the shortened list stood, and their new neighbours. */
  lemma RemovedAround(nodes: seq<Session>, k: nat, i: nat)
    requires k < |nodes| && i < |nodes| - 1
    ensures var rest, j := Removed(nodes, k), Origin(k, i);
            && rest[i] == nodes[j]
            && Before(rest, i) == Before(nodes, if j == k + 1 then k else j)
            && After(rest, i) == After(nodes, if j + 1 == k then k else j)
  {
  }

  lemma LinkedWithout(nodes: seq<Session>, k: nat)
    requires k < |nodes| && LinkedPast(nodes, k)
    ensures Linked(Removed(nodes, k))
  {
    var rest := Removed(nodes, k);
    forall i | 0 <= i < |rest|
      ensures rest[i] == nodes[Origin(k, i)] && rest[i].prev == Before(rest, i) && rest[i].next == After(rest, i)
    {
      RemovedAround(nodes, k, i);
    }
  }

  /** The first node with an id, or the length. */
  ghost function FirstWith(nodes: seq<Session>, id: int): (k: nat)
    ensures k <= |nodes| && (k < |nodes| ==> nodes[k].clientId == id)
    ensures forall j :: 0 <= j < k ==> nodes[j].clientId != id
  {
    if nodes == [] || nodes[0].clientId == id then 0
    else
      var k := FirstWith(nodes[1..], id);
      assert forall j :: 0 < j < k + 1 ==> nodes[j] == nodes[1..][j - 1];
      k + 1
  }

  class Sessions {
    var cursor: Session?
    ghost var nodes: seq<Session>

    ghost predicate Valid()
      reads this, nodes
    {
      Linked(nodes) && (cursor == null <==> nodes == []) && (cursor != null ==> cursor in nodes)
    }

    constructor ()
      ensures Valid() && nodes == []
    {
      cursor, nodes := null, [];
    }

    /** clients_session_get_beg. */
    method GetBeg()
      requires Valid() && cursor != null
      modifies `cursor
      ensures Valid() && cursor == nodes[0]
    {
      ghost var k :| 0 <= k < |nodes| && nodes[k] == cursor;
      var prev, first := cursor.prev, cursor;
      while prev != null
        invariant 0 <= k < |nodes| && first == nodes[k] && prev == Before(nodes, k)
        decreases k
      {
        first := prev;
        prev := prev.prev;
        k := k - 1;
      }
      cursor := first;
    }

    /** clients_session_get_end. */
    method GetEnd()
      requires Valid() && cursor != null
      modifies `cursor
      ensures Valid() && cursor == nodes[|nodes| - 1]
    {
      ghost var k :| 0 <= k < |nodes| && nodes[k] == cursor;
      var next, last := cursor.next, cursor;
      while next != null
        invariant 0 <= k < |nodes| && last == nodes[k] && next == After(nodes, k)
        decreases |nodes| - k
      {
        last := next;
        next := next.next;
        k := k + 1;
      }
      cursor := last;
    }

    /** clients_session_add: a new last node, from wherever the cursor stands. */
    method Add(id: int)
      requires Valid() && id > 0
      modifies this, nodes
      ensures Valid()
      ensures |nodes| == |old(nodes)| + 1 && nodes[..|old(nodes)|] == old(nodes)
      ensures var last := nodes[|nodes| - 1]; fresh(last) && last.clientId == id
    {
      if cursor == null {
        cursor := new Session(id);
        nodes := [cursor];
        return;
      }
      GetEnd();
      var node := new Session(id);
      cursor.next := node;
      node.prev := cursor;
      nodes := nodes + [node];
    }

    /** clients_session_find: succeeds exactly when the id is there, on its first node; else the cursor
        is left on the first node. */
    method Find(id: int) returns (found: bool)
      requires Valid() && (cursor != null ==> id > 0)
      modifies `cursor
      ensures Valid()
      ensures found <==> exists s :: s in nodes && s.clientId == id
      ensures found ==> FirstWith(nodes, id) < |nodes| && cursor == nodes[FirstWith(nodes, id)]
      ensures !found && nodes != [] ==> cursor == nodes[0]
    {
      if cursor == null { return false; }
      GetBeg();
      var curr: Session? := cursor;
      ghost var k := 0;
      while curr != null
        invariant Valid() && 0 <= k <= |nodes| && curr == (if k < |nodes| then nodes[k] else null) && cursor == nodes[0]
        invariant forall j :: 0 <= j < k ==> nodes[j].clientId != id
        decreases |nodes| - k
      {
        if curr.clientId == id {
          cursor := curr;
          return true;
        }
        curr := curr.next;
        k := k + 1;
      }
      found := false;
    }

    /** clients_session_free: unlinks the node under the cursor, which moves to the node before it, else
        to the node behind it. */
    method Free(ghost k: nat)
      requires Valid() && k < |nodes| && cursor == nodes[k]
      modifies this, nodes
      ensures Valid() && nodes == Removed(old(nodes), k)
      ensures nodes != [] ==> cursor == nodes[if k == 0 then 0 else k - 1]
    {
      var curr := cursor;
      var prev, next := curr.prev, curr.next;
      if prev != null { prev.next := next; }
      if next != null { next.prev := prev; }
      LinkedWithout(nodes, k);
      nodes := Removed(nodes, k);
      cursor := if prev != null then prev else next;
    }

    /** clients_session_remove: only the first node with the id goes, and the order of the rest stays. */
    method Remove(id: int) returns (found: bool)
      requires Valid() && cursor != null && id > 0
      modifies this, nodes
      ensures Valid()
      ensures found <==> exists s :: s in old(nodes) && s.clientId == id
      ensures found ==> var k := FirstWith(old(nodes), id); k < |old(nodes)| && nodes == Removed(old(nodes), k)
      ensures !found ==> nodes == old(nodes)
    {
      found := Find(id);
      if found {
        Free(FirstWith(nodes, id));
      }
    }

    /** clients_session_free_all: ends with no node left. */
    method FreeAll()
      requires Valid() && cursor != null
      modifies this, nodes
      ensures Valid() && nodes == []
    {
      GetBeg();
      while cursor != null
        invariant Valid() && (nodes != [] ==> cursor == nodes[0])
        invariant |nodes| <= |old(nodes)| && nodes == old(nodes)[|old(nodes)| - |nodes|..]
        decreases |nodes|
      {
        assert forall s :: s in nodes ==> s in old(nodes);
        Free(0);
      }
    }
  }
}

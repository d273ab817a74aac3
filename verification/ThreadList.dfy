/** The bookended doubly linked thread list of threadlist.c, as a sequence of nodes. */
module ThreadList {

  /** A list node; a thread's own node names the thread. */
  class Node {
    var prev: Node?
    var next: Node?
    const self: nat

    constructor (thread: nat)
      ensures prev == null && next == null && self == thread
    {
      prev, next, self := null, null, thread;
    }
  }

  ghost predicate Distinct(f: seq<Node>)
  {
    forall i, k :: 0 <= i < k < |f| ==> f[i] != f[k]
  }

  /** The i-th node of a row is linked to its neighbours, or to nothing beyond the ends. */
  ghost predicate LinkedAt(f: seq<Node>, i: nat)
    requires i < |f|
    reads f
  {
    && f[i].prev == (if i == 0 then null else f[i - 1])
    && f[i].next == (if i + 1 < |f| then f[i + 1] else null)
  }

  /** prev and next are inverse along the whole row. */
  ghost predicate Row(f: seq<Node>)
    reads f
  {
    Distinct(f) && forall i :: 0 <= i < |f| ==> LinkedAt(f, i)
  }

  function Insert<T>(f: seq<T>, k: nat, n: T): (g: seq<T>)
    requires k <= |f|
    ensures |g| == |f| + 1
    ensures forall i :: 0 <= i < |g| ==> g[i] == if i < k then f[i] else if i == k then n else f[i - 1]
  {
    f[..k] + [n] + f[k..]
  }

  function Delete<T>(f: seq<T>, k: nat): (g: seq<T>)
    requires k < |f|
    ensures |g| == |f| - 1
    ensures forall i :: 0 <= i < |g| ==> g[i] == if i < k then f[i] else f[i + 1]
  {
    f[..k] + f[k + 1..]
  }

  lemma InsertDistinct(f: seq<Node>, k: nat, n: Node)
    requires Distinct(f) && k <= |f| && n !in f
    ensures Distinct(Insert(f, k, n))
  {
  }

  lemma DeleteDistinct(f: seq<Node>, k: nat)
    requires Distinct(f) && k < |f|
    ensures Distinct(Delete(f, k))
  {
  }

  /** threadlist_insertafternode */
  method InsertAfterNode(onlist: Node, n: Node, ghost f: seq<Node>, ghost k: nat)
    requires Row(f) && 0 < k < |f| && f[k - 1] == onlist && n !in f && n.prev == null && n.next == null
    modifies f, n
    ensures Row(Insert(f, k, n))
  {
    assert LinkedAt(f, k - 1);
    n.prev := onlist;
    n.next := onlist.next;
    n.prev.next := n;
    n.next.prev := n;
    ghost var g := Insert(f, k, n);
    InsertDistinct(f, k, n);
    forall i | 0 <= i < |g| ensures LinkedAt(g, i) {
      assert old(LinkedAt(f, if i < k then i else if i == k then 0 else i - 1));
    }
  }

  /** threadlist_insertbeforenode */
  method InsertBeforeNode(n: Node, onlist: Node, ghost f: seq<Node>, ghost k: nat)
    requires Row(f) && 0 < k < |f| && f[k] == onlist && n !in f && n.prev == null && n.next == null
    modifies f, n
    ensures Row(Insert(f, k, n))
  {
    assert LinkedAt(f, k);
    n.prev := onlist.prev;
    n.next := onlist;
    n.prev.next := n;
    n.next.prev := n;
    ghost var g := Insert(f, k, n);
    InsertDistinct(f, k, n);
    forall i | 0 <= i < |g| ensures LinkedAt(g, i) {
      assert old(LinkedAt(f, if i < k then i else if i == k then 0 else i - 1));
    }
  }

  /** threadlist_removenode */
  method RemoveNode(n: Node, ghost f: seq<Node>, ghost k: nat)
    requires Row(f) && 0 < k < |f| - 1 && f[k] == n
    modifies f
    ensures Row(Delete(f, k)) && n.prev == null && n.next == null
  {
    assert LinkedAt(f, k);
    n.prev.next := n.next;
    n.next.prev := n.prev;
    n.prev := null;
    n.next := null;
    ghost var g := Delete(f, k);
    DeleteDistinct(f, k);
    forall i | 0 <= i < |g| ensures LinkedAt(g, i) {
      assert old(LinkedAt(f, if i < k then i else i + 1));
    }
  }

  /** The row of a list: its nodes between the two bookends. */
  ghost function Ends(head: Node, nodes: seq<Node>, tail: Node): seq<Node> { [head] + nodes + [tail] }

  lemma EndsInsert(head: Node, nodes: seq<Node>, tail: Node, k: nat, n: Node)
    requires k <= |nodes|
    ensures Ends(head, Insert(nodes, k, n), tail) == Insert(Ends(head, nodes, tail), k + 1, n)
  {
  }

  lemma EndsDelete(head: Node, nodes: seq<Node>, tail: Node, k: nat)
    requires k < |nodes|
    ensures Ends(head, Delete(nodes, k), tail) == Delete(Ends(head, nodes, tail), k + 1)
  {
  }

  class List {
    const head: Node
    const tail: Node
    var count: nat
    /** The threads' nodes on the list, in order. */
    ghost var nodes: seq<Node>

    ghost function Whole(): seq<Node>
      reads this
    {
      Ends(head, nodes, tail)
    }

    ghost predicate Valid()
      reads this, Whole()
    {
      Row(Whole()) && count == |nodes|
    }

    /** threadlist_init */
    constructor ()
      ensures Valid() && nodes == [] && fresh(Whole())
    {
      var h := new Node(0);
      var t := new Node(0);
      h.next, t.prev := t, h;
      head, tail, count, nodes := h, t, 0, [];
    }

    /** threadlist_isempty */
    method IsEmpty() returns (b: bool)
      requires Valid()
      ensures b <==> nodes == []
    {
      b := count == 0;
    }

    method AddHead(n: Node)
      requires Valid() && n !in Whole() && n.prev == null && n.next == null
      modifies this, Whole(), n
      ensures Valid() && nodes == [n] + old(nodes)
    {
      EndsInsert(head, nodes, tail, 0, n);
      InsertAfterNode(head, n, Whole(), 1);
      nodes := Insert(nodes, 0, n);
      count := count + 1;
    }

    method AddTail(n: Node)
      requires Valid() && n !in Whole() && n.prev == null && n.next == null
      modifies this, Whole(), n
      ensures Valid() && nodes == old(nodes) + [n]
    {
      EndsInsert(head, nodes, tail, |nodes|, n);
      InsertBeforeNode(n, tail, Whole(), |nodes| + 1);
      nodes := Insert(nodes, |nodes|, n);
      count := count + 1;
    }

    /** Takes the node at position k off the list. */
    method TakeOff(n: Node, ghost k: nat)
      requires Valid() && k < |nodes| && nodes[k] == n
      modifies this, Whole()
      ensures Valid() && nodes == Delete(old(nodes), k) && n.prev == null && n.next == null && n !in Whole()
    {
      assert Whole()[k + 1] == n && count > 0;
      EndsDelete(head, nodes, tail, k);
      RemoveNode(n, Whole(), k + 1);
      nodes := Delete(nodes, k);
      count := count - 1;
    }

    /** threadlist_remhead: null exactly when the list is empty. */
    method RemHead() returns (n: Node?)
      requires Valid()
      modifies this, Whole()
      ensures Valid() && (n == null <==> old(nodes) == [])
      ensures n == null ==> nodes == old(nodes)
      ensures n != null ==> old(nodes) == [n] + nodes && n.prev == null && n.next == null && n !in Whole()
    {
      assert LinkedAt(Whole(), 0) && LinkedAt(Whole(), 1);
      var first := head.next;
      if first.next == null {
        return null;
      }
      TakeOff(first, 0);
      n := first;
    }

    /** threadlist_remtail */
    method RemTail() returns (n: Node?)
      requires Valid()
      modifies this, Whole()
      ensures Valid() && (n == null <==> old(nodes) == [])
      ensures n == null ==> nodes == old(nodes)
      ensures n != null ==> old(nodes) == nodes + [n] && n.prev == null && n.next == null && n !in Whole()
    {
      ghost var k := |nodes|;
      assert LinkedAt(Whole(), k + 1) && LinkedAt(Whole(), k);
      var last := tail.prev;
      if last.prev == null {
        return null;
      }
      TakeOff(last, k - 1);
      n := last;
    }

    /** threadlist_insertafter, for a thread that is on this list at position k. */
    method InsertAfter(onlist: Node, n: Node, ghost k: nat)
      requires Valid() && n !in Whole() && n.prev == null && n.next == null && k < |nodes| && nodes[k] == onlist
      modifies this, Whole(), n
      ensures Valid() && nodes == Insert(old(nodes), k + 1, n)
    {
      EndsInsert(head, nodes, tail, k + 1, n);
      InsertAfterNode(onlist, n, Whole(), k + 2);
      nodes := Insert(nodes, k + 1, n);
      count := count + 1;
    }

    /** threadlist_insertbefore */
    method InsertBefore(n: Node, onlist: Node, ghost k: nat)
      requires Valid() && n !in Whole() && n.prev == null && n.next == null && k < |nodes| && nodes[k] == onlist
      modifies this, Whole(), n
      ensures Valid() && nodes == Insert(old(nodes), k, n)
    {
      EndsInsert(head, nodes, tail, k, n);
      InsertBeforeNode(n, onlist, Whole(), k + 1);
      nodes := Insert(nodes, k, n);
      count := count + 1;
    }

    /** threadlist_remove */
    method Remove(n: Node, ghost k: nat)
      requires Valid() && k < |nodes| && nodes[k] == n
      modifies this, Whole()
      ensures Valid() && nodes == Delete(old(nodes), k) && n.prev == null && n.next == null && n !in Whole()
    {
      TakeOff(n, k);
    }
  }

  ghost predicate NoneShared(x: seq<Node>, y: seq<Node>)
  {
    forall i, k :: 0 <= i < |x| && 0 <= k < |y| ==> x[i] != y[k]
  }

  lemma ShareLess(h: Node, t: Node, nodes: seq<Node>, tl: Node, y: seq<Node>)
    requires NoneShared(Ends(h, [t] + nodes, tl), y)
    ensures NoneShared(Ends(h, nodes, tl), y) && t !in y
  {
    var x, x' := Ends(h, [t] + nodes, tl), Ends(h, nodes, tl);
    assert x[1] == t;
    forall i, k | 0 <= i < |x'| && 0 <= k < |y| ensures x'[i] != y[k] {
      assert x'[i] == x[if i == 0 then 0 else i + 1];
    }
  }

  lemma ShareMore(x: seq<Node>, h: Node, nodes: seq<Node>, tl: Node, t: Node)
    requires NoneShared(x, Ends(h, nodes, tl)) && t !in x
    ensures NoneShared(x, Ends(h, nodes + [t], tl))
  {
    var y, y' := Ends(h, nodes, tl), Ends(h, nodes + [t], tl);
    forall i, k | 0 <= i < |x| && 0 <= k < |y'| ensures x[i] != y'[k] {
      if k <= |nodes| {
        assert y'[k] == y[k];
      } else if k == |nodes| + 1 {
        assert y'[k] == t && x[i] in x;
      } else {
        assert y'[k] == y[k - 1];
      }
    }
  }

  lemma ShareTurn(x: seq<Node>, y: seq<Node>)
    requires NoneShared(x, y)
    ensures NoneShared(y, x)
  {
  }

  /** Two lists that share no node. */
  ghost predicate Apart(a: List, b: List)
    reads a, b
  {
    a != b && NoneShared(a.Whole(), b.Whole())
  }

  /** Takes the first thread off one list and puts it at the end of another. A list that shares no
      node with either is not touched, like with every operation above. */
  method MoveOne(from: List, to: List, other: List) returns (t: Node?)
    requires from.Valid() && to.Valid() && other.Valid() && Apart(from, to) && Apart(from, other) && Apart(to, other)
    modifies from, from.Whole(), to, to.Whole()
    ensures from.Valid() && to.Valid() && other.Valid() && Apart(from, to) && Apart(from, other) && Apart(to, other)
    ensures other.nodes == old(other.nodes) && (t == null <==> old(from.nodes) == [])
    ensures t == null ==> from.nodes == old(from.nodes) && to.nodes == old(to.nodes)
    ensures t != null ==> old(from.nodes) == [t] + from.nodes && to.nodes == old(to.nodes) + [t]
    ensures forall n :: n in from.Whole() ==> n in old(from.Whole())
    ensures forall n :: n in to.Whole() ==> n in old(to.Whole()) || n in old(from.Whole())
  {
    label Start:
    t := from.RemHead();
    assert unchanged@Start(to) && unchanged@Start(to.Whole()) && unchanged@Start(other)
           && unchanged@Start(other.Whole());
    if t != null {
      assert old(from.Whole())[1] == t;
      ShareLess(from.head, t, from.nodes, from.tail, to.Whole());
      ShareLess(from.head, t, from.nodes, from.tail, other.Whole());
      ShareMore(from.Whole(), to.head, to.nodes, to.tail, t);
      ShareTurn(to.Whole(), other.Whole());
      ShareMore(other.Whole(), to.head, to.nodes, to.tail, t);
      label Off:
      to.AddTail(t);
      ShareTurn(other.Whole(), to.Whole());
      assert unchanged@Off(from) && unchanged@Off(from.Whole()) && unchanged@Off(other) && unchanged@Off(other.Whole());
    }
  }

  /** The first loop of wchan_wakeall: every thread of one list goes to the end of another, in
      order; a third list stays as it is. */
  method MoveAll(from: List, to: List, other: List)
    requires from.Valid() && to.Valid() && other.Valid() && Apart(from, to) && Apart(from, other) && Apart(to, other)
    modifies from, from.Whole(), to, to.Whole()
    ensures from.Valid() && to.Valid() && from.nodes == [] && to.nodes == old(to.nodes) + old(from.nodes)
    ensures other.Valid() && other.nodes == old(other.nodes)
  {
    var t := MoveOne(from, to, other);
    while t != null
      invariant from.Valid() && to.Valid() && other.Valid()
      invariant Apart(from, to) && Apart(from, other) && Apart(to, other) && other.nodes == old(other.nodes)
      invariant to.nodes + from.nodes == old(to.nodes) + old(from.nodes) && (t == null ==> from.nodes == [])
      invariant forall n :: n in from.Whole() ==> n in old(from.Whole())
      invariant forall n :: n in to.Whole() ==> n in old(to.Whole()) || n in old(from.Whole())
      decreases |from.nodes|, if t == null then 0 else 1
    {
      assert forall i :: 0 <= i < |from.Whole()| ==> from.Whole()[i] in old(from.Whole());
      assert forall i :: 0 <= i < |to.Whole()| ==>
               to.Whole()[i] in old(to.Whole()) || to.Whole()[i] in old(from.Whole());
      t := MoveOne(from, to, other);
    }
  }
}

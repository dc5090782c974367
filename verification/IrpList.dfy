/**
  A doubly linked circular list of IRPs, as LIST_ENTRY pointers
  (the list operations used by media/doc/irp cancel boilerplate.c).
*/
module IrpList {
  import opened Seqs

  type Irp = nat

  datatype Node = Head | Entry(irp: Irp)

  /** The Flink and Blink fields of every list entry. */
  datatype Links = Links(flink: map<Node, Node>, blink: map<Node, Node>)

  /** The node in front of position `i` of the queue, and the one behind it. */
  ghost function Before(q: seq<Irp>, i: nat): Node
    requires i <= |q|
  {
    if i == 0 then Head else Entry(q[i - 1])
  }

  ghost function After(q: seq<Irp>, i: nat): Node
    requires i <= |q|
  {
    if i == |q| then Head else Entry(q[i])
  }

  ghost predicate Linked(l: Links, a: Node, b: Node) {
    a in l.flink && b in l.blink && l.flink[a] == b && l.blink[b] == a
  }

  /** The pointers form exactly the ring of `q`. */
  ghost predicate IsList(l: Links, q: seq<Irp>) {
    && NoDup(q)
    && forall i :: 0 <= i <= |q| ==> Linked(l, Before(q, i), After(q, i))
  }

  ghost predicate SelfLinked(l: Links, irp: Irp) {
    Linked(l, Entry(irp), Entry(irp))
  }

  ghost predicate Present(l: Links, e: Node) {
    && e in l.flink && e in l.blink
    && l.flink[e] in l.blink && l.blink[e] in l.flink
  }

  /** RemoveEntryList: the neighbours are joined; the entry keeps its own pointers. */
  function RemoveEntry(l: Links, e: Node): Links
    requires Present(l, e)
  {
    var next, prev := l.flink[e], l.blink[e];
    Links(l.flink[prev := next], l.blink[next := prev])
  }

  /** InsertTailList */
  function InsertTail(l: Links, e: Node): Links
    requires Present(l, Head)
  {
    var last := l.blink[Head];
    Links(l.flink[e := Head][last := e], l.blink[e := last][Head := e])
  }

  /** InitializeListHead */
  function Initialize(l: Links, e: Node): Links {
    Links(l.flink[e := e], l.blink[e := e])
  }

  lemma {:induction false} ListPresent(l: Links, q: seq<Irp>, k: nat)
    requires IsList(l, q) && k <= |q|
    ensures Present(l, After(q, k))
    ensures l.blink[After(q, k)] == Before(q, k)
    ensures l.flink[After(q, k)] == if k == |q| then After(q, 0) else After(q, k + 1)
  {
    assert Linked(l, Before(q, k), After(q, k));
    if k == |q| {
      assert Linked(l, Before(q, 0), After(q, 0));
    } else {
      assert Linked(l, Before(q, k + 1), After(q, k + 1));
    }
  }

  lemma {:induction false} WithoutKth(q: seq<Irp>, k: nat, i: nat)
    requires k < |q| && i < |q|
    ensures var r := q[..k] + q[k + 1..];
      && Before(r, i) == Before(q, if i <= k then i else i + 1)
      && After(r, i) == After(q, if i < k then i else i + 1)
  {
  }

  /** Unlinking the `k`-th entry leaves the ring of the queue without it. */
  lemma {:induction false} RemoveLinked(l: Links, q: seq<Irp>, k: nat)
    requires IsList(l, q) && k < |q|
    ensures Present(l, Entry(q[k]))
    ensures IsList(RemoveEntry(l, Entry(q[k])), q[..k] + q[k + 1..])
  {
    ListPresent(l, q, k);
    var r := q[..k] + q[k + 1..];
    var m := RemoveEntry(l, Entry(q[k]));
    forall i | 0 <= i <= |r| ensures Linked(m, Before(r, i), After(r, i)) {
      WithoutKth(q, k, i);
      if i < k {
        assert Linked(l, Before(q, i), After(q, i));
      } else if i > k {
        assert Linked(l, Before(q, i + 1), After(q, i + 1));
      }
    }
  }

  /** Unlinking an entry that points to itself changes nothing. */
  lemma {:induction false} RemoveSelfLinked(l: Links, irp: Irp)
    requires SelfLinked(l, irp)
    ensures Present(l, Entry(irp)) && RemoveEntry(l, Entry(irp)) == l
  {
  }

  lemma {:induction false} InsertLinked(l: Links, q: seq<Irp>, irp: Irp)
    requires IsList(l, q) && irp !in q
    ensures Present(l, Head)
    ensures IsList(InsertTail(l, Entry(irp)), q + [irp])
  {
    ListPresent(l, q, |q|);
    var r := q + [irp];
    var m := InsertTail(l, Entry(irp));
    forall i | 0 <= i <= |r| ensures Linked(m, Before(r, i), After(r, i)) {
      if i < |q| {
        assert Linked(l, Before(q, i), After(q, i));
      }
    }
  }

  lemma {:induction false} InitializeOutside(l: Links, q: seq<Irp>, irp: Irp)
    requires IsList(l, q) && irp !in q
    ensures IsList(Initialize(l, Entry(irp)), q) && SelfLinked(Initialize(l, Entry(irp)), irp)
  {
    var m := Initialize(l, Entry(irp));
    forall i | 0 <= i <= |q| ensures Linked(m, Before(q, i), After(q, i)) {
      assert Linked(l, Before(q, i), After(q, i));
    }
  }

  /** The list entries in memory, with the pointer assignments of the list macros. */
  class ListMemory {
    var flink: map<Node, Node>
    var blink: map<Node, Node>

    function Pointers(): Links
      reads this
    {
      Links(flink, blink)
    }

    constructor ()
      ensures IsList(Pointers(), [])
    {
      flink, blink := map[Head := Head], map[Head := Head];
    }

    method InsertTailList(e: Node)
      requires Present(Pointers(), Head)
      modifies this
      ensures Pointers() == old(InsertTail(Pointers(), e))
    {
      var last := blink[Head];
      flink := flink[e := Head];
      blink := blink[e := last];
      flink := flink[last := e];
      blink := blink[Head := e];
    }

    /** Also RemoveHeadList, with the first entry. */
    method RemoveEntryList(e: Node)
      requires Present(Pointers(), e)
      modifies this
      ensures Pointers() == old(RemoveEntry(Pointers(), e))
    {
      var next, prev := flink[e], blink[e];
      flink := flink[prev := next];
      blink := blink[next := prev];
    }

    method InitializeListHead(e: Node)
      modifies this
      ensures Pointers() == old(Initialize(Pointers(), e))
    {
      flink, blink := flink[e := e], blink[e := e];
    }
  }

  /** List operations on the queue do not reach an entry that points to itself. */
  lemma {:induction false} SelfLinkedStays(l: Links, q: seq<Irp>, irp: Irp, other: Irp)
    requires IsList(l, q) && SelfLinked(l, irp) && irp !in q && other != irp
    ensures other in q ==> Present(l, Entry(other)) && SelfLinked(RemoveEntry(l, Entry(other)), irp)
    ensures Present(l, Head) && SelfLinked(InsertTail(l, Entry(other)), irp)
    ensures SelfLinked(Initialize(l, Entry(other)), irp)
  {
    ListPresent(l, q, |q|);
    if other in q {
      var k :| 0 <= k < |q| && q[k] == other;
      ListPresent(l, q, k);
    }
  }
}

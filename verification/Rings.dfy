/** Circular doubly linked lists with a dummy head (kv/util/cache.cpp FIFO_Remove and FIFO_Append, kv/db/snapshot.h). */
module Rings {

  /** A node; `number` stands for what it carries. */
  class Link {
    const number: nat
    var next: Link?
    var prev: Link?

    constructor (number: nat)
      ensures this.number == number && next == null && prev == null
    {
      this.number := number;
      next, prev := null, null;
    }
  }

  /** The next and previous links of every node. */
  datatype Around = Around(next: map<Link, Link?>, prev: map<Link, Link?>)

  /** The node at place `i` of the ring: the head at both ends. */
  ghost function At(head: Link, list: seq<Link>, i: nat): Link
    requires i <= |list| + 1
  {
    if 1 <= i <= |list| then list[i - 1] else head
  }

  ghost predicate Joined(a: Around, x: Link, y: Link) {
    x in a.next && a.next[x] == y && y in a.prev && a.prev[y] == x
  }

  /** From the head, the links go through `list` and back, both ways; and no node is there twice. */
  ghost predicate Ring(head: Link, a: Around, list: seq<Link>) {
    && head !in list && (forall i, j :: 0 <= i < j < |list| ==> list[i] != list[j])
    && forall i :: 0 <= i <= |list| ==> Joined(a, At(head, list, i), At(head, list, i + 1))
  }

  ghost function Joining(a: Around, x: Link, y: Link): Around {
    Around(a.next[x := y], a.prev[y := x])
  }

  /** FIFO_Append: between the last node and the head. */
  lemma AppendKeepsRing(head: Link, a: Around, list: seq<Link>, e: Link)
    requires Ring(head, a, list) && e != head && e !in list
    ensures Ring(head, Joining(Joining(a, At(head, list, |list|), e), e, head), list + [e])
  {
    var last := At(head, list, |list|);
    var a' := Joining(Joining(a, last, e), e, head);
    var list' := list + [e];
    forall i | 0 <= i <= |list'| ensures Joined(a', At(head, list', i), At(head, list', i + 1)) {
      if i < |list| {
        assert Joined(a, At(head, list, i), At(head, list, i + 1));
        assert At(head, list', i) == At(head, list, i) && At(head, list', i + 1) == At(head, list, i + 1);
        assert At(head, list, i) != last && At(head, list, i) != e;
        assert At(head, list, i + 1) != head && At(head, list, i + 1) != e;
      } else if i == |list| {
        assert At(head, list', i) == last && At(head, list', i + 1) == e;
      } else {
        assert At(head, list', i) == e && At(head, list', i + 1) == head;
      }
    }
  }

  /** FIFO_Remove: the neighbours of place `k` are joined. */
  lemma RemoveKeepsRing(head: Link, a: Around, list: seq<Link>, k: nat)
    requires Ring(head, a, list) && k < |list|
    ensures Ring(head, Joining(a, At(head, list, k), At(head, list, k + 2)), list[..k] + list[k + 1..])
  {
    var x, y := At(head, list, k), At(head, list, k + 2);
    var a', list' := Joining(a, x, y), list[..k] + list[k + 1..];
    assert forall n :: n in list' ==> n in list;
    forall i, j | 0 <= i < j < |list'| ensures list'[i] != list'[j] {
      assert list'[i] == list[if i < k then i else i + 1] && list'[j] == list[if j < k then j else j + 1];
    }
    forall i | 0 <= i <= |list'| ensures Joined(a', At(head, list', i), At(head, list', i + 1)) {
      RemovedPlace(head, a, list, k, i);
    }
  }

  lemma RemovedPlace(head: Link, a: Around, list: seq<Link>, k: nat, i: nat)
    requires Ring(head, a, list) && k < |list| && i <= |list| - 1
    ensures var list' := list[..k] + list[k + 1..];
            Joined(Joining(a, At(head, list, k), At(head, list, k + 2)), At(head, list', i), At(head, list', i + 1))
  {
    var list' := list[..k] + list[k + 1..];
    var x, y := At(head, list, k), At(head, list, k + 2);
    if i < k {
      assert At(head, list', i) == At(head, list, i) && At(head, list', i + 1) == At(head, list, i + 1);
      assert Joined(a, At(head, list, i), At(head, list, i + 1));
      assert At(head, list, i) != x && At(head, list, i + 1) != y;
    } else if i == k {
      assert At(head, list', i) == x && At(head, list', i + 1) == y;
    } else {
      assert At(head, list', i) == At(head, list, i + 1) && At(head, list', i + 1) == At(head, list, i + 2);
      assert Joined(a, At(head, list, i + 1), At(head, list, i + 2));
      assert At(head, list, i + 1) != x && At(head, list, i + 2) != y;
    }
  }

  /** The nodes' links as they are now. */
  ghost function Now(nodes: set<Link>): Around
    reads nodes
  {
    Around(map n | n in nodes :: n.next, map n | n in nodes :: n.prev)
  }

  method Append(head: Link, e: Link, ghost nodes: set<Link>, ghost list: seq<Link>)
    requires Ring(head, Now(nodes), list) && e in nodes && e != head && e !in list
    modifies nodes
    ensures Ring(head, Now(nodes), list + [e])
  {
    ghost var a := Now(nodes);
    assert Joined(a, At(head, list, |list|), At(head, list, |list| + 1));
    var last := head.prev;
    assert last in nodes && head in nodes && last != e;
    e.next := head;
    e.prev := last;
    last.next := e;
    head.prev := e;
    AppendKeepsRing(head, a, list, e);
    assert Now(nodes).next == a.next[last := e][e := head];
    assert Now(nodes).prev == a.prev[e := last][head := e];
  }

  method Remove(e: Link, ghost head: Link, ghost nodes: set<Link>, ghost list: seq<Link>, ghost k: nat)
    requires Ring(head, Now(nodes), list) && k < |list| && list[k] == e
    modifies nodes
    ensures Ring(head, Now(nodes), list[..k] + list[k + 1..])
  {
    ghost var a := Now(nodes);
    assert Joined(a, At(head, list, k), At(head, list, k + 1));
    assert Joined(a, At(head, list, k + 1), At(head, list, k + 2));
    var p, n := e.prev, e.next;
    n.prev := p;
    p.next := n;
    RemoveKeepsRing(head, a, list, k);
    assert Now(nodes) == Joining(a, p, n);
  }
}

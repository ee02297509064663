/** The list of live snapshots (kv/db/snapshot.h), which fixes the compaction horizon. */
module Snapshots {
  import opened Rings

  ghost predicate Ascending(list: seq<Link>) {
    forall i, j :: 0 <= i < j < |list| ==> list[i].number <= list[j].number
  }

  class SnapshotList {
    const head: Link
    ghost var nodes: set<Link>
    ghost var list: seq<Link>

    ghost predicate Valid()
      reads this, nodes
    {
      && head in nodes && Ring(head, Now(nodes), list) && (forall n :: n in list ==> n in nodes)
      && Ascending(list)
    }

    constructor ()
      ensures Valid() && list == [] && fresh(nodes)
    {
      head := new Link(0);
      nodes := {head};
      list := [];
      new;
      head.prev := head;
      head.next := head;
    }

    method Empty() returns (b: bool)
      requires Valid()
      ensures b <==> list == []
    {
      assert Joined(Now(nodes), At(head, list, 0), At(head, list, 1));
      b := head.next == head;
    }

    /** oldest(): the smallest live sequence number. */
    method Oldest() returns (number: nat)
      requires Valid() && list != []
      ensures number == list[0].number && forall n :: n in list ==> number <= n.number
    {
      assert Joined(Now(nodes), At(head, list, 0), At(head, list, 1));
      number := head.next.number;
    }

    /** DoCompactionWork's smallest_snapshot: what the database machine calls the horizon. */
    method SmallestSnapshot(last_sequence: nat) returns (h: nat)
      requires Valid()
      ensures if list == [] then h == last_sequence else (exists n :: n in list && n.number == h) && forall n :: n in list ==> h <= n.number
    {
      var none := Empty();
      if none {
        h := last_sequence;
      } else {
        h := Oldest();
        assert list[0] in list;
      }
    }

    /** New: sequence numbers never go down, so the list stays ordered. */
    method New(number: nat) returns (snapshot: Link)
      requires Valid() && (list != [] ==> list[|list| - 1].number <= number)
      modifies this, nodes
      ensures Valid() && fresh(snapshot) && snapshot.number == number
      ensures list == old(list) + [snapshot] && nodes == old(nodes) + {snapshot}
    {
      snapshot := new Link(number);
      ghost var a := Now(nodes);
      nodes := nodes + {snapshot};
      RingGrows(head, a, Now(nodes), list);
      Append(head, snapshot, nodes, list);
      list := list + [snapshot];
    }

    method Delete(snapshot: Link, ghost k: nat)
      requires Valid() && k < |list| && list[k] == snapshot
      modifies this, nodes
      ensures Valid() && list == old(list)[..k] + old(list)[k + 1..] && nodes == old(nodes)
    {
      Remove(snapshot, head, nodes, list, k);
      list := list[..k] + list[k + 1..];
    }
  }

  lemma RingGrows(head: Link, a: Around, b: Around, list: seq<Link>)
    requires Ring(head, a, list)
    requires (forall n :: n in a.next ==> n in b.next && b.next[n] == a.next[n])
    requires (forall n :: n in a.prev ==> n in b.prev && b.prev[n] == a.prev[n])
    ensures Ring(head, b, list)
  {
    forall i | 0 <= i <= |list| ensures Joined(b, At(head, list, i), At(head, list, i + 1)) {
      assert Joined(a, At(head, list, i), At(head, list, i + 1));
    }
  }
}

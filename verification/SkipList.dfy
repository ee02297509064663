/** The memtable's skip list (kv/db/skiplist.h): nodes on the heap, linked level by level from the bottom. */
module SkipLists {
  import opened Format

  const MAX_HEIGHT: nat := 12

  class Node {
    const key: UserKey
    var next: seq<Node?>

    /** The links of a new node are not initialized. */
    constructor (key: UserKey, memory: seq<Node?>)
      ensures this.key == key && next == memory
    {
      this.key := key;
      next := memory;
    }
  }

  // ---- Lists of nodes ----

  /** Keys in strictly increasing order. */
  ghost predicate Ordered(list: seq<Node>) {
    forall i, j :: 0 <= i < j < |list| ==> list[i].key < list[j].key
  }

  /** The first `i` nodes are before `key`, the others are not. */
  ghost predicate SplitAt(list: seq<Node>, key: UserKey, i: nat) {
    && i <= |list|
    && (forall j :: 0 <= j < i ==> list[j].key < key)
    && (forall j :: i <= j < |list| ==> list[j].key >= key)
  }

  ghost predicate Nested(upper: seq<Node>, lower: seq<Node>) {
    forall n :: n in upper ==> n in lower
  }

  /** `list` with `x` at position `k`. */
  ghost function Inserted(list: seq<Node>, k: nat, x: Node): seq<Node>
    requires k <= |list|
  {
    list[..k] + [x] + list[k..]
  }

  lemma InsertedMembers(list: seq<Node>, k: nat, x: Node)
    requires k <= |list|
    ensures forall n :: n in Inserted(list, k, x) <==> n == x || n in list
  {
    assert list == list[..k] + list[k..];
  }

  lemma InsertedOrdered(list: seq<Node>, k: nat, x: Node)
    requires Ordered(list) && SplitAt(list, x.key, k) && forall n :: n in list ==> n.key != x.key
    ensures Ordered(Inserted(list, k, x))
  {
    var r := Inserted(list, k, x);
    forall i, j | 0 <= i < j < |r| ensures r[i].key < r[j].key {
      assert i > k ==> r[i] == list[i - 1];
      assert j > k ==> r[j] == list[j - 1] && list[j - 1] in list;
    }
  }

  // ---- Links ----

  /** The links of every node. */
  type Links = map<Node, seq<Node?>>

  /** What stands before position `i` of a level. */
  ghost function Before(head: Node, list: seq<Node>, i: nat): Node
    requires i <= |list|
  {
    if i == 0 then head else list[i - 1]
  }

  ghost predicate Has(links: Links, n: Node, l: nat) {
    n in links && l < |links[n]|
  }

  ghost predicate LinkOk(head: Node, links: Links, list: seq<Node>, l: nat, i: nat)
    requires i <= |list|
  {
    var n := Before(head, list, i);
    Has(links, n, l) && links[n][l] == if i < |list| then list[i] else null
  }

  /** Following the links of level `l` from the head gives `list`. */
  ghost predicate Linked(head: Node, links: Links, list: seq<Node>, l: nat) {
    head !in list && forall i :: 0 <= i <= |list| ==> LinkOk(head, links, list, l, i)
  }

  ghost predicate Level(head: Node, links: Links, list: seq<Node>, l: nat) {
    Ordered(list) && Linked(head, links, list, l)
  }

  /** Every level is ordered and linked, and its nodes are nodes of the levels below.  Nothing is said about a link at a
      level where its node is not linked. */
  ghost predicate Shape(head: Node, links: Links, lists: seq<seq<Node>>, max_height: nat) {
    && |lists| == MAX_HEIGHT && 1 <= max_height <= MAX_HEIGHT
    && (forall l: nat :: l < MAX_HEIGHT ==> Level(head, links, lists[l], l))
    && (forall l, m :: 0 <= l < m < MAX_HEIGHT ==> Nested(lists[m], lists[l]))
    && (forall l :: max_height <= l < MAX_HEIGHT ==> lists[l] == [])
  }

  /** Where a search for `key` stands: after the first `i` nodes of a level, all of them before the key. */
  ghost predicate Searching(head: Node, lists: seq<seq<Node>>, key: UserKey, x: Node, level: nat, i: nat) {
    && level < |lists| && i <= |lists[level]| && x == Before(head, lists[level], i)
    && forall j :: 0 <= j < i ==> lists[level][j].key < key
  }

  lemma LinkAt(head: Node, links: Links, lists: seq<seq<Node>>, max: nat, level: nat, i: nat)
    requires Shape(head, links, lists, max) && level < MAX_HEIGHT && i <= |lists[level]|
    ensures Ordered(lists[level]) && LinkOk(head, links, lists[level], level, i)
  {
    assert Level(head, links, lists[level], level);
  }

  /** A search goes on at a lower level, after the same node. */
  lemma Drop(head: Node, links: Links, lists: seq<seq<Node>>, max: nat, key: UserKey, x: Node, level: nat, i: nat) returns (i': nat)
    requires Shape(head, links, lists, max) && Searching(head, lists, key, x, level, i) && level > 0
    ensures Searching(head, lists, key, x, level - 1, i')
  {
    assert Level(head, links, lists[level - 1], level - 1) && Nested(lists[level], lists[level - 1]);
    if i == 0 {
      return 0;
    }
    assert x in lists[level];
    var k :| 0 <= k < |lists[level - 1]| && lists[level - 1][k] == x;
    return k + 1;
  }

  lemma Stop(head: Node, lists: seq<seq<Node>>, key: UserKey, x: Node, level: nat, i: nat)
    requires Searching(head, lists, key, x, level, i) && Ordered(lists[level])
    requires i < |lists[level]| ==> lists[level][i].key >= key
    ensures SplitAt(lists[level], key, i)
  {
  }

  /** From level `low` up, `prev` holds the last nodes before the key and `at` their positions. */
  ghost predicate Recorded(head: Node, lists: seq<seq<Node>>, max: nat, key: UserKey, prev: seq<Node>, at: seq<nat>, low: nat) {
    && low <= max <= |lists| && |prev| == |at| == max - low
    && forall k :: 0 <= k < |at| ==> SplitAt(lists[low + k], key, at[k]) && prev[k] == Before(head, lists[low + k], at[k])
  }

  lemma RecordOne(head: Node, lists: seq<seq<Node>>, max: nat, key: UserKey, prev: seq<Node>, at: seq<nat>, low: nat, x: Node, i: nat)
    requires Recorded(head, lists, max, key, prev, at, low + 1) && SplitAt(lists[low], key, i) && x == Before(head, lists[low], i)
    ensures Recorded(head, lists, max, key, [x] + prev, [i] + at, low)
  {
  }

  // ---- Publishing one link ----

  /** `x` is about to be linked after `p` at level `l`: it is there at every lower level. */
  ghost predicate Ready(head: Node, links: Links, lists: seq<seq<Node>>, l: nat, x: Node, p: Node, k: nat) {
    && l < |lists| && k <= |lists[l]| && p == Before(head, lists[l], k) && SplitAt(lists[l], x.key, k)
    && x != head && Has(links, x, l) && (forall n :: n in lists[l] ==> n.key != x.key)
    && forall m :: 0 <= m < l ==> x in lists[m]
  }

  ghost function Published(links: Links, l: nat, x: Node, p: Node): Links
    requires Has(links, x, l) && Has(links, p, l)
  {
    var links' := links[x := links[x][l := links[p][l]]];
    links'[p := links'[p][l := x]]
  }

  /** A link that is not at level `l`, or not of `x` or `p`, is what it was. */
  lemma PublishedElsewhere(links: Links, l: nat, x: Node, p: Node, n: Node, m: nat)
    requires Has(links, x, l) && Has(links, p, l) && Has(links, n, m) && (m != l || (n != x && n != p))
    ensures Has(Published(links, l, x, p), n, m) && Published(links, l, x, p)[n][m] == links[n][m]
  {
  }

  lemma PublishedOther(head: Node, links: Links, list: seq<Node>, l: nat, x: Node, p: Node, m: nat)
    requires Has(links, x, l) && Has(links, p, l) && m != l && Level(head, links, list, m)
    ensures Level(head, Published(links, l, x, p), list, m)
  {
    forall i | 0 <= i <= |list| ensures LinkOk(head, Published(links, l, x, p), list, m, i) {
      assert LinkOk(head, links, list, m, i);
      PublishedElsewhere(links, l, x, p, Before(head, list, i), m);
    }
  }

  lemma PublishedLink(head: Node, links: Links, list: seq<Node>, l: nat, x: Node, k: nat, i: nat)
    requires Level(head, links, list, l) && k <= |list| && x != head && x !in list && Has(links, x, l)
    requires Has(links, Before(head, list, k), l) && i <= |list| + 1
    ensures LinkOk(head, Published(links, l, x, Before(head, list, k)), Inserted(list, k, x), l, i)
  {
    var p := Before(head, list, k);
    var links', list' := Published(links, l, x, p), Inserted(list, k, x);
    assert LinkOk(head, links, list, l, k);
    if i < k {
      assert Before(head, list', i) == Before(head, list, i) && Before(head, list, i) != p;
      assert LinkOk(head, links, list, l, i);
    } else if i == k {
      assert Before(head, list', i) == p;
    } else if i == k + 1 {
      assert Before(head, list', i) == x;
    } else {
      assert Before(head, list', i) == Before(head, list, i - 1) && Before(head, list, i - 1) != p;
      assert LinkOk(head, links, list, l, i - 1);
    }
  }

  /** After each single link the whole structure is in shape: a reader may search it at any moment of an insertion. */
  lemma PublishKeepsShape(head: Node, links: Links, lists: seq<seq<Node>>, max: nat, l: nat, x: Node, p: Node, k: nat)
    requires Shape(head, links, lists, max) && Ready(head, links, lists, l, x, p, k) && l < max
    ensures Has(links, p, l) && Shape(head, Published(links, l, x, p), lists[l := Inserted(lists[l], k, x)], max)
  {
    LinkAt(head, links, lists, max, l, k);
    var links', list' := Published(links, l, x, p), Inserted(lists[l], k, x);
    var lists' := lists[l := list'];
    InsertedMembers(lists[l], k, x);
    forall m: nat | m < MAX_HEIGHT ensures Level(head, links', lists'[m], m) {
      assert Level(head, links, lists[m], m);
      if m == l {
        InsertedOrdered(lists[l], k, x);
        forall i | 0 <= i <= |list'| ensures LinkOk(head, links', list', l, i) {
          PublishedLink(head, links, lists[l], l, x, k, i);
        }
      } else {
        PublishedOther(head, links, lists[m], l, x, p, m);
      }
    }
    forall a, b | 0 <= a < b < MAX_HEIGHT ensures Nested(lists'[b], lists'[a]) {
      assert Nested(lists[b], lists[a]);
    }
  }

  /** Preparing a link of a node that is not linked at that level changes nothing. */
  lemma PrivateKeepsShape(head: Node, links: Links, lists: seq<seq<Node>>, max: nat, l: nat, x: Node, v: Node?)
    requires Shape(head, links, lists, max) && l < MAX_HEIGHT && x != head && x !in lists[l] && Has(links, x, l)
    ensures Shape(head, links[x := links[x][l := v]], lists, max)
  {
    var links' := links[x := links[x][l := v]];
    forall m: nat | m < MAX_HEIGHT ensures Level(head, links', lists[m], m) {
      assert Level(head, links, lists[m], m);
      forall i | 0 <= i <= |lists[m]| ensures LinkOk(head, links', lists[m], m, i) {
        assert LinkOk(head, links, lists[m], m, i);
        assert m == l ==> Before(head, lists[m], i) != x;
      }
    }
  }

  /** A node that nothing links to may be added, and the height raised over empty levels. */
  lemma AllocateKeepsShape(head: Node, links: Links, lists: seq<seq<Node>>, max: nat, x: Node, memory: seq<Node?>, max': nat)
    requires Shape(head, links, lists, max) && x !in links && max <= max' <= MAX_HEIGHT
    ensures Shape(head, links[x := memory], lists, max')
  {
    var links' := links[x := memory];
    forall m: nat | m < MAX_HEIGHT ensures Level(head, links', lists[m], m) {
      assert Level(head, links, lists[m], m);
      forall i | 0 <= i <= |lists[m]| ensures LinkOk(head, links', lists[m], m, i) {
        assert LinkOk(head, links, lists[m], m, i);
      }
    }
  }

  // ---- The list on the heap ----

  class SkipList {
    const head: Node
    var max_height: nat
    /** The nodes linked at each level, and all nodes. */
    ghost var lists: seq<seq<Node>>
    ghost var nodes: set<Node>

    ghost function Links(): Links
      reads this, head, nodes
    {
      map n | n in nodes + {head} :: n.next
    }

    ghost predicate Valid()
      reads this, head, nodes
    {
      head !in nodes && Shape(head, Links(), lists, max_height)
    }

    constructor ()
      ensures Valid() && fresh(head) && nodes == {} && lists[0] == []
    {
      head := new Node(0.0, [null, null, null, null, null, null, null, null, null, null, null, null]);
      max_height := 1;
      lists := [[], [], [], [], [], [], [], [], [], [], [], []];
      nodes := {};
      new;
      EmptyShape(head, Links());
    }

    /** FindGreaterOrEqual: the first node at or after the key at the bottom, and the last node before it at every level. */
    method FindGreaterOrEqual(key: UserKey) returns (r: Node?, prev: seq<Node>, ghost at: seq<nat>)
      requires Valid()
      ensures Recorded(head, lists, max_height, key, prev, at, 0)
      ensures r == if at[0] < |lists[0]| then lists[0][at[0]] else null
    {
      var x: Node := head;
      var level: nat := max_height - 1;
      prev, at := [], [];
      ghost var i: nat := 0;
      while true
        invariant level < max_height && Searching(head, lists, key, x, level, i)
        invariant Recorded(head, lists, max_height, key, prev, at, level + 1)
        decreases level, |lists[level]| - i
      {
        LinkAt(head, Links(), lists, max_height, level, i);
        assert Links()[x] == x.next;
        var next := x.next[level];
        if next != null && next.key < key {
          x := next;
          i := i + 1;
        } else {
          Stop(head, lists, key, x, level, i);
          RecordOne(head, lists, max_height, key, prev, at, level, x, i);
          prev, at := [x] + prev, [i] + at;
          if level == 0 {
            r := next;
            return;
          }
          i := Drop(head, Links(), lists, max_height, key, x, level, i);
          level := level - 1;
        }
      }
    }

    /** FindLessThan: the last node before the key, or the head. */
    method FindLessThan(key: UserKey) returns (x: Node, ghost i: nat)
      requires Valid()
      ensures SplitAt(lists[0], key, i) && x == Before(head, lists[0], i)
    {
      x := head;
      var level: nat := max_height - 1;
      i := 0;
      while true
        invariant level < max_height && Searching(head, lists, key, x, level, i)
        decreases level, |lists[level]| - i
      {
        LinkAt(head, Links(), lists, max_height, level, i);
        assert Links()[x] == x.next;
        var next := x.next[level];
        if next == null || next.key >= key {
          if level == 0 {
            Stop(head, lists, key, x, level, i);
            return;
          }
          i := Drop(head, Links(), lists, max_height, key, x, level, i);
          level := level - 1;
        } else {
          x := next;
          i := i + 1;
        }
      }
    }

    /** FindLast: the last node, or the head. */
    method FindLast() returns (x: Node)
      requires Valid()
      ensures x == Before(head, lists[0], |lists[0]|)
    {
      x := head;
      var level: nat := max_height - 1;
      ghost var i: nat := 0;
      while true
        invariant level < max_height && i <= |lists[level]| && x == Before(head, lists[level], i)
        decreases level, |lists[level]| - i
      {
        LinkAt(head, Links(), lists, max_height, level, i);
        assert Links()[x] == x.next;
        var next := x.next[level];
        if next == null {
          if level == 0 {
            return;
          }
          i := DropAny(head, Links(), lists, max_height, x, level, i);
          level := level - 1;
        } else {
          x := next;
          i := i + 1;
        }
      }
    }

    method Contains(key: UserKey) returns (found: bool)
      requires Valid()
      ensures found <==> exists n :: n in lists[0] && n.key == key
    {
      var x, _, at := FindGreaterOrEqual(key);
      assert SplitAt(lists[0], key, at[0]);
      LinkAt(head, Links(), lists, max_height, 0, at[0]);
      found := x != null && x.key == key;
    }

    /** One turn of Insert's loop: two writes, the second of which publishes the node at this level. */
    method LinkOne(l: nat, x: Node, p: Node, ghost k: nat)
      requires Valid() && l < max_height && x in nodes && Ready(head, Links(), lists, l, x, p, k) && Has(Links(), p, l)
      modifies x, p, this`lists
      ensures Valid() && lists == old(lists)[l := Inserted(old(lists[l]), k, x)]
      ensures Links() == Published(old(Links()), l, x, p)
    {
      ghost var links := Links();
      LinkAt(head, links, lists, max_height, l, k);
      assert x !in lists[l];
      assert p in links && links[p] == p.next && links[x] == x.next;
      PrivateKeepsShape(head, links, lists, max_height, l, x, p.next[l]);
      x.next := x.next[l := p.next[l]];
      assert Links() == links[x := x.next];
      assert Valid();
      PublishKeepsShape(head, links, lists, max_height, l, x, p, k);
      p.next := p.next[l := x];
      lists := lists[l := Inserted(lists[l], k, x)];
      assert Links() == Published(links, l, x, p);
    }

    /** Raise the height if need be, and make a node that nothing links to yet. */
    method Allocate(key: UserKey, height: nat, memory: seq<Node?>) returns (x: Node)
      requires Valid() && 1 <= height <= MAX_HEIGHT
      modifies this`max_height, this`nodes
      ensures Valid() && fresh(x) && x.key == key && nodes == old(nodes) + {x} && Links()[x] == memory && height <= max_height
    {
      ghost var links := Links();
      var max := if height > max_height then height else max_height;
      max_height := max;
      x := new Node(key, memory);
      AllocateKeepsShape(head, links, lists, old(max_height), x, memory, max);
      nodes := nodes + {x};
      assert Links() == links[x := memory];
    }

    /** Insert, with the links published one by one from the bottom.  The loop invariant says that after every one of
        them the list is in shape. */
    method Insert(key: UserKey, height: nat, memory: seq<Node?>) returns (x: Node, ghost at: seq<nat>)
      requires Valid() && 1 <= height <= MAX_HEIGHT && |memory| == height && forall n :: n in lists[0] ==> n.key != key
      modifies this, head, nodes
      ensures Valid() && x.key == key && fresh(x) && nodes == old(nodes) + {x} && |at| == MAX_HEIGHT
      ensures forall l :: 0 <= l < height ==>
                SplitAt(old(lists[l]), key, at[l]) && lists[l] == Inserted(old(lists[l]), at[l], x)
      ensures forall l :: height <= l < MAX_HEIGHT ==> lists[l] == old(lists[l])
    {
      var r, prev;
      r, prev, at := FindGreaterOrEqual(key);
      prev, at := prev + seq(MAX_HEIGHT - max_height, _ => head), at + seq(MAX_HEIGHT - max_height, _ => 0);
      assert Placed(head, lists, key, prev, at, 0) by {
        PlacedAll(head, lists, max_height, key, prev, at);
      }
      ghost var was := lists;
      x := Allocate(key, height, memory);
      for i := 0 to height
        invariant Valid() && nodes == old(nodes) + {x} && fresh(x) && height <= max_height && |lists| == |was| == MAX_HEIGHT
        invariant Has(Links(), x, height - 1) && Placed(head, lists, key, prev, at, i)
        invariant forall l :: 0 <= l < i ==> lists[l] == Inserted(was[l], at[l], x)
        invariant forall l :: i <= l < MAX_HEIGHT ==> lists[l] == was[l]
      {
        ReadyAt(head, Links(), lists, max_height, was, key, prev, at, i, x);
        LinkOne(i, x, prev[i], at[i]);
      }
    }
  }

  /** From level `low` up, `prev` and `at` say where the key goes. */
  ghost predicate Placed(head: Node, lists: seq<seq<Node>>, key: UserKey, prev: seq<Node>, at: seq<nat>, low: nat) {
    && |lists| == |prev| == |at| == MAX_HEIGHT
    && forall l :: low <= l < MAX_HEIGHT ==> SplitAt(lists[l], key, at[l]) && prev[l] == Before(head, lists[l], at[l])
  }

  lemma PlacedAll(head: Node, lists: seq<seq<Node>>, max: nat, key: UserKey, prev: seq<Node>, at: seq<nat>)
    requires |lists| == |prev| == |at| == MAX_HEIGHT && max <= MAX_HEIGHT
    requires Recorded(head, lists, max, key, prev[..max], at[..max], 0)
    requires forall l :: max <= l < MAX_HEIGHT ==> lists[l] == [] && prev[l] == head && at[l] == 0
    ensures Placed(head, lists, key, prev, at, 0)
  {
    forall l | 0 <= l < MAX_HEIGHT ensures SplitAt(lists[l], key, at[l]) && prev[l] == Before(head, lists[l], at[l]) {
      if l < max {
        assert at[..max][l] == at[l] && prev[..max][l] == prev[l];
      }
    }
  }

  lemma ReadyAt(head: Node, links: Links, lists: seq<seq<Node>>, max: nat, was: seq<seq<Node>>, key: UserKey,
                prev: seq<Node>, at: seq<nat>, i: nat, x: Node)
    requires Shape(head, links, lists, max) && Placed(head, lists, key, prev, at, i) && i < MAX_HEIGHT && |was| == MAX_HEIGHT
    requires x != head && x.key == key && Has(links, x, i) && forall n :: n in was[0] ==> n.key != key
    requires forall l :: 0 <= l < i ==> at[l] <= |was[l]| && lists[l] == Inserted(was[l], at[l], x)
    requires lists[i] == was[i] && Nested(was[i], was[0])
    ensures Ready(head, links, lists, i, x, prev[i], at[i]) && Has(links, prev[i], i)
  {
    LinkAt(head, links, lists, max, i, at[i]);
    forall m | 0 <= m < i ensures x in lists[m] {
      InsertedMembers(was[m], at[m], x);
    }
  }

  lemma EmptyShape(head: Node, links: Links)
    requires links == map[head := [null, null, null, null, null, null, null, null, null, null, null, null]]
    ensures Shape(head, links, [[], [], [], [], [], [], [], [], [], [], [], []], 1)
  {
    var lists: seq<seq<Node>> := [[], [], [], [], [], [], [], [], [], [], [], []];
    forall l: nat | l < MAX_HEIGHT ensures lists[l] == [] && Level(head, links, lists[l], l) {
      assert LinkOk(head, links, [], l, 0);
    }
  }

  lemma DropAny(head: Node, links: Links, lists: seq<seq<Node>>, max: nat, x: Node, level: nat, i: nat) returns (i': nat)
    requires Shape(head, links, lists, max) && 0 < level < MAX_HEIGHT && i <= |lists[level]| && x == Before(head, lists[level], i)
    ensures i' <= |lists[level - 1]| && x == Before(head, lists[level - 1], i')
  {
    assert Nested(lists[level], lists[level - 1]);
    if i == 0 {
      return 0;
    }
    assert x in lists[level];
    var k :| 0 <= k < |lists[level - 1]| && lists[level - 1][k] == x;
    return k + 1;
  }
}

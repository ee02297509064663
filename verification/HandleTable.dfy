/** The cache's hash table (kv/util/cache.cpp, HandleTable): chained buckets, doubled when there are more elements
    than buckets. */
module HandleTables {
  import opened Format

  /** What the table knows of a handle. */
  datatype Item = Item(id: nat, key: Bytes, hash: nat)

  predicate Matches(e: Item, key: Bytes, hash: nat) { e.hash == hash && e.key == key }

  /** Bitwise and. */
  function And(a: nat, b: nat): nat {
    if a == 0 || b == 0 then 0 else 2 * And(a / 2, b / 2) + a % 2 * (b % 2)
  }

  predicate TwoPower(n: nat) {
    n == 1 || (n > 1 && n % 2 == 0 && TwoPower(n / 2))
  }

  /** The number of buckets for `elems` handles: the smallest power of two, from 4 on, with no fewer. */
  predicate Grown(n: nat, elems: nat) {
    TwoPower(n) && 4 <= n && elems <= n && (n == 4 || n < 2 * elems)
  }

  lemma DoublesGrow(n: nat, elems: nat)
    requires TwoPower(n) && 4 <= n < elems
    ensures TwoPower(2 * n) && 2 * n < 2 * elems
  {
    assert 2 * n / 2 == n;
  }

  lemma Halves(h: nat, m: nat)
    requires m > 0
    ensures h % (2 * m) == 2 * (h / 2 % m) + h % 2
  {
    var q, r := h / 2 / m, h / 2 % m;
    assert h / 2 == q * m + r;
    Remainder(h, 2 * m, q, 2 * r + h % 2);
  }

  lemma Remainder(h: nat, n: nat, q: nat, r: nat)
    requires r < n && h == q * n + r
    ensures h % n == r
  {
    SameRemainder(h / n, q, n, h % n, r);
  }

  lemma SameRemainder(p: nat, q: nat, n: nat, a: nat, b: nat)
    requires a < n && b < n && p * n + a == q * n + b
    ensures a == b
  {
    assert (q - p) * n == a - b;
    if p < q {
      AtLeast(q - p, n);
    } else if q < p {
      AtLeast(p - q, n);
    }
  }

  lemma AtLeast(k: nat, n: nat)
    requires k > 0
    ensures k * n >= n
  {
  }

  /** hash & (length - 1): with a power of two as the length, the remainder. */
  lemma {:induction false} MaskIsRemainder(h: nat, n: nat)
    requires TwoPower(n)
    ensures And(h, n - 1) == h % n
  {
    if n > 1 {
      var m := n / 2;
      MaskIsRemainder(h / 2, m);
      Halves(h, m);
      assert (n - 1) / 2 == m - 1 && (n - 1) % 2 == 1;
    }
  }

  /** A chain's handles all belong in bucket `b` of `n`, and no two of them have the same key and hash. */
  ghost predicate ChainOk(chain: seq<Item>, b: nat, n: nat)
    requires n > 0
  {
    && (forall i :: 0 <= i < |chain| ==> chain[i].hash % n == b)
    && forall i, j :: 0 <= i < j < |chain| ==> !Matches(chain[i], chain[j].key, chain[j].hash)
  }

  ghost predicate TableOk(list: seq<seq<Item>>) {
    |list| > 0 && forall b: nat :: b < |list| ==> ChainOk(list[b], b, |list|)
  }

  ghost function Contents(list: seq<seq<Item>>): set<Item> {
    set b, e | 0 <= b < |list| && e in list[b] :: e
  }

  function Total(list: seq<seq<Item>>): nat {
    if list == [] then 0 else Total(list[..|list| - 1]) + |list[|list| - 1]|
  }

  /** Where the key is in its chain, or the end of the chain. */
  ghost predicate IsSlot(chain: seq<Item>, key: Bytes, hash: nat, i: nat) {
    && i <= |chain| && (forall j :: 0 <= j < i ==> !Matches(chain[j], key, hash))
    && (i < |chain| ==> Matches(chain[i], key, hash))
  }

  /** A key is in the table exactly if its own bucket has it. */
  lemma SlotDecides(list: seq<seq<Item>>, key: Bytes, hash: nat, i: nat)
    requires TableOk(list) && IsSlot(list[hash % |list|], key, hash, i)
    ensures forall e :: e in Contents(list) && Matches(e, key, hash) <==> i < |list[hash % |list|]| && e == list[hash % |list|][i]
  {
    var b := hash % |list|;
    assert ChainOk(list[b], b, |list|);
    forall e | e in Contents(list) && Matches(e, key, hash) ensures i < |list[b]| && e == list[b][i] {
      var c: nat :| c < |list| && e in list[c];
      assert ChainOk(list[c], c, |list|);
      var j :| 0 <= j < |list[b]| && list[b][j] == e;
    }
    assert i < |list[b]| ==> list[b][i] in list[b];
  }

  lemma {:induction false} TotalUpdate(list: seq<seq<Item>>, b: nat, chain: seq<Item>)
    requires b < |list|
    ensures Total(list[b := chain]) + |list[b]| == Total(list) + |chain|
  {
    var n := |list| - 1;
    var list' := list[b := chain];
    if b == n {
      assert list'[..n] == list[..n];
    } else {
      assert list'[..n] == list[..n][b := chain];
      TotalUpdate(list[..n], b, chain);
    }
  }

  /** Replacing one chain. */
  lemma ChainUpdate(list: seq<seq<Item>>, b: nat, chain: seq<Item>)
    requires TableOk(list) && b < |list| && ChainOk(chain, b, |list|)
    ensures TableOk(list[b := chain])
    ensures forall e :: e in Contents(list[b := chain]) <==> e in chain || (e in Contents(list) && e.hash % |list| != b)
  {
    var list' := list[b := chain];
    forall c: nat | c < |list'| ensures ChainOk(list'[c], c, |list'|) {
      assert ChainOk(list[c], c, |list|);
    }
    forall e ensures e in Contents(list') <==> e in chain || (e in Contents(list) && e.hash % |list| != b) {
      if e in Contents(list') {
        var c: nat :| c < |list'| && e in list'[c];
        assert ChainOk(list[c], c, |list|);
      }
      if e in chain {
        assert list'[b] == chain;
      }
      if e in Contents(list) && e.hash % |list| != b {
        var c: nat :| c < |list| && e in list[c];
        assert ChainOk(list[c], c, |list|);
        assert list'[c] == list[c];
      }
    }
  }

  lemma Member(list: seq<seq<Item>>, b: nat, i: nat)
    requires b < |list| && i < |list[b]|
    ensures list[b][i] in Contents(list)
  {
    assert list[b][i] in list[b];
  }

  lemma InBucket(list: seq<seq<Item>>, e: Item)
    requires TableOk(list)
    ensures e in Contents(list) <==> e in list[e.hash % |list|]
  {
    if e in Contents(list) {
      var c: nat :| c < |list| && e in list[c];
      assert ChainOk(list[c], c, |list|);
    }
  }

  ghost predicate Unmatched(list: seq<seq<Item>>, e: Item) {
    forall d :: d in Contents(list) ==> !Matches(d, e.key, e.hash)
  }

  /** Pushing a new key to the front of its chain. */
  lemma PushFront(list: seq<seq<Item>>, e: Item)
    requires TableOk(list) && Unmatched(list, e)
    ensures var b := e.hash % |list|;
            && TableOk(list[b := [e] + list[b]]) && Contents(list[b := [e] + list[b]]) == Contents(list) + {e}
            && Total(list[b := [e] + list[b]]) == Total(list) + 1
  {
    var b := e.hash % |list|;
    var chain := [e] + list[b];
    assert ChainOk(list[b], b, |list|);
    forall i, j | 0 <= i < j < |chain| ensures !Matches(chain[i], chain[j].key, chain[j].hash) {
      Member(list, b, j - 1);
      assert chain[j] == list[b][j - 1];
      if i > 0 {
        assert chain[i] == list[b][i - 1];
      }
    }
    ChainUpdate(list, b, chain);
    TotalUpdate(list, b, chain);
    forall d ensures d in Contents(list[b := chain]) <==> d in Contents(list) + {e} {
      InBucket(list, d);
    }
  }

  /** Two handles of a table never match, unless they are the same. */
  lemma Unique(list: seq<seq<Item>>, d: Item, e: Item)
    requires TableOk(list) && d in Contents(list) && e in Contents(list) && Matches(d, e.key, e.hash)
    ensures d == e
  {
    InBucket(list, d);
    InBucket(list, e);
    var b := e.hash % |list|;
    assert ChainOk(list[b], b, |list|);
  }

  /** The handles of the first `i` chains and of the first `j` places of the next. */
  ghost function Seen(list: seq<seq<Item>>, i: nat, j: nat): set<Item>
    requires i <= |list| && (i < |list| ==> j <= |list[i]|)
  {
    Contents(list[..i]) + if i < |list| then set e | e in list[i][..j] else {}
  }

  lemma SeenMore(list: seq<seq<Item>>, i: nat, j: nat)
    requires TableOk(list) && i < |list| && j < |list[i]|
    ensures Seen(list, i, j + 1) == Seen(list, i, j) + {list[i][j]} && list[i][j] in Contents(list) && list[i][j] !in Seen(list, i, j)
    ensures Seen(list, i, j) <= Contents(list)
  {
    assert list[i][..j + 1] == list[i][..j] + [list[i][j]];
    var e := list[i][j];
    Member(list, i, j);
    forall d | d in Seen(list, i, j) ensures d in Contents(list) {
      if d in Contents(list[..i]) {
        var c: nat :| c < i && d in list[..i][c];
        assert d in list[c];
      } else {
        assert d in list[i];
      }
    }
    assert ChainOk(list[i], i, |list|);
    forall c: nat | c < i ensures e !in list[c] {
      assert ChainOk(list[c], c, |list|);
    }
  }

  lemma SeenChain(list: seq<seq<Item>>, i: nat)
    requires i < |list|
    ensures Seen(list, i, |list[i]|) == Seen(list, i + 1, 0)
    ensures Total(list[..i + 1]) == Total(list[..i]) + |list[i]|
  {
    assert list[..i + 1][..i] == list[..i];
    assert list[i][..|list[i]|] == list[i];
  }

  class HandleTable {
    var elems: nat
    var list: seq<seq<Item>>

    ghost predicate Valid()
      reads this
    {
      TableOk(list) && elems == Total(list) && TwoPower(|list|) && elems <= |list|
    }

    constructor ()
      ensures Valid() && Contents(list) == {}
    {
      elems := 0;
      list := [[], [], [], []];
      new;
      assert Total(list[..1]) == 0 && Total(list[..2]) == 0 && Total(list[..3]) == 0 by {
        assert list[..1][..0] == [] && list[..2][..1] == list[..1] && list[..3][..2] == list[..2];
      }
    }

    method FindPointer(key: Bytes, hash: nat) returns (b: nat, i: nat)
      requires Valid()
      ensures b == hash % |list| && IsSlot(list[b], key, hash, i)
    {
      MaskIsRemainder(hash, |list|);
      b := And(hash, |list| - 1);
      i := 0;
      while i < |list[b]| && (list[b][i].hash != hash || key != list[b][i].key)
        invariant i <= |list[b]| && forall j :: 0 <= j < i ==> !Matches(list[b][j], key, hash)
      {
        i := i + 1;
      }
    }

    /** Whatever is in the table under a key is found, and nothing else. */
    method Lookup(key: Bytes, hash: nat) returns (r: Option<Item>)
      requires Valid()
      ensures r.Some? ==> r.value in Contents(list) && Matches(r.value, key, hash)
      ensures r.None? ==> forall e :: e in Contents(list) ==> !Matches(e, key, hash)
    {
      var b, i := FindPointer(key, hash);
      SlotDecides(list, key, hash, i);
      r := if i < |list[b]| then Some(list[b][i]) else None;
    }

    /** Put a handle in, in the place of one with the same key if there is one. */
    method Insert(h: Item) returns (was: Option<Item>)
      requires Valid()
      modifies this
      ensures Valid() && Contents(list) == Contents(old(list)) - (if was.Some? then {was.value} else {}) + {h}
      ensures was.Some? ==> was.value in Contents(old(list)) && Matches(was.value, h.key, h.hash)
      ensures was.None? ==> Unmatched(old(list), h)
      ensures elems == old(elems) + if was.Some? then 0 else 1
      ensures if elems > |old(list)| then Grown(|list|, elems) else |list| == |old(list)|
    {
      var b, i := FindPointer(h.key, h.hash);
      SlotDecides(list, h.key, h.hash, i);
      if i < |list[b]| {
        was := Some(list[b][i]);
        ReplaceAt(list, b, i, h);
        list := list[b := list[b][i := h]];
      } else {
        was := None;
        AppendTo(list, b, h);
        list := list[b := list[b] + [h]];
        elems := elems + 1;
        if elems > |list| {
          Resize();
        }
      }
    }

    method Remove(key: Bytes, hash: nat) returns (r: Option<Item>)
      requires Valid()
      modifies this
      ensures Valid() && Contents(list) == Contents(old(list)) - (if r.Some? then {r.value} else {})
      ensures r.Some? ==> r.value in Contents(old(list)) && Matches(r.value, key, hash)
      ensures r.None? ==> forall e :: e in Contents(old(list)) ==> !Matches(e, key, hash)
    {
      var b, i := FindPointer(key, hash);
      SlotDecides(list, key, hash, i);
      r := None;
      if i < |list[b]| {
        r := Some(list[b][i]);
        RemoveAt(list, b, i);
        list := list[b := list[b][..i] + list[b][i + 1..]];
        elems := elems - 1;
      }
    }

    method NewLength() returns (n: nat)
      ensures Grown(n, elems)
    {
      n := 4;
      assert TwoPower(2);
      while n < elems
        invariant TwoPower(n) && n >= 4 && (n == 4 || n < 2 * elems)
        decreases elems - n
      {
        DoublesGrow(n, elems);
        n := 2 * n;
      }
    }

    /** Move every handle to its bucket in a larger table. */
    method Resize()
      requires TableOk(list) && elems == Total(list)
      modifies this
      ensures Valid() && Contents(list) == Contents(old(list)) && Grown(|list|, elems) && elems == old(elems)
    {
      var n := NewLength();
      var fresh_list: seq<seq<Item>> := seq(n, _ => []);
      EmptyTable(fresh_list);
      for i := 0 to |list|
        invariant unchanged(this) && |fresh_list| == n
        invariant TableOk(fresh_list) && Contents(fresh_list) == Seen(list, i, 0) && Total(fresh_list) == Total(list[..i])
      {
        for j := 0 to |list[i]|
          invariant unchanged(this) && |fresh_list| == n
          invariant TableOk(fresh_list) && Contents(fresh_list) == Seen(list, i, j) && Total(fresh_list) == Total(list[..i]) + j
        {
          var h := list[i][j];
          MoveOne(list, i, j, fresh_list);
          MaskIsRemainder(h.hash, n);
          var b := And(h.hash, n - 1);
          fresh_list := fresh_list[b := [h] + fresh_list[b]];
        }
        SeenChain(list, i);
      }
      assert list[..|list|] == list;
      list := fresh_list;
    }
  }

  lemma MoveOne(list: seq<seq<Item>>, i: nat, j: nat, moved: seq<seq<Item>>)
    requires TableOk(list) && i < |list| && j < |list[i]| && TableOk(moved) && Contents(moved) == Seen(list, i, j)
    ensures var h := list[i][j];
            var b := h.hash % |moved|;
            && TableOk(moved[b := [h] + moved[b]]) && Contents(moved[b := [h] + moved[b]]) == Seen(list, i, j + 1)
            && Total(moved[b := [h] + moved[b]]) == Total(moved) + 1
  {
    SeenMore(list, i, j);
    var h := list[i][j];
    forall d | d in Contents(moved) ensures !Matches(d, h.key, h.hash) {
      if Matches(d, h.key, h.hash) {
        Unique(list, d, h);
      }
    }
    PushFront(moved, h);
  }

  lemma {:induction false} EmptyTable(list: seq<seq<Item>>)
    requires |list| > 0 && forall b :: 0 <= b < |list| ==> list[b] == []
    ensures TableOk(list) && Contents(list) == {} && Total(list) == 0
  {
    if |list| > 1 {
      EmptyTable(list[..|list| - 1]);
    }
  }

  lemma ReplaceAt(list: seq<seq<Item>>, b: nat, i: nat, h: Item)
    requires TableOk(list) && b < |list| && i < |list[b]| && Matches(list[b][i], h.key, h.hash)
    ensures var list' := list[b := list[b][i := h]];
            TableOk(list') && Contents(list') == Contents(list) - {list[b][i]} + {h} && Total(list') == Total(list)
  {
    var chain, was := list[b][i := h], list[b][i];
    assert ChainOk(list[b], b, |list|);
    ChainUpdate(list, b, chain);
    TotalUpdate(list, b, chain);
    forall e ensures e in chain <==> e == h || (e in list[b] && e != was) {
      if e in list[b] && e != was {
        var j :| 0 <= j < |list[b]| && list[b][j] == e;
        assert chain[j] == e;
      }
      if e == h {
        assert chain[i] == h;
      }
    }
    forall e ensures e in Contents(list[b := chain]) <==> e in Contents(list) - {was} + {h} {
      InBucket(list, e);
      InBucket(list, was);
    }
  }

  lemma AppendTo(list: seq<seq<Item>>, b: nat, h: Item)
    requires TableOk(list) && b == h.hash % |list| && Unmatched(list, h)
    ensures var list' := list[b := list[b] + [h]];
            TableOk(list') && Contents(list') == Contents(list) + {h} && Total(list') == Total(list) + 1
  {
    var chain := list[b] + [h];
    assert ChainOk(list[b], b, |list|);
    forall i | 0 <= i < |list[b]| ensures !Matches(list[b][i], h.key, h.hash) {
      Member(list, b, i);
    }
    ChainUpdate(list, b, chain);
    TotalUpdate(list, b, chain);
    forall e ensures e in Contents(list[b := chain]) <==> e in Contents(list) + {h} {
      InBucket(list, e);
    }
  }

  lemma RemoveAt(list: seq<seq<Item>>, b: nat, i: nat)
    requires TableOk(list) && b < |list| && i < |list[b]|
    ensures var list' := list[b := list[b][..i] + list[b][i + 1..]];
            TableOk(list') && Contents(list') == Contents(list) - {list[b][i]} && Total(list') == Total(list) - 1
  {
    var was, chain := list[b][i], list[b][..i] + list[b][i + 1..];
    assert ChainOk(list[b], b, |list|);
    forall j | 0 <= j < |chain| ensures chain[j] == list[b][if j < i then j else j + 1] {
    }
    forall e ensures e in chain <==> e in list[b] && e != was {
      if e in list[b] && e != was {
        var j :| 0 <= j < |list[b]| && list[b][j] == e;
        assert e == chain[if j < i then j else j - 1];
      }
    }
    ChainUpdate(list, b, chain);
    TotalUpdate(list, b, chain);
    forall e ensures e in Contents(list[b := chain]) <==> e in Contents(list) - {was} {
      InBucket(list, e);
      InBucket(list, was);
    }
  }
}

/** One shard of the cache (kv/util/cache.cpp, FIFOCache): reference counts, two lists, a charge and a hash table. */
module Caches {
  import opened Format
  import opened HandleTables

  /** A handle; `refs` counts the outstanding references of clients, and one for the cache. */
  datatype Handle = Handle(entry: Item, charge: nat, inCache: bool, refs: nat)

  /** Handles are named by numbers.  `clients` counts the references clients hold; `freed` lists the handles passed to
      their deleters. */
  datatype Cache = Cache(usage: nat, fifo: seq<nat>, inUse: seq<nat>, handles: map<nat, Handle>,
                         clients: multiset<nat>, freed: seq<nat>)

  // ---- Lists ----

  ghost predicate NoDup(ids: seq<nat>) {
    forall i, j :: 0 <= i < j < |ids| ==> ids[i] != ids[j]
  }

  function Without(ids: seq<nat>, id: nat): seq<nat> {
    if ids == [] then [] else if ids[0] == id then ids[1..] else [ids[0]] + Without(ids[1..], id)
  }

  function Charge(handles: map<nat, Handle>, id: nat): nat {
    if id in handles then handles[id].charge else 0
  }

  function Sum(ids: seq<nat>, handles: map<nat, Handle>): nat {
    if ids == [] then 0 else Charge(handles, ids[0]) + Sum(ids[1..], handles)
  }

  lemma NoDupCons(id: nat, ids: seq<nat>)
    requires NoDup(ids) && id !in ids
    ensures NoDup([id] + ids) && NoDup(ids + [id])
  {
    var r := [id] + ids;
    forall i, j | 0 <= i < j < |r| ensures r[i] != r[j] {
      assert r[j] == ids[j - 1];
    }
  }

  lemma {:induction false} WithoutSpec(ids: seq<nat>, id: nat, handles: map<nat, Handle>)
    requires NoDup(ids)
    ensures NoDup(Without(ids, id)) && forall x :: x in Without(ids, id) <==> x in ids && x != id
    ensures id in ids ==> Sum(ids, handles) == Charge(handles, id) + Sum(Without(ids, id), handles)
  {
    if ids != [] {
      assert forall x :: x in ids <==> x == ids[0] || x in ids[1..];
      if ids[0] != id {
        var rest := Without(ids[1..], id);
        WithoutSpec(ids[1..], id, handles);
        assert ids[0] !in rest;
        NoDupCons(ids[0], rest);
      }
    }
  }

  lemma {:induction false} SumSnoc(ids: seq<nat>, id: nat, handles: map<nat, Handle>)
    ensures Sum(ids + [id], handles) == Sum(ids, handles) + Charge(handles, id)
  {
    if ids != [] {
      assert (ids + [id])[1..] == ids[1..] + [id];
      SumSnoc(ids[1..], id, handles);
    } else {
      assert [id][1..] == [];
    }
  }

  lemma {:induction false} SumSame(ids: seq<nat>, handles: map<nat, Handle>, handles': map<nat, Handle>)
    requires forall id :: id in ids ==> Charge(handles, id) == Charge(handles', id)
    ensures Sum(ids, handles) == Sum(ids, handles')
  {
    if ids != [] {
      SumSame(ids[1..], handles, handles');
    }
  }

  // ---- The invariant ----

  ghost predicate RefOk(c: Cache, id: nat) {
    if id in c.handles then
      var h := c.handles[id];
      h.entry.id == id && h.refs > 0 && h.refs == c.clients[id] + if h.inCache then 1 else 0
    else c.clients[id] == 0
  }

  /** A cached handle is in exactly one list: fifo_ if only the cache refers to it, in_use_ if clients do. */
  ghost predicate Listed(c: Cache, id: nat) {
    && (id in c.fifo <==> id in c.handles && c.handles[id].inCache && c.handles[id].refs == 1)
    && (id in c.inUse <==> id in c.handles && c.handles[id].inCache && c.handles[id].refs >= 2)
  }

  ghost predicate ListsOk(c: Cache) {
    NoDup(c.fifo) && NoDup(c.inUse) && forall id :: Listed(c, id)
  }

  ghost predicate UsageOk(c: Cache) {
    c.usage == Sum(c.fifo, c.handles) + Sum(c.inUse, c.handles)
  }

  /** A handle is freed once, and then it is gone. */
  ghost predicate FreedOk(c: Cache) {
    NoDup(c.freed) && forall id :: id in c.freed ==> id !in c.handles
  }

  ghost predicate Inv(c: Cache) {
    (forall id :: RefOk(c, id)) && ListsOk(c) && UsageOk(c) && FreedOk(c)
  }

  ghost function Cached(c: Cache): set<Item> {
    set id | id in c.handles && c.handles[id].inCache :: c.handles[id].entry
  }

  // ---- What the operations do ----

  /** Ref, for a client. */
  function RefOf(c: Cache, id: nat): Cache
    requires id in c.handles
  {
    var h := c.handles[id];
    var moved := h.refs == 1 && h.inCache;
    c.(fifo := if moved then Without(c.fifo, id) else c.fifo, inUse := if moved then c.inUse + [id] else c.inUse,
       handles := c.handles[id := h.(refs := h.refs + 1)], clients := c.clients + multiset{id})
  }

  /** Unref: one reference less, and the handle is freed or becomes evictable. */
  function UnrefOf(c: Cache, id: nat): Cache
    requires id in c.handles && c.handles[id].refs > 0
  {
    var h := c.handles[id];
    if h.refs == 1 then c.(handles := c.handles - {id}, freed := c.freed + [id])
    else
      var moved := h.inCache && h.refs == 2;
      c.(handles := c.handles[id := h.(refs := h.refs - 1)],
         inUse := if moved then Without(c.inUse, id) else c.inUse, fifo := if moved then c.fifo + [id] else c.fifo)
  }

  /** Release: a client gives its reference back. */
  function ReleaseOf(c: Cache, id: nat): Cache
    requires id in c.handles && c.handles[id].refs > 0
  {
    UnrefOf(c.(clients := c.clients - multiset{id}), id)
  }

  /** FinishErase: out of its list, out of the charge, and the cache's reference dropped. */
  function EraseOf(c: Cache, id: nat): Cache
    requires id in c.handles && c.handles[id].inCache && c.handles[id].refs > 0 && c.handles[id].charge <= c.usage
  {
    var h := c.handles[id];
    var c' := c.(fifo := Without(c.fifo, id), inUse := Without(c.inUse, id), usage := c.usage - h.charge,
                 handles := c.handles[id := h.(inCache := false)]);
    UnrefOf(c', id)
  }

  /** A new handle with one client, in the cache or not. */
  function AddOf(c: Cache, entry: Item, charge: nat, cached: bool): Cache {
    var h := Handle(entry, charge, cached, if cached then 2 else 1);
    c.(handles := c.handles[entry.id := h], clients := c.clients + multiset{entry.id},
       inUse := if cached then c.inUse + [entry.id] else c.inUse, usage := if cached then c.usage + charge else c.usage)
  }

  // ---- They keep the invariant ----

  lemma RefLists(c: Cache, id: nat)
    requires Inv(c) && id in c.handles
    ensures ListsOk(RefOf(c, id)) && UsageOk(RefOf(c, id))
  {
    var c' := RefOf(c, id);
    assert Listed(c, id);
    WithoutSpec(c.fifo, id, c.handles);
    NoDupAppend(c.inUse, id);
    SumSnoc(c.inUse, id, c.handles);
    SumSame(c'.fifo, c.handles, c'.handles);
    SumSame(c'.inUse, c.handles, c'.handles);
    forall x ensures Listed(c', x) {
      assert Listed(c, x) && RefOk(c, x);
    }
  }

  lemma NoDupAppend(ids: seq<nat>, id: nat)
    requires NoDup(ids)
    ensures id !in ids ==> NoDup(ids + [id])
  {
    if id !in ids {
      NoDupCons(id, ids);
    }
  }

  lemma RefKeeps(c: Cache, id: nat)
    requires Inv(c) && id in c.handles
    ensures Inv(RefOf(c, id)) && Cached(RefOf(c, id)) == Cached(c)
  {
    RefLists(c, id);
    forall x ensures RefOk(RefOf(c, id), x) {
      assert RefOk(c, x);
    }
    CachedSame(c, RefOf(c, id));
  }

  ghost predicate IsCached(c: Cache, id: nat) { id in c.handles && c.handles[id].inCache }

  lemma CachedSame(c: Cache, c': Cache)
    requires forall id :: IsCached(c, id) <==> IsCached(c', id)
    requires forall id :: IsCached(c, id) && IsCached(c', id) ==> c'.handles[id].entry == c.handles[id].entry
    ensures Cached(c') == Cached(c)
  {
    forall e ensures e in Cached(c') <==> e in Cached(c) {
      if e in Cached(c) {
        var id :| id in c.handles && c.handles[id].inCache && c.handles[id].entry == e;
        assert IsCached(c, id);
      }
      if e in Cached(c') {
        var id :| id in c'.handles && c'.handles[id].inCache && c'.handles[id].entry == e;
        assert IsCached(c', id);
      }
    }
  }

  lemma ReleaseLists(c: Cache, id: nat)
    requires Inv(c) && id in c.handles && id in c.clients && c.handles[id].refs > 0
    ensures ListsOk(ReleaseOf(c, id)) && UsageOk(ReleaseOf(c, id))
  {
    var c' := ReleaseOf(c, id);
    assert Listed(c, id) && RefOk(c, id);
    WithoutSpec(c.inUse, id, c.handles);
    NoDupAppend(c.fifo, id);
    SumSnoc(c.fifo, id, c.handles);
    SumSame(c'.fifo, c.handles, c'.handles);
    SumSame(c'.inUse, c.handles, c'.handles);
    forall x ensures Listed(c', x) {
      assert Listed(c, x) && RefOk(c, x);
    }
  }

  lemma ReleaseKeeps(c: Cache, id: nat)
    requires Inv(c) && id in c.clients
    ensures id in c.handles && c.handles[id].refs > 0
    ensures Inv(ReleaseOf(c, id)) && Cached(ReleaseOf(c, id)) == Cached(c)
  {
    assert RefOk(c, id);
    ReleaseLists(c, id);
    forall x ensures RefOk(ReleaseOf(c, id), x) {
      assert RefOk(c, x);
    }
    FreedMore(c, id, ReleaseOf(c, id));
    CachedSame(c, ReleaseOf(c, id));
  }

  lemma FreedMore(c: Cache, id: nat, c': Cache)
    requires FreedOk(c) && id in c.handles && (forall x :: x in c'.handles ==> x in c.handles)
    requires c'.freed == c.freed || (c'.freed == c.freed + [id] && id !in c'.handles)
    ensures FreedOk(c')
  {
    NoDupAppend(c.freed, id);
  }

  lemma ChargeCovered(c: Cache, id: nat)
    requires Inv(c) && id in c.handles && c.handles[id].inCache
    ensures c.handles[id].charge <= c.usage && c.handles[id].refs > 0
  {
    assert Listed(c, id) && RefOk(c, id);
    WithoutSpec(c.fifo, id, c.handles);
    WithoutSpec(c.inUse, id, c.handles);
  }

  lemma EraseLists(c: Cache, id: nat)
    requires Inv(c) && id in c.handles && c.handles[id].inCache && c.handles[id].charge <= c.usage && c.handles[id].refs > 0
    ensures ListsOk(EraseOf(c, id)) && UsageOk(EraseOf(c, id))
  {
    var c' := EraseOf(c, id);
    assert Listed(c, id) && RefOk(c, id);
    WithoutSpec(c.fifo, id, c.handles);
    WithoutSpec(c.inUse, id, c.handles);
    WithoutOther(c.fifo, id);
    WithoutOther(c.inUse, id);
    SumSame(c'.fifo, c.handles, c'.handles);
    SumSame(c'.inUse, c.handles, c'.handles);
    forall x ensures Listed(c', x) {
      assert Listed(c, x) && RefOk(c, x);
    }
  }

  lemma {:induction false} WithoutOther(ids: seq<nat>, id: nat)
    ensures id !in ids ==> Without(ids, id) == ids
  {
    if ids != [] {
      WithoutOther(ids[1..], id);
    }
  }

  lemma EraseKeeps(c: Cache, id: nat)
    requires Inv(c) && id in c.handles && c.handles[id].inCache
    ensures c.handles[id].charge <= c.usage && c.handles[id].refs > 0
    ensures Inv(EraseOf(c, id)) && Cached(EraseOf(c, id)) == Cached(c) - {c.handles[id].entry}
  {
    ChargeCovered(c, id);
    EraseLists(c, id);
    var c' := EraseOf(c, id);
    forall x ensures RefOk(c', x) {
      assert RefOk(c, x);
    }
    FreedMore(c, id, c');
    forall e ensures e in Cached(c') <==> e in Cached(c) && e != c.handles[id].entry {
      assert RefOk(c, e.id) && RefOk(c, id);
      if e in Cached(c) && e != c.handles[id].entry {
        var x :| x in c.handles && c.handles[x].inCache && c.handles[x].entry == e;
        assert x != id && c'.handles[x] == c.handles[x];
      }
      if e in Cached(c') {
        var x :| x in c'.handles && c'.handles[x].inCache && c'.handles[x].entry == e;
        assert x != id && RefOk(c, x);
      }
    }
  }

  lemma AddLists(c: Cache, entry: Item, charge: nat, cached: bool)
    requires Inv(c) && entry.id !in c.handles
    ensures ListsOk(AddOf(c, entry, charge, cached)) && UsageOk(AddOf(c, entry, charge, cached))
  {
    var c' := AddOf(c, entry, charge, cached);
    assert Listed(c, entry.id);
    NoDupAppend(c.inUse, entry.id);
    SumSnoc(c.inUse, entry.id, c'.handles);
    SumSame(c.fifo, c.handles, c'.handles);
    SumSame(c.inUse, c.handles, c'.handles);
    forall x ensures Listed(c', x) {
      assert Listed(c, x);
    }
  }

  lemma AddKeeps(c: Cache, entry: Item, charge: nat, cached: bool)
    requires Inv(c) && entry.id !in c.handles && entry.id !in c.freed
    ensures Inv(AddOf(c, entry, charge, cached))
    ensures Cached(AddOf(c, entry, charge, cached)) == Cached(c) + if cached then {entry} else {}
  {
    AddLists(c, entry, charge, cached);
    var c' := AddOf(c, entry, charge, cached);
    forall x ensures RefOk(c', x) {
      assert RefOk(c, x);
    }
    forall e | e in Cached(c) ensures e in Cached(c') {
      var x :| x in c.handles && c.handles[x].inCache && c.handles[x].entry == e;
      assert c'.handles[x] == c.handles[x];
    }
    if cached {
      assert c'.handles[entry.id].entry == entry;
    }
  }

  // ---- The shard ----

  class FIFOCache {
    var capacity: nat
    var usage: nat
    var fifo: seq<nat>
    var in_use: seq<nat>
    var handles: map<nat, Handle>
    const table: HandleTable
    ghost var clients: multiset<nat>
    ghost var freed: seq<nat>

    ghost function Now(): Cache
      reads this
    {
      Cache(usage, fifo, in_use, handles, clients, freed)
    }

    /** The invariant; and the table holds exactly the cached handles, so each is found under its key. */
    ghost predicate Valid()
      reads this, table
    {
      Inv(Now()) && table.Valid() && Contents(table.list) == Cached(Now())
    }

    constructor (capacity: nat)
      ensures Valid() && this.capacity == capacity && handles == map[] && clients == multiset{} && freed == [] && fresh(table)
    {
      this.capacity := capacity;
      usage, fifo, in_use, handles := 0, [], [], map[];
      clients, freed := multiset{}, [];
      table := new HandleTable();
      new;
      assert forall id :: RefOk(Now(), id) && Listed(Now(), id);
    }

    method Ref(id: nat)
      requires id in handles
      modifies this
      ensures Now() == RefOf(old(Now()), id) && capacity == old(capacity)
    {
      var e := handles[id];
      if e.refs == 1 && e.inCache {
        fifo := Without(fifo, id);
        in_use := in_use + [id];
      }
      handles := handles[id := e.(refs := e.refs + 1)];
      clients := clients + multiset{id};
    }

    method Unref(id: nat)
      requires id in handles && handles[id].refs > 0
      modifies this
      ensures Now() == UnrefOf(old(Now()), id) && capacity == old(capacity)
    {
      var e := handles[id];
      var refs := e.refs - 1;
      if refs == 0 {
        handles := handles - {id};
        freed := freed + [id];
        return;
      }
      handles := handles[id := e.(refs := refs)];
      if e.inCache && refs == 1 {
        in_use := Without(in_use, id);
        fifo := fifo + [id];
      }
    }

    method FinishErase(id: nat)
      requires Inv(Now()) && IsCached(Now(), id)
      modifies this
      ensures Inv(Now()) && Cached(Now()) == Cached(old(Now())) - {old(handles[id].entry)} && capacity == old(capacity)
      ensures Now() == Erased(old(Now()), id)
    {
      EraseKeeps(Now(), id);
      var e := handles[id];
      fifo := Without(fifo, id);
      in_use := Without(in_use, id);
      handles := handles[id := e.(inCache := false)];
      usage := usage - e.charge;
      Unref(id);
    }

    method Lookup(key: Bytes, hash: nat) returns (r: Option<nat>)
      requires Valid()
      modifies this
      ensures Valid() && capacity == old(capacity)
      ensures r.None? ==> Now() == old(Now()) && forall id :: IsCached(Now(), id) ==> !Matches(handles[id].entry, key, hash)
      ensures r.Some? ==> IsCached(old(Now()), r.value) && Matches(old(handles[r.value].entry), key, hash)
                          && Now() == RefOf(old(Now()), r.value)
    {
      var e := table.Lookup(key, hash);
      if e.None? {
        CachedEntry(Now());
        return None;
      }
      var id := e.value.id;
      CachedIs(Now(), e.value);
      RefKeeps(Now(), id);
      Ref(id);
      return Some(id);
    }

    method Release(id: nat)
      requires Valid() && id in clients
      modifies this
      ensures Valid() && capacity == old(capacity) && id in old(handles) && old(handles)[id].refs > 0
      ensures Now() == ReleaseOf(old(Now()), id)
    {
      ReleaseKeeps(Now(), id);
      clients := clients - multiset{id};
      Unref(id);
    }

    /** Erase: exactly the entry with the key leaves the cache. */
    method Erase(key: Bytes, hash: nat)
      requires Valid()
      modifies this, table
      ensures Valid() && capacity == old(capacity) && clients == old(clients)
      ensures forall e :: e in Cached(Now()) <==> e in Cached(old(Now())) && !Matches(e, key, hash)
    {
      ghost var list := table.list;
      var e := table.Remove(key, hash);
      RemovedOnly(list, key, hash, e);
      if e.Some? {
        CachedIs(Now(), e.value);
        FinishErase(e.value.id);
      }
    }

    /** Evict the oldest unused handle. */
    method Evict()
      requires Valid() && fifo != []
      modifies this, table
      ensures Valid() && capacity == old(capacity) && clients == old(clients) && fifo == old(fifo)[1..] && in_use == old(in_use)
      ensures forall id :: id in clients ==> id in handles && id in old(handles) && handles[id] == old(handles)[id]
      ensures handles == old(handles) - {old(fifo)[0]} && usage + Charge(old(handles), old(fifo)[0]) == old(usage)
    {
      var id := fifo[0];
      assert Listed(Now(), id) && RefOk(Now(), id);
      assert IsCached(Now(), id);
      CachedEntry(Now());
      var e := table.Remove(handles[id].entry.key, handles[id].entry.hash);
      RemovedIs(Now(), old(table.list), e, id);
      ghost var was := Now();
      FinishErase(id);
      EvictedLists(was, id);
    }

    method AddEntry(e: Item, charge: nat)
      requires Inv(Now()) && e.id !in handles && e.id !in freed
      modifies this
      ensures Inv(Now()) && Now() == AddOf(old(Now()), e, charge, true) && Cached(Now()) == Cached(old(Now())) + {e}
      ensures capacity == old(capacity)
    {
      AddKeeps(Now(), e, charge, true);
      handles := handles[e.id := Handle(e, charge, true, 2)];
      clients := clients + multiset{e.id};
      in_use := in_use + [e.id];
      usage := usage + charge;
    }

    /** Take a new handle into the cache; a handle with the same key, and no other, goes. */
    method Admit(e: Item, charge: nat) returns (ghost gone: Option<nat>)
      requires Valid() && e.id !in handles && e.id !in freed
      modifies this, table
      ensures Valid() && capacity == old(capacity) && clients == old(clients) + multiset{e.id} && IsCached(Now(), e.id)
      ensures handles[e.id].entry == e && handles[e.id].charge == charge
      ensures gone.Some? ==> IsCached(old(Now()), gone.value) && Matches(old(handles)[gone.value].entry, e.key, e.hash)
      ensures fifo == Leaving(old(fifo), gone) && in_use == Leaving(old(in_use) + [e.id], gone)
      ensures forall x :: x in fifo ==> Charge(handles, x) == Charge(old(handles), x)
      ensures usage + (if gone.Some? then Charge(old(handles), gone.value) else 0) == old(usage) + charge
    {
      ghost var was := Now();
      AddEntry(e, charge);
      var replaced := table.Insert(e);
      gone := None;
      if replaced.Some? {
        gone := Some(replaced.value.id);
        CachedIs(was, replaced.value);
        assert IsCached(Now(), gone.value) && gone.value != e.id;
        ghost var c := Now();
        FinishErase(replaced.value.id);
        ErasedLists(c, gone.value);
      }
      FifoCharges(was, Now(), e.id, gone);
    }

    /** Insert: afterwards the charge is within the capacity, or everything cached is in use; and the caller holds a
        reference to the new handle, cached unless caching is off.  Besides a handle with the same key only the oldest
        of the unused handles leave the cache. */
    method Insert(key: Bytes, hash: nat, charge: nat, id: nat) returns (ghost gone: Option<nat>, ghost evicted: nat)
      requires Valid() && id !in handles && id !in freed
      modifies this, table
      ensures Valid() && capacity == old(capacity) && clients == old(clients) + multiset{id}
      ensures usage <= capacity || fifo == []
      ensures id in handles && handles[id].entry == Item(id, key, hash) && handles[id].charge == charge
      ensures handles[id].inCache <==> capacity > 0
      ensures gone.Some? ==> IsCached(old(Now()), gone.value) && Matches(old(handles)[gone.value].entry, key, hash)
      ensures evicted <= |Leaving(old(fifo), gone)| && fifo == Leaving(old(fifo), gone)[evicted..]
      ensures in_use == if capacity > 0 then Leaving(old(in_use) + [id], gone) else old(in_use)
      ensures evicted > 0 ==> usage + Charge(old(handles), Leaving(old(fifo), gone)[evicted - 1]) > capacity
      ensures old(usage) + (if capacity > 0 then charge else 0) <= capacity ==> evicted == 0
    {
      var e := Item(id, key, hash);
      gone, evicted := None, 0;
      if capacity > 0 {
        gone := Admit(e, charge);
      } else {
        AddUncached(e, charge);
      }
      ghost var list := fifo;
      evicted := EvictDown(id);
      assert evicted > 0 ==> list[evicted - 1] in list;
    }

    /** Caching is off: the caller has the only reference. */
    method AddUncached(e: Item, charge: nat)
      requires Valid() && e.id !in handles && e.id !in freed
      modifies this
      ensures Valid() && capacity == old(capacity) && clients == old(clients) + multiset{e.id}
      ensures e.id in handles && handles[e.id] == Handle(e, charge, false, 1)
      ensures fifo == old(fifo) && in_use == old(in_use) && usage == old(usage)
      ensures forall x :: x in fifo ==> Charge(handles, x) == Charge(old(handles), x)
    {
      ghost var was := Now();
      AddKeeps(was, e, charge, false);
      handles := handles[e.id := Handle(e, charge, false, 1)];
      clients := clients + multiset{e.id};
      FifoCharges(was, Now(), e.id, None);
    }

    /** The loop of Insert. */
    method EvictDown(ghost id: nat) returns (ghost evicted: nat)
      requires Valid() && id in clients
      modifies this, table
      ensures Valid() && capacity == old(capacity) && clients == old(clients) && in_use == old(in_use)
      ensures usage <= capacity || fifo == []
      ensures id in handles && id in old(handles) && handles[id] == old(handles)[id]
      ensures evicted <= |old(fifo)| && fifo == old(fifo)[evicted..]
      ensures evicted > 0 ==> usage + Charge(old(handles), old(fifo)[evicted - 1]) > capacity
      ensures old(usage) <= capacity ==> evicted == 0
    {
      evicted := 0;
      assert RefOk(Now(), id);
      while usage > capacity && fifo != []
        invariant Valid() && capacity == old(capacity) && clients == old(clients) && in_use == old(in_use)
        invariant id in handles && id in old(handles) && handles[id] == old(handles)[id]
        invariant evicted <= |old(fifo)| && fifo == old(fifo)[evicted..]
        invariant forall x :: x in fifo ==> Charge(handles, x) == Charge(old(handles), x)
        invariant evicted > 0 ==> usage + Charge(old(handles), old(fifo)[evicted - 1]) > capacity
        invariant usage <= old(usage) && (old(usage) <= capacity ==> evicted == 0)
        decreases |fifo|
      {
        FirstOnce(Now());
        Evict();
        evicted := evicted + 1;
      }
    }

    /** Prune: what is in use stays, and nothing else. */
    method Prune()
      requires Valid()
      modifies this, table
      ensures Valid() && capacity == old(capacity) && clients == old(clients) && fifo == [] && in_use == old(in_use)
      ensures forall id :: IsCached(Now(), id) <==> id in old(in_use)
    {
      while fifo != []
        invariant Valid() && capacity == old(capacity) && clients == old(clients) && in_use == old(in_use)
        decreases |fifo|
      {
        Evict();
      }
      forall id ensures IsCached(Now(), id) <==> id in old(in_use) {
        assert Listed(Now(), id) && RefOk(Now(), id);
      }
    }
  }

  lemma FirstOnce(c: Cache)
    requires Inv(c) && c.fifo != []
    ensures c.fifo[0] in c.fifo && c.fifo[0] !in c.fifo[1..]
  {
  }

  function Leaving(ids: seq<nat>, gone: Option<nat>): seq<nat> {
    if gone.Some? then Without(ids, gone.value) else ids
  }

  lemma RemovedOnly(list: seq<seq<Item>>, key: Bytes, hash: nat, r: Option<Item>)
    requires TableOk(list)
    requires r.Some? ==> r.value in Contents(list) && Matches(r.value, key, hash)
    requires r.None? ==> forall e :: e in Contents(list) ==> !Matches(e, key, hash)
    ensures forall e :: e in Contents(list) - (if r.Some? then {r.value} else {}) <==> e in Contents(list) && !Matches(e, key, hash)
  {
    forall e | e in Contents(list) && Matches(e, key, hash) ensures r == Some(e) {
      if r.Some? {
        Unique(list, r.value, e);
      }
    }
  }

  lemma ErasedLists(c: Cache, id: nat)
    requires Inv(c) && IsCached(c, id)
    ensures Erased(c, id).fifo == Without(c.fifo, id) && Erased(c, id).inUse == Without(c.inUse, id)
    ensures Erased(c, id).clients == c.clients && Erased(c, id).usage + Charge(c.handles, id) == c.usage
    ensures forall x :: x != id ==> (x in Erased(c, id).handles <==> x in c.handles)
                                    && (x in c.handles ==> Erased(c, id).handles[x] == c.handles[x])
  {
  }

  lemma FifoCharges(was: Cache, c: Cache, id: nat, gone: Option<nat>)
    requires Inv(was) && id !in was.handles && c.fifo == Leaving(was.fifo, gone)
    requires forall x :: x in was.handles && x != id && gone != Some(x) ==> x in c.handles && c.handles[x] == was.handles[x]
    ensures forall x :: x in c.fifo ==> Charge(c.handles, x) == Charge(was.handles, x)
  {
    if gone.Some? {
      WithoutSpec(was.fifo, gone.value, was.handles);
    }
    forall x | x in c.fifo ensures Charge(c.handles, x) == Charge(was.handles, x) {
      assert Listed(was, x);
    }
  }

  /** FinishErase on a handle of a cache in order. */
  ghost function Erased(c: Cache, id: nat): Cache
    requires Inv(c) && IsCached(c, id)
  {
    ChargeCovered(c, id);
    EraseOf(c, id)
  }

  lemma CachedEntry(c: Cache)
    ensures forall id :: IsCached(c, id) ==> c.handles[id].entry in Cached(c)
  {
  }

  /** The handle an entry of the table stands for. */
  lemma CachedIs(c: Cache, e: Item)
    requires Inv(c) && e in Cached(c)
    ensures IsCached(c, e.id) && c.handles[e.id].entry == e
  {
    var id :| id in c.handles && c.handles[id].inCache && c.handles[id].entry == e;
    assert RefOk(c, id);
  }

  /** No two cached handles have the same key. */
  lemma KeysAreUnique(c: Cache, list: seq<seq<Item>>, a: nat, b: nat)
    requires Inv(c) && TableOk(list) && Contents(list) == Cached(c) && IsCached(c, a) && IsCached(c, b)
    requires Matches(c.handles[a].entry, c.handles[b].entry.key, c.handles[b].entry.hash)
    ensures a == b
  {
    assert c.handles[a].entry in Cached(c) && c.handles[b].entry in Cached(c);
    Unique(list, c.handles[a].entry, c.handles[b].entry);
    assert RefOk(c, a) && RefOk(c, b);
  }

  lemma RemovedIs(c: Cache, list: seq<seq<Item>>, e: Option<Item>, id: nat)
    requires Inv(c) && TableOk(list) && Contents(list) == Cached(c) && IsCached(c, id)
    requires e.Some? ==> e.value in Contents(list) && Matches(e.value, c.handles[id].entry.key, c.handles[id].entry.hash)
    requires e.None? ==> forall d :: d in Contents(list) ==> !Matches(d, c.handles[id].entry.key, c.handles[id].entry.hash)
    ensures e == Some(c.handles[id].entry)
  {
    assert c.handles[id].entry in Cached(c);
    if e.Some? {
      Unique(list, e.value, c.handles[id].entry);
    }
  }

  lemma EvictedLists(c: Cache, id: nat)
    requires Inv(c) && IsCached(c, id) && c.fifo != [] && c.fifo[0] == id
    ensures var c' := Erased(c, id);
            && c'.fifo == c.fifo[1..] && c'.inUse == c.inUse && c'.clients == c.clients
            && c'.handles == c.handles - {id} && c'.usage + Charge(c.handles, id) == c.usage
            && forall x :: x in c.clients ==> x in c'.handles && c'.handles[x] == c.handles[x]
  {
    assert Listed(c, id) && RefOk(c, id);
    WithoutOther(c.inUse, id);
    forall x | x in c.clients ensures x in c.handles && x != id {
      assert RefOk(c, x);
    }
  }
}

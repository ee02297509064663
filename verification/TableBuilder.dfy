/** Building a table (kv/table/table_builder.cpp, Add, Flush and Finish). */
module TableBuilders {
  import opened Format
  import opened Coding
  import opened Bloom
  import opened FilterBlocks
  import opened TwoLevelIterators
  import opened Concatenation
  import opened Tables
  import Versions

  /** Every index entry so far lies between its block and the entry `e`. */
  ghost predicate AllBetween(blocks: seq<seq<Entry>>, index: seq<IKey>, e: Entry)
    requires |index| <= |blocks| && Blocked(blocks)
  {
    forall b :: 0 <= b < |index| ==> Between(LastOf(blocks[b]), index[b], e)
  }

  ghost predicate BlockBetween(blocks: seq<seq<Entry>>, index: seq<IKey>, block: seq<Entry>)
    requires |index| <= |blocks| && Blocked(blocks)
  {
    forall e :: e in block ==> AllBetween(blocks, index, e)
  }

  lemma BetweenSnoc(blocks: seq<seq<Entry>>, index: seq<IKey>, block: seq<Entry>, e: Entry)
    requires |index| <= |blocks| && Blocked(blocks) && BlockBetween(blocks, index, block) && AllBetween(blocks, index, e)
    ensures BlockBetween(blocks, index, block + [e])
  {
  }

  lemma LaterBetween(blocks: seq<seq<Entry>>, index: seq<IKey>, d: Entry, e: Entry)
    requires |index| <= |blocks| && Blocked(blocks) && AllBetween(blocks, index, d) && Lt(d.ikey, e.ikey)
    ensures AllBetween(blocks, index, e)
  {
  }

  /** The delayed index entry: between the last key of its block and the first of the next. */
  lemma IndexGrows(blocks: seq<seq<Entry>>, index: seq<IKey>, bound: IKey, e: Entry)
    requires IndexOk(blocks, index) && |index| + 1 == |blocks|
    requires var last := LastOf(blocks[|index|]); Le(last, bound) && Between(last, bound, e) && Lt(last, e.ikey)
    ensures IndexOk(blocks, index + [bound]) && AllBetween(blocks, index + [bound], e)
  {
    var n := |index|;
    var d := blocks[n][|blocks[n]| - 1];
    assert d in blocks[n];
    assert AllBetween(blocks, index, d);
    LaterBetween(blocks, index, d, e);
  }

  lemma BlockGrows(blocks: seq<seq<Entry>>, index: seq<IKey>, block: seq<Entry>)
    requires IndexOk(blocks, index) && block != [] && BlockBetween(blocks, index, block)
    ensures IndexOk(blocks + [block], index)
  {
    var blocks' := blocks + [block];
    forall b, c, e | 0 <= b < |index| && b < c < |blocks'| && e in blocks'[c]
      ensures Between(LastOf(blocks'[b]), index[b], e)
    {
      if c == |blocks| {
        assert AllBetween(blocks, index, e);
      }
    }
  }

  lemma SortedSnoc(es: seq<Entry>, e: Entry)
    requires Sorted(es) && (es != [] ==> Lt(es[|es| - 1].ikey, e.ikey))
    ensures Sorted(es + [e])
  {
    forall i | 0 <= i < |es| ensures Lt(es[i].ikey, e.ikey) {
      assert i < |es| - 1 ==> Lt(es[i].ikey, es[|es| - 1].ikey);
    }
  }

  lemma LastOfFlat(blocks: seq<seq<Entry>>)
    requires Blocked(blocks) && blocks != []
    ensures Flat(blocks) != [] && Flat(blocks)[|Flat(blocks)| - 1].ikey == LastOf(blocks[|blocks| - 1])
  {
  }

  /** The keys of `es` are in the group of filter number `index`. */
  ghost predicate KeysGrouped(groups: seq<seq<Bytes>>, pending: seq<Bytes>, es: seq<Entry>, index: nat, bytes: KeyBytes) {
    forall e :: e in es ==> Grouped(groups, pending, index, bytes(e.User()))
  }

  ghost predicate BlocksGrouped(groups: seq<seq<Bytes>>, pending: seq<Bytes>, blocks: seq<seq<Entry>>, offsets: seq<nat>,
                                bytes: KeyBytes) {
    && |offsets| == |blocks|
    && forall b :: 0 <= b < |blocks| ==> KeysGrouped(groups, pending, blocks[b], offsets[b] / 2048, bytes)
  }

  /** ... also those of the block being built, which starts at `offset`. */
  ghost predicate AllGrouped(groups: seq<seq<Bytes>>, pending: seq<Bytes>, blocks: seq<seq<Entry>>, offsets: seq<nat>,
                             block: seq<Entry>, offset: nat, bytes: KeyBytes) {
    && |groups| == offset / 2048
    && BlocksGrouped(groups, pending, blocks, offsets, bytes) && KeysGrouped(groups, pending, block, offset / 2048, bytes)
  }

  lemma AddKeyGroups(groups: seq<seq<Bytes>>, pending: seq<Bytes>, blocks: seq<seq<Entry>>, offsets: seq<nat>,
                     block: seq<Entry>, offset: nat, bytes: KeyBytes, e: Entry)
    requires AllGrouped(groups, pending, blocks, offsets, block, offset, bytes)
    ensures AllGrouped(groups, pending + [bytes(e.User())], blocks, offsets, block + [e], offset, bytes)
  {
    var more := pending + [bytes(e.User())];
    assert forall i, key :: Grouped(groups, pending, i, key) ==> Grouped(groups, more, i, key);
    assert forall b :: 0 <= b < |blocks| ==> KeysGrouped(groups, pending, blocks[b], offsets[b] / 2048, bytes);
  }

  lemma StartBlockGroups(groups: seq<seq<Bytes>>, pending: seq<Bytes>, groups': seq<seq<Bytes>>, pending': seq<Bytes>,
                         blocks: seq<seq<Entry>>, offsets: seq<nat>, block: seq<Entry>, offset: nat, offset': nat, bytes: KeyBytes)
    requires AllGrouped(groups, pending, blocks, offsets, block, offset, bytes) && |groups'| == offset' / 2048
    requires if |groups'| == |groups| then groups' == groups && pending' == pending
             else |groups'| > |groups| && groups' == groups + [pending] + Empties(|groups'| - |groups| - 1)
    ensures AllGrouped(groups', pending', blocks + [block], offsets + [offset], [], offset', bytes)
  {
    assert forall i, key :: Grouped(groups, pending, i, key) ==> Grouped(groups', pending', i, key);
    assert forall b :: 0 <= b < |blocks| ==> KeysGrouped(groups, pending, blocks[b], offsets[b] / 2048, bytes);
  }

  /** With fewer than its last entries the block was not full. */
  ghost predicate Unfull(full: seq<Entry> -> bool, block: seq<Entry>, n: nat)
    requires n <= |block| + 1
  {
    forall m :: 0 < m < n ==> !full(block[..m])
  }

  lemma UnfullSnoc(full: seq<Entry> -> bool, block: seq<Entry>, e: Entry)
    requires Unfull(full, block, |block| + 1)
    ensures Unfull(full, block + [e], |block| + 1)
    ensures !full(block + [e]) ==> Unfull(full, block + [e], |block| + 2)
  {
    var more := block + [e];
    assert forall m :: 0 < m < |more| ==> more[..m] == block[..m];
    assert more[..|more|] == more;
  }

  /** No block is cut later than it must be ... */
  ghost predicate CutInTime(full: seq<Entry> -> bool, blocks: seq<seq<Entry>>) {
    forall b :: 0 <= b < |blocks| ==> Unfull(full, blocks[b], |blocks[b]|)
  }

  /** ... and the first `n` no sooner. */
  ghost predicate CutFull(full: seq<Entry> -> bool, blocks: seq<seq<Entry>>, n: int)
    requires n <= |blocks|
  {
    forall b :: 0 <= b < n ==> full(blocks[b])
  }

  /** Blocks were cut where they were full, and the block being built is not. */
  ghost predicate Cut(full: seq<Entry> -> bool, blocks: seq<seq<Entry>>, block: seq<Entry>) {
    CutInTime(full, blocks) && CutFull(full, blocks, |blocks|) && Unfull(full, block, |block| + 1)
  }

  lemma AddCut(full: seq<Entry> -> bool, blocks: seq<seq<Entry>>, block: seq<Entry>, e: Entry)
    requires Cut(full, blocks, block)
    ensures var more := block + [e];
            if full(more) then Cut(full, blocks + [more], []) else Cut(full, blocks, more)
  {
    UnfullSnoc(full, block, e);
  }

  lemma FinishCut(full: seq<Entry> -> bool, blocks: seq<seq<Entry>>, block: seq<Entry>, all: seq<seq<Entry>>)
    requires Cut(full, blocks, block) && all == if block == [] then blocks else blocks + [block]
    ensures CutInTime(full, all) && CutFull(full, all, |all| - 1)
  {
  }

  /** Bytes written for `blocks`. */
  function Written(size: seq<Entry> -> nat, blocks: seq<seq<Entry>>): nat {
    if blocks == [] then 0 else Written(size, blocks[..|blocks| - 1]) + size(blocks[|blocks| - 1])
  }

  ghost predicate StartsAt(size: seq<Entry> -> nat, blocks: seq<seq<Entry>>, b: nat, at: nat)
    requires b <= |blocks|
  {
    at == Written(size, blocks[..b])
  }

  /** Every block begins where those before it end. */
  ghost predicate Placed(size: seq<Entry> -> nat, blocks: seq<seq<Entry>>, offsets: seq<nat>) {
    |offsets| == |blocks| && forall b :: 0 <= b < |blocks| ==> StartsAt(size, blocks, b, offsets[b])
  }

  lemma PlaceNext(size: seq<Entry> -> nat, blocks: seq<seq<Entry>>, offsets: seq<nat>, block: seq<Entry>)
    requires Placed(size, blocks, offsets)
    ensures Placed(size, blocks + [block], offsets + [Written(size, blocks)])
    ensures Written(size, blocks + [block]) == Written(size, blocks) + size(block)
  {
    var more, at := blocks + [block], offsets + [Written(size, blocks)];
    assert more[..|blocks|] == blocks;
    forall b | 0 <= b < |more| ensures StartsAt(size, more, b, at[b]) {
      assert more[..b] == blocks[..b];
      assert b < |blocks| ==> StartsAt(size, blocks, b, offsets[b]);
      assert blocks[..|blocks|] == blocks;
    }
  }

  class TableBuilder {
    const sep: Separator
    const succ: Successor
    const bytes: KeyBytes
    const size: seq<Entry> -> nat
    const full: seq<Entry> -> bool
    const filter_block: FilterBlockBuilder

    var blocks: seq<seq<Entry>>
    var offsets: seq<nat>
    var index: seq<IKey>
    var data_block: seq<Entry>
    var pending_index_entry: bool
    var last_key: IKey
    var offset: nat

    /** Everything added so far. */
    ghost function Entries(): seq<Entry>
      reads this
    {
      Flat(blocks) + data_block
    }

    ghost predicate Shape()
      reads this
    {
      && Comparator(sep, succ) && Sorted(Entries()) && IndexOk(blocks, index)
      && |index| + (if pending_index_entry then 1 else 0) == |blocks| && (pending_index_entry ==> data_block == [])
      && BlockBetween(blocks, index, data_block)
      && (Entries() != [] ==> last_key == Entries()[|Entries()| - 1].ikey)
      && Placed(size, blocks, offsets) && offset == Written(size, blocks)
    }

    ghost predicate Filtered()
      reads this, filter_block
    {
      && filter_block.Valid()
      && AllGrouped(filter_block.groups, filter_block.pending, blocks, offsets, data_block, offset, bytes)
    }

    ghost predicate Valid()
      reads this, filter_block
    {
      Shape() && Filtered() && (data_block == [] && !pending_index_entry ==> blocks == [])
    }

    constructor (sep: Separator, succ: Successor, policy: Policy, bytes: KeyBytes, size: seq<Entry> -> nat,
                 full: seq<Entry> -> bool)
      requires Comparator(sep, succ)
      ensures Valid() && Entries() == [] && fresh(filter_block) && this.bytes == bytes && filter_block.policy == policy
      ensures blocks == [] && data_block == [] && this.full == full && this.size == size
    {
      this.sep, this.succ, this.bytes, this.size, this.full := sep, succ, bytes, size, full;
      filter_block := new FilterBlockBuilder(policy);
      blocks, offsets, index, data_block, pending_index_entry := [], [], [], [], false;
      last_key, offset := IKey(0.0, 0, Value), 0;
    }

    /** Add, up to the filter: the delayed index entry, now that the next key is known. */
    method FinishIndexEntry(e: Entry)
      requires Shape() && (data_block == [] && !pending_index_entry ==> blocks == []) && (Entries() != [] ==> Lt(last_key, e.ikey))
      modifies this`index, this`pending_index_entry
      ensures Shape() && !pending_index_entry && AllBetween(blocks, index, e)
      ensures index == if old(pending_index_entry) then old(index) + [sep(last_key, e.ikey)] else old(index)
    {
      if pending_index_entry {
        LastOfFlat(blocks);
        assert Entries() == Flat(blocks);
        assert SeparatorOk(sep, last_key, e.ikey);
        IndexGrows(blocks, index, sep(last_key, e.ikey), e);
        index := index + [sep(last_key, e.ikey)];
        pending_index_entry := false;
      } else if data_block != [] {
        ghost var d := data_block[|data_block| - 1];
        assert d in data_block && Entries()[|Entries()| - 1] == d;
        LaterBetween(blocks, index, d, e);
      }
    }

    /** The entry goes to the data block. */
    method AppendEntry(e: Entry)
      requires Shape() && !pending_index_entry && AllBetween(blocks, index, e) && (Entries() != [] ==> Lt(last_key, e.ikey))
      modifies this`last_key, this`data_block
      ensures Shape() && Entries() == old(Entries()) + [e] && data_block == old(data_block) + [e] && last_key == e.ikey
    {
      SortedSnoc(Entries(), e);
      BetweenSnoc(blocks, index, data_block, e);
      assert Flat(blocks) + (data_block + [e]) == Flat(blocks) + data_block + [e];
      last_key := e.ikey;
      data_block := data_block + [e];
    }

    /** ... and its key to the filter. */
    method Append(e: Entry)
      requires Shape() && Filtered() && !pending_index_entry && AllBetween(blocks, index, e)
      requires Entries() != [] ==> Lt(last_key, e.ikey)
      modifies this, filter_block
      ensures Valid() && Entries() == old(Entries()) + [e] && last_key == e.ikey
      ensures blocks == old(blocks) && data_block == old(data_block) + [e]
      ensures index == old(index) && pending_index_entry == old(pending_index_entry)
    {
      AddKeyGroups(filter_block.groups, filter_block.pending, blocks, offsets, data_block, offset, bytes, e);
      filter_block.AddKey(bytes(e.User()));
      AppendEntry(e);
    }

    method Add(e: Entry)
      requires Valid() && (Entries() != [] ==> Lt(last_key, e.ikey))
      modifies this, filter_block
      ensures Valid() && Entries() == old(Entries()) + [e] && last_key == e.ikey
      ensures var block := old(data_block) + [e];
              if full(block) then blocks == old(blocks) + [block] && data_block == []
              else blocks == old(blocks) && data_block == block
      ensures index == if old(pending_index_entry) then old(index) + [sep(old(last_key), e.ikey)] else old(index)
      ensures pending_index_entry == full(old(data_block) + [e])
    {
      FinishIndexEntry(e);
      Append(e);
      if full(data_block) {
        Flush();
      }
    }

    /** The data block is written; its index entry waits for the next key. */
    method CloseBlock()
      requires Shape() && data_block != []
      modifies this`blocks, this`offsets, this`offset, this`data_block, this`pending_index_entry
      ensures Shape() && Entries() == old(Entries()) && blocks == old(blocks) + [old(data_block)] && data_block == []
      ensures offsets == old(offsets) + [old(offset)] && offset == old(offset) + size(old(data_block)) && pending_index_entry
    {
      BlockGrows(blocks, index, data_block);
      FlatSnoc(blocks, data_block);
      PlaceNext(size, blocks, offsets, data_block);
      assert Flat(blocks + [data_block]) + [] == Flat(blocks) + data_block;
      blocks, offsets := blocks + [data_block], offsets + [offset];
      offset := offset + size(data_block);
      data_block := [];
      pending_index_entry := true;
    }

    method Flush()
      requires Valid()
      modifies this, filter_block
      ensures Valid() && Entries() == old(Entries()) && data_block == [] && last_key == old(last_key)
      ensures blocks == if old(data_block) == [] then old(blocks) else old(blocks) + [old(data_block)]
      ensures index == old(index) && pending_index_entry == (old(pending_index_entry) || old(data_block) != [])
    {
      if data_block == [] {
        return;
      }
      ghost var groups, pending := filter_block.groups, filter_block.pending;
      CloseBlock();
      assert old(offset) / 2048 <= offset / 2048;
      filter_block.StartBlock(offset);
      StartBlockGroups(groups, pending, filter_block.groups, filter_block.pending, old(blocks), old(offsets),
                       old(data_block), old(offset), offset, bytes);
    }

    /** The index entry of the last block. */
    method FinishIndex()
      requires Shape() && data_block == []
      modifies this`index, this`pending_index_entry
      ensures IndexOk(blocks, index) && |index| == |blocks|
      ensures index == if old(pending_index_entry) then old(index) + [succ(last_key)] else old(index)
    {
      if pending_index_entry {
        LastOfFlat(blocks);
        assert Entries() == Flat(blocks) && Le(last_key, succ(last_key));
        FinalEntry(blocks, index, succ(last_key));
        index := index + [succ(last_key)];
        pending_index_entry := false;
      }
    }

    /** Finish: the file holds what was added, and, if its filters fit into 32-bit offsets, lookups in it are sound. */
    method Finish() returns (t: Table)
      requires Valid()
      modifies this, filter_block
      ensures TableOk(t) && Flat(t.blocks) == old(Entries()) && Placed(size, t.blocks, t.offsets)
      ensures |t.filter| < WORD ==> NoFalseNegatives(t, filter_block.policy, bytes)
      ensures t.blocks == if old(data_block) == [] then old(blocks) else old(blocks) + [old(data_block)]
      ensures t.index == if old(pending_index_entry) || old(data_block) != [] then old(index) + [succ(old(last_key))] else old(index)
    {
      Flush();
      assert Flat(blocks) == Entries();
      ghost var groups, pending := filter_block.groups, filter_block.pending;
      var filter, made := filter_block.Finish();
      FinishIndex();
      t := Table(blocks, index, offsets, filter);
      if |filter| < WORD {
        FiltersSound(filter_block.policy, groups, pending, made, t, bytes);
      }
    }
  }

  lemma FiltersSound(policy: Policy, groups: seq<seq<Bytes>>, pending: seq<Bytes>, filters: seq<Bytes>, t: Table, bytes: KeyBytes)
    requires BlocksGrouped(groups, pending, t.blocks, t.offsets, bytes)
    requires FiltersFor(policy, if pending == [] then groups else groups + [pending], filters)
    requires t.filter == Layout(filters) && |Flat(filters)| < WORD
    ensures NoFalseNegatives(t, policy, bytes)
  {
    var all := if pending == [] then groups else groups + [pending];
    forall b, e | 0 <= b < |t.blocks| && e in t.blocks[b] ensures MayMatch(policy, t.filter, t.offsets[b], bytes(e.User())) {
      assert KeysGrouped(groups, pending, t.blocks[b], t.offsets[b] / 2048, bytes);
      NeverRejected(policy, all, filters, t.offsets[b], bytes(e.User()));
    }
  }

  lemma FinalEntry(blocks: seq<seq<Entry>>, index: seq<IKey>, bound: IKey)
    requires IndexOk(blocks, index) && |index| + 1 == |blocks| && Le(LastOf(blocks[|index|]), bound)
    ensures IndexOk(blocks, index + [bound])
  {
  }

  method AddOne(builder: TableBuilder, e: Entry)
    requires builder.Valid() && (builder.Entries() != [] ==> Lt(builder.last_key, e.ikey))
    requires Cut(builder.full, builder.blocks, builder.data_block)
    modifies builder, builder.filter_block
    ensures builder.Valid() && builder.Entries() == old(builder.Entries()) + [e] && builder.last_key == e.ikey
    ensures Cut(builder.full, builder.blocks, builder.data_block)
  {
    AddCut(builder.full, builder.blocks, builder.data_block, e);
    builder.Add(e);
  }

  method AddAll(builder: TableBuilder, entries: seq<Entry>)
    requires builder.Valid() && builder.Entries() == [] && Sorted(entries)
    requires Cut(builder.full, builder.blocks, builder.data_block)
    modifies builder, builder.filter_block
    ensures builder.Valid() && builder.Entries() == entries && Cut(builder.full, builder.blocks, builder.data_block)
  {
    for i := 0 to |entries|
      invariant builder.Valid() && builder.Entries() == entries[..i]
      invariant i > 0 ==> builder.last_key == entries[i - 1].ikey
      invariant Cut(builder.full, builder.blocks, builder.data_block)
    {
      AddOne(builder, entries[i]);
      assert entries[..i + 1] == entries[..i] + [entries[i]];
    }
  }

  /** BuildTable: the entries, added one by one. */
  method BuildTable(entries: seq<Entry>, sep: Separator, succ: Successor, policy: Policy, bytes: KeyBytes,
                    size: seq<Entry> -> nat, full: seq<Entry> -> bool) returns (t: Table)
    requires Sorted(entries) && Comparator(sep, succ)
    ensures TableOk(t) && Flat(t.blocks) == entries
    ensures |t.filter| < WORD ==> NoFalseNegatives(t, policy, bytes)
    ensures CutInTime(full, t.blocks) && CutFull(full, t.blocks, |t.blocks| - 1) && Placed(size, t.blocks, t.offsets)
  {
    var builder := new TableBuilder(sep, succ, policy, bytes, size, full);
    AddAll(builder, entries);
    FinishCut(full, builder.blocks, builder.data_block,
              if builder.data_block == [] then builder.blocks else builder.blocks + [builder.data_block]);
    t := builder.Finish();
  }

  /** A lookup in a table built from sorted entries agrees with searching the entries, however they were cut into
      blocks, whatever the index keys were shortened to and whatever the filters say. */
  method BuildAndGet(entries: seq<Entry>, sep: Separator, succ: Successor, policy: Policy, bytes: KeyBytes,
                     size: seq<Entry> -> nat, full: seq<Entry> -> bool, key: IKey) returns (t: Table, r: Option<Entry>)
    requires Sorted(entries) && Comparator(sep, succ)
    ensures Flat(t.blocks) == entries
    ensures |t.filter| < WORD ==> Reported(r, key) == Reported(Versions.TableSeek(entries, key), key)
  {
    t := BuildTable(entries, sep, succ, policy, bytes, size, full);
    r := InternalGet(t, policy, bytes, key);
  }
}

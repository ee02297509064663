/** Tables: data blocks, an index of shortened keys and a filter block (kv/table/table_builder.cpp, kv/table/table.cpp). */
module Tables {
  import opened Format
  import opened Coding
  import opened Versions
  import opened Bloom
  import opened FilterBlocks
  import opened Merger
  import opened TwoLevelIterators
  import opened Concatenation

  /** Comparator::FindShortestSeparator and FindShortSuccessor. */
  type Separator = (IKey, IKey) -> IKey
  type Successor = IKey -> IKey

  /** The bytes of a user key, which is what the filter policy is given. */
  type KeyBytes = UserKey -> Bytes

  /** The key itself, or one with a user key strictly between; `EngineComparator` shows it of the engine's own. */
  ghost predicate SeparatorOk(sep: Separator, a: IKey, b: IKey) {
    Lt(a, b) ==> Le(a, sep(a, b)) && Lt(sep(a, b), b) && (sep(a, b) == a || a.user < sep(a, b).user < b.user)
  }

  ghost predicate Comparator(sep: Separator, succ: Successor) {
    (forall a, b :: SeparatorOk(sep, a, b)) && forall a :: Le(a, succ(a))
  }

  /** What a finished table file holds. */
  datatype Table = Table(blocks: seq<seq<Entry>>, index: seq<IKey>, offsets: seq<nat>, filter: Bytes)

  ghost predicate Blocked(blocks: seq<seq<Entry>>) {
    forall b :: 0 <= b < |blocks| ==> blocks[b] != []
  }

  function LastOf(block: seq<Entry>): IKey
    requires block != []
  {
    block[|block| - 1].ikey
  }

  /** Index entry `b` against an entry `e` of a later block. */
  ghost predicate Between(last: IKey, bound: IKey, e: Entry) {
    Lt(bound, e.ikey) && (bound == last || bound.user < e.User())
  }

  /** Index entries separate the blocks, and one that is not its block's last key ends before the next user key. */
  ghost predicate IndexOk(blocks: seq<seq<Entry>>, index: seq<IKey>) {
    && |index| <= |blocks| && Blocked(blocks)
    && (forall b :: 0 <= b < |index| ==> Le(LastOf(blocks[b]), index[b]))
    && forall b, c, e :: 0 <= b < |index| && b < c < |blocks| && e in blocks[c] ==> Between(LastOf(blocks[b]), index[b], e)
  }

  ghost predicate TableOk(t: Table) {
    IndexOk(t.blocks, t.index) && |t.index| == |t.blocks| == |t.offsets| && Sorted(Flat(t.blocks))
  }

  /** The filter block turns away no key of a block at the block's offset. */
  ghost predicate NoFalseNegatives(t: Table, policy: Policy, bytes: KeyBytes)
    requires |t.offsets| == |t.blocks|
  {
    forall b, e :: 0 <= b < |t.blocks| && e in t.blocks[b] ==> MayMatch(policy, t.filter, t.offsets[b], bytes(e.User()))
  }

  // ---- Lookup ----

  /** What SaveValue makes of the entry it is handed: it counts only for the user key looked up. */
  function Reported(r: Option<Entry>, k: IKey): Option<Entry> {
    if r.Some? && r.value.User() == k.user then r else None
  }

  lemma {:induction false} SeekIsLowerBound(es: seq<Entry>, k: IKey)
    ensures TableSeek(es, k) == if LowerBound(es, k) < |es| then Some(es[LowerBound(es, k)]) else None
  {
    if es != [] && Lt(es[0].ikey, k) {
      SeekIsLowerBound(es[1..], k);
    }
  }

  lemma WithinLast(blocks: seq<seq<Entry>>, b: nat, e: Entry)
    requires Sorted(Flat(blocks)) && b < |blocks| && e in blocks[b]
    ensures Le(e.ikey, LastOf(blocks[b]))
  {
    BlockSorted(blocks, b);
    var i :| 0 <= i < |blocks[b]| && blocks[b][i] == e;
    assert i < |blocks[b]| - 1 ==> Lt(blocks[b][i].ikey, blocks[b][|blocks[b]| - 1].ikey);
  }

  lemma IndexSeparates(blocks: seq<seq<Entry>>, index: seq<IKey>)
    requires IndexOk(blocks, index) && |index| == |blocks| && Sorted(Flat(blocks))
    ensures Separates(blocks, index)
  {
    forall b, e | 0 <= b < |blocks| && e in blocks[b] ensures Le(e.ikey, index[b]) {
      WithinLast(blocks, b, e);
    }
    forall b, c, e | 0 <= b < c < |blocks| && e in blocks[c] ensures Lt(index[b], e.ikey) {
      assert Between(LastOf(blocks[b]), index[b], e);
    }
    forall b, c | 0 <= b < c < |index| ensures Lt(index[b], index[c]) {
      var e := blocks[c][|blocks[c]| - 1];
      assert e in blocks[c];
      assert Between(LastOf(blocks[b]), index[b], e);
    }
  }

  /** The entry right after block `b`. */
  lemma NextBlock(blocks: seq<seq<Entry>>, b: nat)
    requires Blocked(blocks) && b < |blocks|
    ensures Start(blocks, b + 1) < |Flat(blocks)| <==> b + 1 < |blocks|
    ensures b + 1 < |blocks| ==> Flat(blocks)[Start(blocks, b + 1)] == blocks[b + 1][0]
  {
    WholeStart(blocks);
    if b + 1 < |blocks| {
      FlatAt(blocks, b + 1, 0);
    }
  }

  /** A key after the last of its block but not after the index entry: the next entry has a later user key. */
  lemma PastBlock(blocks: seq<seq<Entry>>, index: seq<IKey>, k: IKey, b: nat)
    requires IndexOk(blocks, index) && b < |index| == |blocks| && Sorted(Flat(blocks)) && Le(k, index[b])
    requires LowerBound(blocks[b], k) == |blocks[b]|
    ensures Start(blocks, b + 1) < |Flat(blocks)| ==> Flat(blocks)[Start(blocks, b + 1)].User() > k.user
  {
    var block := blocks[b];
    NextBlock(blocks, b);
    BlockSorted(blocks, b);
    LowerBoundSplits(block, k);
    assert Lt(LastOf(block), k);
    if b + 1 < |blocks| {
      assert blocks[b + 1][0] in blocks[b + 1];
      assert Between(LastOf(block), index[b], blocks[b + 1][0]);
    }
  }

  lemma BlockAnswers(blocks: seq<seq<Entry>>, k: IKey, b: nat)
    requires b < |blocks| && LowerBound(Flat(blocks), k) == Start(blocks, b) + LowerBound(blocks[b], k)
    requires LowerBound(blocks[b], k) == |blocks[b]| && Start(blocks, b + 1) < |Flat(blocks)| ==>
               Flat(blocks)[Start(blocks, b + 1)].User() > k.user
    ensures Reported(TableSeek(Flat(blocks), k), k) == Reported(TableSeek(blocks[b], k), k)
  {
    SeekIsLowerBound(Flat(blocks), k);
    SeekIsLowerBound(blocks[b], k);
    StartStep(blocks, b);
    if LowerBound(blocks[b], k) < |blocks[b]| {
      FlatAt(blocks, b, LowerBound(blocks[b], k));
    }
  }

  /** Looking only into the block the index points at answers as the whole table would. */
  lemma OneBlockDecides(t: Table, k: IKey, b: nat)
    requires IndexOk(t.blocks, t.index) && |t.index| == |t.blocks| && Sorted(Flat(t.blocks)) && b == IndexSeek(t.index, k)
    ensures Reported(TableSeek(Flat(t.blocks), k), k) ==
            if b < |t.blocks| then Reported(TableSeek(t.blocks[b], k), k) else None
  {
    IndexSeparates(t.blocks, t.index);
    IndexSeekFirst(t.index, k);
    SeekPlace(t.blocks, t.index, k, b);
    if b < |t.blocks| {
      if LowerBound(t.blocks[b], k) == |t.blocks[b]| {
        PastBlock(t.blocks, t.index, k, b);
      }
      BlockAnswers(t.blocks, k, b);
    } else {
      WholeStart(t.blocks);
      SeekIsLowerBound(Flat(t.blocks), k);
    }
  }

  lemma {:induction false} SeekMember(es: seq<Entry>, k: IKey)
    ensures TableSeek(es, k).Some? ==> TableSeek(es, k).value in es
  {
    if es != [] && Lt(es[0].ikey, k) {
      SeekMember(es[1..], k);
    }
  }

  /** The filter of the block that decides turns the key away. */
  ghost predicate TurnedAway(t: Table, policy: Policy, bytes: KeyBytes, k: IKey)
    requires TableOk(t)
  {
    var b := IndexSeek(t.index, k);
    b < |t.blocks| && !MayMatch(policy, t.filter, t.offsets[b], bytes(k.user))
  }

  /** InternalGet reports an entry for the user key looked up exactly if the first entry at or after the key is one,
      and then that entry: neither shortened index keys nor filters make a difference.  Whatever the filter, it
      misses an entry exactly if the filter of the deciding block turns the key away. */
  method InternalGet(t: Table, policy: Policy, bytes: KeyBytes, k: IKey) returns (r: Option<Entry>)
    requires TableOk(t)
    ensures NoFalseNegatives(t, policy, bytes) ==> Reported(r, k) == Reported(TableSeek(Flat(t.blocks), k), k)
    ensures if TurnedAway(t, policy, bytes, k) then r == None
            else Reported(r, k) == Reported(TableSeek(Flat(t.blocks), k), k)
  {
    var b := IndexSeek(t.index, k);
    OneBlockDecides(t, k, b);
    r := None;
    if b < |t.blocks| {
      SeekMember(t.blocks[b], k);
      var may := FilterBlocks.KeyMayMatch(policy, t.filter, t.offsets[b], bytes(k.user));
      if may {
        r := TableSeek(t.blocks[b], k);
      }
    }
  }
}

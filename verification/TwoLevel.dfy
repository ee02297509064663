/** The iterator over the blocks of a table, or over the files of a level (kv/table/two_level_iterator.cpp). */
module TwoLevelIterators {
  import opened Format
  import opened Merger
  import opened Concatenation

  /** Index keys separate the blocks: nothing in block `b` is after bounds[b], everything after the block is. */
  ghost predicate Separates(blocks: seq<seq<Entry>>, bounds: seq<IKey>) {
    && |bounds| == |blocks|
    && (forall b, e :: 0 <= b < |blocks| && e in blocks[b] ==> Le(e.ikey, bounds[b]))
    && (forall b, c, e :: 0 <= b < c < |blocks| && e in blocks[c] ==> Lt(bounds[b], e.ikey))
    && (forall b, c :: 0 <= b < c < |bounds| ==> Lt(bounds[b], bounds[c]))
  }

  /** index_iter_.Seek: the first index key at or after the target. */
  function IndexSeek(bounds: seq<IKey>, target: IKey): (b: nat)
    ensures b <= |bounds|
  {
    if bounds == [] || !Lt(bounds[0], target) then 0 else 1 + IndexSeek(bounds[1..], target)
  }

  lemma {:induction false} IndexSeekFirst(bounds: seq<IKey>, target: IKey)
    ensures var b := IndexSeek(bounds, target);
            (forall c :: 0 <= c < b ==> Lt(bounds[c], target)) && (b < |bounds| ==> Le(target, bounds[b]))
  {
    if bounds != [] && Lt(bounds[0], target) {
      IndexSeekFirst(bounds[1..], target);
      forall c | 0 <= c < IndexSeek(bounds, target) ensures Lt(bounds[c], target) {
        assert c > 0 ==> bounds[c] == bounds[1..][c - 1];
      }
    }
  }

  class TwoLevelIterator {
    const blocks: seq<seq<Entry>>
    const bounds: seq<IKey>
    /** The index iterator; |blocks| is not valid. */
    var index: nat
    /** The data iterator: the block it was made for, if there is one, and its place there; the block's length is not valid. */
    var data: Option<nat>
    var at: nat

    constructor (blocks: seq<seq<Entry>>, bounds: seq<IKey>)
      requires |bounds| == |blocks|
      ensures this.blocks == blocks && this.bounds == bounds && Ok() && Ended()
    {
      this.blocks, this.bounds := blocks, bounds;
      index, data, at := |blocks|, None, 0;
    }

    ghost predicate Ok()
      reads this
    {
      && |bounds| == |blocks| && index <= |blocks|
      && (data.Some? ==> data.value < |blocks| && at <= |blocks[data.value]|)
    }

    predicate DataValid()
      requires Ok()
      reads this
    {
      data.Some? && at < |blocks[data.value]|
    }

    /** On entry `p` of the concatenation. */
    ghost predicate At(p: nat)
      reads this
    {
      Ok() && DataValid() && data == Some(index) && index < |blocks| && Start(blocks, index) + at == p
    }

    ghost predicate Ended()
      reads this
    {
      Ok() && !DataValid()
    }

    /** InitDataBlock: an iterator for the index entry's block, the one there is if it is for the same block. */
    method InitDataBlock()
      requires Ok()
      modifies this`data, this`at
      ensures Ok() && data == if index < |blocks| then Some(index) else None
    {
      if index == |blocks| {
        data := None;
      } else if data.Some? && data.value == index {
        // already there
      } else {
        data, at := Some(index), |blocks[index]|;
      }
    }

    /** Entries from `p` on are where the cursor looks next: in the current block, or after it. */
    ghost predicate Before(p: nat)
      reads this
    {
      && Ok() && data == (if index < |blocks| then Some(index) else None)
      && p == Start(blocks, index) + if index < |blocks| then at else 0
    }

    method SkipEmptyDataBlocksForward(ghost p: nat)
      requires Before(p)
      modifies this
      ensures if p < |Flat(blocks)| then At(p) else p == |Flat(blocks)| && Ended()
    {
      while !DataValid()
        invariant Before(p)
        decreases |blocks| - index
      {
        if index == |blocks| {
          data := None;
          assert blocks[..index] == blocks;
          return;
        }
        StartStep(blocks, index);
        index := index + 1;
        InitDataBlock();
        if data.Some? {
          at := 0;
        }
      }
      FlatAt(blocks, index, at);
    }

    /** The entry just before `p` is the last of the current block, if it has one, or in a block before it. */
    ghost predicate After(p: nat)
      reads this
    {
      && Ok() && data == (if index < |blocks| then Some(index) else None)
      && (index < |blocks| && at < |blocks[index]| ==> p == Start(blocks, index) + at + 1)
      && (index < |blocks| && at == |blocks[index]| ==> p == Start(blocks, index))
      && (index == |blocks| ==> p == 0)
    }

    method SkipEmptyDataBlocksBackward(ghost p: nat)
      requires After(p)
      modifies this
      ensures if p > 0 then At(p - 1) else Ended()
    {
      while !DataValid()
        invariant After(p)
        decreases if index == |blocks| then 0 else index + 1
      {
        if index == |blocks| {
          data := None;
          return;
        }
        if index == 0 {
          assert blocks[..0] == [];
          index := |blocks|;
        } else {
          StartStep(blocks, index - 1);
          index := index - 1;
        }
        InitDataBlock();
        if data.Some? {
          at := if |blocks[index]| > 0 then |blocks[index]| - 1 else 0;
        }
      }
      FlatAt(blocks, index, at);
    }

    method SeekToFirst()
      requires Ok()
      modifies this
      ensures if |Flat(blocks)| > 0 then At(0) else Ended()
    {
      index := 0;
      InitDataBlock();
      if data.Some? {
        at := 0;
      }
      assert blocks[..0] == [];
      SkipEmptyDataBlocksForward(0);
    }

    method SeekToLast()
      requires Ok()
      modifies this
      ensures if |Flat(blocks)| > 0 then At(|Flat(blocks)| - 1) else Ended()
    {
      index := if |blocks| > 0 then |blocks| - 1 else 0;
      InitDataBlock();
      if data.Some? {
        at := if |blocks[index]| > 0 then |blocks[index]| - 1 else 0;
        StartStep(blocks, index);
        assert blocks[..|blocks|] == blocks;
      }
      SkipEmptyDataBlocksBackward(|Flat(blocks)|);
    }

    /** Next gives the successor in the concatenation, over any run of empty blocks. */
    method Next(ghost p: nat)
      requires At(p)
      modifies this
      ensures if p + 1 < |Flat(blocks)| then At(p + 1) else Ended()
    {
      at := at + 1;
      SkipEmptyDataBlocksForward(p + 1);
    }

    /** Prev gives the predecessor. */
    method Prev(ghost p: nat)
      requires At(p)
      modifies this
      ensures if p > 0 then At(p - 1) else Ended()
    {
      at := if at > 0 then at - 1 else |blocks[index]|;
      SkipEmptyDataBlocksBackward(p);
    }

    /** Seek lands on the first entry of the whole table at or after the target. */
    method Seek(target: IKey)
      requires Ok() && Separates(blocks, bounds) && Sorted(Flat(blocks))
      modifies this
      ensures var p := LowerBound(Flat(blocks), target);
              if p < |Flat(blocks)| then At(p) else Ended()
    {
      index := IndexSeek(bounds, target);
      IndexSeekFirst(bounds, target);
      InitDataBlock();
      ghost var p := LowerBound(Flat(blocks), target);
      SeekPlace(blocks, bounds, target, index);
      if data.Some? {
        at := LowerBound(blocks[index], target);
      }
      SkipEmptyDataBlocksForward(p);
    }
  }

  /** Sorted as a whole, sorted in each block. */
  lemma BlockSorted(blocks: seq<seq<Entry>>, b: nat)
    requires Sorted(Flat(blocks)) && b < |blocks|
    ensures Sorted(blocks[b])
  {
    forall i, j | 0 <= i < j < |blocks[b]| ensures Lt(blocks[b][i].ikey, blocks[b][j].ikey) {
      FlatAt(blocks, b, i);
      FlatAt(blocks, b, j);
    }
  }

  lemma {:induction false} BeforeBlock(blocks: seq<seq<Entry>>, bounds: seq<IKey>, target: IKey, b: nat, j: nat)
    requires Separates(blocks, bounds) && b <= |blocks| && (forall c :: 0 <= c < b ==> Lt(bounds[c], target)) && j < Start(blocks, b)
    ensures j < |Flat(blocks)| && Lt(Flat(blocks)[j].ikey, target)
  {
    FlatPrefix(blocks, b);
    StartStep(blocks, b - 1);
    if j < Start(blocks, b - 1) {
      BeforeBlock(blocks, bounds, target, b - 1, j);
    } else {
      var i := j - Start(blocks, b - 1);
      FlatAt(blocks, b - 1, i);
      assert blocks[b - 1][i] in blocks[b - 1];
    }
  }

  lemma {:induction false} AfterBlock(blocks: seq<seq<Entry>>, bounds: seq<IKey>, target: IKey, b: nat, c: nat, j: nat)
    requires Separates(blocks, bounds) && b < c < |blocks| && Le(target, bounds[b]) && Start(blocks, c) <= j < |Flat(blocks)|
    ensures !Lt(Flat(blocks)[j].ikey, target)
    decreases |blocks| - c
  {
    StartStep(blocks, c);
    WholeStart(blocks);
    if j < Start(blocks, c + 1) {
      var i := j - Start(blocks, c);
      FlatAt(blocks, c, i);
      assert blocks[c][i] in blocks[c];
    } else {
      AfterBlock(blocks, bounds, target, b, c + 1, j);
    }
  }

  /** Seeking in the index and then in its block is seeking in the concatenation. */
  lemma SeekPlace(blocks: seq<seq<Entry>>, bounds: seq<IKey>, target: IKey, b: nat)
    requires Separates(blocks, bounds) && Sorted(Flat(blocks)) && b <= |blocks|
    requires (forall c :: 0 <= c < b ==> Lt(bounds[c], target)) && (b < |bounds| ==> Le(target, bounds[b]))
    ensures LowerBound(Flat(blocks), target) == Start(blocks, b) + if b < |blocks| then LowerBound(blocks[b], target) else 0
  {
    var flat := Flat(blocks);
    var n := Start(blocks, b) + if b < |blocks| then LowerBound(blocks[b], target) else 0;
    FlatPrefix(blocks, b);
    WholeStart(blocks);
    if b < |blocks| {
      StartStep(blocks, b);
      FlatPrefix(blocks, b + 1);
      BlockSorted(blocks, b);
      LowerBoundSplits(blocks[b], target);
    }
    forall j | 0 <= j < |flat| ensures j < n <==> Lt(flat[j].ikey, target) {
      if j < Start(blocks, b) {
        BeforeBlock(blocks, bounds, target, b, j);
      } else if b < |blocks| && j < Start(blocks, b + 1) {
        FlatAt(blocks, b, j - Start(blocks, b));
      } else if b < |blocks| {
        AfterBlock(blocks, bounds, target, b, b + 1, j);
      }
    }
    LowerBoundUnique(flat, target, n);
  }
}

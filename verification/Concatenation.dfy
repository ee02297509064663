/** Blocks laid end to end: a table's blocks, a level's files, a filter block's filters. */
module Concatenation {
  function Flat<T>(blocks: seq<seq<T>>): seq<T> {
    if blocks == [] then [] else Flat(blocks[..|blocks| - 1]) + blocks[|blocks| - 1]
  }

  /** Where block `b` starts in the concatenation. */
  function Start<T>(blocks: seq<seq<T>>, b: nat): nat
    requires b <= |blocks|
  {
    |Flat(blocks[..b])|
  }

  lemma StartStep<T>(blocks: seq<seq<T>>, b: nat)
    requires b < |blocks|
    ensures Start(blocks, b + 1) == Start(blocks, b) + |blocks[b]| && Flat(blocks[..b + 1]) == Flat(blocks[..b]) + blocks[b]
  {
    assert blocks[..b + 1][..b] == blocks[..b];
  }

  lemma {:induction false} FlatPrefix<T>(blocks: seq<seq<T>>, b: nat)
    requires b <= |blocks|
    ensures Flat(blocks[..b]) <= Flat(blocks) && Start(blocks, b) <= |Flat(blocks)|
    decreases |blocks| - b
  {
    if b == |blocks| {
      assert blocks[..b] == blocks;
    } else {
      StartStep(blocks, b);
      FlatPrefix(blocks, b + 1);
    }
  }

  /** Item `i` of block `b` in the concatenation. */
  lemma FlatAt<T>(blocks: seq<seq<T>>, b: nat, i: nat)
    requires b < |blocks| && i < |blocks[b]|
    ensures Start(blocks, b) + i < |Flat(blocks)| && Flat(blocks)[Start(blocks, b) + i] == blocks[b][i]
  {
    StartStep(blocks, b);
    FlatPrefix(blocks, b + 1);
  }

  /** Block `b` can be cut out of the concatenation. */
  lemma FlatSlice<T>(blocks: seq<seq<T>>, b: nat)
    requires b < |blocks|
    ensures Start(blocks, b) <= Start(blocks, b + 1) <= |Flat(blocks)|
    ensures Flat(blocks)[Start(blocks, b)..Start(blocks, b + 1)] == blocks[b]
  {
    StartStep(blocks, b);
    FlatPrefix(blocks, b + 1);
  }

  lemma FlatSnoc<T>(blocks: seq<seq<T>>, block: seq<T>)
    ensures Flat(blocks + [block]) == Flat(blocks) + block
  {
    assert (blocks + [block])[..|blocks|] == blocks;
  }

  lemma WholeStart<T>(blocks: seq<seq<T>>)
    ensures Start(blocks, |blocks|) == |Flat(blocks)|
  {
    assert blocks[..|blocks|] == blocks;
  }
}

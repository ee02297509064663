/** Write-ahead log records and their replay (kv/db/db_impl.cpp RecoverLogFile, kv/db/write_batch.cpp InsertInto). */
module Wal {
  import opened Format
  import opened History

  /** A log record: the group's operations and the sequence number of the first. */
  datatype Batch = Batch(first: nat, ops: seq<Op>)

  /** InsertInto: consecutive sequence numbers from `first`. */
  ghost function EntriesFrom(ops: seq<Op>, first: nat): set<Entry> {
    set j | 0 <= j < |ops| :: EntryOf(ops[j], first + j)
  }

  ghost function BatchEntries(b: Batch): set<Entry> { EntriesFrom(b.ops, b.first) }

  ghost function Replay(bs: seq<Batch>): set<Entry> {
    if bs == [] then {} else Replay(bs[..|bs| - 1]) + BatchEntries(bs[|bs| - 1])
  }

  /** The records hold exactly the writes a+1 .. |h|, back to back. */
  ghost predicate Chain(bs: seq<Batch>, a: nat, h: seq<Op>) {
    if bs == [] then |h| == a
    else
      var b := bs[|bs| - 1];
      && a < b.first && b.first + |b.ops| == |h| + 1 && b.ops == h[b.first - 1..]
      && Chain(bs[..|bs| - 1], a, h[..b.first - 1])
  }

  lemma SliceSuffix(pre: seq<Op>, ops: seq<Op>)
    ensures Slice(pre + ops, |pre|, |pre + ops|) == EntriesFrom(ops, |pre| + 1)
  {
    var h := pre + ops;
    forall e | e in Slice(h, |pre|, |h|) ensures e in EntriesFrom(ops, |pre| + 1) {
      var i :| |pre| <= i < |h| && e == EntryOf(h[i], i + 1);
      var j := i - |pre|;
      assert e == EntryOf(ops[j], |pre| + 1 + j);
    }
    forall e | e in EntriesFrom(ops, |pre| + 1) ensures e in Slice(h, |pre|, |h|) {
      var j :| 0 <= j < |ops| && e == EntryOf(ops[j], |pre| + 1 + j);
      assert h[|pre| + j] == ops[j];
    }
  }

  lemma BatchSlice(b: Batch, h: seq<Op>)
    requires 1 <= b.first && b.first + |b.ops| == |h| + 1 && b.ops == h[b.first - 1..]
    ensures BatchEntries(b) == Slice(h, b.first - 1, |h|)
  {
    var pre := h[..b.first - 1];
    assert h == pre + b.ops;
    SliceSuffix(pre, b.ops);
  }

  lemma SlicePrefix(h: seq<Op>, a: nat, m: nat)
    requires a <= m <= |h|
    ensures Slice(h[..m], a, m) == Slice(h, a, m)
  {
  }

  /** Replaying a chain rebuilds exactly the writes it covers. */
  lemma {:induction false} ChainReplay(bs: seq<Batch>, a: nat, h: seq<Op>)
    requires Chain(bs, a, h)
    ensures a <= |h| && Replay(bs) == Slice(h, a, |h|)
  {
    if bs != [] {
      var b := bs[|bs| - 1];
      var m := b.first - 1;
      ChainReplay(bs[..|bs| - 1], a, h[..m]);
      SlicePrefix(h, a, m);
      BatchSlice(b, h);
      SliceSplit(h, a, m, |h|);
    }
  }

  lemma ChainAppend(bs: seq<Batch>, a: nat, h: seq<Op>, ops: seq<Op>)
    requires Chain(bs, a, h) && a <= |h|
    ensures Chain(bs + [Batch(|h| + 1, ops)], a, h + ops)
  {
    var bs' := bs + [Batch(|h| + 1, ops)];
    assert bs'[..|bs|] == bs;
    assert (h + ops)[|h|..] == ops && (h + ops)[..|h|] == h;
  }

  lemma {:induction false} ChainConcat(xs: seq<Batch>, ys: seq<Batch>, a: nat, m: nat, h: seq<Op>)
    requires m <= |h| && Chain(xs, a, h[..m]) && Chain(ys, m, h) && a <= m
    ensures Chain(xs + ys, a, h)
  {
    if ys == [] {
      assert xs + ys == xs && h[..m] == h;
    } else {
      var n := |ys| - 1;
      var b := ys[n];
      assert h[..b.first - 1][..m] == h[..m];
      ChainConcat(xs, ys[..n], a, m, h[..b.first - 1]);
      assert (xs + ys)[..|xs + ys| - 1] == xs + ys[..n];
    }
  }

  lemma {:induction false} ChainStart(bs: seq<Batch>, a: nat, h: seq<Op>)
    requires Chain(bs, a, h)
    ensures a <= |h| && (bs != [] ==> bs[0].first == a + 1)
  {
    if bs != [] {
      ChainStart(bs[..|bs| - 1], a, h[..bs[|bs| - 1].first - 1]);
      if |bs| > 1 {
        assert bs[..|bs| - 1][0] == bs[0];
      }
    }
  }

  /** Where a chain can be cut: after any record. */
  lemma {:induction false} ChainSplit(bs: seq<Batch>, n: nat, a: nat, h: seq<Op>) returns (m: nat)
    requires Chain(bs, a, h) && n <= |bs|
    ensures a <= m <= |h| && Chain(bs[..n], a, h[..m]) && Chain(bs[n..], m, h)
    ensures n < |bs| ==> bs[n].first == m + 1
  {
    ChainStart(bs, a, h);
    if n == |bs| {
      m := |h|;
      assert bs[..n] == bs && h[..m] == h && bs[n..] == [];
    } else {
      var b := bs[|bs| - 1];
      var front := bs[..|bs| - 1];
      var h' := h[..b.first - 1];
      m := ChainSplit(front, n, a, h');
      assert front[..n] == bs[..n] && h'[..m] == h[..m];
      var back := bs[n..];
      assert back[..|back| - 1] == front[n..] && back[|back| - 1] == b;
      assert n < |front| ==> front[n] == bs[n];
    }
  }
}

/** Opening a finished block (kv/table/block.cpp, Block and NewIterator) and the round trip. */
module Blocks {
  import opened Format
  import opened Coding
  import opened FixedArrays
  import opened BlockIterators
  import opened BlockFormats
  import opened BlockBuilders

  /** Block::Block: None is the error marker. */
  function RestartOffset(data: Bytes): (r: Option<nat>)
    ensures r.Some? ==> r.value <= |data| - 4
  {
    if |data| < 4 then None
    else
      var n := DecodeFixed32(data[|data| - 4..]);
      if n > (|data| - 4) / 4 then None else Some(|data| - (1 + n) * 4)
  }

  /** GetRestartPoint, for the whole array. */
  function Points(data: Bytes, at: nat): seq<nat>
    requires at + 4 <= |data|
    decreases |data| - at
  {
    if at + 8 <= |data| then [DecodeFixed32(data[at..at + 4])] + Points(data, at + 4) else []
  }

  /** The decoder of a block whose entries end at `limit`. */
  function DecoderOf(data: Bytes, limit: nat): Decoder
    requires limit <= |data|
  {
    (p: nat) =>
      if p > limit then None
      else
        match DecodeEntry(data[p..limit])
        case None => None
        case Some(parts) => Some(parts.(next := p + parts.next))
  }

  /** The restart array reads back, wherever it starts. */
  lemma {:induction false} PointsBack(data: Bytes, at: nat, ns: seq<nat>)
    requires at + 4 * |ns| + 4 == |data| && forall k :: 0 <= k < |ns| ==> HoldsAt(data, at + 4 * k, ns[k])
    ensures Points(data, at) == ns
    decreases |ns|
  {
    if ns != [] {
      assert HoldsAt(data, at + 4 * 0, ns[0]);
      forall k | 0 <= k < |ns[1..]| ensures HoldsAt(data, at + 4 + 4 * k, ns[1..][k]) {
        assert HoldsAt(data, at + 4 * (k + 1), ns[k + 1]);
      }
      PointsBack(data, at + 4, ns[1..]);
      assert ns == [ns[0]] + ns[1..];
    }
  }

  lemma Last(x: Bytes, y: Bytes, z: Bytes)
    requires |z| == 4
    ensures (x + y + z)[|x + y + z| - 4..] == z
  {
  }

  lemma OffsetBack(data: Bytes, size: nat, n: nat)
    requires |data| == size + 4 * n + 4 && DecodeFixed32(data[|data| - 4..]) == n
    ensures RestartOffset(data) == Some(size)
  {
  }

  lemma PointsIn(data: Bytes, buffer: Bytes, ns: seq<nat>, points: Bytes, count: Bytes)
    requires data == buffer + points + count && |points| == 4 * |ns| && |count| == 4
    requires forall k :: 0 <= k < |ns| ==> HoldsAt(points, 4 * k, ns[k])
    ensures forall k :: 0 <= k < |ns| ==> HoldsAt(data, |buffer| + 4 * k, ns[k])
  {
    forall k | 0 <= k < |ns| ensures HoldsAt(data, |buffer| + 4 * k, ns[k]) {
      HoldsInside(buffer, points, count, 4 * k, ns[k]);
    }
  }

  lemma PointsWith(buffer: Bytes, ns: seq<nat>, points: Bytes, count: Bytes)
    requires |points| == 4 * |ns| && |count| == 4 && forall k :: 0 <= k < |ns| ==> HoldsAt(points, 4 * k, ns[k])
    ensures Points(buffer + points + count, |buffer|) == ns
  {
    PointsIn(buffer + points + count, buffer, ns, points, count);
    PointsBack(buffer + points + count, |buffer|, ns);
  }

  lemma OffsetWith(buffer: Bytes, n: nat, points: Bytes, count: Bytes)
    requires |points| == 4 * n && |count| == 4 && DecodeFixed32(count) == n
    ensures RestartOffset(buffer + points + count) == Some(|buffer|)
  {
    Last(buffer, points, count);
    OffsetBack(buffer + points + count, |buffer|, n);
  }

  /** A finished block opens: the entries end where the buffer ended and the restart array is the builder's. */
  lemma OpensFinished(buffer: Bytes, ns: seq<nat>)
    requires Small(ns) && |ns| < WORD
    ensures var data := buffer + FixedAll(ns) + Fixed(|ns|, 4);
            RestartOffset(data) == Some(|buffer|) && Points(data, |buffer|) == ns
  {
    FixedBack(|ns|);
    forall k | 0 <= k < |ns| ensures HoldsAt(FixedAll(ns), 4 * k, ns[k]) {
      FixedAllHolds(ns, k);
    }
    OffsetWith(buffer, |ns|, FixedAll(ns), Fixed(|ns|, 4));
    PointsWith(buffer, ns, FixedAll(ns), Fixed(|ns|, 4));
  }

  function Coder(): EntryCoder { (s: nat, d: Bytes, v: Bytes) => EncodeEntry(s, d, v) }

  lemma CoderNonEmpty()
    ensures NonEmpty(Coder())
  {
    forall s: nat, d: Bytes, v: Bytes ensures Coder()(s, d, v) != [] {
      assert |Varint(s % WORD)| >= 1;
    }
  }

  ghost predicate SmallPairs(l: Layout) {
    forall i :: 0 <= i < |l.pairs| ==> |l.pairs[i].key| < WORD && |l.pairs[i].value| < WORD
  }

  lemma EntryDecodes(data: Bytes, buffer: Bytes, l: Layout, i: nat)
    requires Holds(Coder(), buffer, l) && SmallPairs(l) && i < |l.pairs| && buffer <= data
    ensures DecodesAt(DecoderOf(data, |buffer|), l, i)
  {
    assert Segment(Coder(), buffer, l, i) && SharesPrefix(l, i);
    var s, d, v := l.shared[i], l.pairs[i].key[l.shared[i]..], l.pairs[i].value;
    var p, q := l.offsets[i], l.offsets[i + 1];
    assert p < q && (i + 1 < |l.pairs| ==> q < l.offsets[|l.pairs|]);
    EntryAt(data, buffer, p, q, s, d, v);
  }

  lemma EntryAt(data: Bytes, buffer: Bytes, p: nat, q: nat, s: nat, d: Bytes, v: Bytes)
    requires buffer <= data && p <= q <= |buffer| && buffer[p..q] == EncodeEntry(s, d, v)
    requires s < WORD && |d| < WORD && |v| < WORD
    ensures DecoderOf(data, |buffer|)(p) == Some(Parts(s, d, v, q))
  {
    assert data[p..|buffer|] == buffer[p..q] + buffer[q..];
    EntryRoundTrip(s, d, v, buffer[q..]);
  }

  /** The decoder of a finished block decodes every entry that was added. */
  lemma BlockDecodes(data: Bytes, buffer: Bytes, l: Layout)
    requires Holds(Coder(), buffer, l) && SmallPairs(l) && buffer <= data
    ensures Decodes(DecoderOf(data, |buffer|), l)
  {
    forall i: nat | i < |l.pairs| ensures DecodesAt(DecoderOf(data, |buffer|), l, i) {
      EntryDecodes(data, buffer, l, i);
    }
  }

  lemma RestartsSmall(b: BlockBuilder)
    requires b.Valid() && |b.buffer| < WORD
    ensures Small(b.restarts)
  {
    var l := b.layout;
    forall k | 0 <= k < |b.restarts| ensures b.restarts[k] < WORD {
      assert l.starts[k] < |l.pairs| ==> l.offsets[l.starts[k]] < l.offsets[|l.pairs|];
    }
  }

  /** Build a block, open it, and give an iterator over exactly the pairs that were added. */
  method BuildAndOpen(pairs: seq<Pair>, interval: nat, less: Order) returns (block: Bytes, it: Option<Iter>)
    requires interval >= 1 && forall p :: p in pairs ==> |p.key| < WORD && |p.value| < WORD
    ensures |block| < WORD ==> it.Some? && fresh(it.value) && it.value.Over() && it.value.layout.pairs == pairs && it.value.less == less
  {
    CoderNonEmpty();
    var b := new BlockBuilder(Coder(), interval);
    for i := 0 to |pairs|
      invariant b.Valid() && fresh(b) && b.encode == Coder() && b.layout.pairs == pairs[..i]
    {
      b.Add(pairs[i].key, pairs[i].value);
      assert pairs[..i + 1] == pairs[..i] + [pairs[i]];
    }
    block := b.Finish();
    if |block| >= WORD {
      return block, None;
    }
    RestartsSmall(b);
    OpensFinished(b.buffer, b.restarts);
    assert SmallPairs(b.layout) by {
      assert forall i :: 0 <= i < |pairs| ==> pairs[i] in pairs;
    }
    assert b.buffer <= block;
    BlockDecodes(block, b.buffer, b.layout);
    var limit := RestartOffset(block).value;
    var iter := new Iter(DecoderOf(block, limit), less, Points(block, limit), limit, b.layout);
    it := Some(iter);
  }

  /** Iterating forward over a finished block yields what was added. */
  method RoundTrip(pairs: seq<Pair>, interval: nat, less: Order) returns (block: Bytes, got: seq<Pair>)
    requires interval >= 1 && forall p :: p in pairs ==> |p.key| < WORD && |p.value| < WORD
    ensures |block| < WORD ==> got == pairs
  {
    var it;
    block, it := BuildAndOpen(pairs, interval, less);
    got := [];
    if |block| < WORD {
      var iter := it.value;
      iter.SeekToFirst();
      ghost var i := 0;
      if pairs != [] {
        iter.OffsetOrder(0, |pairs|);
      }
      while iter.current < iter.limit
        invariant fresh(iter) && iter.layout.pairs == pairs && 0 <= i <= |pairs| && got == pairs[..i]
        invariant if i < |pairs| then iter.At(i) && iter.current < iter.limit else iter.AtEnd()
        decreases |pairs| - i
      {
        assert i < |pairs|;
        got := got + [Pair(iter.key, iter.value)];
        assert pairs[..i + 1] == pairs[..i] + [pairs[i]];
        iter.Next(i);
        i := i + 1;
        if i < |pairs| {
          iter.OffsetOrder(i, |pairs|);
        }
      }
    }
  }
}

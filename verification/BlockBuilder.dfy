/** Building blocks (kv/table/block_builder.cpp) and reading them back (kv/table/block.cpp). */
module BlockBuilders {
  import opened Format
  import opened Coding
  import opened FixedArrays
  import opened BlockIterators
  import opened BlockFormats

  /** How an entry is written: the shared length, the rest of the key, the value. */
  type EntryCoder = (nat, Bytes, Bytes) -> Bytes

  ghost predicate NonEmpty(encode: EntryCoder) {
    forall s: nat, d: Bytes, v: Bytes :: encode(s, d, v) != []
  }

  /** The buffer has entry `i` where the layout says. */
  ghost predicate Segment(encode: EntryCoder, buffer: Bytes, l: Layout, i: nat)
    requires LayoutOk(l) && i < |l.pairs| && l.offsets[|l.pairs|] == |buffer|
  {
    assert SharesPrefix(l, i);
    buffer[l.offsets[i]..l.offsets[i + 1]] == encode(l.shared[i], l.pairs[i].key[l.shared[i]..], l.pairs[i].value)
  }

  ghost predicate Holds(encode: EntryCoder, buffer: Bytes, l: Layout) {
    && LayoutOk(l) && l.offsets[|l.pairs|] == |buffer|
    && forall i: nat :: i < |l.pairs| ==> Segment(encode, buffer, l, i)
  }

  /** One entry more, at the end; a restart point or not. */
  ghost function Extended(l: Layout, pair: Pair, shared: nat, end: nat, restart: bool): Layout {
    Layout(l.pairs + [pair], l.shared + [shared], l.offsets + [end], if restart then l.starts + [|l.pairs|] else l.starts)
  }

  /** What Add makes sure of: the new entry shares a prefix with the last key, none if it is a restart point. */
  ghost predicate MayFollow(l: Layout, pair: Pair, shared: nat, end: nat, restart: bool)
    requires LayoutOk(l)
  {
    && shared <= |pair.key| && l.offsets[|l.pairs|] < end
    && (shared > 0 ==> |l.pairs| > 0 && shared <= |l.pairs[|l.pairs| - 1].key|
                       && pair.key[..shared] == l.pairs[|l.pairs| - 1].key[..shared])
    && (restart ==> |l.pairs| > 0 && shared == 0) && (|l.pairs| == 0 ==> shared == 0)
  }

  lemma ExtendedShares(l: Layout, pair: Pair, shared: nat, end: nat, restart: bool, i: nat)
    requires LayoutOk(l) && MayFollow(l, pair, shared, end, restart) && i <= |l.pairs|
    ensures SharesPrefix(Extended(l, pair, shared, end, restart), i)
  {
    if i < |l.pairs| {
      assert SharesPrefix(l, i);
    }
  }

  lemma IncreasingSnoc(ns: seq<nat>, n: nat)
    requires Increasing(ns) && (ns != [] ==> ns[|ns| - 1] < n)
    ensures Increasing(ns + [n])
  {
    forall i | 0 <= i < |ns| ensures ns[i] < n {
      assert i < |ns| - 1 ==> ns[i] < ns[|ns| - 1];
    }
  }

  lemma ExtendedStarts(l: Layout, pair: Pair, shared: nat, end: nat, restart: bool)
    requires LayoutOk(l) && MayFollow(l, pair, shared, end, restart)
    ensures var m := Extended(l, pair, shared, end, restart);
            && |m.starts| > 0 && m.starts[0] == 0 && Increasing(m.starts)
            && forall k :: 0 <= k < |m.starts| ==> m.starts[k] < |m.pairs| && m.shared[m.starts[k]] == 0
  {
    var m := Extended(l, pair, shared, end, restart);
    var n := |l.pairs|;
    if restart {
      assert l.starts[|l.starts| - 1] < n;
      IncreasingSnoc(l.starts, n);
    }
    forall k | 0 <= k < |m.starts| ensures m.starts[k] < |m.pairs| && m.shared[m.starts[k]] == 0 {
      if k < |l.starts| {
        assert m.starts[k] == l.starts[k];
        assert l.starts[k] < n ==> m.shared[l.starts[k]] == l.shared[l.starts[k]];
      }
    }
  }

  lemma ExtendedOk(l: Layout, pair: Pair, shared: nat, end: nat, restart: bool)
    requires LayoutOk(l) && MayFollow(l, pair, shared, end, restart)
    ensures LayoutOk(Extended(l, pair, shared, end, restart))
  {
    var m := Extended(l, pair, shared, end, restart);
    forall i: nat | i < |m.pairs| ensures SharesPrefix(m, i) {
      ExtendedShares(l, pair, shared, end, restart, i);
    }
    ExtendedStarts(l, pair, shared, end, restart);
    IncreasingSnoc(l.offsets, end);
  }

  lemma ExtendedHolds(encode: EntryCoder, buffer: Bytes, l: Layout, pair: Pair, shared: nat, restart: bool)
    requires Holds(encode, buffer, l) && NonEmpty(encode) && shared <= |pair.key|
    requires MayFollow(l, pair, shared, |buffer| + |encode(shared, pair.key[shared..], pair.value)|, restart)
    ensures var entry := encode(shared, pair.key[shared..], pair.value);
            Holds(encode, buffer + entry, Extended(l, pair, shared, |buffer| + |entry|, restart))
  {
    var entry := encode(shared, pair.key[shared..], pair.value);
    var m := Extended(l, pair, shared, |buffer| + |entry|, restart);
    ExtendedOk(l, pair, shared, |buffer| + |entry|, restart);
    forall i: nat | i < |m.pairs| ensures Segment(encode, buffer + entry, m, i) {
      if i < |l.pairs| {
        assert Segment(encode, buffer, l, i);
        assert l.offsets[i] < l.offsets[i + 1] && (i + 1 < |l.pairs| ==> l.offsets[i + 1] < l.offsets[|l.pairs|]);
        assert (buffer + entry)[l.offsets[i]..l.offsets[i + 1]] == buffer[l.offsets[i]..l.offsets[i + 1]];
      } else {
        assert (buffer + entry)[|buffer|..|buffer| + |entry|] == entry;
      }
    }
  }

  lemma OneMore(n: nat, interval: nat)
    requires n > 0
    ensures (n - 1) * interval + interval == n * interval
  {
  }

  /** Entry `i` shares all it can with the key before it. */
  ghost predicate SharesAll(l: Layout, i: nat)
    requires 0 < i < |l.pairs| == |l.shared|
  {
    var n, a, b := l.shared[i], l.pairs[i - 1].key, l.pairs[i].key;
    n < |a| && n < |b| ==> a[n] != b[n]
  }

  ghost predicate Starts(l: Layout, interval: nat, k: nat)
    requires k < |l.starts|
  {
    l.starts[k] == k * interval
  }

  /** Every `interval` entries there is a restart point, and all others share what they can. */
  ghost predicate Compressed(l: Layout, interval: nat) {
    && |l.shared| == |l.pairs| && (forall k: nat :: k < |l.starts| ==> Starts(l, interval, k))
    && forall i: nat :: 0 < i < |l.pairs| ==> i in l.starts || SharesAll(l, i)
  }

  lemma ExtendedCompressed(l: Layout, pair: Pair, shared: nat, end: nat, restart: bool, interval: nat)
    requires Compressed(l, interval) && (restart ==> |l.pairs| == |l.starts| * interval)
    requires !restart && |l.pairs| > 0 ==>
               var a := l.pairs[|l.pairs| - 1].key; shared < |a| && shared < |pair.key| ==> a[shared] != pair.key[shared]
    ensures Compressed(Extended(l, pair, shared, end, restart), interval)
  {
    var m := Extended(l, pair, shared, end, restart);
    forall k: nat | k < |m.starts| ensures Starts(m, interval, k) {
      assert k < |l.starts| ==> Starts(l, interval, k);
    }
    forall i: nat | 0 < i < |m.pairs| ensures i in m.starts || SharesAll(m, i) {
      if i < |l.pairs| {
        if i in l.starts {
          var k :| 0 <= k < |l.starts| && l.starts[k] == i;
          assert m.starts[k] == i;
        } else {
          assert SharesAll(l, i);
        }
      } else if restart {
        assert m.starts[|l.starts|] == i;
      }
    }
  }

  /** The builder's fields against the layout. */
  ghost predicate Tracks(l: Layout, restarts: seq<nat>, counter: nat, last_key: Bytes, interval: nat)
    requires LayoutOk(l)
  {
    && |restarts| == |l.starts| && (forall k :: 0 <= k < |restarts| ==> restarts[k] == l.offsets[l.starts[k]])
    && (if |l.pairs| == 0 then last_key == [] && counter == 0
        else last_key == l.pairs[|l.pairs| - 1].key && 0 < counter <= interval)
    && |l.pairs| == (|l.starts| - 1) * interval + counter
  }

  lemma TracksMore(l: Layout, restarts: seq<nat>, counter: nat, last_key: Bytes, interval: nat, pair: Pair, shared: nat,
                   end: nat)
    requires LayoutOk(l) && interval >= 1 && Tracks(l, restarts, counter, last_key, interval)
    requires MayFollow(l, pair, shared, end, counter >= interval)
    ensures var restart := counter >= interval;
            var m := Extended(l, pair, shared, end, restart);
            && LayoutOk(m) && (restart ==> |l.pairs| == |l.starts| * interval)
            && Tracks(m, if restart then restarts + [l.offsets[|l.pairs|]] else restarts, (if restart then 0 else counter) + 1,
                      pair.key, interval)
  {
    ExtendedOk(l, pair, shared, end, counter >= interval);
    OneMore(|l.starts|, interval);
    var m := Extended(l, pair, shared, end, counter >= interval);
    assert forall k :: 0 <= k < |l.starts| ==> m.offsets[l.starts[k]] == l.offsets[l.starts[k]];
  }

  class BlockBuilder {
    const encode: EntryCoder
    const interval: nat
    var buffer: Bytes
    var restarts: seq<nat>
    var counter: nat
    var last_key: Bytes
    ghost var layout: Layout

    ghost predicate Valid()
      reads this
    {
      && interval >= 1 && NonEmpty(encode) && Holds(encode, buffer, layout)
      && Tracks(layout, restarts, counter, last_key, interval) && Compressed(layout, interval)
    }

    constructor (encode: EntryCoder, interval: nat)
      requires interval >= 1 && NonEmpty(encode)
      ensures Valid() && layout.pairs == [] && this.encode == encode
    {
      this.encode, this.interval := encode, interval;
      buffer, restarts, counter, last_key := [], [0], 0, [];
      layout := Layout([], [], [0], [0]);
    }

    /** How much of the key to share: the common prefix with the last one. */
    method CommonPrefix(key: Bytes) returns (shared: nat)
      ensures shared <= |last_key| && shared <= |key| && key[..shared] == last_key[..shared]
      ensures shared < |last_key| && shared < |key| ==> last_key[shared] != key[shared]
    {
      var min_length := if |last_key| < |key| then |last_key| else |key|;
      shared := 0;
      while shared < min_length && last_key[shared] == key[shared]
        invariant shared <= min_length && key[..shared] == last_key[..shared]
      {
        shared := shared + 1;
      }
    }

    method Add(key: Bytes, value: Bytes)
      requires Valid()
      modifies this
      ensures Valid() && layout.pairs == old(layout.pairs) + [Pair(key, value)]
    {
      var shared := 0;
      ghost var restart := counter >= interval;
      if counter < interval {
        shared := CommonPrefix(key);
      } else {
        restarts := restarts + [|buffer|];
        counter := 0;
      }
      var entry := encode(shared, key[shared..], value);
      ghost var pair := Pair(key, value);
      ghost var end := |buffer| + |entry|;
      assert entry != [];
      assert MayFollow(layout, pair, shared, end, restart);
      ExtendedHolds(encode, buffer, layout, pair, shared, restart);
      TracksMore(layout, old(restarts), old(counter), last_key, interval, pair, shared, end);
      ExtendedCompressed(layout, pair, shared, end, restart, interval);
      layout := Extended(layout, pair, shared, end, restart);
      buffer := buffer + entry;
      last_key := last_key[..shared] + key[shared..];
      assert key == key[..shared] + key[shared..];
      counter := counter + 1;
    }

    /** Finish: the restart array and its length. */
    method Finish() returns (block: Bytes)
      requires Valid()
      ensures block == buffer + FixedAll(restarts) + Fixed(|restarts|, 4)
    {
      block := buffer;
      for i := 0 to |restarts|
        invariant block == buffer + FixedAll(restarts[..i])
      {
        FixedSnoc(restarts, i);
        block := block + Fixed(restarts[i], 4);
      }
      assert restarts[..|restarts|] == restarts;
      block := block + Fixed(|restarts|, 4);
    }
  }
}

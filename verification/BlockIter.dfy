/** The iterator over a block (kv/table/block.cpp, Block::Iter), above the decoding of single entries. */
module BlockIterators {
  import opened Format

  /** A decoded entry: how much of the previous key it shares, the rest of its key, its value, and where it ends. */
  datatype Parts = Parts(shared: nat, delta: Bytes, value: Bytes, next: nat)

  /** DecodeEntry at an offset of the block. */
  type Decoder = nat -> Option<Parts>

  /** Compare(a, b) < 0. */
  type Order = (Bytes, Bytes) -> bool

  datatype Pair = Pair(key: Bytes, value: Bytes)

  /** What a block holds: its entries, how much each shares with the one before, where each starts (and where the last
      one ends), and which of them are restart points. */
  datatype Layout = Layout(pairs: seq<Pair>, shared: seq<nat>, offsets: seq<nat>, starts: seq<nat>)

  ghost predicate Increasing(s: seq<nat>) {
    forall i, j :: 0 <= i < j < |s| ==> s[i] < s[j]
  }

  /** Entry `i` shares a prefix with entry i - 1. */
  ghost predicate SharesPrefix(l: Layout, i: nat)
    requires i < |l.pairs| == |l.shared|
  {
    && l.shared[i] <= |l.pairs[i].key|
    && (l.shared[i] > 0 ==> i > 0 && l.shared[i] <= |l.pairs[i - 1].key|
                            && l.pairs[i].key[..l.shared[i]] == l.pairs[i - 1].key[..l.shared[i]])
  }

  ghost predicate LayoutOk(l: Layout) {
    && |l.shared| == |l.pairs| && |l.offsets| == |l.pairs| + 1
    && l.offsets[0] == 0 && Increasing(l.offsets)
    && (forall i: nat :: i < |l.pairs| ==> SharesPrefix(l, i))
    && |l.starts| > 0 && l.starts[0] == 0 && Increasing(l.starts)
    && (forall k :: 0 <= k < |l.starts| ==> l.starts[k] < |l.pairs| || (l.starts[k] == 0 && |l.starts| == 1))
    && (forall k :: 0 <= k < |l.starts| && l.starts[k] < |l.pairs| ==> l.shared[l.starts[k]] == 0)
  }

  ghost predicate DecodesAt(decode: Decoder, l: Layout, i: nat)
    requires LayoutOk(l) && i < |l.pairs|
  {
    assert SharesPrefix(l, i);
    decode(l.offsets[i]) == Some(Parts(l.shared[i], l.pairs[i].key[l.shared[i]..], l.pairs[i].value, l.offsets[i + 1]))
  }

  ghost predicate Decodes(decode: Decoder, l: Layout) {
    LayoutOk(l) && forall i: nat :: i < |l.pairs| ==> DecodesAt(decode, l, i)
  }

  ghost predicate SortedBy(less: Order, l: Layout) {
    && (forall i, j :: 0 <= i < j < |l.pairs| ==> less(l.pairs[i].key, l.pairs[j].key))
    && forall a, b, c :: less(a, b) && less(b, c) ==> less(a, c)
  }

  class Iter {
    const decode: Decoder
    const less: Order
    /** The restart array and the end of the entries. */
    const points: seq<nat>
    const limit: nat

    var current: nat
    var restart_index: nat
    var key: Bytes
    var value: Bytes
    /** NextEntryOffset: just past the current value. */
    var next: nat

    ghost const layout: Layout

    ghost predicate Over()
    {
      && Decodes(decode, layout) && limit == layout.offsets[|layout.pairs|]
      && |points| == |layout.starts|
      && forall k :: 0 <= k < |points| ==> points[k] == layout.offsets[layout.starts[k]]
    }

    constructor (decode: Decoder, less: Order, points: seq<nat>, limit: nat, ghost layout: Layout)
      requires Decodes(decode, layout) && limit == layout.offsets[|layout.pairs|]
      requires |points| == |layout.starts| && forall k :: 0 <= k < |points| ==> points[k] == layout.offsets[layout.starts[k]]
      ensures Over() && this.decode == decode && this.less == less && this.layout == layout && AtEnd()
    {
      this.decode, this.less, this.points, this.limit, this.layout := decode, less, points, limit, layout;
      current, restart_index, key, value, next := limit, |points|, [], [], 0;
    }

    /** About to parse entry `i`: enough of its key is there. */
    ghost predicate Ready(i: nat)
      reads this
    {
      && Over() && i <= |layout.pairs| && next == layout.offsets[i] && restart_index < |points|
      && layout.starts[restart_index] <= i
      && (i < |layout.pairs| ==> SharesPrefix(layout, i) && layout.shared[i] <= |key|
                                 && key[..layout.shared[i]] == layout.pairs[i].key[..layout.shared[i]])
    }

    /** On entry `i`; `restart_index` is the restart region it falls in, or the one before if it is itself a restart. */
    ghost predicate At(i: nat)
      reads this
    {
      && Over() && i < |layout.pairs| && current == layout.offsets[i] && next == layout.offsets[i + 1]
      && key == layout.pairs[i].key && value == layout.pairs[i].value
      && restart_index < |points| && layout.starts[restart_index] <= i
      && (restart_index + 1 < |points| ==> i <= layout.starts[restart_index + 1])
    }

    ghost predicate AtEnd()
      reads this
    {
      Over() && current == limit
    }

    lemma OffsetOrder(i: nat, j: nat)
      requires Over() && i <= |layout.pairs| && j <= |layout.pairs|
      ensures layout.offsets[i] < layout.offsets[j] <==> i < j
      ensures layout.offsets[i] == layout.offsets[j] <==> i == j
    {
    }

    /** A restart point is before an entry exactly if its offset is. */
    lemma PointOrder(k: nat, i: nat)
      requires Over() && k < |points| && i <= |layout.pairs|
      ensures points[k] < layout.offsets[i] <==> layout.starts[k] < i
    {
      OffsetOrder(layout.starts[k], i);
    }

    /** The end of ParseNextKey: catch up with the restart points passed. */
    method AdvanceRestart(ghost i: nat)
      requires Over() && i < |layout.pairs| && current == layout.offsets[i]
      requires restart_index < |points| && layout.starts[restart_index] <= i
      modifies this`restart_index
      ensures old(restart_index) <= restart_index < |points| && layout.starts[restart_index] <= i
      ensures restart_index + 1 < |points| ==> i <= layout.starts[restart_index + 1]
    {
      while restart_index + 1 < |points| && points[restart_index + 1] < current
        invariant restart_index < |points| && layout.starts[restart_index] <= i && old(restart_index) <= restart_index
        decreases |points| - restart_index
      {
        PointOrder(restart_index + 1, i);
        restart_index := restart_index + 1;
      }
      if restart_index + 1 < |points| {
        PointOrder(restart_index + 1, i);
      }
    }

    /** ParseNextKey. */
    method ParseNextKey(ghost i: nat) returns (ok: bool)
      requires Ready(i)
      modifies this
      ensures ok == (i < |layout.pairs|)
      ensures if ok then At(i) && old(restart_index) <= restart_index else AtEnd()
    {
      OffsetOrder(i, |layout.pairs|);
      current := next;
      if current >= limit {
        current := limit;
        restart_index := |points|;
        return false;
      }
      assert DecodesAt(decode, layout, i) && SharesPrefix(layout, i);
      var p := decode(current);
      if p.None? || |key| < p.value.shared {
        assert false;
      } else {
        ghost var k := layout.pairs[i].key;
        assert k[..layout.shared[i]] + k[layout.shared[i]..] == k;
        key := key[..p.value.shared] + p.value.delta;
        value := p.value.value;
        next := p.value.next;
        AdvanceRestart(i);
        ok := true;
      }
    }

    /** SeekToRestartPoint. */
    method SeekToRestartPoint(index: nat)
      requires Over() && index < |points|
      modifies this
      ensures Ready(layout.starts[index]) && restart_index == index
    {
      key := [];
      restart_index := index;
      next := points[index];
      ghost var i := layout.starts[index];
      assert i < |layout.pairs| ==> SharesPrefix(layout, i) && layout.shared[i] == 0;
      assert i < |layout.pairs| ==> layout.pairs[i].key[..0] == [];
    }

    lemma NextReady(i: nat)
      requires At(i)
      ensures Ready(i + 1)
    {
      assert i + 1 < |layout.pairs| ==> SharesPrefix(layout, i + 1);
    }

    /** Next gives the successor. */
    method Next(ghost i: nat)
      requires At(i)
      modifies this
      ensures if i + 1 < |layout.pairs| then At(i + 1) else AtEnd()
    {
      NextReady(i);
      var _ := ParseNextKey(i + 1);
    }

    method SeekToFirst()
      requires Over()
      modifies this
      ensures if |layout.pairs| > 0 then At(0) else AtEnd()
    {
      SeekToRestartPoint(0);
      var _ := ParseNextKey(0);
    }

    method SeekToLast()
      requires Over()
      modifies this
      ensures if |layout.pairs| > 0 then At(|layout.pairs| - 1) else AtEnd()
    {
      SeekToRestartPoint(|points| - 1);
      ghost var i := layout.starts[|points| - 1];
      var ok := ParseNextKey(i);
      while ok && next < limit
        invariant ok == (i < |layout.pairs|) && (if ok then At(i) else AtEnd() && |layout.pairs| == 0)
        decreases |layout.pairs| - i
      {
        OffsetOrder(i + 1, |layout.pairs|);
        NextReady(i);
        i := i + 1;
        ok := ParseNextKey(i);
      }
      if ok {
        OffsetOrder(i + 1, |layout.pairs|);
      }
    }

    /** Scan back to the last restart point before entry `i`, if there is one. */
    method BackToRegion(ghost i: nat, original: nat) returns (found: bool)
      requires Over() && i < |layout.pairs| && original == layout.offsets[i] && restart_index < |points|
      modifies this
      ensures found == (i > 0) && Over()
      ensures if found then restart_index < |points| && layout.starts[restart_index] < i else AtEnd()
    {
      while points[restart_index] >= original
        invariant restart_index < |points|
        decreases restart_index
      {
        PointOrder(restart_index, i);
        if restart_index == 0 {
          current := limit;
          restart_index := |points|;
          return false;
        }
        restart_index := restart_index - 1;
      }
      PointOrder(restart_index, i);
      found := true;
    }

    /** Prev gives the exact predecessor, whichever restart region it is in. */
    method Prev(ghost i: nat)
      requires At(i)
      modifies this
      ensures if i > 0 then At(i - 1) else AtEnd()
    {
      var original := current;
      var found := BackToRegion(i, original);
      if !found {
        return;
      }
      ghost var j := layout.starts[restart_index];
      SeekToRestartPoint(restart_index);
      var ok := ParseNextKey(j);
      while ok && next < original
        invariant ok && j < i && At(j)
        decreases i - j
      {
        OffsetOrder(j + 1, i);
        NextReady(j);
        j := j + 1;
        ok := ParseNextKey(j);
      }
      OffsetOrder(j + 1, i);
    }

    /** The key of a restart point, decoded without context. */
    lemma PointKey(k: nat)
      requires Over() && k < |points| && layout.starts[k] < |layout.pairs|
      ensures decode(points[k]).Some? && decode(points[k]).value.shared == 0
      ensures decode(points[k]).value.delta == layout.pairs[layout.starts[k]].key
    {
      var i := layout.starts[k];
      assert DecodesAt(decode, layout, i) && layout.shared[i] == 0;
      assert layout.pairs[i].key[0..] == layout.pairs[i].key;
    }

    /** Everything before entry `i` is before the target. */
    ghost predicate AllBefore(target: Bytes, i: nat)
      requires i <= |layout.pairs|
    {
      forall j :: 0 <= j < i ==> less(layout.pairs[j].key, target)
    }

    /** The key at restart point `k` is at or after the target. */
    ghost predicate NotBefore(target: Bytes, k: nat)
      requires Over() && k < |points|
    {
      layout.starts[k] < |layout.pairs| && !less(layout.pairs[layout.starts[k]].key, target)
    }

    /** The binary search over the restart points: all entries before the one it returns are before the target, and the
        next restart point is not. */
    method FindRegion(target: Bytes) returns (left: nat)
      requires Over() && SortedBy(less, layout)
      ensures left < |points| && layout.starts[left] <= |layout.pairs| && AllBefore(target, layout.starts[left])
      ensures left + 1 < |points| ==> NotBefore(target, left + 1)
    {
      left := 0;
      var right := |points| - 1;
      while left < right
        invariant 0 <= left <= right < |points| && AllBefore(target, layout.starts[left])
        invariant right + 1 < |points| ==> NotBefore(target, right + 1)
        decreases right - left
      {
        var mid := (left + right + 1) / 2;
        PointKey(mid);
        var p := decode(points[mid]);
        if p.None? || p.value.shared != 0 {
          assert false;
        } else if less(p.value.delta, target) {
          AllBeforePoint(target, layout.starts[mid]);
          left := mid;
        } else {
          right := mid - 1;
        }
      }
    }

    lemma AllBeforePoint(target: Bytes, i: nat)
      requires SortedBy(less, layout) && i < |layout.pairs| && less(layout.pairs[i].key, target)
      ensures AllBefore(target, i + 1)
    {
    }

    /** Seek lands on the first entry at or after the target. */
    method Seek(target: Bytes) returns (ghost i: nat)
      requires Over() && SortedBy(less, layout)
      modifies this
      ensures i <= |layout.pairs| && AllBefore(target, i)
      ensures if i < |layout.pairs| then At(i) && !less(layout.pairs[i].key, target) else AtEnd()
    {
      var left := FindRegion(target);
      SeekToRestartPoint(left);
      i := layout.starts[left];
      while true
        invariant Ready(i) && AllBefore(target, i)
        decreases |layout.pairs| - i
      {
        var ok := ParseNextKey(i);
        if !ok {
          return;
        }
        if !less(key, target) {
          return;
        }
        AllBeforePoint(target, i);
        NextReady(i);
        i := i + 1;
      }
    }
  }
}

/** Arrays of 32-bit numbers inside a file: restart points of a block, offsets of a filter block. */
module FixedArrays {
  import opened Format
  import opened Coding

  function FixedAll(ns: seq<nat>): (bs: Bytes)
    ensures |bs| == 4 * |ns|
  {
    if ns == [] then [] else FixedAll(ns[..|ns| - 1]) + Fixed(ns[|ns| - 1], 4)
  }

  lemma FixedSnoc(ns: seq<nat>, i: nat)
    requires i < |ns|
    ensures FixedAll(ns[..i + 1]) == FixedAll(ns[..i]) + Fixed(ns[i], 4)
  {
    assert ns[..i + 1][..i] == ns[..i];
  }

  ghost predicate Small(ns: seq<nat>) { forall k :: 0 <= k < |ns| ==> ns[k] < WORD }

  lemma FixedBack(n: nat)
    requires n < WORD
    ensures DecodeFixed32(Fixed(n, 4)) == n
  {
    FixedRoundTrip(n, 4);
    assert Power(256, 4) == 0x1_0000_0000;
  }

  /** Four bytes at an offset hold `n`. */
  ghost predicate HoldsAt(data: Bytes, p: nat, n: nat) {
    p + 4 <= |data| && DecodeFixed32(data[p..p + 4]) == n
  }

  lemma {:induction false} FixedAllAt(ns: seq<nat>, k: nat)
    requires k < |ns|
    ensures FixedAll(ns)[4 * k..4 * k + 4] == Fixed(ns[k], 4)
  {
    var n := |ns| - 1;
    if k < n {
      FixedAllAt(ns[..n], k);
      assert FixedAll(ns)[4 * k..4 * k + 4] == FixedAll(ns[..n])[4 * k..4 * k + 4];
    }
  }

  lemma Middle(x: Bytes, y: Bytes, z: Bytes, i: nat, j: nat)
    requires i <= j <= |y|
    ensures (x + y + z)[|x| + i..|x| + j] == y[i..j]
  {
  }

  lemma HoldsInside(x: Bytes, y: Bytes, z: Bytes, p: nat, n: nat)
    requires HoldsAt(y, p, n)
    ensures HoldsAt(x + y + z, |x| + p, n)
  {
    Middle(x, y, z, p, p + 4);
  }

  lemma FixedAllHolds(ns: seq<nat>, k: nat)
    requires Small(ns) && k < |ns|
    ensures HoldsAt(FixedAll(ns), 4 * k, ns[k])
  {
    FixedAllAt(ns, k);
    FixedBack(ns[k]);
  }
}

/** Bloom filters (kv/util/bloom.cpp). */
module Bloom {
  import opened Format
  import opened Coding

  /** Bit `i` of a number. */
  predicate Bit(b: nat, i: nat) {
    if i == 0 then b % 2 == 1 else Bit(b / 2, i - 1)
  }

  /** b | (1 << i). */
  function SetBit(b: nat, i: nat): nat {
    if i == 0 then b / 2 * 2 + 1 else SetBit(b / 2, i - 1) * 2 + b % 2
  }

  lemma {:induction false} SetBitSets(b: nat, i: nat, j: nat)
    ensures Bit(SetBit(b, i), j) <==> i == j || Bit(b, j)
  {
    var c := SetBit(b, i);
    assert c / 2 == if i == 0 then b / 2 else SetBit(b / 2, i - 1);
    if i > 0 && j > 0 {
      SetBitSets(b / 2, i - 1, j - 1);
    }
  }

  lemma {:induction false} SetBitFits(b: nat, i: nat, n: nat)
    requires i < n && b < Power(2, n)
    ensures SetBit(b, i) < Power(2, n)
  {
    if i > 0 {
      SetBitFits(b / 2, i - 1, n - 1);
    }
  }

  /** It is the bit of that value. */
  lemma {:induction false} BitValue(b: nat, i: nat)
    ensures Power(2, i) > 0 && (Bit(b, i) <==> b / Power(2, i) % 2 == 1)
  {
    if i > 0 {
      BitValue(b / 2, i - 1);
      DivideTwice(b, 2, Power(2, i - 1));
    }
  }

  predicate BitAt(bits: Bytes, p: nat)
    requires p < 8 * |bits|
  {
    Bit(bits[p / 8], p % 8)
  }

  /** array[p / 8] |= (1 << (p % 8)). */
  function SetAt(bits: Bytes, p: nat): (r: Bytes)
    requires p < 8 * |bits|
    ensures |r| == |bits|
  {
    assert Power(2, 8) == 256;
    SetBitFits(bits[p / 8], p % 8, 8);
    bits[p / 8 := SetBit(bits[p / 8], p % 8)]
  }

  lemma SetAtSets(bits: Bytes, p: nat, q: nat)
    requires p < 8 * |bits| && q < 8 * |bits|
    ensures BitAt(SetAt(bits, p), q) <==> q == p || BitAt(bits, q)
  {
    SetBitSets(bits[p / 8], p % 8, q % 8);
  }

  /** The bit of probe `j`: the hash, plus `j` times the hash rotated right by 17 bits, modulo 2^32, modulo the bits. */
  function BitOf(h: Word, j: nat, size: nat): (p: nat)
    requires size > 0
    ensures p < 8 * size
  {
    (h + j * (h / 0x2_0000 + h % 0x2_0000 * 0x8000)) % 0x1_0000_0000 % (size * 8)
  }

  /** Some probe of the hash goes to bit `p`. */
  ghost predicate Probed(p: nat, size: nat, h: Word, k: nat)
    requires size > 0
  {
    exists j: nat :: j < k && p == BitOf(h, j, size)
  }

  /** The bit of probe `j` is set. */
  ghost predicate Hits(bits: Bytes, h: Word, j: nat)
    requires |bits| > 0
  {
    BitAt(bits, BitOf(h, j, |bits|))
  }

  /** All probes of the hash hit. */
  ghost predicate Covers(bits: Bytes, h: Word, k: nat) {
    |bits| > 0 && forall j: nat :: j < k ==> Hits(bits, h, j)
  }

  /** h += delta, as a 32-bit number. */
  lemma NextProbe(h: Word, delta: Word, j: nat)
    ensures ((h + j * delta) % WORD + delta) % WORD == (h + (j + 1) * delta) % WORD
  {
    assert (j + 1) * delta == j * delta + delta;
    AddModulo(h + j * delta, delta);
  }

  lemma AddModulo(x: nat, d: nat)
    ensures (x % WORD + d) % WORD == (x + d) % WORD
  {
  }

  /** What a filter, its bits followed by the number of probes, says of a hash: one without bits matches nothing, one with
      more than 30 probes everything. */
  ghost predicate Matches(filter: Bytes, h: Word) {
    |filter| >= 2 && (filter[|filter| - 1] > 30 || Covers(filter[..|filter| - 1], h, filter[|filter| - 1]))
  }

  /** BloomFilterPolicy, with any hash function. */
  datatype Policy = Policy(hash: Bytes -> Word, bits_per_key: nat) {
    /** k_: 0.69 probes per bit, from 1 to 30. */
    function Probes(): (k: Byte)
      ensures 1 <= k <= 30
      ensures (k > 1 ==> 100 * k <= 69 * bits_per_key) && (k < 30 ==> 69 * bits_per_key < 100 * (k + 1))
    {
      var k := bits_per_key * 69 / 100;
      if k < 1 then 1 else if k > 30 then 30 else k
    }
  }

  /** Set the bits of one key, and no other. */
  method AddHash(bits: Bytes, hash: Word, k: nat) returns (r: Bytes)
    requires |bits| > 0
    ensures |r| == |bits|
    ensures forall p :: 0 <= p < 8 * |bits| ==> (BitAt(r, p) <==> BitAt(bits, p) || Probed(p, |bits|, hash, k))
  {
    r := bits;
    var h := hash;
    var delta := h / 0x2_0000 + h % 0x2_0000 * 0x8000;
    for j := 0 to k
      invariant |r| == |bits| && h == (hash + j * delta) % WORD
      invariant forall p :: 0 <= p < 8 * |bits| ==> (BitAt(r, p) <==> BitAt(bits, p) || Probed(p, |bits|, hash, j))
    {
      var bitpos := h % (|r| * 8);
      SetStep(bits, r, hash, j, bitpos);
      r := SetAt(r, bitpos);
      NextProbe(hash, delta, j);
      h := (h + delta) % WORD;
    }
  }

  lemma SetStep(bits: Bytes, r: Bytes, hash: Word, j: nat, bitpos: nat)
    requires |r| == |bits| > 0 && bitpos == BitOf(hash, j, |bits|)
    requires forall p :: 0 <= p < 8 * |bits| ==> (BitAt(r, p) <==> BitAt(bits, p) || Probed(p, |bits|, hash, j))
    ensures forall p :: 0 <= p < 8 * |bits| ==>
              (BitAt(SetAt(r, bitpos), p) <==> BitAt(bits, p) || Probed(p, |bits|, hash, j + 1))
  {
    forall p | 0 <= p < 8 * |bits|
      ensures BitAt(SetAt(r, bitpos), p) <==> BitAt(bits, p) || Probed(p, |bits|, hash, j + 1)
    {
      SetAtSets(r, bitpos, p);
      ProbedStep(p, |bits|, hash, j);
    }
  }

  lemma ProbedStep(p: nat, size: nat, h: Word, j: nat)
    requires size > 0
    ensures Probed(p, size, h, j + 1) <==> Probed(p, size, h, j) || p == BitOf(h, j, size)
  {
  }

  ghost predicate ProbedByAny(policy: Policy, keys: seq<Bytes>, p: nat, size: nat)
    requires size > 0
  {
    exists i :: 0 <= i < |keys| && Probed(p, size, policy.hash(keys[i]), policy.Probes())
  }

  lemma ProbedByOneMore(policy: Policy, keys: seq<Bytes>, i: nat, p: nat, size: nat)
    requires size > 0 && i < |keys|
    ensures ProbedByAny(policy, keys[..i + 1], p, size) <==>
            ProbedByAny(policy, keys[..i], p, size) || Probed(p, size, policy.hash(keys[i]), policy.Probes())
  {
    var front, more := keys[..i], keys[..i + 1];
    assert forall n :: 0 <= n < i ==> more[n] == front[n];
    assert more[i] == keys[i];
  }

  /** At least 64 bits, and whole bytes. */
  function FilterSize(policy: Policy, n: nat): (bytes: nat)
    ensures bytes >= 8 && 8 * bytes >= n * policy.bits_per_key && (bytes > 8 ==> 8 * (bytes - 1) < n * policy.bits_per_key)
  {
    var bits := n * policy.bits_per_key;
    ((if bits < 64 then 64 else bits) + 7) / 8
  }

  method FilterBits(policy: Policy, keys: seq<Bytes>) returns (bits: Bytes)
    ensures |bits| == FilterSize(policy, |keys|)
    ensures forall p :: 0 <= p < 8 * |bits| ==> (BitAt(bits, p) <==> ProbedByAny(policy, keys, p, |bits|))
  {
    var bytes := FilterSize(policy, |keys|);
    bits := seq(bytes, _ => 0);
    forall p | 0 <= p < 8 * bytes ensures !BitAt(bits, p) {
      ZeroBits(p % 8);
    }
    for i := 0 to |keys|
      invariant |bits| == bytes
      invariant forall p :: 0 <= p < 8 * bytes ==> (BitAt(bits, p) <==> ProbedByAny(policy, keys[..i], p, bytes))
    {
      forall p ensures ProbedByAny(policy, keys[..i + 1], p, bytes) <==>
        ProbedByAny(policy, keys[..i], p, bytes) || Probed(p, bytes, policy.hash(keys[i]), policy.Probes())
      {
        ProbedByOneMore(policy, keys, i, p, bytes);
      }
      bits := AddHash(bits, policy.hash(keys[i]), policy.Probes());
    }
    assert keys[..|keys|] == keys;
  }

  lemma {:induction false} ZeroBits(i: nat)
    ensures !Bit(0, i)
  {
    if i > 0 {
      ZeroBits(i - 1);
    }
  }

  /** The filter of some keys: exactly the probed bits are set. */
  ghost predicate FilterOf(policy: Policy, keys: seq<Bytes>, filter: Bytes) {
    var n := |filter| - 1;
    && n == FilterSize(policy, |keys|) && filter[n] == policy.Probes()
    && forall p :: 0 <= p < 8 * n ==> (BitAt(filter[..n], p) <==> ProbedByAny(policy, keys, p, n))
  }

  /** No false negatives. */
  lemma FilterOfMatches(policy: Policy, keys: seq<Bytes>, filter: Bytes, key: Bytes)
    requires FilterOf(policy, keys, filter) && key in keys
    ensures Matches(filter, policy.hash(key))
  {
    var n := |filter| - 1;
    var i :| 0 <= i < |keys| && keys[i] == key;
    forall j: nat | j < policy.Probes() ensures Hits(filter[..n], policy.hash(key), j) {
      assert Probed(BitOf(policy.hash(key), j, n), n, policy.hash(keys[i]), policy.Probes());
    }
  }

  /** CreateFilter appends the filter of its keys. */
  method CreateFilter(policy: Policy, keys: seq<Bytes>, dst: Bytes) returns (dst': Bytes, ghost filter: Bytes)
    ensures dst' == dst + filter && FilterOf(policy, keys, filter)
  {
    var bits := FilterBits(policy, keys);
    dst' := dst + bits + [policy.Probes()];
    filter := bits + [policy.Probes()];
    assert filter[..|filter| - 1] == bits;
  }

  /** KeyMayMatch decides what the filter says. */
  method KeyMayMatch(policy: Policy, key: Bytes, filter: Bytes) returns (r: bool)
    ensures r <==> Matches(filter, policy.hash(key))
  {
    var len := |filter|;
    if len < 2 {
      return false;
    }
    var k := filter[len - 1];
    if k > 30 {
      return true;
    }
    r := AllSet(filter[..len - 1], policy.hash(key), k);
  }

  method AllSet(bits: Bytes, hash: Word, k: nat) returns (r: bool)
    requires |bits| > 0
    ensures r <==> Covers(bits, hash, k)
  {
    var h := hash;
    var delta := h / 0x2_0000 + h % 0x2_0000 * 0x8000;
    for j := 0 to k
      invariant Covers(bits, hash, j) && h == (hash + j * delta) % WORD
    {
      var bitpos := h % (|bits| * 8);
      assert bitpos == BitOf(hash, j, |bits|);
      if !BitAt(bits, bitpos) {
        assert !Hits(bits, hash, j);
        return false;
      }
      NextProbe(hash, delta, j);
      h := (h + delta) % WORD;
    }
    r := true;
  }

  /** A key is turned away if the bit of its hash is not one that a key of the filter goes to. */
  lemma Rejects(policy: Policy, keys: seq<Bytes>, filter: Bytes, key: Bytes)
    requires FilterOf(policy, keys, filter)
    requires var bits := 8 * (|filter| - 1);
             forall i :: 0 <= i < |keys| ==> !Probed(policy.hash(key) % bits, |filter| - 1, policy.hash(keys[i]), policy.Probes())
    ensures !Matches(filter, policy.hash(key))
  {
    var n := |filter| - 1;
    assert BitOf(policy.hash(key), 0, n) == policy.hash(key) % (8 * n);
    assert !Hits(filter[..n], policy.hash(key), 0);
  }

  /** No false negatives: whatever keys a filter is made for, each of them matches. */
  method CreateThenMatch(policy: Policy, keys: seq<Bytes>, dst: Bytes, i: nat) returns (r: bool)
    requires i < |keys|
    ensures r
  {
    var dst', filter := CreateFilter(policy, keys, dst);
    assert dst'[|dst|..] == filter;
    FilterOfMatches(policy, keys, filter, keys[i]);
    r := KeyMayMatch(policy, keys[i], dst'[|dst|..]);
  }
}

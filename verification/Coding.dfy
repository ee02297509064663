/** Fixed-width and variable-length numbers and length-prefixed strings (kv/util/coding.h, kv/util/coding.cpp). */
module Coding {
  import opened Format

  const WORD: int := 0x1_0000_0000
  const LONG: int := 0x1_0000_0000_0000_0000

  type Word = x: int | 0 <= x < 0x1_0000_0000
  type Long = x: int | 0 <= x < 0x1_0000_0000_0000_0000

  function Power(base: nat, n: nat): nat {
    if n == 0 then 1 else base * Power(base, n - 1)
  }

  /** EncodeFixed32 and EncodeFixed64: the low `n` bytes of `x`, least significant first. */
  function Fixed(x: nat, n: nat): (bs: Bytes)
    ensures |bs| == n
  {
    if n == 0 then [] else [x % 256] + Fixed(x / 256, n - 1)
  }

  /** DecodeFixed32 and DecodeFixed64. */
  function Unfix(bs: Bytes): nat {
    if bs == [] then 0 else bs[0] + 256 * Unfix(bs[1..])
  }

  lemma {:induction false} UnfixBound(bs: Bytes)
    ensures Unfix(bs) < Power(256, |bs|)
  {
    if bs != [] {
      UnfixBound(bs[1..]);
    }
  }

  function DecodeFixed32(bs: Bytes): (r: Word)
    requires |bs| == 4
    ensures r == Unfix(bs)
  {
    UnfixBound(bs);
    assert Power(256, 4) == 0x1_0000_0000;
    Unfix(bs)
  }

  /** Decoding gives the number back exactly when it fits. */
  lemma {:induction false} FixedRoundTrip(x: nat, n: nat)
    ensures Unfix(Fixed(x, n)) == x <==> x < Power(256, n)
  {
    if n > 0 {
      FixedRoundTrip(x / 256, n - 1);
      assert Fixed(x, n)[1..] == Fixed(x / 256, n - 1);
    }
  }

  /** Byte `i` is digit `i` to the base 256. */
  lemma {:induction false} FixedDigit(x: nat, n: nat, i: nat)
    requires i < n
    ensures Power(256, i) > 0 && Fixed(x, n)[i] == x / Power(256, i) % 256
  {
    PowerPositive(256, i);
    if i > 0 {
      FixedDigit(x / 256, n - 1, i - 1);
      DivideTwice(x, 256, Power(256, i - 1));
    }
  }

  lemma DivideTwice(x: nat, a: nat, b: nat)
    requires a > 0 && b > 0 && a * b > 0
    ensures x / a / b == x / (a * b)
  {
    var q, r, t := x / a / b, x / a % b, x % a;
    assert x / a == q * b + r;
    assert x == (q * b + r) * a + t;
    assert (q * b + r) * a + t == q * (a * b) + (r * a + t);
    SmallRest(r, a, b, t);
    OnlyQuotient(x, a * b, q, r * a + t);
  }

  lemma SmallRest(r: nat, a: nat, b: nat, t: nat)
    requires r < b && t < a
    ensures r * a + t < a * b
  {
    assert (r + 1) * a <= b * a by {
      NoMore(r + 1, b, a);
    }
  }

  lemma NoMore(p: nat, q: nat, n: nat)
    requires p <= q
    ensures p * n <= q * n
  {
  }

  lemma OnlyQuotient(x: nat, n: nat, q: nat, r: nat)
    requires r < n && x == q * n + r
    ensures x / n == q
  {
    var p := x / n;
    assert p * n <= x < (p + 1) * n;
    if p < q {
      NoMore(p + 1, q, n);
    } else if q < p {
      NoMore(q + 1, p, n);
    }
  }

  // ---- Varints ----

  /** EncodeVarint64: seven bits a byte, low bits first, the high bit set on all but the last. */
  function Varint(v: nat): (bs: Bytes)
    ensures |bs| >= 1
  {
    if v < 128 then [v] else [v % 128 + 128] + Varint(v / 128)
  }

  method EncodeVarint64(v: Long) returns (bs: Bytes)
    ensures bs == Varint(v)
  {
    bs := [];
    var left := v;
    while left >= 128
      invariant left >= 0 && bs + Varint(left) == Varint(v)
    {
      bs := bs + [left % 128 + 128];
      left := left / 128;
    }
    bs := bs + [left];
  }

  /** Byte `i` has digit `i` to the base 128, and the high bit except in the last. */
  lemma {:induction false} VarintDigit(v: nat, i: nat)
    requires i < |Varint(v)|
    ensures Power(128, i) > 0
    ensures Varint(v)[i] == v / Power(128, i) % 128 + if i < |Varint(v)| - 1 then 128 else 0
  {
    PowerPositive(128, i);
    if i > 0 {
      VarintDigit(v / 128, i - 1);
      DivideTwice(v, 128, Power(128, i - 1));
    }
  }

  /** EncodeVarint32, unrolled, writes the same bytes. */
  function EncodeVarint32(v: Word): Bytes {
    if v < 0x80 then [v]
    else if v < 0x4000 then [v % 128 + 128, v / 0x80]
    else if v < 0x20_0000 then [v % 128 + 128, v / 0x80 % 128 + 128, v / 0x4000]
    else if v < 0x1000_0000 then [v % 128 + 128, v / 0x80 % 128 + 128, v / 0x4000 % 128 + 128, v / 0x20_0000]
    else [v % 128 + 128, v / 0x80 % 128 + 128, v / 0x4000 % 128 + 128, v / 0x20_0000 % 128 + 128, v / 0x1000_0000]
  }

  lemma VarintStep(v: nat)
    ensures v < 128 ==> Varint(v) == [v]
    ensures v >= 128 ==> Varint(v) == [v % 128 + 128] + Varint(v / 128)
  {
  }

  lemma Quotients(v: Word)
    ensures v / 128 / 128 == v / 0x4000 && v / 0x4000 / 128 == v / 0x20_0000 && v / 0x20_0000 / 128 == v / 0x1000_0000
    ensures v / 0x1000_0000 < 128
  {
  }

  lemma Varint32Unrolled(v: Word)
    ensures EncodeVarint32(v) == Varint(v)
  {
    Quotients(v);
    VarintStep(v);
    VarintStep(v / 0x80);
    VarintStep(v / 0x4000);
    VarintStep(v / 0x20_0000);
    VarintStep(v / 0x1000_0000);
  }

  method VarintLength(v: Long) returns (len: nat)
    ensures len == |Varint(v)|
  {
    var left := v;
    len := 1;
    while left >= 128
      invariant left >= 0 && len + |Varint(left)| == |Varint(v)| + 1
    {
      left := left / 128;
      len := len + 1;
    }
  }

  /** `n` bytes are enough exactly for numbers below 128^n. */
  lemma {:induction false} VarintSize(v: nat, n: nat)
    requires n > 0
    ensures |Varint(v)| <= n <==> v < Power(128, n)
  {
    if n == 1 {
      assert Power(128, 1) == 128;
    } else if v >= 128 {
      VarintSize(v / 128, n - 1);
    } else {
      PowerPositive(128, n - 1);
    }
  }

  lemma {:induction false} PowerPositive(base: nat, n: nat)
    requires base > 0
    ensures Power(base, n) > 0
  {
    if n > 0 {
      PowerPositive(base, n - 1);
    }
  }

  /** The number at the start of `bs`, written in at most `most` bytes, and how many bytes it takes. */
  function Unvarint(bs: Bytes, most: nat): (r: Option<(nat, nat)>)
    ensures r.Some? ==> 0 < r.value.1 <= |bs|
  {
    if bs == [] || most == 0 then None
    else if bs[0] < 128 then Some((bs[0], 1))
    else
      match Unvarint(bs[1..], most - 1)
      case None => None
      case Some((v, n)) => Some((bs[0] - 128 + 128 * v, n + 1))
  }

  /** Decoding gives the number back and stops right after it. */
  lemma {:induction false} VarintRoundTrip(v: nat, most: nat, rest: Bytes)
    requires |Varint(v)| <= most
    ensures Unvarint(Varint(v) + rest, most) == Some((v, |Varint(v)|))
  {
    if v >= 128 {
      VarintRoundTrip(v / 128, most - 1, rest);
      assert (Varint(v) + rest)[1..] == Varint(v / 128) + rest;
    }
  }

  lemma ModAdd(a: nat, b: nat, m: nat)
    requires m > 0
    ensures (a % m + b) % m == (a + b) % m
  {
    var q, r := a / m, (a % m + b) / m;
    assert a + b == m * (q + r) + (a % m + b) % m by {
      assert a == m * q + a % m && a % m + b == m * r + (a % m + b) % m;
      assert m * (q + r) == m * q + m * r;
    }
    DivisionUnique(a + b, m, q + r, (a % m + b) % m);
  }

  lemma DivisionUnique(x: nat, m: nat, q: nat, r: nat)
    requires m > 0 && r < m && x == m * q + r
    ensures x % m == r
  {
    var d := x / m - q;
    assert m * d == m * (x / m) - m * q == r - x % m;
    assert d >= 1 ==> m * d >= m;
    assert d <= -1 ==> m * d <= m * (-1);
  }

  /** After `p` bytes the number is `total` plus `weight` times what is left. */
  ghost predicate SoFar(input: Bytes, most: nat, p: nat, total: nat, weight: nat) {
    && p <= |input| && p <= most
    && match Unvarint(input[p..], most - p)
       case None => Unvarint(input, most) == None
       case Some((v, n)) => Unvarint(input, most) == Some((total + weight * v, p + n))
  }

  lemma SoFarLast(input: Bytes, most: nat, p: nat, total: nat, weight: nat)
    requires SoFar(input, most, p, total, weight) && p < |input| && p < most && input[p] < 128
    ensures Unvarint(input, most) == Some((total + weight * input[p], p + 1))
  {
    assert input[p..][0] == input[p];
  }

  lemma SoFarMore(input: Bytes, most: nat, p: nat, total: nat, weight: nat)
    requires SoFar(input, most, p, total, weight) && p < |input| && p < most && input[p] >= 128
    ensures SoFar(input, most, p + 1, total + weight * (input[p] - 128), weight * 128)
  {
    assert input[p..][0] == input[p] && input[p..][1..] == input[p + 1..];
    var r := Unvarint(input[p + 1..], most - p - 1);
    if r.Some? {
      Distribute(weight, input[p] - 128, r.value.0);
    }
  }

  lemma Distribute(weight: nat, low: nat, high: nat)
    ensures weight * (low + 128 * high) == weight * low + (weight * 128) * high
  {
  }

  /** GetVarint32Ptr and GetVarint64Ptr: at most five or ten bytes, the value modulo 2^32 or 2^64. */
  method GetVarint(input: Bytes, most: nat, modulus: nat) returns (r: Option<(nat, nat)>)
    requires modulus > 0
    ensures match Unvarint(input, most)
            case None => r == None
            case Some((v, n)) => r == Some((v % modulus, n))
  {
    var result, p, weight: nat := 0, 0, 1;
    ghost var total: nat := 0;
    assert input[0..] == input;
    while p < most && p < |input|
      invariant SoFar(input, most, p, total, weight) && result == total % modulus
    {
      var byte: int := input[p];
      if byte < 128 {
        SoFarLast(input, most, p, total, weight);
        ModAdd(total, weight * byte, modulus);
        return Some(((result + weight * byte) % modulus, p + 1));
      }
      SoFarMore(input, most, p, total, weight);
      ModAdd(total, weight * (byte - 128), modulus);
      result := (result + weight * (byte - 128)) % modulus;
      total := total + weight * (byte - 128);
      weight := weight * 128;
      p := p + 1;
    }
    return None;
  }

  // ---- Consuming a slice ----

  function GetVarint32(input: Bytes): (r: Option<(Word, Bytes)>)
    ensures r.Some? ==> |r.value.1| < |input|
  {
    match Unvarint(input, 5)
    case None => None
    case Some((v, n)) => Some((v % WORD, input[n..]))
  }

  function GetVarint64(input: Bytes): (r: Option<(Long, Bytes)>)
    ensures r.Some? ==> |r.value.1| < |input|
  {
    match Unvarint(input, 10)
    case None => None
    case Some((v, n)) => Some((v % LONG, input[n..]))
  }

  lemma Varint32RoundTrip(v: Word, rest: Bytes)
    ensures GetVarint32(Varint(v) + rest) == Some((v, rest))
  {
    VarintSize(v, 5);
    assert Power(128, 5) == 0x8_0000_0000;
    VarintRoundTrip(v, 5, rest);
    assert (Varint(v) + rest)[|Varint(v)|..] == rest;
  }

  lemma Varint64RoundTrip(v: Long, rest: Bytes)
    ensures GetVarint64(Varint(v) + rest) == Some((v, rest))
  {
    VarintSize(v, 10);
    assert Power(128, 5) == 0x8_0000_0000;
    assert Power(128, 10) == 0x40_0000_0000_0000_0000;
    VarintRoundTrip(v, 10, rest);
    assert (Varint(v) + rest)[|Varint(v)|..] == rest;
  }

  /** PutLengthPrefixedSlice: the length goes through a 32-bit parameter. */
  function Prefixed(s: Bytes): (bs: Bytes)
    ensures |bs| > |s|
  {
    Varint(|s| % WORD) + s
  }

  function GetPrefixed(input: Bytes): (r: Option<(Bytes, Bytes)>)
    ensures r.Some? ==> |r.value.1| < |input|
  {
    match GetVarint32(input)
    case None => None
    case Some((len, rest)) => if |rest| >= len then Some((rest[..len], rest[len..])) else None
  }

  /** A string comes back exactly when its length fits into 32 bits. */
  lemma PrefixedRoundTrip(s: Bytes, rest: Bytes)
    ensures GetPrefixed(Prefixed(s) + rest) == Some((s, rest)) <==> |s| < WORD
  {
    var len := |s| % WORD;
    assert Prefixed(s) + rest == Varint(len) + (s + rest);
    Varint32RoundTrip(len, s + rest);
    if |s| < WORD {
      assert (s + rest)[..len] == s && (s + rest)[len..] == rest;
    }
  }
}

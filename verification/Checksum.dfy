/** CRC-32C, byte at a time, and its masking (kv/util/crc32c.h, kv/util/crc32c.cpp). */
module Checksum {
  import opened Format
  import opened Coding

  /** Bitwise exclusive or of the low `n` bits. */
  function Xor(a: nat, b: nat, n: nat): (r: nat)
    ensures r < Power(2, n)
  {
    if n == 0 then 0 else (a + b) % 2 + 2 * Xor(a / 2, b / 2, n - 1)
  }

  function Xor32(a: Word, b: Word): (r: Word) {
    assert Power(2, 8) == 0x100;
    assert Power(2, 16) == 0x1_0000;
    assert Power(2, 24) == 0x100_0000;
    assert Power(2, 32) == 0x1_0000_0000;
    Xor(a, b, 32)
  }

  /** The reflected Castagnoli polynomial. */
  const POLYNOMIAL: Word := 0x82F6_3B78

  function Shift(crc: Word, n: nat): Word
    decreases n
  {
    if n == 0 then crc
    else Shift(if crc % 2 == 1 then Xor32(crc / 2, POLYNOMIAL) else crc / 2, n - 1)
  }

  function Fold(crc: Word, data: Bytes): Word
    decreases data
  {
    if data == [] then crc else Fold(Shift(Xor32(crc, data[0]), 8), data[1..])
  }

  function Complement(x: Word): Word { WORD - 1 - x }

  function Extend(crc: Word, data: Bytes): Word { Complement(Fold(Complement(crc), data)) }

  function Crc(data: Bytes): Word { Extend(0, data) }

  lemma {:induction false} FoldConcat(crc: Word, a: Bytes, b: Bytes)
    ensures Fold(crc, a + b) == Fold(Fold(crc, a), b)
    decreases a
  {
    if a == [] {
      assert a + b == b;
    } else {
      assert (a + b)[1..] == a[1..] + b;
      FoldConcat(Shift(Xor32(crc, a[0]), 8), a[1..], b);
    }
  }

  /** The checksum of a concatenation can be computed in two steps. */
  lemma ExtendConcat(crc: Word, a: Bytes, b: Bytes)
    ensures Extend(Extend(crc, a), b) == Extend(crc, a + b)
  {
    FoldConcat(Complement(crc), a, b);
  }

  const MASK_DELTA: Word := 0xA282_EAD8

  /** Rotate right by 15 bits and add a constant, modulo 2^32. */
  function Mask(crc: Word): Word {
    (crc / 0x8000 + crc % 0x8000 * 0x2_0000 + MASK_DELTA) % WORD
  }

  function Unmask(masked: Word): Word {
    var rot := (masked - MASK_DELTA) % WORD;
    rot / 0x2_0000 + rot % 0x2_0000 * 0x8000
  }

  lemma UnmaskMask(crc: Word)
    ensures Unmask(Mask(crc)) == crc
  {
    var h, l := crc / 0x8000, crc % 0x8000;
    var rot := h + l * 0x2_0000;
    assert 0 <= h < 0x2_0000 && 0 <= rot < WORD;
    assert (Mask(crc) - MASK_DELTA) % WORD == rot;
    assert rot / 0x2_0000 == l && rot % 0x2_0000 == h;
  }
}

/** What the checksum is for: no single damaged byte goes unnoticed (kv/util/crc32c.cpp, kv/db/log_writer.cpp). */
module CrcDetects {
  import opened Format
  import opened Coding
  import opened Checksum
  import opened Log
  import FixedArrays

  lemma {:induction false} XorInjective(a: nat, b: nat, c: nat, n: nat)
    requires Xor(a, c, n) == Xor(b, c, n) && a < Power(2, n) && b < Power(2, n)
    ensures a == b
  {
    if n > 0 {
      var x, y := Xor(a / 2, c / 2, n - 1), Xor(b / 2, c / 2, n - 1);
      SameParts(a, b, c, x, y);
      XorInjective(a / 2, b / 2, c / 2, n - 1);
    }
  }

  lemma SameParts(a: nat, b: nat, c: nat, x: nat, y: nat)
    requires (a + c) % 2 + 2 * x == (b + c) % 2 + 2 * y
    ensures x == y && a % 2 == b % 2 && (a / 2 == b / 2 ==> a == b)
  {
  }

  lemma {:induction false} XorCommutes(a: nat, b: nat, n: nat)
    ensures Xor(a, b, n) == Xor(b, a, n)
  {
    if n > 0 {
      XorCommutes(a / 2, b / 2, n - 1);
    }
  }

  lemma PowerOfWord()
    ensures Power(2, 32) == WORD
  {
    assert Power(2, 8) == 0x100;
    assert Power(2, 16) == 0x1_0000;
    assert Power(2, 24) == 0x100_0000;
  }

  lemma Xor32Injective(a: Word, b: Word, c: Word)
    requires Xor32(a, c) == Xor32(b, c)
    ensures a == b
  {
    PowerOfWord();
    XorInjective(a, b, c, 32);
  }

  lemma Xor32Commutes(a: Word, b: Word)
    ensures Xor32(a, b) == Xor32(b, a)
  {
    XorCommutes(a, b, 32);
  }

  /** The top bit of an exclusive or. */
  lemma {:induction false} XorTop(a: nat, b: nat, n: nat)
    requires a < Power(2, n) && Power(2, n) <= b < 2 * Power(2, n)
    ensures Xor(a, b, n + 1) >= Power(2, n)
  {
    if n > 0 {
      XorTop(a / 2, b / 2, n - 1);
    }
  }

  /** One bit of the division. */
  function Divide(crc: Word): Word {
    if crc % 2 == 1 then Xor32(crc / 2, POLYNOMIAL) else crc / 2
  }

  lemma DivideTop(crc: Word)
    ensures Divide(crc) >= 0x8000_0000 <==> crc % 2 == 1
  {
    PowerOfWord();
    assert Power(2, 32) == 2 * Power(2, 31);
    if crc % 2 == 1 {
      XorTop(crc / 2, POLYNOMIAL, 31);
    }
  }

  lemma DivideInjective(a: Word, b: Word)
    requires Divide(a) == Divide(b)
    ensures a == b
  {
    DivideTop(a);
    DivideTop(b);
    if a % 2 == 1 {
      Xor32Injective(a / 2, b / 2, POLYNOMIAL);
    }
  }

  lemma {:induction false} ShiftInjective(a: Word, b: Word, n: nat)
    requires Shift(a, n) == Shift(b, n)
    ensures a == b
    decreases n
  {
    if n > 0 {
      ShiftInjective(Divide(a), Divide(b), n - 1);
      DivideInjective(a, b);
    }
  }

  /** Different states stay different. */
  lemma {:induction false} FoldInjective(a: Word, b: Word, data: Bytes)
    requires Fold(a, data) == Fold(b, data)
    ensures a == b
    decreases data
  {
    if data != [] {
      var x, y := Xor32(a, data[0]), Xor32(b, data[0]);
      FoldInjective(Shift(x, 8), Shift(y, 8), data[1..]);
      ShiftInjective(x, y, 8);
      Xor32Injective(a, b, data[0]);
    }
  }

  /** Two strings that differ in exactly one byte have different checksums. */
  lemma ByteDetected(crc: Word, pre: Bytes, x: Byte, y: Byte, post: Bytes)
    requires x != y
    ensures Extend(crc, pre + [x] + post) != Extend(crc, pre + [y] + post)
  {
    var c := Complement(crc);
    FoldConcat(c, pre + [x], post);
    FoldConcat(c, pre + [y], post);
    FoldConcat(c, pre, [x]);
    FoldConcat(c, pre, [y]);
    var s := Fold(c, pre);
    FoldOne(s, x);
    FoldOne(s, y);
    if Fold(s, [x]) == Fold(s, [y]) {
      ShiftInjective(Xor32(s, x), Xor32(s, y), 8);
      Xor32Commutes(s, x);
      Xor32Commutes(s, y);
      Xor32Injective(x, y, s);
    }
    if Fold(Fold(s, [x]), post) == Fold(Fold(s, [y]), post) {
      FoldInjective(Fold(s, [x]), Fold(s, [y]), post);
    }
  }

  lemma FoldOne(s: Word, x: Byte)
    ensures Fold(s, [x]) == Shift(Xor32(s, x), 8)
  {
    assert [x][1..] == [];
  }

  lemma MaskInjective(a: Word, b: Word)
    requires Mask(a) == Mask(b)
    ensures a == b
  {
    UnmaskMask(a);
    UnmaskMask(b);
  }

  /** Masking is rotating, which is multiplying by a power of two modulo 2^32 - 1, and adding a constant. */
  lemma MaskRotates(crc: Word)
    ensures ((Mask(crc) - MASK_DELTA) % WORD - crc * 0x2_0000) % 0xFFFF_FFFF == 0
  {
    var h, l := crc / 0x8000, crc % 0x8000;
    var rot := h + l * 0x2_0000;
    assert (Mask(crc) - MASK_DELTA) % WORD == rot;
    assert rot - crc * 0x2_0000 == -h * 0xFFFF_FFFF;
  }

  /** A physical record in which the type or one byte of the payload was damaged. */
  function Damaged(t: Byte, payload: Bytes, body: Bytes): Bytes
    requires |payload| <= 0xFFFF
  {
    Fixed(CrcSeal(t, payload), 4) + [|payload| % 256, |payload| / 256] + body
  }

  lemma DamagedParts(t: Byte, payload: Bytes, body: Bytes, rest: Bytes)
    requires |payload| <= 0xFFFF && |body| == 1 + |payload|
    ensures var b := Damaged(t, payload, body) + rest;
            && |b| >= HEADER_SIZE + |payload| && b[..4] == Fixed(CrcSeal(t, payload), 4)
            && b[4] as int + 256 * (b[5] as int) == |payload| && b[6] == body[0] && b[6..HEADER_SIZE + |payload|] == body
  {
    var seal := Fixed(CrcSeal(t, payload), 4);
    var b := Damaged(t, payload, body) + rest;
    assert b[6..HEADER_SIZE + |payload|] == body;
  }

  lemma SealIs(t: Byte, payload: Bytes)
    ensures Unmask(DecodeFixed32(Fixed(CrcSeal(t, payload), 4))) == Crc([t] + payload)
  {
    FixedArrays.FixedBack(CrcSeal(t, payload));
    UnmaskMask(Extend(Crc([t]), payload));
    ExtendConcat(0, [t], payload);
  }

  /** With checksums on, the reader does not take it for a record. */
  lemma DamageNoticed(t: Byte, payload: Bytes, pre: Bytes, x: Byte, y: Byte, post: Bytes, rest: Bytes, full: bool)
    requires |payload| <= 0xFFFF && [t] + payload == pre + [x] + post && x != y
    ensures var r := CrcParser(true)(Damaged(t, payload, pre + [y] + post) + rest, full); r.Some? && r.value.0.Broken?
  {
    var body := pre + [y] + post;
    assert |body| == |[t] + payload|;
    DamagedParts(t, payload, body, rest);
    SealIs(t, payload);
    ByteDetected(0, pre, x, y, post);
  }

  // ---- The table ----

  lemma {:induction false} XorZero(b: nat, n: nat)
    requires b < Power(2, n)
    ensures Xor(0, b, n) == b
  {
    if n > 0 {
      XorZero(b / 2, n - 1);
    }
  }

  lemma {:induction false} XorWiden(a: nat, b: nat, n: nat)
    requires a < Power(2, n) && b < Power(2, n)
    ensures Xor(a, b, n + 1) == Xor(a, b, n)
  {
    if n > 0 {
      XorWiden(a / 2, b / 2, n - 1);
    }
  }

  lemma XorHalves(a: nat, b: nat, n: nat)
    requires n > 0
    ensures Xor(a, b, n) % 2 == (a + b) % 2 && Xor(a, b, n) / 2 == Xor(a / 2, b / 2, n - 1)
  {
  }

  lemma Parity(a: nat, b: nat, c: nat, l: nat, r: nat)
    requires l % 2 == (a + b) % 2 && r % 2 == (b + c) % 2
    ensures (l + c) % 2 == (a + r) % 2
  {
  }

  lemma {:induction false} XorAssociates(a: nat, b: nat, c: nat, n: nat)
    ensures Xor(Xor(a, b, n), c, n) == Xor(a, Xor(b, c, n), n)
  {
    if n > 0 {
      var l, r := Xor(a, b, n), Xor(b, c, n);
      XorHalves(a, b, n);
      XorHalves(b, c, n);
      Parity(a, b, c, l, r);
      XorStep(l, c, n);
      XorStep(a, r, n);
      XorAssociates(a / 2, b / 2, c / 2, n - 1);
    }
  }

  lemma XorStep(a: nat, b: nat, n: nat)
    requires n > 0
    ensures Xor(a, b, n) == (a + b) % 2 + 2 * Xor(a / 2, b / 2, n - 1)
  {
  }

  lemma {:induction false} XorSelf(a: nat, n: nat)
    ensures Xor(a, a, n) == 0
  {
    if n > 0 {
      XorSelf(a / 2, n - 1);
    }
  }

  lemma Xor32Laws(a: Word, b: Word, c: Word)
    ensures Xor32(Xor32(a, b), c) == Xor32(a, Xor32(b, c)) && Xor32(a, b) == Xor32(b, a)
    ensures Xor32(a, a) == 0 && Xor32(0, a) == a
  {
    PowerOfWord();
    XorAssociates(a, b, c, 32);
    XorCommutes(a, b, 32);
    XorSelf(a, 32);
    XorZero(a, 32);
  }

  lemma Half32(a: Word, b: Word)
    ensures Xor32(a, b) % 2 == (a + b) % 2 && Xor32(a, b) / 2 == Xor32(a / 2, b / 2)
  {
    PowerOfWord();
    assert Power(2, 32) == 2 * Power(2, 31);
    XorHalves(a, b, 32);
    XorWiden(a / 2, b / 2, 31);
  }

  /** One bit of the division by `p`. */
  function DivideBy(crc: Word, p: Word): Word {
    if crc % 2 == 1 then Xor32(crc / 2, p) else crc / 2
  }

  lemma DivideByLinear(a: Word, b: Word, p: Word)
    ensures DivideBy(Xor32(a, b), p) == Xor32(DivideBy(a, p), DivideBy(b, p))
  {
    Half32(a, b);
    SumParity(a, b);
    var x, y := a / 2, b / 2;
    if a % 2 == 1 && b % 2 == 1 {
      BothOdd(x, y, p);
    } else if a % 2 == 1 {
      OneOdd(x, y, p);
    } else if b % 2 == 1 {
      Xor32Laws(x, y, p);
    }
  }

  lemma SumParity(a: nat, b: nat)
    ensures (a + b) % 2 == if a % 2 == b % 2 then 0 else 1
  {
  }

  lemma DivideLinear(a: Word, b: Word)
    ensures Divide(Xor32(a, b)) == Xor32(Divide(a), Divide(b))
  {
    DivideByLinear(a, b, POLYNOMIAL);
  }

  lemma OneOdd(x: Word, y: Word, p: Word)
    ensures Xor32(Xor32(x, y), p) == Xor32(Xor32(x, p), y)
  {
    Xor32Laws(x, y, p);
    Xor32Laws(x, p, y);
    Xor32Commutes(y, p);
  }

  lemma BothOdd(x: Word, y: Word, p: Word)
    ensures Xor32(Xor32(x, p), Xor32(y, p)) == Xor32(x, y)
  {
    Xor32Laws(x, p, Xor32(y, p));
    Xor32Commutes(y, p);
    Xor32Laws(p, p, y);
    Xor32Laws(y, y, y);
  }

  lemma {:induction false} ShiftLinear(a: Word, b: Word, n: nat)
    ensures Shift(Xor32(a, b), n) == Xor32(Shift(a, n), Shift(b, n))
    decreases n
  {
    if n > 0 {
      DivideLinear(a, b);
      ShiftLinear(Divide(a), Divide(b), n - 1);
    }
  }

  lemma {:induction false} ShiftHigh(y: Word, n: nat)
    requires y * Power(2, n) < WORD
    ensures Shift(y * Power(2, n), n) == y
    decreases n
  {
    if n > 0 {
      var p := Power(2, n - 1);
      Doubled(y, p);
      DivideEven(y * p);
      ShiftHigh(y, n - 1);
    }
  }

  lemma Doubled(y: nat, p: nat)
    ensures y * (2 * p) == 2 * (y * p) && y * p <= 2 * (y * p)
  {
  }

  lemma DivideEven(h: nat)
    requires 2 * h < WORD
    ensures Divide(2 * h) == h
  {
  }

  lemma EvenHalves(a: nat, y: nat)
    ensures (a + 2 * y) % 2 == a % 2 && 2 * y / 2 == y && a == 2 * (a / 2) + a % 2
  {
  }

  lemma XorEven(a: nat, y: nat, n: nat)
    requires n > 0 && Xor(a / 2, y, n - 1) == a / 2 + y
    ensures Xor(a, 2 * y, n) == a + 2 * y
  {
    XorStep(a, 2 * y, n);
    EvenHalves(a, y);
  }

  lemma {:induction false} XorDisjoint(a: nat, y: nat, k: nat, n: nat)
    requires a < Power(2, k) && k <= n && a + y * Power(2, k) < Power(2, n)
    ensures Xor(a, y * Power(2, k), n) == a + y * Power(2, k)
  {
    if k == 0 {
      XorZero(y, n);
    } else {
      var z := y * Power(2, k - 1);
      assert y * Power(2, k) == 2 * z;
      assert Power(2, n) == 2 * Power(2, n - 1);
      XorDisjoint(a / 2, y, k - 1, n - 1);
      XorEven(a, z, n);
    }
  }

  /** The byte step of the source: the table entry of the low byte, combined with the rest. */
  lemma TableStep(x: Word)
    ensures Shift(x, 8) == Xor32(Shift(x % 256, 8), x / 256)
  {
    PowerOfWord();
    assert Power(2, 8) == 256;
    var low, high := x % 256, x / 256;
    XorDisjoint(low, high, 8, 32);
    ShiftLinear(low, high * 256, 8);
    ShiftHigh(high, 8);
  }

  lemma {:induction false} ShiftMore(x: Word, n: nat, m: nat)
    ensures Shift(x, n + m) == Shift(Shift(x, n), m)
    decreases n
  {
    if n > 0 {
      ShiftMore(Divide(x), n - 1, m);
    }
  }

  lemma ShiftEven(x: Word, n: nat)
    requires n > 0 && x % 2 == 0
    ensures Shift(x, n) == Shift(x / 2, n - 1)
  {
  }

  /** Entry 2^k of kByteExtensionTable, from the top bit down. */
  lemma TableEntry(bit: Word, k: nat)
    requires bit == Power(2, k) && k <= 7
    ensures Shift(bit, 8) == Shift(POLYNOMIAL, 7 - k)
  {
    assert Power(2, 7) == 128;
    PowerUp(k, 7);
    ShiftHigh(1, k);
    ShiftMore(bit, k, 8 - k);
    FirstDivision(1, 8 - k);
  }

  lemma {:induction false} PowerUp(k: nat, n: nat)
    requires k <= n
    ensures Power(2, k) <= Power(2, n)
  {
    if k < n {
      PowerUp(k, n - 1);
    }
  }

  lemma DivideOne(p: Word)
    ensures DivideBy(1, p) == p
  {
    Xor32Laws(p, 0, 0);
  }

  lemma FirstDivision(one: Word, n: nat)
    requires one == 1 && n > 0
    ensures Shift(one, n) == Shift(POLYNOMIAL, n - 1)
  {
    DivideOne(POLYNOMIAL);
    assert Divide(one) == DivideBy(one, POLYNOMIAL);
  }

  lemma TableEntries()
    ensures Shift(0x80, 8) == 0x82F6_3B78 && Shift(0x40, 8) == 0x417B_1DBC
    ensures Shift(0x20, 8) == 0x20BD_8EDE && Shift(0x10, 8) == 0x105E_C76F
  {
    assert Power(2, 4) == 0x10 && Power(2, 5) == 0x20 && Power(2, 6) == 0x40 && Power(2, 7) == 0x80;
    TableEntry(0x80, 7);
    TableEntry(0x40, 6);
    TableEntry(0x20, 5);
    TableEntry(0x10, 4);
  }
}

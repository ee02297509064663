/** The bytes of an entry of a block: three lengths, the rest of the key, the value (kv/table/block_builder.cpp Add,
    kv/table/block.cpp DecodeEntry). */
module BlockFormats {
  import opened Format
  import opened Coding
  import opened BlockIterators

  /** How lengths are written and read. */
  datatype Lengths = Lengths(put: Word -> Bytes, get: Bytes -> Option<(Word, Bytes)>)

  ghost predicate ReadsBack(c: Lengths, v: Word, rest: Bytes) {
    c.get(c.put(v) + rest) == Some((v, rest))
  }

  ghost predicate Sound(c: Lengths) {
    forall v: Word, rest: Bytes :: ReadsBack(c, v, rest)
  }

  /** The lengths go through 32-bit parameters. */
  function EncodeWith(c: Lengths, shared: nat, delta: Bytes, value: Bytes): Bytes {
    c.put(shared % WORD) + (c.put(|delta| % WORD) + (c.put(|value| % WORD) + (delta + value)))
  }

  /** The parts of the entry at the start of `bs`; `next` is its size. */
  function DecodeWith(c: Lengths, bs: Bytes): (r: Option<Parts>) {
    match c.get(bs)
    case None => None
    case Some((shared, r1)) =>
      match c.get(r1)
      case None => None
      case Some((nonShared, r2)) =>
        match c.get(r2)
        case None => None
        case Some((valueLength, r3)) => Cut(shared, nonShared, valueLength, bs, r3)
  }

  /** The key delta and the value after the lengths, if they are all there. */
  function Cut(shared: nat, nonShared: nat, valueLength: nat, bs: Bytes, body: Bytes): Option<Parts> {
    if |body| < nonShared + valueLength || |bs| < |body| then None
    else Some(Parts(shared, body[..nonShared], body[nonShared..nonShared + valueLength],
                    |bs| - |body| + nonShared + valueLength))
  }

  lemma CutWhole(shared: nat, delta: Bytes, value: Bytes, rest: Bytes, header: Bytes)
    ensures var body := delta + value + rest;
            Cut(shared, |delta|, |value|, header + body, body) == Some(Parts(shared, delta, value, |header| + |delta| + |value|))
  {
    var body := delta + value + rest;
    assert body[..|delta|] == delta && body[|delta|..|delta| + |value|] == value;
  }

  /** An encoded entry decodes to its parts, whatever follows. */
  lemma WithRoundTrip(c: Lengths, shared: Word, delta: Bytes, value: Bytes, rest: Bytes)
    requires Sound(c) && |delta| < WORD && |value| < WORD
    ensures DecodeWith(c, EncodeWith(c, shared, delta, value) + rest) ==
            Some(Parts(shared, delta, value, |EncodeWith(c, shared, delta, value)|))
  {
    var body := delta + value + rest;
    var r2 := c.put(|value|) + body;
    var r1 := c.put(|delta|) + r2;
    var bs := EncodeWith(c, shared, delta, value) + rest;
    assert bs == c.put(shared) + r1;
    assert ReadsBack(c, shared, r1) && ReadsBack(c, |delta|, r2) && ReadsBack(c, |value|, body);
    var header := c.put(shared) + (c.put(|delta|) + c.put(|value|));
    assert bs == header + body;
    CutWhole(shared, delta, value, rest, header);
  }

  // ---- With varints ----

  function Varints(): Lengths { Lengths((v: Word) => Varint(v), GetVarint32) }

  lemma VarintsAreSound()
    ensures Sound(Varints())
  {
    forall v: Word, rest: Bytes ensures ReadsBack(Varints(), v, rest) {
      Varint32RoundTrip(v, rest);
    }
  }

  function EncodeEntry(shared: nat, delta: Bytes, value: Bytes): Bytes {
    EncodeWith(Varints(), shared, delta, value)
  }

  /** DecodeEntry: a fast path when all three lengths are below 128. */
  function DecodeEntry(bs: Bytes): Option<Parts> {
    if |bs| < 3 then None
    else if bs[0] < 128 && bs[1] < 128 && bs[2] < 128 then Cut(bs[0], bs[1], bs[2], bs, bs[3..])
    else DecodeWith(Varints(), bs)
  }

  lemma OneByte(bs: Bytes)
    requires bs != [] && bs[0] < 128
    ensures GetVarint32(bs) == Some((bs[0], bs[1..]))
  {
  }

  /** The fast path reads what the slow path would. */
  lemma FastPath(bs: Bytes)
    requires |bs| >= 3
    ensures DecodeEntry(bs) == DecodeWith(Varints(), bs)
  {
    if bs[0] < 128 && bs[1] < 128 && bs[2] < 128 {
      OneByte(bs);
      OneByte(bs[1..]);
      OneByte(bs[1..][1..]);
      assert bs[1..][1..][1..] == bs[3..];
    }
  }

  lemma EntryRoundTrip(shared: Word, delta: Bytes, value: Bytes, rest: Bytes)
    requires |delta| < WORD && |value| < WORD
    ensures |EncodeEntry(shared, delta, value)| >= 3
    ensures DecodeEntry(EncodeEntry(shared, delta, value) + rest) ==
            Some(Parts(shared, delta, value, |EncodeEntry(shared, delta, value)|))
  {
    VarintsAreSound();
    WithRoundTrip(Varints(), shared, delta, value, rest);
    FastPath(EncodeEntry(shared, delta, value) + rest);
  }
}

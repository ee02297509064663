/** WriteBatch: its representation and its replay (kv/db/write_batch.cpp). */
module WriteBatches {
  import opened Format
  import opened Coding

  datatype Update = Put(key: Bytes, value: Bytes) | Delete(key: Bytes)

  const HEADER: nat := 12
  const TYPE_DELETION: Byte := 0
  const TYPE_VALUE: Byte := 1

  /** Lengths that a varint32 can hold. */
  predicate Fits(u: Update) {
    |u.key| < WORD && (u.Put? ==> |u.value| < WORD)
  }

  function Encode(u: Update): (bs: Bytes)
    ensures bs != []
  {
    match u
    case Put(key, value) => [TYPE_VALUE] + Prefixed(key) + Prefixed(value)
    case Delete(key) => [TYPE_DELETION] + Prefixed(key)
  }

  function EncodeAll(us: seq<Update>): Bytes {
    if us == [] then [] else EncodeAll(us[..|us| - 1]) + Encode(us[|us| - 1])
  }

  /** One turn of Iterate's loop. */
  function DecodeOne(input: Bytes): (r: Option<(Update, Bytes)>)
    requires input != []
    ensures r.Some? ==> |r.value.1| < |input|
  {
    var rest := input[1..];
    if input[0] == TYPE_VALUE then
      match GetPrefixed(rest)
      case None => None
      case Some((key, rest')) =>
        match GetPrefixed(rest')
        case None => None
        case Some((value, rest'')) => Some((Put(key, value), rest''))
    else if input[0] == TYPE_DELETION then
      match GetPrefixed(rest)
      case None => None
      case Some((key, rest')) => Some((Delete(key), rest'))
    else None
  }

  function DecodeAll(input: Bytes): Option<seq<Update>> {
    if input == [] then Some([])
    else
      match DecodeOne(input)
      case None => None
      case Some((u, rest)) =>
        match DecodeAll(rest)
        case None => None
        case Some(us) => Some([u] + us)
  }

  lemma DecodeEncode(u: Update, rest: Bytes)
    requires Fits(u)
    ensures DecodeOne(Encode(u) + rest) == Some((u, rest))
  {
    match u
    case Put(key, value) =>
      assert (Encode(u) + rest)[1..] == Prefixed(key) + (Prefixed(value) + rest);
      PrefixedRoundTrip(key, Prefixed(value) + rest);
      PrefixedRoundTrip(value, rest);
    case Delete(key) =>
      assert (Encode(u) + rest)[1..] == Prefixed(key) + rest;
      PrefixedRoundTrip(key, rest);
  }

  lemma DecodeCons(u: Update, rest: Bytes)
    requires Fits(u)
    ensures DecodeAll(Encode(u) + rest) ==
            match DecodeAll(rest) case None => None case Some(us) => Some([u] + us)
  {
    DecodeEncode(u, rest);
  }

  lemma EncodeSnoc(us: seq<Update>, u: Update)
    ensures EncodeAll(us + [u]) == EncodeAll(us) + Encode(u)
  {
    assert (us + [u])[..|us|] == us;
  }

  lemma {:induction false} EncodeConcat(a: seq<Update>, b: seq<Update>)
    ensures EncodeAll(a + b) == EncodeAll(a) + EncodeAll(b)
  {
    if b == [] {
      assert a + b == a;
    } else {
      var front, u := b[..|b| - 1], b[|b| - 1];
      assert a + b == a + front + [u] && b == front + [u];
      EncodeConcat(a, front);
      EncodeSnoc(a + front, u);
      EncodeSnoc(front, u);
      Associate(EncodeAll(a), EncodeAll(front), Encode(u));
    }
  }

  lemma Associate(x: Bytes, y: Bytes, z: Bytes)
    ensures x + y + z == x + (y + z)
  {
  }

  lemma EncodeOne(u: Update)
    ensures EncodeAll([u]) == Encode(u)
  {
    var us := [u];
    assert us[..|us| - 1] == [] && us[|us| - 1] == u;
    assert EncodeAll([]) == [];
    assert [] + Encode(u) == Encode(u);
  }

  lemma EncodeCons(u: Update, us: seq<Update>)
    ensures EncodeAll([u] + us) == Encode(u) + EncodeAll(us)
  {
    var one := [u];
    EncodeConcat(one, us);
    EncodeOne(u);
  }

  /** Replaying an encoded list of updates gives the list back. */
  lemma {:induction false} DecodeAllEncoded(us: seq<Update>)
    requires forall u :: u in us ==> Fits(u)
    ensures DecodeAll(EncodeAll(us)) == Some(us)
  {
    if us != [] {
      assert us == [us[0]] + us[1..];
      EncodeCons(us[0], us[1..]);
      DecodeAllEncoded(us[1..]);
      DecodeCons(us[0], EncodeAll(us[1..]));
    }
  }

  /** The representation of a batch with sequence number `first` and updates `us`. */
  function Rep(first: nat, us: seq<Update>): Bytes {
    Fixed(first, 8) + Fixed(|us|, 4) + EncodeAll(us)
  }

  datatype Outcome = Ok(updates: seq<Update>) | Corruption

  /** Iterate: too short, a malformed record, or a wrong count is an error. */
  function Replay(rep: Bytes): Outcome {
    if |rep| < HEADER then Corruption
    else
      match DecodeAll(rep[HEADER..])
      case None => Corruption
      case Some(us) => if |us| == DecodeFixed32(rep[8..HEADER]) then Ok(us) else Corruption
  }

  lemma RepParts(first: nat, us: seq<Update>)
    ensures |Rep(first, us)| >= HEADER && Rep(first, us)[..8] == Fixed(first, 8)
    ensures Rep(first, us)[8..HEADER] == Fixed(|us|, 4) && Rep(first, us)[HEADER..] == EncodeAll(us)
  {
  }

  /** A batch replays exactly its updates. */
  lemma ReplayRep(first: nat, us: seq<Update>)
    requires |us| < WORD && forall u :: u in us ==> Fits(u)
    ensures Replay(Rep(first, us)) == Ok(us)
  {
    RepParts(first, us);
    DecodeAllEncoded(us);
    FixedRoundTrip(|us|, 4);
    assert Power(256, 4) == 0x1_0000_0000;
  }

  class WriteBatch {
    var rep: Bytes
    /** The sequence number and the updates this batch stands for. */
    ghost var first: nat
    ghost var updates: seq<Update>

    ghost predicate Valid()
      reads this
    {
      rep == Rep(first, updates)
    }

    constructor ()
      ensures Valid() && first == 0 && updates == []
    {
      rep := [0, 0, 0, 0, 0, 0, 0, 0, 0, 0, 0, 0];
      first, updates := 0, [];
      new;
      ZeroHeader();
    }

    method Count() returns (n: nat)
      requires Valid() && |updates| < WORD
      ensures n == |updates|
    {
      RepParts(first, updates);
      FixedRoundTrip(|updates|, 4);
      assert Power(256, 4) == 0x1_0000_0000;
      n := DecodeFixed32(rep[8..HEADER]);
    }

    /** SetCount in place, and append. */
    method Grow(n: nat, tail: Bytes, ghost more: seq<Update>)
      requires Valid() && n == |updates + more| && tail == EncodeAll(more)
      modifies this
      ensures Valid() && first == old(first) && updates == old(updates) + more
    {
      GrowRep(first, updates, more);
      rep := rep[..8] + Fixed(n, 4) + rep[HEADER..];
      rep := rep + tail;
      updates := updates + more;
    }

    method Put(key: Bytes, value: Bytes)
      requires Valid() && |updates| + 1 < 0x8000_0000
      modifies this
      ensures Valid() && first == old(first) && updates == old(updates) + [Update.Put(key, value)]
    {
      var n := Count();
      EncodeOne(Update.Put(key, value));
      Grow(n + 1, [TYPE_VALUE] + Prefixed(key) + Prefixed(value), [Update.Put(key, value)]);
    }

    method Delete(key: Bytes)
      requires Valid() && |updates| + 1 < 0x8000_0000
      modifies this
      ensures Valid() && first == old(first) && updates == old(updates) + [Update.Delete(key)]
    {
      var n := Count();
      EncodeOne(Update.Delete(key));
      Grow(n + 1, [TYPE_DELETION] + Prefixed(key), [Update.Delete(key)]);
    }

    /** WriteBatchInternal::Append: the other batch's updates, not its sequence number. */
    method Append(src: WriteBatch)
      requires Valid() && src.Valid() && |updates| + |src.updates| < 0x8000_0000
      modifies this
      ensures Valid() && first == old(first) && updates == old(updates) + old(src.updates)
    {
      RepParts(src.first, src.updates);
      var n := Count();
      var m := src.Count();
      Grow(n + m, src.rep[HEADER..], src.updates);
    }

    method SetSequence(number: nat)
      requires Valid()
      modifies this
      ensures Valid() && first == number && updates == old(updates)
    {
      RepTail(first, updates);
      RepTail(number, updates);
      rep := Fixed(number, 8) + rep[8..];
      first := number;
    }

    /** Iterate, collecting the calls it makes on its handler. */
    method Iterate() returns (r: Outcome)
      ensures r == Replay(rep)
    {
      if |rep| < HEADER {
        return Corruption;
      }
      var input := rep[HEADER..];
      var found: seq<Update> := [];
      AfterNothing(DecodeAll(input));
      while input != []
        invariant DecodeAll(rep[HEADER..]) == After(found, DecodeAll(input))
        decreases |input|
      {
        var one := DecodeOne(input);
        if one.None? {
          return Corruption;
        }
        AfterOne(found, one.value.0, DecodeAll(one.value.1));
        found := found + [one.value.0];
        input := one.value.1;
      }
      if |found| == DecodeFixed32(rep[8..HEADER]) {
        return Ok(found);
      }
      return Corruption;
    }
  }

  function After(found: seq<Update>, rest: Option<seq<Update>>): Option<seq<Update>> {
    if rest.Some? then Some(found + rest.value) else None
  }

  lemma AfterNothing(rest: Option<seq<Update>>)
    ensures After([], rest) == rest
  {
    assert rest.Some? ==> [] + rest.value == rest.value;
  }

  lemma AfterOne(found: seq<Update>, u: Update, rest: Option<seq<Update>>)
    ensures After(found, if rest.Some? then Some([u] + rest.value) else None) == After(found + [u], rest)
  {
    if rest.Some? {
      assert found + ([u] + rest.value) == found + [u] + rest.value;
    }
  }

  lemma GrowRep(first: nat, us: seq<Update>, more: seq<Update>)
    ensures |Rep(first, us)| >= HEADER
    ensures Rep(first, us + more) ==
            Rep(first, us)[..8] + Fixed(|us + more|, 4) + Rep(first, us)[HEADER..] + EncodeAll(more)
  {
    RepParts(first, us);
    EncodeConcat(us, more);
    Associate(Fixed(first, 8) + Fixed(|us + more|, 4), EncodeAll(us), EncodeAll(more));
  }

  lemma RepTail(first: nat, us: seq<Update>)
    ensures Rep(first, us)[8..] == Fixed(|us|, 4) + EncodeAll(us)
    ensures Rep(first, us) == Fixed(first, 8) + (Fixed(|us|, 4) + EncodeAll(us))
  {
    Associate(Fixed(first, 8), Fixed(|us|, 4), EncodeAll(us));
  }

  lemma ZeroHeader()
    ensures Rep(0, []) == [0, 0, 0, 0, 0, 0, 0, 0, 0, 0, 0, 0]
  {
    assert Fixed(0, 4) == [0, 0, 0, 0];
    assert Fixed(0, 8) == [0, 0, 0, 0] + Fixed(0, 4);
  }

  /** A batch that was built, merged with another and numbered replays its updates, in order. */
  method BuildAndReplay(mine: seq<Update>, others: seq<Update>, first: nat) returns (r: Outcome, number: Bytes)
    requires |mine| + |others| < 0x8000_0000 && forall u :: u in mine + others ==> Fits(u)
    ensures r == Ok(mine + others) && number == Fixed(first, 8)
  {
    var a := Build(mine);
    var b := Build(others);
    a.Append(b);
    a.SetSequence(first);
    r := a.Iterate();
    ReplayRep(first, mine + others);
    RepParts(first, mine + others);
    number := a.rep[..8];
  }

  method Add(b: WriteBatch, u: Update)
    requires b.Valid() && |b.updates| + 1 < 0x8000_0000
    modifies b
    ensures b.Valid() && b.updates == old(b.updates) + [u]
  {
    match u {
      case Put(key, value) => b.Put(key, value);
      case Delete(key) => b.Delete(key);
    }
  }

  method Build(us: seq<Update>) returns (b: WriteBatch)
    requires |us| < 0x8000_0000
    ensures fresh(b) && b.Valid() && b.updates == us
  {
    b := new WriteBatch();
    for i := 0 to |us|
      invariant fresh(b) && b.Valid() && b.updates == us[..i]
    {
      Add(b, us[i]);
      assert us[..i + 1] == us[..i] + [us[i]];
    }
  }
}

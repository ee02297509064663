/** The manifest's encoding of a version edit (kv/db/version_edit.cpp, EncodeTo and DecodeFrom). */
module ManifestRecords {
  import opened Format
  import opened Coding
  import Versions

  datatype FileMeta = FileMeta(number: Long, size: Long, smallest: Bytes, largest: Bytes)

  /** A VersionEdit.  `deleted` lists a std::set in its iteration order. */
  datatype VersionEdit = VersionEdit(comparator: Option<Bytes>, logNumber: Option<Long>, prevLogNumber: Option<Long>,
                                     nextFileNumber: Option<Long>, lastSequence: Option<Long>,
                                     compactPointers: seq<(nat, Bytes)>, deleted: seq<(nat, Long)>,
                                     newFiles: seq<(nat, FileMeta)>)

  /** What Clear leaves: it does not touch the compaction pointers. */
  function Cleared(e: VersionEdit): VersionEdit {
    VersionEdit(None, None, None, None, None, e.compactPointers, [], [])
  }

  const FRESH: VersionEdit := VersionEdit(None, None, None, None, None, [], [], [])

  /** One tagged field. */
  datatype Field =
    | Comparator(name: Bytes)
    | LogNumber(n: Long)
    | PrevLogNumber(n: Long)
    | NextFileNumber(n: Long)
    | LastSequence(n: Long)
    | CompactPointer(level: nat, key: Bytes)
    | DeletedFile(level: nat, n: Long)
    | NewFile(level: nat, file: FileMeta)

  function TagOf(f: Field): (t: Word) {
    match f
    case Comparator(_) => 1
    case LogNumber(_) => 2
    case NextFileNumber(_) => 3
    case LastSequence(_) => 4
    case CompactPointer(_, _) => 5
    case DeletedFile(_, _) => 6
    case NewFile(_, _) => 7
    case PrevLogNumber(_) => 9
  }

  // ---- Items ----

  /** Reads an item from the front of a slice and leaves the rest. */
  type Getter<!T(!new)> = get: Bytes -> Option<(T, Bytes)> | Consumes(get) witness ((_: Bytes) => None)

  ghost predicate Consumes<T(!new)>(get: Bytes -> Option<(T, Bytes)>) {
    forall b :: get(b).Some? ==> |get(b).value.1| < |b|
  }

  /** How one kind of item is written and read. */
  datatype Codec<!T(!new)> = Codec(ok: T -> bool, put: T -> Bytes, get: Getter<T>)

  ghost predicate Inverts<T(!new)>(c: Codec<T>, x: T, rest: Bytes) {
    c.ok(x) ==> c.get(c.put(x) + rest) == Some((x, rest))
  }

  ghost predicate Sound<T(!new)>(c: Codec<T>) {
    forall x, rest :: Inverts(c, x, rest)
  }

  /** The items a manifest record is made of. */
  datatype Grammar = Grammar(tag: Codec<Word>, level: Codec<nat>, number: Codec<Long>, name: Codec<Bytes>, key: Codec<Bytes>)

  ghost predicate SoundGrammar(g: Grammar) {
    Sound(g.tag) && Sound(g.level) && Sound(g.number) && Sound(g.name) && Sound(g.key)
  }

  predicate FileOk(g: Grammar, file: FileMeta) {
    g.number.ok(file.number) && g.number.ok(file.size) && g.key.ok(file.smallest) && g.key.ok(file.largest)
  }

  predicate FieldOk(g: Grammar, f: Field) {
    && g.tag.ok(TagOf(f))
    && match f
       case Comparator(name) => g.name.ok(name)
       case LogNumber(n) => g.number.ok(n)
       case PrevLogNumber(n) => g.number.ok(n)
       case NextFileNumber(n) => g.number.ok(n)
       case LastSequence(n) => g.number.ok(n)
       case CompactPointer(level, key) => g.level.ok(level) && g.key.ok(key)
       case DeletedFile(level, n) => g.level.ok(level) && g.number.ok(n)
       case NewFile(level, file) => g.level.ok(level) && FileOk(g, file)
  }

  function PutFile(g: Grammar, file: FileMeta): Bytes {
    g.number.put(file.number) + (g.number.put(file.size) + (g.key.put(file.smallest) + g.key.put(file.largest)))
  }

  function PutBody(g: Grammar, f: Field): Bytes {
    match f
    case Comparator(name) => g.name.put(name)
    case LogNumber(n) => g.number.put(n)
    case PrevLogNumber(n) => g.number.put(n)
    case NextFileNumber(n) => g.number.put(n)
    case LastSequence(n) => g.number.put(n)
    case CompactPointer(level, key) => g.level.put(level) + g.key.put(key)
    case DeletedFile(level, n) => g.level.put(level) + g.number.put(n)
    case NewFile(level, file) => g.level.put(level) + PutFile(g, file)
  }

  function PutField(g: Grammar, f: Field): Bytes { g.tag.put(TagOf(f)) + PutBody(g, f) }

  function Concat(put: Field -> Bytes, fs: seq<Field>): Bytes {
    if fs == [] then [] else put(fs[0]) + Concat(put, fs[1..])
  }

  function PutFields(g: Grammar, fs: seq<Field>): Bytes { Concat(f => PutField(g, f), fs) }

  function GetFile(g: Grammar, input: Bytes): (r: Option<(FileMeta, Bytes)>)
    ensures r.Some? ==> |r.value.1| < |input|
  {
    match g.number.get(input)
    case None => None
    case Some((number, r1)) =>
      match g.number.get(r1)
      case None => None
      case Some((size, r2)) =>
        match g.key.get(r2)
        case None => None
        case Some((smallest, r3)) =>
          match g.key.get(r3)
          case None => None
          case Some((largest, r4)) => Some((FileMeta(number, size, smallest, largest), r4))
  }

  function GetNumber(g: Grammar, tag: Word, input: Bytes): (r: Option<(Field, Bytes)>)
    requires tag == 2 || tag == 3 || tag == 4 || tag == 9
    ensures r.Some? ==> |r.value.1| < |input|
  {
    match g.number.get(input)
    case None => None
    case Some((n, rest)) =>
      var f := if tag == 2 then LogNumber(n) else if tag == 3 then NextFileNumber(n)
               else if tag == 4 then LastSequence(n) else PrevLogNumber(n);
      Some((f, rest))
  }

  function GetLevelled(g: Grammar, tag: Word, input: Bytes): (r: Option<(Field, Bytes)>)
    requires tag == 5 || tag == 6 || tag == 7
    ensures r.Some? ==> |r.value.1| < |input|
  {
    match g.level.get(input)
    case None => None
    case Some((level, rest)) =>
      if tag == 5 then
        match g.key.get(rest) case None => None case Some((key, rest')) => Some((CompactPointer(level, key), rest'))
      else if tag == 6 then
        match g.number.get(rest) case None => None case Some((n, rest')) => Some((DeletedFile(level, n), rest'))
      else
        match GetFile(g, rest) case None => None case Some((file, rest')) => Some((NewFile(level, file), rest'))
  }

  /** The switch of DecodeFrom, after the tag. */
  function GetBody(g: Grammar, tag: Word, input: Bytes): (r: Option<(Field, Bytes)>)
    ensures r.Some? ==> |r.value.1| < |input|
  {
    if tag == 1 then
      match g.name.get(input) case None => None case Some((name, rest)) => Some((Comparator(name), rest))
    else if tag == 2 || tag == 3 || tag == 4 || tag == 9 then GetNumber(g, tag, input)
    else if tag == 5 || tag == 6 || tag == 7 then GetLevelled(g, tag, input)
    else None
  }

  /** One turn of DecodeFrom's loop. */
  function GetField(g: Grammar, input: Bytes): (r: Option<(Field, Bytes)>)
    ensures r.Some? ==> |r.value.1| < |input|
  {
    match g.tag.get(input)
    case None => None
    case Some((tag, body)) => GetBody(g, tag, body)
  }

  /** DecodeFrom as a list of fields; None is a corruption: a bad field, an unknown tag, or bytes after the last field. */
  function GetFields(g: Grammar, input: Bytes): Option<seq<Field>>
    decreases |input|
  {
    if input == [] then Some([])
    else
      match GetField(g, input)
      case None => None
      case Some((f, rest)) => Cons(f, GetFields(g, rest))
  }

  function Cons(f: Field, fs: Option<seq<Field>>): Option<seq<Field>> {
    if fs.Some? then Some([f] + fs.value) else None
  }

  // ---- Field by field ----

  lemma FileRoundTrip(g: Grammar, file: FileMeta, rest: Bytes)
    requires SoundGrammar(g) && FileOk(g, file)
    ensures GetFile(g, PutFile(g, file) + rest) == Some((file, rest))
  {
    var d := g.key.put(file.largest) + rest;
    var c := g.key.put(file.smallest) + d;
    var b := g.number.put(file.size) + c;
    assert PutFile(g, file) + rest == g.number.put(file.number) + b;
    assert Inverts(g.number, file.number, b) && Inverts(g.number, file.size, c);
    assert Inverts(g.key, file.smallest, d) && Inverts(g.key, file.largest, rest);
  }

  lemma LevelledRoundTrip(g: Grammar, f: Field, rest: Bytes)
    requires (f.CompactPointer? || f.DeletedFile? || f.NewFile?) && SoundGrammar(g) && FieldOk(g, f)
    ensures GetBody(g, TagOf(f), PutBody(g, f) + rest) == Some((f, rest))
  {
    var tail :=
      match f case CompactPointer(_, key) => g.key.put(key) case DeletedFile(_, n) => g.number.put(n)
              case NewFile(_, file) => PutFile(g, file);
    assert PutBody(g, f) + rest == g.level.put(f.level) + (tail + rest);
    assert Inverts(g.level, f.level, tail + rest);
    match f
    case CompactPointer(_, key) => assert Inverts(g.key, key, rest);
    case DeletedFile(_, n) => assert Inverts(g.number, n, rest);
    case NewFile(_, file) => FileRoundTrip(g, file, rest);
  }

  lemma FieldRoundTrip(g: Grammar, f: Field, rest: Bytes)
    requires SoundGrammar(g) && FieldOk(g, f)
    ensures GetField(g, PutField(g, f) + rest) == Some((f, rest))
  {
    assert PutField(g, f) + rest == g.tag.put(TagOf(f)) + (PutBody(g, f) + rest);
    assert Inverts(g.tag, TagOf(f), PutBody(g, f) + rest);
    match f
    case Comparator(name) => assert Inverts(g.name, name, rest);
    case CompactPointer(_, _) => LevelledRoundTrip(g, f, rest);
    case DeletedFile(_, _) => LevelledRoundTrip(g, f, rest);
    case NewFile(_, _) => LevelledRoundTrip(g, f, rest);
    case _ => assert Inverts(g.number, f.n, rest);
  }

  lemma {:induction false} FieldsRoundTrip(g: Grammar, fs: seq<Field>)
    requires SoundGrammar(g) && forall f :: f in fs ==> FieldOk(g, f)
    ensures GetFields(g, PutFields(g, fs)) == Some(fs)
  {
    if fs != [] {
      FieldRoundTrip(g, fs[0], PutFields(g, fs[1..]));
      FieldsRoundTrip(g, fs[1..]);
      assert fs == [fs[0]] + fs[1..];
    }
  }

  // ---- The manifest's items ----

  function GetLevel(input: Bytes): (r: Option<(nat, Bytes)>)
    ensures r.Some? ==> |r.value.1| < |input|
  {
    match GetVarint32(input)
    case None => None
    case Some((v, rest)) => if v < Versions.NUM_LEVELS then Some((v, rest)) else None
  }

  /** InternalKey::DecodeFrom fails on an empty string. */
  function GetInternalKey(input: Bytes): (r: Option<(Bytes, Bytes)>)
    ensures r.Some? ==> |r.value.1| < |input|
  {
    match GetPrefixed(input)
    case None => None
    case Some((key, rest)) => if key != [] then Some((key, rest)) else None
  }

  /** Varints for numbers, length-prefixed strings, levels below kNumLevels, internal keys that are not empty. */
  function Manifest(): Grammar {
    Grammar(Codec((_: Word) => true, (t: Word) => Varint(t), GetVarint32),
            Codec((l: nat) => l < Versions.NUM_LEVELS, (l: nat) => Varint(l % WORD), GetLevel),
            Codec((_: Long) => true, (n: Long) => Varint(n), GetVarint64),
            Codec((s: Bytes) => |s| < WORD, (s: Bytes) => Prefixed(s), GetPrefixed),
            Codec((s: Bytes) => s != [] && |s| < WORD, (s: Bytes) => Prefixed(s), GetInternalKey))
  }

  lemma ManifestIsSound()
    ensures SoundGrammar(Manifest())
  {
    var g := Manifest();
    forall t: Word, rest: Bytes ensures Inverts(g.tag, t, rest) {
      Varint32RoundTrip(t, rest);
    }
    forall l: nat, rest: Bytes ensures Inverts(g.level, l, rest) {
      Varint32RoundTrip(l % WORD, rest);
    }
    forall n: Long, rest: Bytes ensures Inverts(g.number, n, rest) {
      Varint64RoundTrip(n, rest);
    }
    forall s: Bytes, rest: Bytes ensures Inverts(g.name, s, rest) {
      PrefixedRoundTrip(s, rest);
    }
    forall s: Bytes, rest: Bytes ensures Inverts(g.key, s, rest) {
      PrefixedRoundTrip(s, rest);
    }
  }

  // ---- Whole edits ----

  function One<T>(o: Option<T>, make: T -> Field): seq<Field> {
    if o.Some? then [make(o.value)] else []
  }

  function Pointers(ps: seq<(nat, Bytes)>): seq<Field> {
    seq(|ps|, i requires 0 <= i < |ps| => CompactPointer(ps[i].0, ps[i].1))
  }
  function Deletions(ds: seq<(nat, Long)>): seq<Field> {
    seq(|ds|, i requires 0 <= i < |ds| => DeletedFile(ds[i].0, ds[i].1))
  }
  function Additions(ns: seq<(nat, FileMeta)>): seq<Field> {
    seq(|ns|, i requires 0 <= i < |ns| => NewFile(ns[i].0, ns[i].1))
  }

  /** The order in which EncodeTo writes the fields. */
  function Fields(e: VersionEdit): seq<Field> {
    One(e.comparator, s => Comparator(s)) + One(e.logNumber, (n: Long) => LogNumber(n)) + One(e.prevLogNumber, (n: Long) => PrevLogNumber(n)) +
    One(e.nextFileNumber, (n: Long) => NextFileNumber(n)) + One(e.lastSequence, (n: Long) => LastSequence(n)) +
    Pointers(e.compactPointers) + Deletions(e.deleted) + Additions(e.newFiles)
  }

  /** DecodeFrom's assignments; inserting into the set keeps its order when the fields come in that order. */
  function Set(e: VersionEdit, f: Field): VersionEdit {
    match f
    case Comparator(name) => e.(comparator := Some(name))
    case LogNumber(n) => e.(logNumber := Some(n))
    case PrevLogNumber(n) => e.(prevLogNumber := Some(n))
    case NextFileNumber(n) => e.(nextFileNumber := Some(n))
    case LastSequence(n) => e.(lastSequence := Some(n))
    case CompactPointer(level, key) => e.(compactPointers := e.compactPointers + [(level, key)])
    case DeletedFile(level, n) => e.(deleted := InsertPair(e.deleted, (level, n)))
    case NewFile(level, file) => e.(newFiles := e.newFiles + [(level, file)])
  }

  predicate PairLess(a: (nat, Long), b: (nat, Long)) { a.0 < b.0 || (a.0 == b.0 && a.1 < b.1) }

  /** std::set::insert. */
  function InsertPair(ds: seq<(nat, Long)>, d: (nat, Long)): seq<(nat, Long)> {
    if ds == [] then [d]
    else if PairLess(d, ds[0]) then [d] + ds
    else if d == ds[0] then ds
    else [ds[0]] + InsertPair(ds[1..], d)
  }

  ghost predicate Ascending(ds: seq<(nat, Long)>) {
    forall i, j :: 0 <= i < j < |ds| ==> PairLess(ds[i], ds[j])
  }

  function SetAll(e: VersionEdit, fs: seq<Field>): VersionEdit {
    if fs == [] then e else Set(SetAll(e, fs[..|fs| - 1]), fs[|fs| - 1])
  }

  lemma {:induction false} SetConcat(e: VersionEdit, a: seq<Field>, b: seq<Field>)
    ensures SetAll(e, a + b) == SetAll(SetAll(e, a), b)
  {
    if b == [] {
      assert a + b == a;
    } else {
      assert (a + b)[..|a + b| - 1] == a + b[..|b| - 1];
      SetConcat(e, a, b[..|b| - 1]);
    }
  }

  lemma {:induction false} SetPointers(e: VersionEdit, ps: seq<(nat, Bytes)>)
    ensures SetAll(e, Pointers(ps)) == e.(compactPointers := e.compactPointers + ps)
  {
    if ps == [] {
      assert e.compactPointers + ps == e.compactPointers;
    } else {
      var n := |ps| - 1;
      assert Pointers(ps)[..n] == Pointers(ps[..n]);
      SetPointers(e, ps[..n]);
      assert ps == ps[..n] + [ps[n]];
    }
  }

  lemma {:induction false} SetAdditions(e: VersionEdit, ns: seq<(nat, FileMeta)>)
    ensures SetAll(e, Additions(ns)) == e.(newFiles := e.newFiles + ns)
  {
    if ns == [] {
      assert e.newFiles + ns == e.newFiles;
    } else {
      var n := |ns| - 1;
      assert Additions(ns)[..n] == Additions(ns[..n]);
      SetAdditions(e, ns[..n]);
      assert ns == ns[..n] + [ns[n]];
    }
  }

  lemma {:induction false} InsertLast(ds: seq<(nat, Long)>, d: (nat, Long))
    requires forall x :: x in ds ==> PairLess(x, d)
    ensures InsertPair(ds, d) == ds + [d]
  {
    if ds != [] {
      assert ds[0] in ds;
      InsertLast(ds[1..], d);
      assert ds + [d] == [ds[0]] + (ds[1..] + [d]);
    }
  }

  lemma {:induction false} SetDeletions(e: VersionEdit, ds: seq<(nat, Long)>)
    requires Ascending(ds) && e.deleted == []
    ensures SetAll(e, Deletions(ds)) == e.(deleted := ds)
  {
    if ds != [] {
      var n := |ds| - 1;
      assert Deletions(ds)[..n] == Deletions(ds[..n]);
      SetDeletions(e, ds[..n]);
      InsertLast(ds[..n], ds[n]);
      assert ds == ds[..n] + [ds[n]];
    }
  }

  function Scalars(e: VersionEdit): seq<Field> {
    One(e.comparator, s => Comparator(s)) + One(e.logNumber, (n: Long) => LogNumber(n)) + One(e.prevLogNumber, (n: Long) => PrevLogNumber(n)) +
    One(e.nextFileNumber, (n: Long) => NextFileNumber(n)) + One(e.lastSequence, (n: Long) => LastSequence(n))
  }

  lemma SetOne<T>(e: VersionEdit, o: Option<T>, make: T -> Field)
    ensures SetAll(e, One(o, make)) == if o.Some? then Set(e, make(o.value)) else e
  {
    if o.Some? {
      assert One(o, make)[..0] == [];
    }
  }

  lemma SetScalars(was: VersionEdit, e: VersionEdit)
    ensures SetAll(Cleared(was), Scalars(e)) == e.(compactPointers := was.compactPointers, deleted := [], newFiles := [])
  {
    var s := Cleared(was);
    var a, b, c, d, f := One(e.comparator, s => Comparator(s)), One(e.logNumber, n => LogNumber(n)),
        One(e.prevLogNumber, n => PrevLogNumber(n)), One(e.nextFileNumber, n => NextFileNumber(n)),
        One(e.lastSequence, n => LastSequence(n));
    SetConcat(s, a + b + c + d, f);
    SetConcat(s, a + b + c, d);
    SetConcat(s, a + b, c);
    SetConcat(s, a, b);
    SetOne(s, e.comparator, s => Comparator(s));
    SetOne(SetAll(s, a), e.logNumber, n => LogNumber(n));
    SetOne(SetAll(s, a + b), e.prevLogNumber, n => PrevLogNumber(n));
    SetOne(SetAll(s, a + b + c), e.nextFileNumber, n => NextFileNumber(n));
    SetOne(SetAll(s, a + b + c + d), e.lastSequence, n => LastSequence(n));
  }

  /** Setting the fields of an edit on a cleared one rebuilds it, behind the pointers that Clear left. */
  lemma FieldsRebuild(was: VersionEdit, e: VersionEdit)
    requires Ascending(e.deleted)
    ensures SetAll(Cleared(was), Fields(e)) == e.(compactPointers := was.compactPointers + e.compactPointers)
  {
    var s, start := Scalars(e), Cleared(was);
    SetConcat(start, s + Pointers(e.compactPointers) + Deletions(e.deleted), Additions(e.newFiles));
    SetConcat(start, s + Pointers(e.compactPointers), Deletions(e.deleted));
    SetConcat(start, s, Pointers(e.compactPointers));
    SetScalars(was, e);
    var e1 := e.(compactPointers := was.compactPointers, deleted := [], newFiles := []);
    SetPointers(e1, e.compactPointers);
    var e2 := e1.(compactPointers := was.compactPointers + e.compactPointers);
    SetDeletions(e2, e.deleted);
    SetAdditions(e2.(deleted := e.deleted), e.newFiles);
    assert [] + e.newFiles == e.newFiles;
  }

  function Encode(e: VersionEdit): Bytes { PutFields(Manifest(), Fields(e)) }

  /** DecodeFrom, called on an edit that was `was`. */
  function DecodeInto(was: VersionEdit, input: Bytes): Option<VersionEdit> {
    match GetFields(Manifest(), input)
    case None => None
    case Some(fs) => Some(SetAll(Cleared(was), fs))
  }

  /** A manifest record decodes to the edit it was written from exactly when the receiving edit has no compaction
      pointers yet, as a freshly constructed one has not. */
  lemma EditRoundTrip(was: VersionEdit, e: VersionEdit)
    requires Ascending(e.deleted) && forall f :: f in Fields(e) ==> FieldOk(Manifest(), f)
    ensures DecodeInto(was, Encode(e)) == Some(e.(compactPointers := was.compactPointers + e.compactPointers))
    ensures DecodeInto(was, Encode(e)) == Some(e) <==> was.compactPointers == []
    ensures DecodeInto(FRESH, Encode(e)) == Some(e)
  {
    ManifestIsSound();
    FieldsRoundTrip(Manifest(), Fields(e));
    FieldsRebuild(was, e);
    FieldsRebuild(FRESH, e);
    assert [] + e.compactPointers == e.compactPointers;
    if was.compactPointers != [] {
      assert |was.compactPointers + e.compactPointers| > |e.compactPointers|;
    }
  }

  // ---- The loops ----

  lemma {:induction false} PutConcat(put: Field -> Bytes, a: seq<Field>, b: seq<Field>)
    ensures Concat(put, a + b) == Concat(put, a) + Concat(put, b)
  {
    if a == [] {
      assert a + b == b;
    } else {
      assert (a + b)[1..] == a[1..] + b;
      PutConcat(put, a[1..], b);
    }
  }

  lemma PutSnoc(put: Field -> Bytes, fs: seq<Field>, f: Field)
    ensures Concat(put, fs + [f]) == Concat(put, fs) + put(f)
  {
    PutConcat(put, fs, [f]);
    assert [f][1..] == [] && Concat(put, [f]) == put(f) + [];
  }

  /** Appending fields one by one. */
  method PutEach(put: Field -> Bytes, dst: Bytes, fs: seq<Field>) returns (r: Bytes)
    ensures r == dst + Concat(put, fs)
  {
    r := dst;
    for i := 0 to |fs|
      invariant r == dst + Concat(put, fs[..i])
    {
      PutSnoc(put, fs[..i], fs[i]);
      assert fs[..i + 1] == fs[..i] + [fs[i]];
      r := r + put(fs[i]);
    }
    assert fs[..|fs|] == fs;
  }

  method PutGroups(put: Field -> Bytes, a: seq<Field>, b: seq<Field>, c: seq<Field>, d: seq<Field>) returns (dst: Bytes)
    ensures dst == Concat(put, a + b + c + d)
  {
    dst := PutEach(put, [], a);
    dst := PutEach(put, dst, b);
    PutConcat(put, a, b);
    dst := PutEach(put, dst, c);
    PutConcat(put, a + b, c);
    dst := PutEach(put, dst, d);
    PutConcat(put, a + b + c, d);
  }

  /** EncodeTo: the scalars that are set, then the pointers, the deletions and the new files. */
  method EncodeTo(e: VersionEdit) returns (dst: Bytes)
    ensures dst == Encode(e)
  {
    dst := PutGroups(f => PutField(Manifest(), f), Scalars(e), Pointers(e.compactPointers), Deletions(e.deleted), Additions(e.newFiles));
  }

  function After(done: seq<Field>, rest: Option<seq<Field>>): Option<seq<Field>> {
    if rest.Some? then Some(done + rest.value) else None
  }

  lemma AfterOne(done: seq<Field>, f: Field, rest: Option<seq<Field>>)
    ensures After(done, Cons(f, rest)) == After(done + [f], rest)
  {
    if rest.Some? {
      assert done + ([f] + rest.value) == done + [f] + rest.value;
    }
  }

  lemma SetSnoc(e: VersionEdit, fs: seq<Field>, f: Field)
    ensures SetAll(e, fs + [f]) == Set(SetAll(e, fs), f)
  {
    assert (fs + [f])[..|fs|] == fs;
  }

  /** DecodeFrom's loop, for any grammar. */
  method DecodeLoop(g: Grammar, was: VersionEdit, src: Bytes) returns (r: Option<VersionEdit>)
    ensures r == match GetFields(g, src) case None => None case Some(fs) => Some(SetAll(Cleared(was), fs))
  {
    var e := Cleared(was);
    var input := src;
    ghost var done: seq<Field> := [];
    assert After(done, GetFields(g, src)) == GetFields(g, src) by {
      assert GetFields(g, src).Some? ==> [] + GetFields(g, src).value == GetFields(g, src).value;
    }
    while input != []
      invariant GetFields(g, src) == After(done, GetFields(g, input)) && e == SetAll(Cleared(was), done)
      decreases |input|
    {
      var field := GetField(g, input);
      if field.None? {
        return None;
      }
      AfterOne(done, field.value.0, GetFields(g, field.value.1));
      SetSnoc(Cleared(was), done, field.value.0);
      e := Set(e, field.value.0);
      done := done + [field.value.0];
      input := field.value.1;
    }
    assert done + [] == done;
    return Some(e);
  }

  method DecodeFrom(was: VersionEdit, src: Bytes) returns (r: Option<VersionEdit>)
    ensures r == DecodeInto(was, src)
  {
    r := DecodeLoop(Manifest(), was, src);
  }

  /** Decoding into an edit that has a compaction pointer does not give the record's edit. */
  lemma UsedEdit()
    ensures DecodeInto(FRESH.(compactPointers := [(0, [])]), Encode(FRESH)) != Some(FRESH)
  {
    EditRoundTrip(FRESH.(compactPointers := [(0, [])]), FRESH);
  }
}

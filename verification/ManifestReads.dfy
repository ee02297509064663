/** What reading a manifest record can yield, damaged or not (kv/db/version_edit.cpp DecodeFrom): only edits that could
    have been written, so that reading, writing and reading again changes nothing. */
module ManifestReads {
  import opened Format
  import opened Coding
  import opened ManifestRecords

  ghost predicate Yields<T(!new)>(c: Codec<T>, b: Bytes) {
    c.get(b).Some? ==> c.ok(c.get(b).value.0)
  }

  /** Only items that may be written are ever read. */
  ghost predicate Strict<T(!new)>(c: Codec<T>) {
    forall b :: Yields(c, b)
  }

  ghost predicate StrictGrammar(g: Grammar) {
    Strict(g.tag) && Strict(g.level) && Strict(g.number) && Strict(g.name) && Strict(g.key) && forall t :: g.tag.ok(t)
  }

  lemma ManifestIsStrict()
    ensures StrictGrammar(Manifest())
  {
    var g := Manifest();
    assert forall b :: Yields(g.tag, b);
    assert forall b :: Yields(g.level, b);
    assert forall b :: Yields(g.number, b);
    assert forall b :: Yields(g.name, b);
    assert forall b :: Yields(g.key, b);
  }

  lemma FileReadOk(g: Grammar, input: Bytes)
    requires StrictGrammar(g)
    ensures GetFile(g, input).Some? ==> FileOk(g, GetFile(g, input).value.0)
  {
    assert Yields(g.number, input);
    if g.number.get(input).Some? {
      var r1 := g.number.get(input).value.1;
      assert Yields(g.number, r1);
      if g.number.get(r1).Some? {
        var r2 := g.number.get(r1).value.1;
        assert Yields(g.key, r2);
        if g.key.get(r2).Some? {
          assert Yields(g.key, g.key.get(r2).value.1);
        }
      }
    }
  }

  lemma LevelledReadOk(g: Grammar, tag: Word, input: Bytes)
    requires StrictGrammar(g) && (tag == 5 || tag == 6 || tag == 7)
    ensures GetLevelled(g, tag, input).Some? ==> FieldOk(g, GetLevelled(g, tag, input).value.0)
  {
    assert Yields(g.level, input);
    if g.level.get(input).Some? {
      var rest := g.level.get(input).value.1;
      assert Yields(g.key, rest) && Yields(g.number, rest);
      FileReadOk(g, rest);
    }
  }

  lemma FieldReadOk(g: Grammar, input: Bytes)
    requires StrictGrammar(g)
    ensures GetField(g, input).Some? ==> FieldOk(g, GetField(g, input).value.0)
  {
    if g.tag.get(input).Some? {
      var (tag, body) := g.tag.get(input).value;
      assert Yields(g.name, body) && Yields(g.number, body);
      if tag == 5 || tag == 6 || tag == 7 {
        LevelledReadOk(g, tag, body);
      }
    }
  }

  lemma {:induction false} FieldsReadOk(g: Grammar, input: Bytes, f: Field)
    requires StrictGrammar(g)
    ensures GetFields(g, input).Some? && f in GetFields(g, input).value ==> FieldOk(g, f)
    decreases |input|
  {
    FieldReadOk(g, input);
    if input != [] && GetField(g, input).Some? {
      FieldsReadOk(g, GetField(g, input).value.1, f);
    }
  }

  // ---- Whole edits ----

  /** Some assignment of `e` comes from field `f`. */
  ghost predicate Has(e: VersionEdit, f: Field) {
    match f
    case Comparator(name) => e.comparator == Some(name)
    case LogNumber(n) => e.logNumber == Some(n)
    case PrevLogNumber(n) => e.prevLogNumber == Some(n)
    case NextFileNumber(n) => e.nextFileNumber == Some(n)
    case LastSequence(n) => e.lastSequence == Some(n)
    case CompactPointer(level, key) => (level, key) in e.compactPointers
    case DeletedFile(level, n) => (level, n) in e.deleted
    case NewFile(level, file) => (level, file) in e.newFiles
  }

  lemma FieldsAreHad(e: VersionEdit, f: Field)
    ensures f in Fields(e) ==> Has(e, f)
  {
    if f in Fields(e) {
      if f in One(e.comparator, s => Comparator(s)) || f in One(e.logNumber, (n: Long) => LogNumber(n))
         || f in One(e.prevLogNumber, (n: Long) => PrevLogNumber(n)) || f in One(e.nextFileNumber, (n: Long) => NextFileNumber(n))
         || f in One(e.lastSequence, (n: Long) => LastSequence(n)) {
      } else if f in Pointers(e.compactPointers) {
        var i :| 0 <= i < |e.compactPointers| && f == Pointers(e.compactPointers)[i];
        assert e.compactPointers[i] in e.compactPointers;
      } else if f in Deletions(e.deleted) {
        var i :| 0 <= i < |e.deleted| && f == Deletions(e.deleted)[i];
        assert e.deleted[i] in e.deleted;
      } else {
        var i :| 0 <= i < |e.newFiles| && f == Additions(e.newFiles)[i];
        assert e.newFiles[i] in e.newFiles;
      }
    }
  }

  lemma {:induction false} InsertAscending(ds: seq<(nat, Long)>, d: (nat, Long))
    requires Ascending(ds)
    ensures Ascending(InsertPair(ds, d)) && forall x :: x in InsertPair(ds, d) <==> x == d || x in ds
  {
    if ds != [] && !PairLess(d, ds[0]) && d != ds[0] {
      assert forall i, j :: 0 <= i < j < |ds[1..]| ==> PairLess(ds[1..][i], ds[1..][j]);
      InsertAscending(ds[1..], d);
      var r := InsertPair(ds[1..], d);
      forall j | 0 <= j < |r| ensures PairLess(ds[0], r[j]) {
        assert r[j] in r;
        assert r[j] in ds[1..] ==> exists i :: 0 < i < |ds| && ds[i] == r[j];
      }
    }
  }

  /** The edit holds only what `fs` assigned to it. */
  lemma {:induction false} SetOnly(fs: seq<Field>, f: Field)
    ensures Ascending(SetAll(FRESH, fs).deleted) && (Has(SetAll(FRESH, fs), f) ==> f in fs)
  {
    if fs != [] {
      var front := fs[..|fs| - 1];
      SetOnly(front, f);
      if fs[|fs| - 1].DeletedFile? {
        InsertAscending(SetAll(FRESH, front).deleted, (fs[|fs| - 1].level, fs[|fs| - 1].n));
      }
    }
  }

  /** Whatever bytes decode, the edit they decode to is one that can be written: levels below kNumLevels, keys that are
      not empty, deletions in order without duplicates. */
  lemma ReadEditOk(input: Bytes, f: Field)
    ensures var r := DecodeInto(FRESH, input);
            r.Some? ==> Ascending(r.value.deleted) && (f in Fields(r.value) ==> FieldOk(Manifest(), f))
  {
    ManifestIsStrict();
    var fs := GetFields(Manifest(), input);
    if fs.Some? {
      FieldsAreHad(SetAll(FRESH, fs.value), f);
      SetOnly(fs.value, f);
      FieldsReadOk(Manifest(), input, f);
    }
  }

  /** Writing what was read and reading it again gives the same edit. */
  lemma ReadWriteRead(input: Bytes)
    ensures var r := DecodeInto(FRESH, input);
            r.Some? ==> DecodeInto(FRESH, Encode(r.value)) == r
  {
    var r := DecodeInto(FRESH, input);
    if r.Some? {
      forall f | f in Fields(r.value) ensures FieldOk(Manifest(), f) {
        ReadEditOk(input, f);
      }
      ReadEditOk(input, LogNumber(0));
      EditRoundTrip(FRESH, r.value);
    }
  }
}

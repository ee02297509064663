/** A version: seven levels of table files, and reads through it (kv/db/version_set.cpp). */
module Versions {
  import opened Format
  import opened History
  import opened Lookup

  const NUM_LEVELS: nat := 7

  type Version = seq<seq<File>>

  ghost function Entries(files: seq<File>): set<Entry> {
    set f, e | f in files && e in f.entries :: e
  }

  ghost function All(v: Version): set<Entry> {
    set l, e | 0 <= l < |v| && e in Entries(v[l]) :: e
  }

  /** The order Builder keeps every level in: by smallest key, ties by file number. */
  predicate BySmallest(f: File, g: File) {
    Lt(f.smallest, g.smallest) || (f.smallest == g.smallest && f.number < g.number)
  }

  ghost predicate Listed(fs: seq<File>) {
    forall i, j :: 0 <= i < j < |fs| ==> BySmallest(fs[i], fs[j])
  }

  ghost predicate SoundLevel(l: nat, fs: seq<File>) {
    ValidFiles(fs) && Listed(fs) && (l > 0 ==> InOrder(fs))
  }

  ghost predicate UniqueNumbers(v: Version) {
    forall l, m, f, g :: 0 <= l < |v| && 0 <= m < |v| && f in v[l] && g in v[m] && f.number == g.number
      ==> l == m && f == g
  }

  /** Seven levels of sound files; levels above 0 in order and disjoint; file numbers unique. */
  ghost predicate WellFormed(v: Version) {
    && |v| == NUM_LEVELS
    && (forall l :: 0 <= l < |v| ==> SoundLevel(l, v[l]))
    && UniqueNumbers(v)
  }

  ghost predicate NewerThan(f: File, g: File) {
    forall e, d :: e in f.entries && d in g.entries && e.User() == d.User() ==> e.Seq() > d.Seq()
  }

  ghost predicate Above(fs: seq<File>, gs: seq<File>) {
    forall f, g :: f in fs && g in gs ==> NewerThan(f, g)
  }

  ghost predicate NumberedByAge(fs: seq<File>) {
    forall f, g :: f in fs && g in fs && f.number > g.number ==> NewerThan(f, g)
  }

  /** Key by key, a shallower place holds only newer entries; within level 0 a higher file number is newer. */
  ghost predicate Layered(v: Version) {
    && (|v| > 0 ==> NumberedByAge(v[0]))
    && (forall l, m :: 0 <= l < m < |v| ==> Above(v[l], v[m]))
  }

  /** First entry at or after `key`: what a table hands to SaveValue. */
  function TableSeek(es: seq<Entry>, key: IKey): Option<Entry> {
    if es == [] then None
    else if Le(key, es[0].ikey) then Some(es[0])
    else TableSeek(es[1..], key)
  }

  lemma {:induction false} TableSeekFirst(es: seq<Entry>, key: IKey)
    requires Sorted(es)
    ensures match TableSeek(es, key)
            case Some(e) => e in es && Le(key, e.ikey) && forall d :: d in es && Le(key, d.ikey) ==> d == e || Lt(e.ikey, d.ikey)
            case None => forall d :: d in es ==> Lt(d.ikey, key)
  {
    if es != [] {
      assert es == [es[0]] + es[1..];
      if Le(key, es[0].ikey) {
        forall d | d in es && Le(key, d.ikey) ensures d == es[0] || Lt(es[0].ikey, d.ikey) {
          var i :| 0 <= i < |es| && es[i] == d;
        }
      } else {
        TableSeekFirst(es[1..], key);
      }
    }
  }

  /** TableCache::Get followed by SaveValue's user-key test. */
  function TableGet(f: File, k: UserKey, s: nat): Option<Entry> {
    var r := TableSeek(f.entries, SeekKey(k, s));
    if r.Some? && r.value.User() == k then r else None
  }

  lemma TableGetNewest(f: File, k: UserKey, s: nat)
    requires ValidFile(f)
    ensures Finds(Entries([f]), k, s, TableGet(f, k, s))
  {
    TableSeekFirst(f.entries, SeekKey(k, s));
    var S := Entries([f]);
    assert forall e :: e in S <==> e in f.entries;
    forall d | d in S && Visible(d, k, s) ensures Le(SeekKey(k, s), d.ikey) {
    }
  }

  /** Binary search and one table lookup find the newest visible entry of a whole level. */
  lemma LevelGetNewest(fs: seq<File>, index: nat, k: UserKey, s: nat)
    requires ValidFiles(fs) && InOrder(fs) && index <= |fs|
    requires forall i :: 0 <= i < index ==> Lt(fs[i].largest, SeekKey(k, s))
    requires forall i :: index <= i < |fs| ==> Le(SeekKey(k, s), fs[i].largest)
    ensures Finds(Entries(fs), k, s,
                  if index < |fs| && k >= fs[index].Lo() then TableGet(fs[index], k, s) else None)
  {
    var S := Entries(fs);
    forall d | d in S && Visible(d, k, s)
      ensures index < |fs| && k >= fs[index].Lo()
      ensures d.Seq() <= MAX_SEQUENCE
      ensures TableGet(fs[index], k, s).Some? && d.Seq() <= TableGet(fs[index], k, s).value.Seq()
    {
      var i :| 0 <= i < |fs| && d in fs[i].entries;
      assert fs[i] in fs;
      FileBounds(fs[i], d);
      assert Le(SeekKey(k, s), d.ikey);
      assert i >= index;
      assert fs[index] in fs;
      TableGetNewest(fs[index], k, s);
      SmallestInOrder(fs, index, i);
      if i > index {
        assert Lt(fs[index].largest, fs[i].smallest);
        var last := fs[index].entries[|fs[index].entries| - 1];
        assert last in fs[index].entries;
        TableSeekFirst(fs[index].entries, SeekKey(k, s));
      } else {
        assert d in Entries([fs[index]]);
      }
    }
    if index < |fs| {
      assert fs[index] in fs;
      TableGetNewest(fs[index], k, s);
    }
  }

  /** std::sort with NewestFirst. */
  function NewestFirst(fs: seq<File>): seq<File> {
    if fs == [] then [] else InsertNewest(fs[0], NewestFirst(fs[1..]))
  }

  function InsertNewest(f: File, fs: seq<File>): seq<File> {
    if fs == [] || f.number >= fs[0].number then [f] + fs else [fs[0]] + InsertNewest(f, fs[1..])
  }

  ghost predicate Descending(fs: seq<File>) {
    forall i, j :: 0 <= i < j < |fs| ==> fs[i].number >= fs[j].number
  }

  lemma DescendingCons(f: File, fs: seq<File>)
    requires Descending(fs) && forall g :: g in fs ==> f.number >= g.number
    ensures Descending([f] + fs)
  {
  }

  lemma {:induction false} InsertNewestMembers(f: File, fs: seq<File>)
    ensures forall g :: g in InsertNewest(f, fs) <==> g == f || g in fs
  {
    if fs != [] && f.number < fs[0].number {
      InsertNewestMembers(f, fs[1..]);
      assert fs == [fs[0]] + fs[1..];
    }
  }

  lemma {:induction false} InsertNewestSorts(f: File, fs: seq<File>)
    requires Descending(fs)
    ensures Descending(InsertNewest(f, fs))
  {
    if fs != [] && f.number < fs[0].number {
      InsertNewestSorts(f, fs[1..]);
      InsertNewestMembers(f, fs[1..]);
      assert forall g :: g in fs[1..] ==> fs[0].number >= g.number;
      DescendingCons(fs[0], InsertNewest(f, fs[1..]));
    }
  }

  lemma {:induction false} NewestFirstSorts(fs: seq<File>)
    ensures Descending(NewestFirst(fs)) && forall f :: f in NewestFirst(fs) <==> f in fs
  {
    if fs != [] {
      NewestFirstSorts(fs[1..]);
      InsertNewestSorts(fs[0], NewestFirst(fs[1..]));
      InsertNewestMembers(fs[0], NewestFirst(fs[1..]));
      assert fs == [fs[0]] + fs[1..];
    }
  }

  method OverlappingNewestFirst(fs: seq<File>, k: UserKey) returns (sorted: seq<File>)
    ensures forall f :: f in sorted <==> f in fs && f.Lo() <= k <= f.Hi()
    ensures Descending(sorted)
  {
    var tmp: seq<File> := [];
    for i := 0 to |fs|
      invariant forall f :: f in tmp <==> f in fs[..i] && f.Lo() <= k <= f.Hi()
    {
      var f := fs[i];
      assert fs[..i + 1] == fs[..i] + [f];
      if k >= f.Lo() && k <= f.Hi() {
        tmp := tmp + [f];
      }
    }
    assert fs[..|fs|] == fs;
    sorted := NewestFirst(tmp);
    NewestFirstSorts(tmp);
  }

  /** Level 0 of ForEachOverlapping: overlapping files, newest first, up to the first hit. */
  method GetLevelZero(fs: seq<File>, k: UserKey, s: nat) returns (r: Option<Entry>)
    requires ValidFiles(fs) && NumberedByAge(fs)
    requires forall f, g :: f in fs && g in fs && f.number == g.number ==> f == g
    ensures Finds(Entries(fs), k, s, r)
  {
    var sorted := OverlappingNewestFirst(fs, k);
    for i := 0 to |sorted|
      invariant Finds(Entries(sorted[..i]), k, s, None)
    {
      r := TableGet(sorted[i], k, s);
      assert sorted[i] in fs;
      TableGetNewest(sorted[i], k, s);
      if r.Some? {
        LevelZeroHit(fs, sorted, i, k, s, r);
        return;
      }
      assert sorted[..i + 1] == sorted[..i] + [sorted[i]];
    }
    assert sorted[..|sorted|] == sorted;
    LevelZeroMiss(fs, sorted, k, s);
    r := None;
  }

  lemma LevelZeroMiss(fs: seq<File>, sorted: seq<File>, k: UserKey, s: nat)
    requires ValidFiles(fs)
    requires forall f :: f in sorted <==> f in fs && f.Lo() <= k <= f.Hi()
    requires Finds(Entries(sorted), k, s, None)
    ensures Finds(Entries(fs), k, s, None)
  {
    forall d | d in Entries(fs) ensures !Visible(d, k, s) {
      var f :| f in fs && d in f.entries;
      FileBounds(f, d);
      if d.User() == k {
        assert d in Entries(sorted);
      }
    }
  }

  lemma LevelZeroHit(fs: seq<File>, sorted: seq<File>, i: nat, k: UserKey, s: nat, r: Option<Entry>)
    requires ValidFiles(fs) && NumberedByAge(fs)
    requires forall f, g :: f in fs && g in fs && f.number == g.number ==> f == g
    requires forall f :: f in sorted <==> f in fs && f.Lo() <= k <= f.Hi()
    requires Descending(sorted) && i < |sorted|
    requires Finds(Entries(sorted[..i]), k, s, None)
    requires r.Some? && Finds(Entries([sorted[i]]), k, s, r)
    ensures Finds(Entries(fs), k, s, r)
  {
    var f := sorted[i];
    assert f in fs && r.value in f.entries;
    forall d | d in Entries(fs) && Visible(d, k, s) ensures d.Seq() <= r.value.Seq() {
      var g :| g in fs && d in g.entries;
      FileBounds(g, d);
      if g == f {
        assert d in Entries([f]);
      } else {
        var j :| 0 <= j < |sorted| && sorted[j] == g;
        if j < i {
          assert false;
        }
        assert NewerThan(f, g);
      }
    }
  }

  /** A level above 0 of ForEachOverlapping. */
  method GetDisjointLevel(fs: seq<File>, k: UserKey, s: nat) returns (r: Option<Entry>)
    requires ValidFiles(fs) && InOrder(fs)
    ensures Finds(Entries(fs), k, s, r)
  {
    r := None;
    if |fs| != 0 {
      var index := FindFile(fs, SeekKey(k, s));
      LevelGetNewest(fs, index, k, s);
      if index < |fs| {
        if k < fs[index].Lo() {
          // All of the file is past any data for k.
        } else {
          r := TableGet(fs[index], k, s);
        }
      }
    }
  }

  /** The levels above `level` are searched: the newest visible entry of the version, or nothing visible so far. */
  ghost predicate Searched(v: Version, level: nat, k: UserKey, s: nat, r: Option<Entry>)
    requires level <= |v|
  {
    if r.Some? then Finds(All(v), k, s, r) else Finds(All(v[..level]), k, s, None)
  }

  method SearchLevel(v: Version, level: nat, k: UserKey, s: nat) returns (r: Option<Entry>)
    requires WellFormed(v) && Layered(v) && level < NUM_LEVELS && Searched(v, level, k, s, None)
    ensures Searched(v, level + 1, k, s, r)
  {
    assert SoundLevel(level, v[level]);
    if level == 0 {
      r := GetLevelZero(v[0], k, s);
    } else {
      r := GetDisjointLevel(v[level], k, s);
    }
    DeeperLevel(v, level, k, s, r);
  }

  /** Version::Get with ForEachOverlapping inlined.  The first hit on the way down, level 0 from the
      newest file, is the newest visible entry of the whole version. */
  method Get(v: Version, k: UserKey, s: nat) returns (r: Option<Entry>)
    requires WellFormed(v) && Layered(v)
    ensures Finds(All(v), k, s, r)
  {
    r := SearchLevel(v, 0, k, s);
    var level := 1;
    while r.None? && level < NUM_LEVELS
      invariant 1 <= level <= NUM_LEVELS && Searched(v, level, k, s, r)
    {
      r := SearchLevel(v, level, k, s);
      level := level + 1;
    }
    assert v[..NUM_LEVELS] == v;
  }

  lemma DeeperLevel(v: Version, level: nat, k: UserKey, s: nat, r: Option<Entry>)
    requires Layered(v) && level < |v|
    requires Finds(All(v[..level]), k, s, None)
    requires Finds(Entries(v[level]), k, s, r)
    ensures r.None? ==> Finds(All(v[..level + 1]), k, s, None)
    ensures r.Some? ==> Finds(All(v), k, s, r)
  {
    if r.None? {
      forall d | d in All(v[..level + 1]) ensures !Visible(d, k, s) {
        var l :| 0 <= l < level + 1 && d in Entries(v[l]);
        if l < level {
          assert v[..level][l] == v[l];
          assert d in All(v[..level]);
        }
      }
    } else {
      forall d | d in All(v) && Visible(d, k, s) ensures d.Seq() <= r.value.Seq() {
        var l :| 0 <= l < |v| && d in Entries(v[l]);
        if l < level {
          assert false;
        } else if l > level {
          assert Above(v[level], v[l]);
        }
      }
    }
  }
}

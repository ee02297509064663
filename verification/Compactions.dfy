/** What a compaction may drop, and what installing it does to a version
    (kv/db/db_impl.cpp DoCompactionWork, kv/db/version_set.cpp SetupOtherInputs). */
module Compactions {
  import opened Format
  import opened History
  import opened Versions

  /** A picked compaction.  `start` and `limit` are all_start and all_limit of SetupOtherInputs;
      `base` is input_version_; `horizon` is smallest_snapshot. */
  datatype Compaction = Compaction(level: nat, in0: seq<File>, in1: seq<File>, start: IKey, limit: IKey,
                                   base: Version, horizon: nat)
  {
    function Inputs(): seq<File> { in0 + in1 }
  }

  /** IsBaseLevelForKey by full scan: no file below the output level covers the key. */
  ghost predicate BaseLevel(v: Version, level: nat, k: UserKey) {
    forall l, f :: level + 2 <= l < |v| && f in v[l] ==> !(f.Lo() <= k <= f.Hi())
  }

  /** Rule (A): a newer input entry of the same key is already at or below the horizon. */
  ghost predicate Hidden(In: set<Entry>, h: nat, e: Entry) {
    exists d :: d in In && d.User() == e.User() && e.Seq() < d.Seq() <= h
  }

  /** A tombstone no snapshot needs and no deeper level has data for. */
  ghost predicate Obsolete(c: Compaction, e: Entry) {
    e.IsDeletion() && e.Seq() <= c.horizon && BaseLevel(c.base, c.level, e.User())
  }

  ghost predicate Dropped(c: Compaction, e: Entry) {
    Hidden(Entries(c.Inputs()), c.horizon, e) || Obsolete(c, e)
  }

  ghost function Kept(c: Compaction): set<Entry> {
    set e | e in Entries(c.Inputs()) && !Dropped(c, e)
  }

  /** The newest visible entry of `k` at the horizon is an input tombstone that gets dropped, and the
      next older entry, in a file that stays, is a value. */
  ghost predicate Exposed(c: Compaction, Rest: set<Entry>, k: UserKey) {
    exists e, x ::
      && e in Entries(c.Inputs()) && Newest(Entries(c.Inputs()) + Rest, k, c.horizon, e) && Obsolete(c, e)
      && Newest(Rest, k, e.Seq(), x) && x != e && !x.IsDeletion()
  }

  ghost predicate SameReads(S: set<Entry>, T: set<Entry>, floor: nat) {
    forall k, s, r :: floor <= s && Yields(S, k, s, r) ==> Yields(T, k, s, r)
  }

  /** Replacing the inputs by what the drop rules keep leaves every read at or above the horizon
      unchanged exactly when no key is exposed. */
  lemma DropPreservesReads(c: Compaction, Rest: set<Entry>, hist: seq<Op>, bound: nat)
    requires bound <= |hist| && Sound(Entries(c.Inputs()) + Rest, hist, bound)
    ensures SameReads(Entries(c.Inputs()) + Rest, Kept(c) + Rest, c.horizon) <==> forall k :: !Exposed(c, Rest, k)
  {
    var In := Entries(c.Inputs());
    if forall k :: !Exposed(c, Rest, k) {
      forall k, s, r | c.horizon <= s && Yields(In + Rest, k, s, r) ensures Yields(Kept(c) + Rest, k, s, r) {
        assert !Exposed(c, Rest, k);
        DropKeepsRead(c, Rest, hist, bound, k, s, r);
      }
    } else {
      var k :| Exposed(c, Rest, k);
      ExposedChangesRead(c, Rest, hist, bound, k);
    }
  }

  /** Everything older than an entry at or below the horizon is hidden by it. */
  lemma OlderDropped(c: Compaction, e: Entry)
    requires e in Entries(c.Inputs()) && e.Seq() <= c.horizon
    ensures forall d :: d in Kept(c) && d.User() == e.User() ==> d.Seq() >= e.Seq()
  {
    var In := Entries(c.Inputs());
    assert forall d :: d in In && d.User() == e.User() && d.Seq() < e.Seq() ==> Hidden(In, c.horizon, d);
  }

  lemma DropKeepsRead(c: Compaction, Rest: set<Entry>, hist: seq<Op>, bound: nat, k: UserKey, s: nat, r: Option<Bytes>)
    requires bound <= |hist| && Sound(Entries(c.Inputs()) + Rest, hist, bound)
    requires c.horizon <= s && Yields(Entries(c.Inputs()) + Rest, k, s, r)
    requires !Exposed(c, Rest, k)
    ensures Yields(Kept(c) + Rest, k, s, r)
  {
    var In := Entries(c.Inputs());
    var before := SearchHasOutcome(In + Rest, k, s);
    forall x | Finds(Kept(c) + Rest, k, s, x) ensures Answer(x) == r {
      if before.Some? {
        var e := before.value;
        if e in Kept(c) + Rest {
          assert x == before;
        } else {
          assert !Hidden(In, c.horizon, e);
          assert Newest(In + Rest, k, c.horizon, e);
          OlderDropped(c, e);
          if x.Some? {
            assert Newest(Rest, k, e.Seq(), x.value);
          }
        }
      }
    }
  }

  /** The newest visible entry decides what a read returns. */
  lemma NewestAnswers(S: set<Entry>, hist: seq<Op>, bound: nat, k: UserKey, s: nat, e: Entry)
    requires bound <= |hist| && Sound(S, hist, bound) && Newest(S, k, s, e)
    ensures Yields(S, k, s, Answer(Some(e)))
  {
    forall y | Finds(S, k, s, y) ensures Answer(y) == Answer(Some(e)) {
      assert y.Some? && y.value.Seq() == e.Seq();
    }
  }

  lemma ExposedChangesRead(c: Compaction, Rest: set<Entry>, hist: seq<Op>, bound: nat, k: UserKey)
    requires bound <= |hist| && Sound(Entries(c.Inputs()) + Rest, hist, bound)
    requires Exposed(c, Rest, k)
    ensures Yields(Entries(c.Inputs()) + Rest, k, c.horizon, None)
    ensures !Yields(Kept(c) + Rest, k, c.horizon, None)
  {
    var In := Entries(c.Inputs());
    var e, x :|
      && e in In && Newest(In + Rest, k, c.horizon, e) && Obsolete(c, e)
      && Newest(Rest, k, e.Seq(), x) && x != e && !x.IsDeletion();
    NewestAnswers(In + Rest, hist, bound, k, c.horizon, e);
    UncoveredRead(c, Rest, hist, bound, k, e, x);
  }

  /** With its tombstone `e` gone, `x` is what a read finds. */
  lemma UncoveredRead(c: Compaction, Rest: set<Entry>, hist: seq<Op>, bound: nat, k: UserKey, e: Entry, x: Entry)
    requires bound <= |hist| && Sound(Entries(c.Inputs()) + Rest, hist, bound)
    requires e in Entries(c.Inputs()) && Newest(Entries(c.Inputs()) + Rest, k, c.horizon, e) && Obsolete(c, e)
    requires Newest(Rest, k, e.Seq(), x) && x != e && !x.IsDeletion()
    ensures Finds(Kept(c) + Rest, k, c.horizon, Some(x)) && Answer(Some(x)) != None
  {
    OlderDropped(c, e);
    forall d | d in Kept(c) + Rest && Visible(d, k, c.horizon) ensures d.Seq() <= x.Seq() {
      assert d in Entries(c.Inputs()) + Rest && d.Seq() <= e.Seq();
    }
  }

  /** Nothing is kept in vain: exactly what is newer than the horizon, and of each key the newest input entry at or below
      it, unless that is a tombstone with nothing deeper. */
  lemma KeptExactly(c: Compaction, e: Entry)
    requires e in Entries(c.Inputs())
    ensures e in Kept(c) <==>
            e.Seq() > c.horizon || (Newest(Entries(c.Inputs()), e.User(), c.horizon, e)
                                    && !(e.IsDeletion() && BaseLevel(c.base, c.level, e.User())))
  {
    var In := Entries(c.Inputs());
    if e.Seq() <= c.horizon && !Newest(In, e.User(), c.horizon, e) {
      var d :| d in In && Visible(d, e.User(), c.horizon) && d.Seq() > e.Seq();
      assert Hidden(In, c.horizon, e);
    }
  }

  /** The entries of the files a compaction leaves alone. */
  ghost function Rest(v: Version, c: Compaction): set<Entry> {
    set l, f, e | 0 <= l < |v| && f in v[l] && f !in c.Inputs() && e in f.entries :: e
  }

  ghost predicate Holds(v: Version, c: Compaction) {
    && |v| == NUM_LEVELS && c.level + 1 < NUM_LEVELS
    && (forall f :: f in c.in0 ==> f in v[c.level])
    && (forall f :: f in c.in1 ==> f in v[c.level + 1])
  }

  /** Unselected files of the input level hold only newer entries for the inputs' keys. */
  ghost predicate ClosedBelow(v: Version, c: Compaction)
    requires Holds(v, c)
  {
    forall g, f :: g in v[c.level] && g !in c.in0 && f in c.in0 ==> NewerThan(g, f)
  }

  ghost predicate Within(c: Compaction) {
    forall f :: f in c.Inputs() ==> Le(c.start, f.smallest) && Le(f.largest, c.limit)
  }

  /** Unselected files of the output level lie outside [start, limit]. */
  ghost predicate Fenced(v: Version, c: Compaction)
    requires Holds(v, c)
  {
    forall g :: g in v[c.level + 1] && g !in c.in1 ==> Lt(g.largest, c.start) || Lt(c.limit, g.smallest)
  }

  /** What input selection establishes. */
  ghost predicate Ready(v: Version, c: Compaction) {
    Holds(v, c) && ClosedBelow(v, c) && Within(c) && Fenced(v, c)
  }

  /** All of `S` is on one side of `g`. */
  ghost predicate Beside(g: File, S: set<Entry>) {
    (forall e :: e in S ==> Lt(g.largest, e.ikey)) || (forall e :: e in S ==> Lt(e.ikey, g.smallest))
  }

  /** What installing outputs with the entries `S` needs: no unselected file of the output level is among them. */
  ghost predicate Installable(v: Version, c: Compaction, S: set<Entry>) {
    && Holds(v, c) && ClosedBelow(v, c) && Within(c)
    && forall g :: g in v[c.level + 1] && g !in c.in1 ==> Beside(g, S)
  }

  lemma InputWithin(c: Compaction, e: Entry)
    requires ValidFiles(c.Inputs()) && Within(c) && e in Entries(c.Inputs())
    ensures Le(c.start, e.ikey) && Le(e.ikey, c.limit) && c.start.user <= e.User() <= c.limit.user
  {
    var f :| f in c.Inputs() && e in f.entries;
    FileBounds(f, e);
  }

  /** A ready compaction can install whatever it makes of its inputs. */
  lemma ReadyInstalls(v: Version, c: Compaction, S: set<Entry>)
    requires WellFormed(v) && Ready(v, c) && S <= Entries(c.Inputs())
    ensures Installable(v, c, S)
  {
    InputsValid(v, c);
    forall g | g in v[c.level + 1] && g !in c.in1 ensures Beside(g, S) {
      forall e | e in S ensures Le(c.start, e.ikey) && Le(e.ikey, c.limit) {
        InputWithin(c, e);
      }
    }
  }

  lemma InputsValid(v: Version, c: Compaction)
    requires WellFormed(v) && Holds(v, c)
    ensures ValidFiles(c.Inputs())
  {
    assert SoundLevel(c.level, v[c.level]) && SoundLevel(c.level + 1, v[c.level + 1]);
  }

  ghost predicate Covers(fs: seq<File>, k: UserKey) {
    exists f :: f in fs && f.Lo() <= k <= f.Hi()
  }

  /** Every key between start and limit lies in some input file. */
  ghost predicate GapFree(c: Compaction) {
    && c.start.user <= c.limit.user
    && forall k :: c.start.user <= k <= c.limit.user ==> Covers(c.Inputs(), k)
  }

  /** Builder's result for one level. */
  ghost predicate Replaced(fs: seq<File>, gone: seq<File>, added: seq<File>, fs': seq<File>) {
    Listed(fs') && forall f :: f in fs' <==> (f in fs && f !in gone) || f in added
  }

  ghost predicate Installed(v: Version, c: Compaction, outs: seq<File>, v': Version)
    requires Holds(v, c)
  {
    && |v'| == |v|
    && Replaced(v[c.level], c.in0, [], v'[c.level])
    && Replaced(v[c.level + 1], c.in1, outs, v'[c.level + 1])
    && forall l :: 0 <= l < |v| && l != c.level && l != c.level + 1 ==> v'[l] == v[l]
  }

  ghost predicate FreshOutputs(v: Version, c: Compaction, outs: seq<File>) {
    && ValidFiles(outs) && InOrder(outs)
    && Entries(outs) <= Entries(c.Inputs())
    && (forall f, g :: f in outs && g in outs && f.number == g.number ==> f == g)
    && forall l, f, g :: 0 <= l < |v| && f in v[l] && f !in c.Inputs() && g in outs ==> f.number != g.number
  }

  lemma ListedInOrder(fs: seq<File>)
    requires ValidFiles(fs) && Listed(fs)
    requires forall f, g :: f in fs && g in fs && f != g ==> Lt(f.largest, g.smallest) || Lt(g.largest, f.smallest)
    ensures InOrder(fs)
  {
    forall i, j | 0 <= i < j < |fs| ensures Lt(fs[i].largest, fs[j].smallest) {
      assert BySmallest(fs[i], fs[j]);
      assert fs[i] in fs && fs[j] in fs;
      FileBounds(fs[i], fs[i].entries[0]);
      FileBounds(fs[j], fs[j].entries[0]);
    }
  }

  /** Every output stays clear of the unselected files of its level. */
  lemma OutputsInOrder(v: Version, c: Compaction, outs: seq<File>, fs': seq<File>)
    requires Installable(v, c, Entries(outs)) && SoundLevel(c.level + 1, v[c.level + 1])
    requires ValidFiles(outs) && InOrder(outs)
    requires Replaced(v[c.level + 1], c.in1, outs, fs')
    ensures SoundLevel(c.level + 1, fs')
  {
    forall f, g | f in fs' && g in fs' && f != g
      ensures Lt(f.largest, g.smallest) || Lt(g.largest, f.smallest)
    {
      DisjointPair(v, c, outs, fs', f, g);
    }
    ListedInOrder(fs');
  }

  lemma DisjointPair(v: Version, c: Compaction, outs: seq<File>, fs': seq<File>, f: File, g: File)
    requires Installable(v, c, Entries(outs)) && InOrder(v[c.level + 1]) && ValidFiles(outs) && InOrder(outs)
    requires Replaced(v[c.level + 1], c.in1, outs, fs')
    requires f in fs' && g in fs' && f != g
    ensures Lt(f.largest, g.smallest) || Lt(g.largest, f.smallest)
  {
    if f in outs && g in outs {
    } else if f in outs {
      OutputBeside(outs, f, g);
    } else if g in outs {
      OutputBeside(outs, g, f);
    }
  }

  lemma OutputBeside(outs: seq<File>, f: File, g: File)
    requires ValidFiles(outs) && f in outs && Beside(g, Entries(outs))
    ensures Lt(f.largest, g.smallest) || Lt(g.largest, f.smallest)
  {
    var first, last := f.entries[0], f.entries[|f.entries| - 1];
    assert first in f.entries && last in f.entries;
    assert first in Entries(outs) && last in Entries(outs);
  }

  /** A file built from entries of `from` inherits their place in the age order. */
  lemma InheritAbove(fs: seq<File>, from: seq<File>, outs: seq<File>)
    requires Entries(outs) <= Entries(from) && Above(fs, from)
    ensures Above(fs, outs)
  {
    forall f, g, e, d | f in fs && g in outs && e in f.entries && d in g.entries && e.User() == d.User()
      ensures e.Seq() > d.Seq()
    {
      assert d in Entries(outs);
      var h :| h in from && d in h.entries;
      assert NewerThan(f, h);
    }
  }

  lemma InheritBelow(fs: seq<File>, from: seq<File>, outs: seq<File>)
    requires Entries(outs) <= Entries(from) && Above(from, fs)
    ensures Above(outs, fs)
  {
    forall f, g, e, d | f in fs && g in outs && e in f.entries && d in g.entries && e.User() == d.User()
      ensures d.Seq() > e.Seq()
    {
      assert d in Entries(outs);
      var h :| h in from && d in h.entries;
      assert NewerThan(h, f);
    }
  }

  lemma AboveInputs(v: Version, c: Compaction, l: nat)
    requires Layered(v) && Holds(v, c) && l < |v|
    ensures l < c.level ==> Above(v[l], c.Inputs())
    ensures l > c.level + 1 ==> Above(c.Inputs(), v[l])
  {
    if l < c.level {
      assert Above(v[l], v[c.level]) && Above(v[l], v[c.level + 1]);
    } else if l > c.level + 1 {
      assert Above(v[c.level], v[l]) && Above(v[c.level + 1], v[l]);
    }
  }

  lemma InstallLayered(v: Version, c: Compaction, outs: seq<File>, v': Version)
    requires Layered(v) && Holds(v, c) && ClosedBelow(v, c) && Installed(v, c, outs, v')
    requires Entries(outs) <= Entries(c.Inputs())
    ensures Layered(v')
  {
    var L := c.level;
    forall l, m | 0 <= l < m < |v'| ensures Above(v'[l], v'[m]) {
      assert Above(v[l], v[m]);
      if m == L + 1 && l == L {
        forall g, f | g in v'[L] && f in c.Inputs() ensures NewerThan(g, f) {
        }
        InheritAbove(v'[L], c.Inputs(), outs);
      } else if m == L + 1 {
        AboveInputs(v, c, l);
        InheritAbove(v[l], c.Inputs(), outs);
      } else if l == L + 1 {
        AboveInputs(v, c, m);
        InheritBelow(v[m], c.Inputs(), outs);
      }
    }
    assert forall f :: f in v'[0] ==> f in v[0];
  }

  lemma InputLevel(v: Version, c: Compaction, l: nat, f: File)
    requires UniqueNumbers(v) && Holds(v, c) && l < |v| && f in v[l]
    ensures f in c.Inputs() <==> (l == c.level && f in c.in0) || (l == c.level + 1 && f in c.in1)
  {
    if f in c.in0 {
      assert f in v[c.level];
    }
    if f in c.in1 {
      assert f in v[c.level + 1];
    }
  }

  lemma InstalledFile(v: Version, c: Compaction, outs: seq<File>, v': Version, l: nat, f: File)
    requires UniqueNumbers(v) && Holds(v, c) && Installed(v, c, outs, v') && l < |v|
    ensures f in v'[l] <==> (l == c.level + 1 && f in outs) || (f in v[l] && f !in c.Inputs())
  {
    if f in v[l] {
      InputLevel(v, c, l, f);
    }
  }

  lemma InstallUnique(v: Version, c: Compaction, outs: seq<File>, v': Version)
    requires UniqueNumbers(v) && Holds(v, c) && Installed(v, c, outs, v')
    requires forall f, g :: f in outs && g in outs && f.number == g.number ==> f == g
    requires forall l, f, g :: 0 <= l < |v| && f in v[l] && f !in c.Inputs() && g in outs ==> f.number != g.number
    ensures UniqueNumbers(v')
  {
    forall l, m, f, g | 0 <= l < |v'| && 0 <= m < |v'| && f in v'[l] && g in v'[m] && f.number == g.number
      ensures l == m && f == g
    {
      InstalledFile(v, c, outs, v', l, f);
      InstalledFile(v, c, outs, v', m, g);
    }
  }

  /** Installing a compaction's outputs, or moving its single input down, keeps every structural invariant. */
  lemma InstallKeepsShape(v: Version, c: Compaction, outs: seq<File>, v': Version)
    requires WellFormed(v) && Layered(v) && Installable(v, c, Entries(outs))
    requires FreshOutputs(v, c, outs) && Installed(v, c, outs, v')
    ensures WellFormed(v') && Layered(v')
  {
    InstallLayered(v, c, outs, v');
    InstallUnique(v, c, outs, v');
    forall l | 0 <= l < |v'| ensures SoundLevel(l, v'[l]) {
      assert SoundLevel(l, v[l]);
      if l == c.level + 1 {
        OutputsInOrder(v, c, outs, v'[l]);
      } else if l == c.level {
        RemainderSound(l, v[l], c.in0, v'[l]);
      }
    }
  }

  lemma RemainderSound(l: nat, fs: seq<File>, gone: seq<File>, fs': seq<File>)
    requires SoundLevel(l, fs) && Replaced(fs, gone, [], fs')
    ensures SoundLevel(l, fs')
  {
    if l > 0 {
      forall f, g | f in fs' && g in fs' && f != g ensures Lt(f.largest, g.smallest) || Lt(g.largest, f.smallest) {
        assert f in fs && g in fs;
      }
      ListedInOrder(fs');
    }
  }

  lemma InstallEntries(v: Version, c: Compaction, outs: seq<File>, v': Version)
    requires UniqueNumbers(v) && Holds(v, c) && Installed(v, c, outs, v')
    ensures All(v) == Entries(c.Inputs()) + Rest(v, c)
    ensures All(v') == Entries(outs) + Rest(v, c)
  {
    forall e ensures e in All(v) <==> e in Entries(c.Inputs()) + Rest(v, c) {
      EntryBefore(v, c, e);
    }
    forall e ensures e in All(v') <==> e in Entries(outs) + Rest(v, c) {
      EntryAfter(v, c, outs, v', e);
    }
  }

  lemma EntryBefore(v: Version, c: Compaction, e: Entry)
    requires Holds(v, c)
    ensures e in All(v) <==> e in Entries(c.Inputs()) + Rest(v, c)
  {
    if e in Rest(v, c) {
      var l, f :| 0 <= l < |v| && f in v[l] && f !in c.Inputs() && e in f.entries;
      assert e in Entries(v[l]);
    } else if e in Entries(c.Inputs()) {
      var f :| f in c.Inputs() && e in f.entries;
      if f in c.in0 {
        assert e in Entries(v[c.level]);
      } else {
        assert e in Entries(v[c.level + 1]);
      }
    }
  }

  lemma EntryAfter(v: Version, c: Compaction, outs: seq<File>, v': Version, e: Entry)
    requires UniqueNumbers(v) && Holds(v, c) && Installed(v, c, outs, v')
    ensures e in All(v') <==> e in Entries(outs) + Rest(v, c)
  {
    if e in Rest(v, c) {
      var l, f :| 0 <= l < |v| && f in v[l] && f !in c.Inputs() && e in f.entries;
      InstalledFile(v, c, outs, v', l, f);
      assert e in Entries(v'[l]);
    } else if e in Entries(outs) {
      assert e in Entries(v'[c.level + 1]);
    } else if e in All(v') {
      var l :| 0 <= l < |v'| && e in Entries(v'[l]);
      var f :| f in v'[l] && e in f.entries;
      InstalledFile(v, c, outs, v', l, f);
      assert false;
    }
  }

  /** What AddBoundaryInputs on the output level would establish: no unselected file of that level
      holds an older entry for a user key of an input.  SetupOtherInputs does not ensure it. */
  ghost predicate BoundaryClosed(v: Version, c: Compaction)
    requires Holds(v, c)
  {
    forall g, f :: g in v[c.level + 1] && g !in c.in1 && f in c.Inputs() ==> NewerThan(g, f)
  }

  lemma BoundaryGuards(v: Version, c: Compaction, k: UserKey)
    requires WellFormed(v) && Layered(v) && Ready(v, c) && c.base == v && BoundaryClosed(v, c)
    ensures !Exposed(c, Rest(v, c), k)
  {
    forall f, e, x | f in c.Inputs() && e in f.entries && Obsolete(c, e) && x in Rest(v, c) && x.User() == e.User()
      ensures x.Seq() > e.Seq()
    {
      var l, g :| 0 <= l < |v| && g in v[l] && g !in c.Inputs() && x in g.entries;
      OlderElsewhere(v, c, l, g, f, e, x);
    }
  }

  lemma OlderElsewhere(v: Version, c: Compaction, l: nat, g: File, f: File, e: Entry, x: Entry)
    requires Layered(v) && Ready(v, c) && c.base == v && BoundaryClosed(v, c)
    requires forall m :: 0 <= m < |v| ==> SoundLevel(m, v[m])
    requires l < |v| && g in v[l] && g !in c.Inputs() && x in g.entries
    requires f in c.Inputs() && e in f.entries && Obsolete(c, e) && x.User() == e.User()
    ensures x.Seq() > e.Seq()
  {
    var L := c.level;
    if l < L {
      AboveInputs(v, c, l);
      assert NewerThan(g, f);
    } else if l == L {
      if f in c.in0 {
        assert NewerThan(g, f);
      } else {
        assert Above(v[L], v[L + 1]);
        assert NewerThan(g, f);
      }
    } else if l == L + 1 {
      assert NewerThan(g, f);
    } else {
      assert SoundLevel(l, v[l]);
      FileBounds(g, x);
      assert false;
    }
  }

  /** A flushed memtable enters level `p`. */
  ghost predicate Added(v: Version, p: nat, f: File, v': Version) {
    && p < |v| == |v'|
    && Replaced(v[p], [], [f], v'[p])
    && forall l :: 0 <= l < |v| && l != p ==> v'[l] == v[l]
  }

  /** What PickLevelForMemTableOutput promises of its level. */
  ghost predicate Clear(v: Version, p: nat, f: File) {
    p > 0 ==> forall l, g :: 0 <= l <= p < |v| && g in v[l] ==> !Overlap(f, g)
  }

  ghost predicate Youngest(v: Version, f: File) {
    && ValidFile(f)
    && (forall e, d :: e in f.entries && d in All(v) ==> e.Seq() > d.Seq())
    && forall l, g :: 0 <= l < |v| && g in v[l] ==> g.number < f.number
  }

  lemma YoungestNewer(v: Version, f: File, l: nat, g: File)
    requires Youngest(v, f) && l < |v| && g in v[l]
    ensures NewerThan(f, g)
  {
    forall e, d | e in f.entries && d in g.entries ensures e.Seq() > d.Seq() {
      assert d in Entries(v[l]);
      assert d in All(v);
    }
  }

  lemma ClearNewer(f: File, g: File)
    requires ValidFile(f) && ValidFile(g) && !Overlap(f, g)
    ensures NewerThan(g, f)
  {
    forall e, d | e in f.entries && d in g.entries ensures e.User() != d.User() {
      FileBounds(f, e);
      FileBounds(g, d);
    }
  }

  lemma FlushLevel(v: Version, p: nat, f: File, v': Version)
    requires Youngest(v, f) && Added(v, p, f, v') && Clear(v, p, f) && SoundLevel(p, v[p])
    ensures SoundLevel(p, v'[p])
  {
    if p > 0 {
      FileBounds(f, f.entries[0]);
      forall g, h | g in v'[p] && h in v'[p] && g != h ensures Lt(g.largest, h.smallest) || Lt(h.largest, g.smallest) {
        if g == f || h == f {
          var o := if g == f then h else g;
          assert o in v[p];
          FileBounds(o, o.entries[0]);
          assert !Overlap(f, o);
        } else {
          assert g in v[p] && h in v[p];
        }
      }
      ListedInOrder(v'[p]);
    }
  }

  lemma FlushLayered(v: Version, p: nat, f: File, v': Version)
    requires WellFormed(v) && Layered(v) && Youngest(v, f) && Added(v, p, f, v') && Clear(v, p, f)
    ensures Layered(v')
  {
    forall l, m | 0 <= l < m < |v'| ensures Above(v'[l], v'[m]) {
      assert Above(v[l], v[m]);
      forall g, h | g in v'[l] && h in v'[m] ensures NewerThan(g, h) {
        if l == p && g == f {
          YoungestNewer(v, f, m, h);
        } else if m == p && h == f {
          assert SoundLevel(l, v[l]);
          ClearNewer(f, g);
        }
      }
    }
    forall g, h | g in v'[0] && h in v'[0] && g.number > h.number ensures NewerThan(g, h) {
      if p == 0 && g == f {
        YoungestNewer(v, f, 0, h);
      }
    }
  }

  /** Flushing a memtable to a clear level keeps every structural invariant. */
  lemma FlushKeepsShape(v: Version, p: nat, f: File, v': Version)
    requires WellFormed(v) && Layered(v) && Youngest(v, f) && Added(v, p, f, v') && Clear(v, p, f)
    ensures WellFormed(v') && Layered(v')
    ensures All(v') == All(v) + Entries([f])
  {
    FlushLayered(v, p, f, v');
    forall l | 0 <= l < |v'| ensures SoundLevel(l, v'[l]) {
      assert SoundLevel(l, v[l]);
      if l == p {
        FlushLevel(v, p, f, v');
      }
    }
    FlushEntries(v, p, f, v');
    FlushUnique(v, p, f, v');
  }

  lemma FlushEntries(v: Version, p: nat, f: File, v': Version)
    requires Added(v, p, f, v')
    ensures All(v') == All(v) + Entries([f])
  {
    assert Entries(v'[p]) == Entries(v[p]) + Entries([f]);
    forall e ensures e in All(v') <==> e in All(v) + Entries([f]) {
      if e in Entries(v'[p]) {
      } else if e in All(v) {
        var l :| 0 <= l < |v| && e in Entries(v[l]);
        assert e in Entries(v'[l]);
      }
    }
  }

  lemma FlushUnique(v: Version, p: nat, f: File, v': Version)
    requires UniqueNumbers(v) && Added(v, p, f, v')
    requires forall l, g :: 0 <= l < |v| && g in v[l] ==> g.number < f.number
    ensures UniqueNumbers(v')
  {
    forall l, m, g, h | 0 <= l < |v'| && 0 <= m < |v'| && g in v'[l] && h in v'[m] && g.number == h.number
      ensures l == m && g == h
    {
      assert (l == p && g == f) || g in v[l];
      assert (m == p && h == f) || h in v[m];
    }
  }

  /** Entries on both sides of `f`. */
  ghost predicate Straddles(S: set<Entry>, f: File) {
    exists d, e :: d in S && e in S && d.User() < f.Lo() && f.Hi() < e.User()
  }

  lemma InputFileClear(v: Version, f: File, c: Compaction, g: File)
    requires Holds(v, c) && Clear(v, c.level + 1, f) && g in c.Inputs()
    ensures !Overlap(f, g)
  {
    assert g in v[c.level] || g in v[c.level + 1];
  }

  lemma InputClear(v: Version, f: File, c: Compaction, e: Entry)
    requires WellFormed(v) && Holds(v, c) && Clear(v, c.level + 1, f) && e in Entries(c.Inputs())
    ensures e.User() < f.Lo() || f.Hi() < e.User()
  {
    InputsValid(v, c);
    var g :| g in c.Inputs() && e in g.entries;
    InputFileClear(v, f, c, g);
    FileBounds(g, e);
  }

  /** A table clear of the inputs has them on one side exactly if they do not straddle it. */
  lemma BesideInputs(v: Version, f: File, c: Compaction, S: set<Entry>)
    requires WellFormed(v) && Holds(v, c) && ValidFile(f) && Clear(v, c.level + 1, f) && S <= Entries(c.Inputs())
    ensures Beside(f, S) <==> !Straddles(S, f)
  {
    FileBounds(f, f.entries[0]);
    forall e | e in S ensures e.User() < f.Lo() || f.Hi() < e.User() {
      InputClear(v, f, c, e);
    }
    if !Straddles(S, f) && !(forall e :: e in S ==> Lt(f.largest, e.ikey)) {
      var d :| d in S && !Lt(f.largest, d.ikey);
      assert d.User() < f.Lo();
      forall e | e in S ensures Lt(e.ikey, f.smallest) {
        assert !(f.Hi() < e.User());
      }
    }
  }

  /** The inputs of a gap-free compaction cover its range, so a table clear of them has them on one side. */
  lemma GapFreeApart(v: Version, f: File, c: Compaction)
    requires WellFormed(v) && Holds(v, c) && Within(c) && GapFree(c) && ValidFile(f) && Clear(v, c.level + 1, f)
    ensures !Straddles(Entries(c.Inputs()), f)
  {
    InputsValid(v, c);
    FileBounds(f, f.entries[0]);
    forall g | g in c.Inputs() ensures !Overlap(f, g) {
      InputFileClear(v, f, c, g);
    }
    assert !Covers(c.Inputs(), f.Lo());
    forall d, e | d in Entries(c.Inputs()) && e in Entries(c.Inputs()) && d.User() < f.Lo()
      ensures !(f.Hi() < e.User())
    {
      InputWithin(c, d);
      InputWithin(c, e);
    }
  }

  /** A table flushed in the middle of a compaction does not hinder it unless it enters the output level between two
      entries that are kept. */
  lemma FlushKeepsInstallable(v: Version, p: nat, f: File, v': Version, c: Compaction, S: set<Entry>)
    requires WellFormed(v) && Installable(v, c, S) && S <= Entries(c.Inputs())
    requires Youngest(v, f) && Added(v, p, f, v') && Clear(v, p, f)
    requires p == c.level + 1 ==> !Straddles(S, f)
    ensures Installable(v', c, S)
  {
    forall g, h | g in v'[c.level] && g !in c.in0 && h in c.in0 ensures NewerThan(g, h) {
      if g == f {
        YoungestNewer(v, f, c.level, h);
      }
    }
    if p == c.level + 1 {
      BesideInputs(v, f, c, S);
    }
  }

  lemma FlushRest(v: Version, p: nat, f: File, v': Version, c: Compaction)
    requires Holds(v, c) && Youngest(v, f) && Added(v, p, f, v')
    ensures Rest(v', c) == Rest(v, c) + Entries([f])
  {
    assert f !in c.Inputs();
    forall e ensures e in Rest(v', c) <==> e in Rest(v, c) + Entries([f]) {
      if e in f.entries {
        assert f in v'[p];
      } else if e in Rest(v, c) {
        var l, g :| 0 <= l < |v| && g in v[l] && g !in c.Inputs() && e in g.entries;
        assert g in v'[l];
      }
    }
  }

  /** Newer data cannot expose a key: a flush in the middle of a compaction leaves its drop rules sound. */
  lemma FlushExposesNothing(v: Version, p: nat, f: File, v': Version, c: Compaction, k: UserKey)
    requires Holds(v, c) && Youngest(v, f) && Added(v, p, f, v')
    requires !Exposed(c, Rest(v, c), k)
    ensures !Exposed(c, Rest(v', c), k)
  {
    FlushRest(v, p, f, v', c);
    var In, R := Entries(c.Inputs()), Rest(v, c);
    forall e, x | e in In && Newest(In + Rest(v', c), k, c.horizon, e) && Obsolete(c, e)
                  && Newest(Rest(v', c), k, e.Seq(), x) && x != e
      ensures x.IsDeletion()
    {
      EntryBefore(v, c, e);
      assert x in R;
      assert Newest(In + R, k, c.horizon, e);
      assert Newest(R, k, e.Seq(), x);
    }
  }
}

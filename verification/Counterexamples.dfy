/** Input selection does less than correctness needs: a deleted key can come back.
    The exact conditions are `Compactions.DropPreservesReads` and `Faithfulness.FaithfulInstall`. */
module Counterexamples {
  import opened Format
  import opened History
  import opened Versions
  import opened Compactions
  import opened Selection
  import opened Picking
  import opened Faithfulness
  import opened Examples

  /** MID was written and deleted; level 3 holds the tombstone at the end of one file and the value in the next. */
  function Writes(): seq<Op> { [Put(LOW, []), Put(MID, []), Delete(MID), Put(LOW, [])] }
  function Upper(): File { Table(9, [Stored(LOW, 4)]) }
  function Lower(): File { Table(6, [Stored(LOW, 1), Erased(MID, 3)]) }
  function Neighbour(): File { Table(7, [Stored(MID, 2)]) }
  function Split(): Version { [[], [], [Upper()], [Lower(), Neighbour()], [], [], []] }

  /** `v` consists of `u` at level 2 and `a`, `b` in this order at level 3. */
  ghost predicate Holding(v: Version, u: File, a: File, b: File) {
    && |v| == NUM_LEVELS && v[2] == [u] && v[3] == [a, b]
    && forall l :: 0 <= l < NUM_LEVELS && l != 2 && l != 3 ==> v[l] == []
  }

  lemma SplitHolds()
    ensures Holding(Split(), Upper(), Lower(), Neighbour())
    ensures ValidFile(Upper()) && ValidFile(Lower()) && ValidFile(Neighbour())
    ensures Upper().entries == [Stored(LOW, 4)] && Lower().entries == [Stored(LOW, 1), Erased(MID, 3)]
    ensures Neighbour().entries == [Stored(MID, 2)]
  {
    TableOfOne(9, Stored(LOW, 4));
    TableOfTwo(6, Stored(LOW, 1), Erased(MID, 3));
    TableOfOne(7, Stored(MID, 2));
  }

  lemma HoldingMember(v: Version, u: File, a: File, b: File, l: nat, f: File)
    requires Holding(v, u, a, b) && l < NUM_LEVELS
    ensures f in v[l] <==> (l == 2 && f == u) || (l == 3 && (f == a || f == b))
  {
  }

  lemma HoldingUnique(v: Version, u: File, a: File, b: File)
    requires Holding(v, u, a, b) && u.number != a.number && u.number != b.number && a.number != b.number
    ensures UniqueNumbers(v)
  {
    forall l, m, f, g | 0 <= l < |v| && 0 <= m < |v| && f in v[l] && g in v[m] && f.number == g.number
      ensures l == m && f == g
    {
      HoldingMember(v, u, a, b, l, f);
      HoldingMember(v, u, a, b, m, g);
    }
  }

  lemma HoldingLevels(v: Version, u: File, a: File, b: File)
    requires Holding(v, u, a, b) && ValidFile(u) && ValidFile(a) && ValidFile(b)
    requires Lt(a.largest, b.smallest) && Lt(a.smallest, b.smallest)
    ensures forall l :: 0 <= l < NUM_LEVELS ==> SoundLevel(l, v[l])
  {
    forall l | 0 <= l < NUM_LEVELS ensures SoundLevel(l, v[l]) {
    }
  }

  lemma HoldingWellFormed(v: Version, u: File, a: File, b: File)
    requires Holding(v, u, a, b) && ValidFile(u) && ValidFile(a) && ValidFile(b)
    requires u.number != a.number && u.number != b.number && a.number != b.number
    requires Lt(a.largest, b.smallest) && Lt(a.smallest, b.smallest)
    ensures WellFormed(v)
  {
    HoldingLevels(v, u, a, b);
    HoldingUnique(v, u, a, b);
  }

  lemma HoldingLayered(v: Version, u: File, a: File, b: File)
    requires Holding(v, u, a, b) && NewerThan(u, a) && NewerThan(u, b)
    ensures Layered(v)
  {
    forall l, m | 0 <= l < m < |v| ensures Above(v[l], v[m]) {
      forall f, g | f in v[l] && g in v[m] ensures NewerThan(f, g) {
        HoldingMember(v, u, a, b, l, f);
        HoldingMember(v, u, a, b, m, g);
      }
    }
  }

  lemma HoldingEntries(v: Version, u: File, a: File, b: File)
    requires Holding(v, u, a, b)
    ensures All(v) == Entries([u]) + Entries([a, b])
  {
  }

  lemma SplitEntries()
    ensures All(Split()) == {Stored(LOW, 4), Stored(LOW, 1), Erased(MID, 3), Stored(MID, 2)}
  {
    SplitHolds();
    var u, a, b := Upper(), Lower(), Neighbour();
    HoldingEntries(Split(), u, a, b);
    OneTable(u, Stored(LOW, 4));
    TwoTables(a, b, Stored(LOW, 1), Erased(MID, 3), Stored(MID, 2));
  }

  lemma OneTable(u: File, x: Entry)
    requires u.entries == [x]
    ensures Entries([u]) == {x}
  {
    assert u in [u] && x in u.entries;
  }

  lemma TwoTables(a: File, b: File, x: Entry, y: Entry, z: Entry)
    requires a.entries == [x, y] && b.entries == [z]
    ensures Entries([a, b]) == {x, y, z}
  {
    assert a in [a, b] && b in [a, b] && x in a.entries && y in a.entries && z in b.entries;
  }

  lemma WritesSlice()
    ensures Slice(Writes(), 0, 4) == {Stored(LOW, 4), Stored(LOW, 1), Erased(MID, 3), Stored(MID, 2)}
  {
    var h := Writes();
    assert EntryOf(h[0], 1) == Stored(LOW, 1) && EntryOf(h[1], 2) == Stored(MID, 2);
    assert EntryOf(h[2], 3) == Erased(MID, 3) && EntryOf(h[3], 4) == Stored(LOW, 4);
  }

  lemma SplitShape()
    ensures WellFormed(Split()) && Layered(Split())
  {
    SplitHolds();
    HoldingWellFormed(Split(), Upper(), Lower(), Neighbour());
    HoldingLayered(Split(), Upper(), Lower(), Neighbour());
  }

  lemma SliceFaithful(v: Version, hist: seq<Op>)
    requires WellFormed(v) && Layered(v) && All(v) == Slice(hist, 0, |hist|)
    ensures Faithful(v, hist, |hist|, 0)
  {
    assert Agrees({}, hist, 0, 0);
    ExtendAgrees({}, hist, 0, |hist|, 0);
    assert {} + All(v) == All(v);
  }

  /** Before the compaction the version gives every read its right answer. */
  lemma SplitFaithful()
    ensures Faithful(Split(), Writes(), 4, 0)
  {
    SplitShape();
    SplitEntries();
    WritesSlice();
    SliceFaithful(Split(), Writes());
  }

  /** Level 3 is split inside a user key: tombstone `y` ends file `a`, the value `z` it hides starts file `b`. */
  ghost predicate SplitInsideKey(v: Version, u: File, a: File, b: File, w: Entry, x: Entry, y: Entry, z: Entry) {
    && Holding(v, u, a, b) && WellFormed(v)
    && u.entries == [w] && a.entries == [x, y] && b.entries == [z]
    && w.User() == x.User() < y.User() == z.User() && z.Seq() < y.Seq()
    && y.IsDeletion() && !z.IsDeletion()
  }

  lemma SplitIsInsideKey()
    ensures SplitInsideKey(Split(), Upper(), Lower(), Neighbour(), Stored(LOW, 4), Stored(LOW, 1), Erased(MID, 3), Stored(MID, 2))
  {
    SplitHolds();
    SplitShape();
  }

  /** Whatever inputs the selection rules settle on from `u`, they are `u` and `a`. */
  lemma SplitInputs(v: Version, u: File, a: File, b: File, c: Compaction)
    requires Holding(v, u, a, b) && a.Lo() <= u.Lo() <= u.Hi() <= a.Hi() && u.Hi() < b.Lo()
    requires c.level == 2 && Chosen(v, 2, c.in0) && TakesUnder(v, c)
    ensures forall f :: f in c.Inputs() <==> f == u || f == a
  {
    var x, y :| Under(v, c, x, y);
    assert x == u && y == u;
  }

  lemma SplitSides(v: Version, u: File, a: File, b: File, c: Compaction, w: Entry, x: Entry, y: Entry, z: Entry)
    requires SplitInsideKey(v, u, a, b, w, x, y, z) && forall f :: f in c.Inputs() <==> f == u || f == a
    ensures y in Entries(c.Inputs()) && z in Rest(v, c)
    ensures (forall e :: e in Entries(c.Inputs()) ==> e in {w, x, y}) && forall e :: e in Rest(v, c) ==> e == z
  {
    assert a in c.Inputs() && y in a.entries;
    forall e | e in Entries(c.Inputs()) ensures e in {w, x, y} {
      var f :| f in c.Inputs() && e in f.entries;
      assert f == u || f == a;
    }
    assert b in v[3] && z in b.entries;
    forall e | e in Rest(v, c) ensures e == z {
      var l, f :| 0 <= l < |v| && f in v[l] && f !in c.Inputs() && e in f.entries;
      HoldingMember(v, u, a, b, l, f);
    }
  }

  lemma ExposedBy(c: Compaction, R: set<Entry>, y: Entry, z: Entry)
    requires y in Entries(c.Inputs()) && z in R && Obsolete(c, y) && !z.IsDeletion()
    requires forall e :: e in Entries(c.Inputs()) && e.User() == y.User() ==> e == y
    requires (forall e :: e in R ==> e == z) && z.User() == y.User() && z.Seq() < y.Seq()
    ensures Exposed(c, R, y.User())
  {
    assert Newest(Entries(c.Inputs()) + R, y.User(), c.horizon, y);
    assert Newest(R, y.User(), y.Seq(), z);
  }

  lemma HoldingBase(v: Version, u: File, a: File, b: File, k: UserKey)
    requires Holding(v, u, a, b)
    ensures BaseLevel(v, 2, k)
  {
  }

  /** That compaction drops the tombstone and leaves the value. */
  lemma SplitExposes(v: Version, u: File, a: File, b: File, c: Compaction, w: Entry, x: Entry, y: Entry, z: Entry)
    requires SplitInsideKey(v, u, a, b, w, x, y, z) && y.Seq() <= c.horizon
    requires c.level == 2 && c.base == v && forall f :: f in c.Inputs() <==> f == u || f == a
    ensures Exposed(c, Rest(v, c), y.User())
  {
    SplitSides(v, u, a, b, c, w, x, y, z);
    HoldingBase(v, u, a, b, y.User());
    ExposedBy(c, Rest(v, c), y, z);
  }

  lemma SplitBounds(v: Version, u: File, a: File, b: File, w: Entry, x: Entry, y: Entry, z: Entry)
    requires SplitInsideKey(v, u, a, b, w, x, y, z)
    ensures a.Lo() <= u.Lo() <= u.Hi() <= a.Hi() && u.Hi() < b.Lo()
    ensures u in v[2] && Distinct(Entries(v[2]))
  {
    assert SoundLevel(2, v[2]) && SoundLevel(3, v[3]);
    assert u in v[2] && a in v[3] && b in v[3];
    OneTable(u, w);
  }

  /** PickCompaction itself picks it. */
  method PickExposes(v: Version, u: File, ghost a: File, ghost b: File, ghost w: Entry, ghost x: Entry, ghost y: Entry,
                     ghost z: Entry, horizon: nat, max_file_size: nat) returns (c: Compaction)
    requires SplitInsideKey(v, u, a, b, w, x, y, z) && y.Seq() <= horizon
    ensures Ready(v, c) && c.base == v && c.horizon == horizon && Exposed(c, Rest(v, c), y.User())
  {
    SplitBounds(v, u, a, b, w, x, y, z);
    var p, _ := PickCompaction(v, 2, u, max_file_size);
    SplitInputs(v, u, a, b, p);
    c := p.(horizon := horizon);
    assert c.Inputs() == p.Inputs();
    SplitExposes(v, u, a, b, c, w, x, y, z);
  }

  /** Installing the result of such a compaction brings the deleted key back. */
  lemma DeletedKeyReturns(v: Version, hist: seq<Op>, c: Compaction, k: UserKey, outs: seq<File>, v': Version)
    requires Faithful(v, hist, |hist|, c.horizon) && Ready(v, c) && Exposed(c, Rest(v, c), k)
    requires FreshOutputs(v, c, outs) && Entries(outs) == Kept(c) && Installed(v, c, outs, v')
    ensures Yields(All(v), k, c.horizon, None) && !Yields(All(v'), k, c.horizon, None)
    ensures !Faithful(v', hist, |hist|, c.horizon)
  {
    ReadyInstalls(v, c, Kept(c));
    FaithfulInstall(v, hist, |hist|, c.horizon, c, outs, v');
    InstallEntries(v, c, outs, v');
    ExposedChangesRead(c, Rest(v, c), hist, |hist|, k);
  }
}

/** A run of the database machine that ends with a version from which PickCompaction exposes a deleted key: the guard of
    `Database.CompactStartStep` excludes something that does happen. */
module DeletedKeyRun {
  import opened Format
  import opened History
  import opened Versions
  import opened Compactions
  import opened VersionBuilder
  import opened Edits
  import opened Wal
  import opened Database
  import opened DatabaseInvariant
  import opened DatabaseSafety
  import opened Runs
  import opened Examples
  import opened Counterexamples

  // ---- Edits ----

  lemma AddedApplies(v: Version, p: nat, f: File, v': Version)
    requires WellFormed(v) && |v| == NUM_LEVELS && Added(v, p, f, v')
    ensures AppliedEdit(v, FlushEdit(p, f), v')
  {
    var e := FlushEdit(p, f);
    forall l | 0 <= l < NUM_LEVELS ensures Applied(v[l], l, e, v'[l]) {
      assert SoundLevel(l, v[l]) && FreshAdds([], l, e.added);
      EditLevel(NOTHING, l, e);
    }
  }

  lemma InstalledApplies(v: Version, c: Compaction, outs: seq<File>, v': Version)
    requires WellFormed(v) && Holds(v, c) && Installed(v, c, outs, v')
    requires forall i, j :: 0 <= i < j < |outs| ==> outs[i].number != outs[j].number
    requires forall l, f, g :: 0 <= l < |v| && f in v[l] && g in outs ==> f.number != g.number
    ensures AppliedEdit(v, CompactionEdit(c, outs), v')
  {
    var e := CompactionEdit(c, outs);
    forall l | 0 <= l < NUM_LEVELS ensures Applied(v[l], l, e, v'[l]) {
      InstalledLevel(v, c, outs, v', l);
    }
  }

  lemma InstalledLevel(v: Version, c: Compaction, outs: seq<File>, v': Version, l: nat)
    requires WellFormed(v) && Holds(v, c) && Installed(v, c, outs, v') && l < NUM_LEVELS
    requires forall i, j :: 0 <= i < j < |outs| ==> outs[i].number != outs[j].number
    requires forall l, f, g :: 0 <= l < |v| && f in v[l] && g in outs ==> f.number != g.number
    ensures Applied(v[l], l, CompactionEdit(c, outs), v'[l])
  {
    CompactionEditLevels(c, outs);
    EditLevel(NOTHING, l, CompactionEdit(c, outs));
    assert SoundLevel(l, v[l]);
    forall f ensures f in v'[l] <==>
      (f in v[l] || f in ApplyLevel(NOTHING, l, CompactionEdit(c, outs)).added) &&
      f.number !in ApplyLevel(NOTHING, l, CompactionEdit(c, outs)).deleted
    {
      InstalledFile(v, c, outs, v', l, f);
    }
  }

  // ---- Pieces of runs ----

  /** A reachable state at rest: what is in the version and in the memtable, the next file and sequence numbers, and the
      snapshots. */
  ghost predicate Standing(db: Db, v: Version, mem: set<Entry>, next: nat, last: nat, snapshots: multiset<nat>) {
    && Reachable(Up(db)) && db.version == v && db.logfile in db.memtables && db.logfile in db.disk.logs
    && db.memtables[db.logfile] == mem && db.logfile < db.nextFile == next && db.lastSequence == last
    && db.snapshots == snapshots && db.imm.None? && db.group.None? && db.job.Idle? && db.writing.Nothing?
  }

  lemma StandingOk(db: Db, v: Version, mem: set<Entry>, next: nat, last: nat, snapshots: multiset<nat>)
    requires Standing(db, v, mem, next, last, snapshots)
    ensures UpOk(db) && WellFormed(v)
  {
    ReachableOk(Up(db));
  }

  lemma Open() returns (db: Db)
    ensures Standing(db, EMPTY, {}, 4, 0, multiset{})
  {
    var d := Disk([Edit([], [])], EMPTY, 0, 0, 2, map[], {});
    ReachFirst(Down(d, []));
    NewManifest();
    var r := Recovering(d, [], [], EMPTY, [], 0, 0, 3);
    assert Records(d.logs, []) == [];
    forall l | 0 <= l < NUM_LEVELS ensures Saved([], ApplyAll(NOTHING, l, d.manifest), EMPTY[l]) {
      assert ReplaysLevel(d.manifest, l, EMPTY[l]);
    }
    Reach(Down(d, []), StartRecovery([], EMPTY), r);
    var d' := Disk([Edit([], SnapshotAdds(EMPTY, NUM_LEVELS)), Edit([], Additions(0, []))], EMPTY, 3, 0, 4, map[3 := []], {});
    db := Db(d', [], 0, None, map[3 := {}], 3, None, 0, 0, EMPTY, 0, multiset{}, multiset{}, Idle, Nothing, {}, 4);
    var none: set<nat> := set f: File | f in [] :: f.number;
    assert d.tables + none == {};
    Reach(r, FinishRecovery(3), Up(db));
  }

  lemma Write(db: Db, op: Op, v: Version, mem: set<Entry>, next: nat, last: nat, snapshots: multiset<nat>) returns (db': Db)
    requires Standing(db, v, mem, next, last, snapshots) && last < 10
    ensures Standing(db', v, mem + {EntryOf(op, last + 1)}, next, last + 1, snapshots)
  {
    var a := db.(group := Some(Group([op], false, 0)));
    ReachUp(db, BeginGroup([op]), a);
    var b := a.(disk := a.disk.(logs := a.disk.logs[a.logfile := a.disk.logs[a.logfile] + [Batch(last + 1, [op])]]),
                group := Some(Group([op], true, 0)));
    ReachUp(a, LogGroup, b);
    var c := b.(memtables := b.memtables[b.logfile := mem + {EntryOf(op, last + 1)}], group := Some(Group([op], true, 1)));
    ReachUp(b, ApplyOne, c);
    db' := c.(hist := c.hist + [op], lastSequence := last + 1, group := None);
    ReachUp(c, Publish, db');
  }

  lemma Take(db: Db, v: Version, mem: set<Entry>, next: nat, last: nat, snapshots: multiset<nat>) returns (db': Db)
    requires Standing(db, v, mem, next, last, snapshots)
    ensures Standing(db', v, mem, next, last, snapshots + multiset{last})
  {
    db' := db.(snapshots := snapshots + multiset{last});
    ReachUp(db, TakeSnapshot, db');
  }

  lemma Release(db: Db, v: Version, mem: set<Entry>, next: nat, last: nat, s: nat) returns (db': Db)
    requires Standing(db, v, mem, next, last, multiset{s})
    ensures Standing(db', v, mem, next, last, multiset{})
  {
    db' := db.(snapshots := multiset{});
    assert multiset{s} - multiset{s} == multiset{};
    ReachUp(db, ReleaseSnapshot(s), db');
  }

  /** Switch the memtable and flush the full one as table `f`. */
  lemma Flush(db: Db, f: File, p: nat, v': Version, v: Version, mem: set<Entry>, next: nat, last: nat,
              snapshots: multiset<nat>) returns (db': Db)
    requires Standing(db, v, mem, next, last, snapshots)
    requires ValidFile(f) && Entries([f]) == mem && f.number == next + 1 && p < NUM_LEVELS && Clear(v, p, f) && Added(v, p, f, v')
    ensures Standing(db', v', {}, next + 2, last, snapshots)
  {
    StandingOk(db, v, mem, next, last, snapshots);
    AddedApplies(v, p, f, v');
    var a := db.(disk := db.disk.(logs := db.disk.logs[next := []]), memtables := db.memtables[next := {}],
                 imm := Some(db.logfile), logfile := next, memStart := |db.hist|, nextFile := next + 1);
    ReachUp(db, SwitchMemTable, a);
    var b := a.(disk := AppendEdit(a.disk, FlushEdit(p, f), v', next, last, f.number + 1).(tables := a.disk.tables + {f.number}),
                writing := WroteFlush, nextFile := f.number + 1);
    ReachUp(a, FlushWrite(Some(f), p, v'), b);
    db' := b.(version := v', imm := None, immStart := b.memStart, writing := Nothing);
    ReachUp(b, FlushInstall, db');
  }

  /** The compaction starts and creates its two outputs. */
  lemma CompactBegin(db: Db, c: Compaction, next: nat) returns (d: Db)
    requires Reachable(Up(db)) && db.job.Idle? && db.writing.Nothing? && db.nextFile == next
    requires Ready(db.version, c) && c.base == db.version && IsHorizon(db, c.horizon)
    requires forall k :: !Exposed(c, Rest(db.version, c), k)
    ensures Reachable(Up(d)) && next in d.pending && next + 1 in d.pending && d.disk.logs == db.disk.logs
    ensures d == db.(job := Running(c, true), pending := d.pending, nextFile := next + 2, disk := d.disk)
  {
    var a := db.(job := Running(c, true));
    ReachUp(db, CompactStart(c, true), a);
    var b := a.(pending := a.pending + {next}, nextFile := next + 1, disk := a.disk.(tables := a.disk.tables + {next}));
    ReachUp(a, WriteOutput(next), b);
    d := b.(pending := b.pending + {next + 1}, nextFile := next + 2, disk := b.disk.(tables := b.disk.tables + {next + 1}));
    ReachUp(b, WriteOutput(next + 1), d);
  }

  /** A compaction with two outputs. */
  lemma Compact(db: Db, c: Compaction, x: File, y: File, v': Version, v: Version, mem: set<Entry>, next: nat, last: nat, s: nat)
    returns (db': Db)
    requires Standing(db, v, mem, next, last, multiset{s})
    requires Ready(v, c) && c.base == v && c.horizon == s && forall k :: !Exposed(c, Rest(v, c), k)
    requires ValidFiles([x, y]) && InOrder([x, y]) && Entries([x, y]) == Kept(c)
    requires x.number == next && y.number == next + 1 && AppliedEdit(v, CompactionEdit(c, [x, y]), v')
    ensures Standing(db', v', mem, next + 2, last, multiset{s})
  {
    var d := CompactBegin(db, c, next);
    db' := CompactEnd(d, c, x, y, v');
  }

  lemma CompactEnd(d: Db, c: Compaction, x: File, y: File, v': Version) returns (db': Db)
    requires Reachable(Up(d)) && d.job == Running(c, true) && d.writing.Nothing?
    requires ValidFiles([x, y]) && InOrder([x, y]) && Entries([x, y]) == Kept(c) && x.number != y.number
    requires x.number in d.pending && y.number in d.pending && AppliedEdit(d.version, CompactionEdit(c, [x, y]), v')
    ensures Reachable(Up(db')) && db' == d.(version := v', disk := db'.disk, floor := db'.floor, job := Idle, pending := {})
    ensures db'.disk.logs == d.disk.logs
  {
    var e := d.(disk := AppendEdit(d.disk, CompactionEdit(c, [x, y]), v', d.disk.logNumber, d.lastSequence, d.nextFile),
                job := Idle, writing := WroteVersion(c.horizon));
    ReachUp(d, CompactWrite([x, y], v'), e);
    db' := e.(version := v', floor := c.horizon, writing := Nothing, pending := {});
    ReachUp(e, VersionInstall, db');
  }

  // ---- The run ----

  /** Level `l` of `v` is `fs` and nothing else is there. */
  ghost predicate Only(v: Version, l: nat, fs: seq<File>) {
    |v| == NUM_LEVELS && l < NUM_LEVELS && v[l] == fs && forall m :: 0 <= m < NUM_LEVELS && m != l ==> v[m] == []
  }

  lemma OnlyMember(v: Version, l: nat, fs: seq<File>, m: nat, f: File)
    requires Only(v, l, fs) && m < NUM_LEVELS
    ensures f in v[m] <==> m == l && f in fs
  {
  }

  lemma FirstFlush(v: Version, f: File, v': Version)
    requires Only(v, 2, []) && Only(v', 2, [f])
    ensures Clear(v, 2, f) && Added(v, 2, f, v')
  {
  }

  lemma SecondFlush(v: Version, f: File, a: File, b: File, v': Version)
    requires Only(v, 3, [a, b]) && Holding(v', f, a, b)
    ensures Clear(v, 2, f) && Added(v, 2, f, v')
  {
  }

  /** A manual compaction of the one file there is. */
  function Whole(v: Version, f: File, h: nat): Compaction { Compaction(2, [f], [], f.smallest, f.largest, v, h) }

  lemma WholeReady(v: Version, f: File, h: nat)
    requires Only(v, 2, [f]) && ValidFile(f)
    ensures Ready(v, Whole(v, f, h)) && Entries(Whole(v, f, h).Inputs()) == Entries([f])
    ensures forall k :: !Exposed(Whole(v, f, h), Rest(v, Whole(v, f, h)), k)
  {
    var c := Whole(v, f, h);
    assert c.Inputs() == [f];
    forall l, g | 0 <= l < |v| && g in v[l] ensures g == f {
      OnlyMember(v, 2, [f], l, g);
    }
    assert Rest(v, c) == {};
  }

  lemma WholeInstalled(v: Version, f: File, h: nat, a: File, b: File, v': Version)
    requires Only(v, 2, [f]) && Only(v', 3, [a, b]) && BySmallest(a, b)
    ensures Holds(v, Whole(v, f, h)) && Installed(v, Whole(v, f, h), [a, b], v')
  {
  }

  /** With the snapshot between the value and its tombstone, all three entries are kept. */
  lemma WholeKept(v: Version, f: File, x: Entry, y: Entry, z: Entry)
    requires Only(v, 2, [f]) && ValidFile(f) && f.entries == [x, y, z]
    requires x.User() < y.User() == z.User() && x.Seq() < z.Seq() < y.Seq()
    requires !x.IsDeletion() && y.IsDeletion() && !z.IsDeletion()
    ensures Kept(Whole(v, f, z.Seq())) == {x, y, z}
  {
    var c := Whole(v, f, z.Seq());
    WholeReady(v, f, z.Seq());
    ThreeEntries(f, x, y, z);
  }

  lemma ThreeEntries(f: File, x: Entry, y: Entry, z: Entry)
    requires f.entries == [x, y, z]
    ensures Entries([f]) == {x, y, z}
  {
    assert f in [f] && x in f.entries && y in f.entries && z in f.entries;
  }

  function Full(): File { Table(5, [Stored(LOW, 1), Erased(MID, 3), Stored(MID, 2)]) }
  function Flushed(): Version { [[], [], [Full()], [], [], [], []] }
  function Compacted(): Version { [[], [], [], [Lower(), Neighbour()], [], [], []] }

  /** Write, take a snapshot, delete, and flush. */
  lemma RunToFlushed() returns (db: Db)
    ensures Standing(db, Flushed(), {}, 6, 3, multiset{2})
  {
    TableOfThree(5, Stored(LOW, 1), Erased(MID, 3), Stored(MID, 2));
    ThreeEntries(Full(), Stored(LOW, 1), Erased(MID, 3), Stored(MID, 2));
    FirstFlush(EMPTY, Full(), Flushed());
    db := Open();
    db := Write(db, Put(LOW, []), EMPTY, {}, 4, 0, multiset{});
    db := Write(db, Put(MID, []), EMPTY, {} + {Stored(LOW, 1)}, 4, 1, multiset{});
    db := Take(db, EMPTY, {} + {Stored(LOW, 1)} + {Stored(MID, 2)}, 4, 2, multiset{});
    db := Write(db, Delete(MID), EMPTY, {} + {Stored(LOW, 1)} + {Stored(MID, 2)}, 4, 2, multiset{2});
    var mem := {} + {Stored(LOW, 1)} + {Stored(MID, 2)} + {Erased(MID, 3)};
    db := Flush(db, Full(), 2, Flushed(), EMPTY, mem, 4, 3, multiset{2});
  }

  lemma WholeEdit(v: Version, f: File, h: nat, a: File, b: File, v': Version)
    requires WellFormed(v) && Only(v, 2, [f]) && Only(v', 3, [a, b]) && BySmallest(a, b)
    requires a.number != b.number && a.number != f.number && b.number != f.number
    ensures AppliedEdit(v, CompactionEdit(Whole(v, f, h), [a, b]), v')
  {
    WholeInstalled(v, f, h, a, b, v');
    forall l, g, o | 0 <= l < |v| && g in v[l] && o in [a, b] ensures g.number != o.number {
      OnlyMember(v, 2, [f], l, g);
    }
    InstalledApplies(v, Whole(v, f, h), [a, b], v');
  }

  /** `a` and `b` hold the entries of `f`, cut between a tombstone and the value it hides. */
  ghost predicate CutInKey(f: File, a: File, b: File, x: Entry, y: Entry, z: Entry) {
    && ValidFile(f) && ValidFile(a) && ValidFile(b) && f.entries == [x, y, z] && a.entries == [x, y] && b.entries == [z]
    && x.User() < y.User() == z.User() && x.Seq() < z.Seq() < y.Seq()
    && !x.IsDeletion() && y.IsDeletion() && !z.IsDeletion() && f.number < a.number && b.number == a.number + 1
  }

  lemma CutOutputs(v: Version, f: File, a: File, b: File, x: Entry, y: Entry, z: Entry)
    requires Only(v, 2, [f]) && CutInKey(f, a, b, x, y, z)
    ensures ValidFiles([a, b]) && InOrder([a, b]) && BySmallest(a, b) && Entries([a, b]) == Kept(Whole(v, f, z.Seq()))
  {
    WholeKept(v, f, x, y, z);
    TwoTables(a, b, x, y, z);
  }

  lemma CompactCut(db: Db, v: Version, f: File, a: File, b: File, x: Entry, y: Entry, z: Entry, v': Version,
                   mem: set<Entry>, last: nat) returns (db': Db)
    requires Standing(db, v, mem, a.number, last, multiset{z.Seq()})
    requires Only(v, 2, [f]) && CutInKey(f, a, b, x, y, z) && Only(v', 3, [a, b])
    ensures Standing(db', v', mem, a.number + 2, last, multiset{z.Seq()})
  {
    StandingOk(db, v, mem, a.number, last, multiset{z.Seq()});
    WholeReady(v, f, z.Seq());
    CutOutputs(v, f, a, b, x, y, z);
    WholeEdit(v, f, z.Seq(), a, b, v');
    db' := Compact(db, Whole(v, f, z.Seq()), a, b, v', v, mem, a.number, last, z.Seq());
  }

  /** Compact, with the outputs cut between the tombstone and the value. */
  lemma RunToCompacted() returns (db: Db)
    ensures Standing(db, Compacted(), {}, 8, 3, multiset{2})
  {
    db := RunToFlushed();
    SplitHolds();
    TableOfThree(5, Stored(LOW, 1), Erased(MID, 3), Stored(MID, 2));
    db := CompactCut(db, Flushed(), Full(), Lower(), Neighbour(), Stored(LOW, 1), Erased(MID, 3), Stored(MID, 2),
                     Compacted(), {}, 3);
  }

  /** Release the snapshot, write once more, and flush. */
  lemma RunToSplit() returns (db: Db)
    ensures Standing(db, Split(), {}, 10, 4, multiset{})
  {
    db := RunToCompacted();
    SplitHolds();
    OneTable(Upper(), Stored(LOW, 4));
    SecondFlush(Compacted(), Upper(), Lower(), Neighbour(), Split());
    db := Release(db, Compacted(), {}, 8, 3, 2);
    db := Write(db, Put(LOW, []), Compacted(), {}, 8, 3, multiset{});
    db := Flush(db, Upper(), 2, Split(), Compacted(), {} + {Stored(LOW, 4)}, 8, 4, multiset{});
  }

  /** In a reachable state PickCompaction, at the horizon DoCompactionWork would use, selects inputs that are ready but
      expose the deleted key. */
  method ReachableExposes(max_file_size: nat) returns (ghost db: Db, c: Compaction)
    ensures Reachable(Up(db)) && db.version == Split() && db.job.Idle? && db.writing.Nothing?
    ensures Ready(db.version, c) && c.base == db.version && IsHorizon(db, c.horizon)
    ensures Exposed(c, Rest(db.version, c), MID)
  {
    db := RunToSplit();
    SplitIsInsideKey();
    c := PickExposes(Split(), Upper(), Lower(), Neighbour(), Stored(LOW, 4), Stored(LOW, 1), Erased(MID, 3), Stored(MID, 2),
                     4, max_file_size);
  }
}

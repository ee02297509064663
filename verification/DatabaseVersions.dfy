/** Flush and compaction steps keep the invariant. */
module DatabaseVersions {
  import opened Format
  import opened History
  import opened Versions
  import opened Compactions
  import opened VersionBuilder
  import opened Edits
  import opened Wal
  import opened Faithfulness
  import opened Database
  import opened DatabaseInvariant

  /** Every file of the manifest's version was added at its level by some edit. */
  lemma WasAdded(d: Disk, l: nat, f: File)
    requires Replays(d.manifest, d.version) && l < NUM_LEVELS && f in d.version[l]
    ensures (l, f) in AllAdds(d.manifest)
  {
    assert ReplaysLevel(d.manifest, l, d.version[l]);
  }

  ghost predicate NewSinks(d: Disk, e: Edit, v: Version) {
    && (forall l, g, m, f :: (l, g) in e.added && 0 <= m < |v| && f in v[m] && f.number == g.number ==> l <= m)
    && (forall l, g, m, f :: (l, g) in AllAdds(d.manifest) && 0 <= m < |v| && f in v[m] && f.number == g.number ==> l <= m)
  }

  /** Appending a record to the manifest. */
  lemma ManifestExtends(d: Disk, e: Edit, v: Version, log: nat, last: nat, next: nat)
    requires ManifestOk(d) && AppliedEdit(d.version, e, v) && FreshFor(d.manifest, e) && NewSinks(d, e, v)
    requires d.nextFile <= next && NumbersBelow(v, next) && forall a :: a in e.added ==> a.1.number < next
    ensures ManifestOk(AppendEdit(d, e, v, log, last, next))
  {
    ReplaysExtend(d.manifest, d.version, e, v);
    AllAddsExtend(d.manifest, e);
    var d' := AppendEdit(d, e, v, log, last, next);
    forall l, f | (l, f) in AllAdds(d'.manifest) ensures f.number < next {
      assert (l, f) in AllAdds(d.manifest) || (l, f) in e.added;
    }
    forall l, g, m, f | (l, g) in AllAdds(d'.manifest) && 0 <= m < |v| && f in v[m] && f.number == g.number ensures l <= m {
      assert (l, g) in AllAdds(d.manifest) || (l, g) in e.added;
    }
  }

  lemma FlushManifest(d: Disk, level: nat, f: File, v: Version, log: nat, last: nat)
    requires ManifestOk(d) && WellFormed(d.version) && level < NUM_LEVELS && f.number >= d.nextFile
    requires Added(d.version, level, f, v) && AppliedEdit(d.version, FlushEdit(level, f), v)
    ensures ManifestOk(AppendEdit(d, FlushEdit(level, f), v, log, last, f.number + 1))
  {
    var e := FlushEdit(level, f);
    assert e.added[0] == (level, f);
    forall m, g | 0 <= m < |v| && g in v[m] ensures g.number < f.number || (m == level && g == f) {
      assert g in d.version[m] || (m == level && g == f);
    }
    ManifestExtends(d, e, v, log, last, f.number + 1);
  }

  lemma FlushJob(version: Version, level: nat, f: File, v: Version, c: Compaction, manual: bool)
    requires WellFormed(version) && JobOn(version, c)
    requires Youngest(version, f) && Added(version, level, f, v) && Clear(version, level, f)
    requires if manual then level == c.level + 1 ==> !Straddles(Kept(c), f) else GapFree(c)
    ensures JobOn(v, c)
  {
    if !manual && level == c.level + 1 {
      GapFreeApart(version, f, c);
    }
    FlushKeepsInstallable(version, level, f, v, c, Kept(c));
    forall k ensures !Exposed(c, Rest(v, c), k) {
      FlushExposesNothing(version, level, f, v, c, k);
    }
  }

  lemma FlushNumbers(version: Version, level: nat, f: File, v: Version)
    requires Added(version, level, f, v)
    ensures Numbers(v) <= Numbers(version) + {f.number}
  {
    forall n | n in Numbers(v) ensures n in Numbers(version) + {f.number} {
      var l, g :| 0 <= l < |v| && g in v[l] && g.number == n;
      assert g in version[l] || g == f;
    }
  }

  /** The version written by a flush. */
  lemma FlushedVersion(db: Db, f: File, level: nat, v: Version, db': Db)
    requires UpOk(db) && FlushWriteStep(db, Some(f), level, v, db')
    ensures Added(db.version, level, f, v) && Youngest(db.version, f)
    ensures Faithful(v, db.hist, db.memStart, db.floor)
    ensures ManifestOk(db'.disk)
    ensures db.job.Running? ==> JobOn(v, db.job.c)
    ensures Numbers(v) <= db'.disk.tables
  {
    FlushEditAdds(db.version, level, f, v);
    FaithfulFlush(db.version, db.hist, db.immStart, db.memStart, db.floor, level, f, v);
    FlushManifest(db.disk, level, f, v, db.logfile, db.lastSequence);
    FlushNumbers(db.version, level, f, v);
    if db.job.Running? {
      FlushJob(db.version, level, f, v, db.job.c, db.job.manual);
    }
  }

  lemma NonemptySlice(hist: seq<Op>, a: nat, b: nat)
    requires a < b <= |hist|
    ensures Slice(hist, a, b) != {}
  {
    assert EntryOf(hist[a], a + 1) in Slice(hist, a, b);
  }

  lemma EmptyFlush(db: Db, level: nat, v: Version, db': Db)
    requires UpOk(db) && FlushWriteStep(db, None, level, v, db')
    ensures v == db.version && db.immStart == db.memStart && ManifestOk(db'.disk)
  {
    EmptyEditKeeps(db.version, v);
    if db.immStart < db.memStart {
      NonemptySlice(db.hist, db.immStart, db.memStart);
    }
    ManifestExtends(db.disk, Edit([], []), v, db.logfile, db.lastSequence, db.nextFile);
  }

  lemma FlushWriteVersions(db: Db, table: Option<File>, level: nat, v: Version, db': Db)
    requires UpOk(db) && FlushWriteStep(db, table, level, v, db')
    ensures Faithful(v, db.hist, db.memStart, db.floor) && ManifestOk(db'.disk)
    ensures db.job.Running? ==> JobOn(v, db.job.c)
    ensures Numbers(v) <= db'.disk.tables
    ensures NumbersOk(db')
  {
    match table
    case None =>
      EmptyFlush(db, level, v, db');
      AllAddsExtend(db.disk.manifest, Edit([], []));
    case Some(f) =>
      FlushedVersion(db, f, level, v, db');
      AllAddsExtend(db.disk.manifest, FlushEdit(level, f));
  }

  lemma FlushWriteKeeps(db: Db, table: Option<File>, level: nat, v: Version, db': Db)
    requires UpOk(db) && FlushWriteStep(db, table, level, v, db')
    ensures UpOk(db')
  {
    FlushWriteVersions(db, table, level, v, db');
    ReadersStay(db, db');
    assert Partial(db') == Partial(db);
  }

  lemma FlushInstallKeeps(db: Db, db': Db)
    requires UpOk(db) && FlushInstallStep(db, db')
    ensures UpOk(db')
  {
    ReadersStay(db, db');
    assert Partial(db') == Partial(db);
  }

  lemma CompactStartKeeps(db: Db, c: Compaction, manual: bool, db': Db)
    requires UpOk(db) && CompactStartStep(db, c, manual, db')
    ensures UpOk(db')
  {
    ReadyInstalls(db.version, c, Kept(c));
    ReadersStay(db, db');
    MemoryStays(db, db');
  }

  lemma OutputNumbers(db: Db, n: nat, db': Db)
    requires ManifestOk(db.disk) && NumbersOk(db) && TablesOk(db) && WriteOutputStep(db, n, db')
    ensures NumbersOk(db') && TablesOk(db') && ManifestOk(db'.disk)
  {
  }

  lemma WriteOutputKeeps(db: Db, n: nat, db': Db)
    requires UpOk(db) && WriteOutputStep(db, n, db')
    ensures UpOk(db')
  {
    OutputNumbers(db, n, db');
    ReadersStay(db, db');
    MemoryStays(db, db');
  }

  lemma CompactAbortKeeps(db: Db, db': Db)
    requires UpOk(db) && CompactAbortStep(db, db')
    ensures UpOk(db')
  {
    ReadersStay(db, db');
    MemoryStays(db, db');
  }

  lemma VersionInstallKeeps(db: Db, db': Db)
    requires UpOk(db) && VersionInstallStep(db, db')
    ensures UpOk(db')
  {
    ReadersStay(db, db');
    MemoryStays(db, db');
  }

  /** Files of the version and outputs of the running compaction have different numbers. */
  lemma PendingFresh(db: Db, l: nat, f: File, n: nat)
    requires ManifestOk(db.disk) && NumbersOk(db) && db.writing.Nothing? && db.disk.version == db.version
    requires l < NUM_LEVELS && f in db.version[l] && n in db.pending
    ensures f.number != n
  {
    WasAdded(db.disk, l, f);
  }

  lemma CompactInstalled(db: Db, outs: seq<File>, v: Version, db': Db)
    requires UpOk(db) && CompactWriteStep(db, outs, v, db')
    ensures Installed(db.version, db.job.c, outs, v) && FreshOutputs(db.version, db.job.c, outs)
  {
    var c := db.job.c;
    forall l, f, g | 0 <= l < |db.version| && f in db.version[l] && g in outs ensures f.number != g.number {
      PendingFresh(db, l, f, g.number);
    }
    CompactionEditInstalls(db.version, c, outs, v);
  }

  lemma InstallNumbers(version: Version, c: Compaction, outs: seq<File>, v: Version)
    requires WellFormed(version) && Holds(version, c) && Installed(version, c, outs, v)
    ensures Numbers(v) <= Numbers(version) + set f | f in outs :: f.number
  {
    forall n | n in Numbers(v) ensures n in Numbers(version) + set f | f in outs :: f.number {
      var l, g :| 0 <= l < |v| && g in v[l] && g.number == n;
      InstalledFile(version, c, outs, v, l, g);
    }
  }

  ghost predicate FromOrOut(was: Version, c: Compaction, outs: seq<File>, v: Version) {
    && |v| == |was| && c.level + 1 < |v|
    && forall m, g :: 0 <= m < |v| && g in v[m] ==> g in was[m] || (m == c.level + 1 && g in outs)
  }

  lemma InstalledFrom(was: Version, c: Compaction, outs: seq<File>, v: Version)
    requires UniqueNumbers(was) && Holds(was, c) && Installed(was, c, outs, v)
    ensures FromOrOut(was, c, outs, v)
  {
    forall m, g | 0 <= m < |v| && g in v[m] ensures g in was[m] || (m == c.level + 1 && g in outs) {
      InstalledFile(was, c, outs, v, m, g);
    }
  }

  lemma CompactFresh(manifest: seq<Edit>, c: Compaction, outs: seq<File>)
    requires forall i, j :: 0 <= i < j < |outs| ==> outs[i].number != outs[j].number
    requires forall f, l, g :: f in outs && (l, g) in AllAdds(manifest) && l == c.level + 1 ==> g.number != f.number
    ensures FreshFor(manifest, CompactionEdit(c, outs))
  {
    CompactionEditLevels(c, outs);
    var e := CompactionEdit(c, outs);
    forall j | 0 <= j < |e.added| ensures e.added[j].0 == c.level + 1 && e.added[j].1 in outs {
      assert e.added[j] == (c.level + 1, outs[j]);
    }
  }

  lemma CompactManifest(d: Disk, c: Compaction, outs: seq<File>, v: Version, log: nat, last: nat, next: nat)
    requires ManifestOk(d) && UniqueNumbers(v) && FromOrOut(d.version, c, outs, v)
    requires forall o :: o in outs ==> o in v[c.level + 1]
    requires AppliedEdit(d.version, CompactionEdit(c, outs), v) && d.nextFile <= next
    requires forall i, j :: 0 <= i < j < |outs| ==> outs[i].number != outs[j].number
    requires forall f, l, g :: f in outs && (l, g) in AllAdds(d.manifest) ==> g.number != f.number
    requires forall f :: f in outs ==> f.number < next
    ensures ManifestOk(AppendEdit(d, CompactionEdit(c, outs), v, log, last, next))
  {
    CompactFresh(d.manifest, c, outs);
    CompactSinks(d, c, outs, v);
    AdditionsMember(c.level + 1, outs);
    ManifestExtends(d, CompactionEdit(c, outs), v, log, last, next);
  }

  lemma CompactSinks(d: Disk, c: Compaction, outs: seq<File>, v: Version)
    requires ManifestOk(d) && UniqueNumbers(v)
    requires FromOrOut(d.version, c, outs, v)
    requires forall o :: o in outs ==> o in v[c.level + 1]
    requires forall f, l, g :: f in outs && (l, g) in AllAdds(d.manifest) ==> g.number != f.number
    ensures NewSinks(d, CompactionEdit(c, outs), v)
  {
    AdditionsMember(c.level + 1, outs);
    var e := CompactionEdit(c, outs);
    forall l, g, m, f | (l, g) in e.added && 0 <= m < |v| && f in v[m] && f.number == g.number ensures l <= m {
      assert l == c.level + 1 && g in v[l];
    }
    forall l, g, m, f | (l, g) in AllAdds(d.manifest) && 0 <= m < |v| && f in v[m] && f.number == g.number ensures l <= m {
      assert f !in outs;
    }
  }

  lemma CompactWriteVersions(db: Db, outs: seq<File>, v: Version, db': Db)
    requires UpOk(db) && CompactWriteStep(db, outs, v, db')
    ensures Faithful(v, db.hist, db.immStart, db.job.c.horizon)
    ensures ManifestOk(db'.disk) && NumbersBelow(v, db.nextFile) && Numbers(v) <= db.disk.tables
  {
    var c := db.job.c;
    CompactInstalled(db, outs, v, db');
    FaithfulInstall(db.version, db.hist, db.immStart, db.floor, c, outs, v);
    InstallNumbers(db.version, c, outs, v);
    InstalledFrom(db.version, c, outs, v);
    CompactManifest(db.disk, c, outs, v, db.disk.logNumber, db.lastSequence, db.nextFile);
  }

  lemma VersionWriteTables(db: Db, db': Db, floor: nat)
    requires BasicsOk(db) && MemTablesOk(db) && LogsOk(db) && SnapshotsFrom(db, floor) && db.writing.Nothing?
    requires db' == db.(disk := db'.disk, job := db'.job, writing := WroteVersion(floor))
    requires db'.disk.logs == db.disk.logs && db'.disk.logNumber == db.disk.logNumber
    ensures BasicsOk(db') && MemTablesOk(db') && LogsOk(db')
  {
    MemoryStays(db, db');
  }

  /** A new version has gone to the manifest; nothing else changed. */
  lemma VersionWriteKeeps(db: Db, e: Edit, v: Version, floor: nat, db': Db)
    requires UpOk(db) && db.writing.Nothing?
    requires db' == db.(disk := AppendEdit(db.disk, e, v, db.disk.logNumber, db.lastSequence, db.nextFile),
                        job := Idle, writing := WroteVersion(floor))
    requires Faithful(v, db.hist, db.immStart, floor) && SnapshotsFrom(db, floor)
    requires ManifestOk(db'.disk) && NumbersBelow(v, db.nextFile) && Numbers(v) <= db.disk.tables
    ensures UpOk(db')
  {
    ReadersStay(db, db');
    VersionWriteTables(db, db', floor);
  }

  lemma CompactWriteKeeps(db: Db, outs: seq<File>, v: Version, db': Db)
    requires UpOk(db) && CompactWriteStep(db, outs, v, db')
    ensures UpOk(db')
  {
    CompactWriteVersions(db, outs, v, db');
    VersionWriteKeeps(db, CompactionEdit(db.job.c, outs), v, db.job.c.horizon, db');
  }

  lemma MoveInstalled(db: Db, c: Compaction, v: Version, db': Db)
    requires UpOk(db) && MoveWriteStep(db, c, v, db')
    ensures Installed(db.version, c, c.in0, v) && FreshOutputs(db.version, c, c.in0)
    ensures Entries(c.in0) == Entries(c.Inputs())
  {
    assert c.Inputs() == c.in0;
    var f := c.in0[0];
    assert f in db.version[c.level] && SoundLevel(c.level, db.version[c.level]);
    assert c.in0 == [f];
    CompactionEditInstalls(db.version, c, c.in0, v);
  }

  lemma MoveManifest(d: Disk, c: Compaction, v: Version, log: nat, last: nat, next: nat)
    requires ManifestOk(d) && UniqueNumbers(d.version) && Holds(d.version, c) && Installed(d.version, c, c.in0, v)
    requires AppliedEdit(d.version, CompactionEdit(c, c.in0), v) && d.nextFile <= next && NumbersBelow(v, next)
    requires |c.in0| == 1 && c.in1 == []
    ensures ManifestOk(AppendEdit(d, CompactionEdit(c, c.in0), v, log, last, next))
  {
    var f := c.in0[0];
    assert c.in0 == [f] && f in d.version[c.level];
    forall m, g | 0 <= m < |v| && g in v[m] ensures (g in d.version[m] && g != f) || (m == c.level + 1 && g == f) {
      InstalledFile(d.version, c, c.in0, v, m, g);
    }
    CompactFresh(d.manifest, c, c.in0);
    AdditionsMember(c.level + 1, c.in0);
    MoveSinks(d, c, v, f);
    ManifestExtends(d, CompactionEdit(c, c.in0), v, log, last, next);
  }

  lemma MoveSinks(d: Disk, c: Compaction, v: Version, f: File)
    requires ManifestOk(d) && UniqueNumbers(d.version) && c.level + 1 < |v| == |d.version| && f in d.version[c.level]
    requires c.in0 == [f]
    requires forall m, g :: 0 <= m < |v| && g in v[m] ==> (g in d.version[m] && g != f) || (m == c.level + 1 && g == f)
    ensures NewSinks(d, CompactionEdit(c, c.in0), v)
  {
    AdditionsMember(c.level + 1, c.in0);
  }

  lemma MoveWriteVersions(db: Db, c: Compaction, v: Version, db': Db)
    requires UpOk(db) && MoveWriteStep(db, c, v, db')
    ensures Faithful(v, db.hist, db.immStart, db.floor)
    ensures ManifestOk(db'.disk) && NumbersBelow(v, db.nextFile) && Numbers(v) <= db.disk.tables
  {
    MoveInstalled(db, c, v, db');
    ReadyInstalls(db.version, c, Entries(c.in0));
    FaithfulMove(db.version, db.hist, db.immStart, db.floor, c, c.in0, v);
    InstallNumbers(db.version, c, c.in0, v);
    MovedNumbers(db, c, v);
    MoveManifest(db.disk, c, v, db.disk.logNumber, db.lastSequence, db.nextFile);
  }

  lemma MoveWriteKeeps(db: Db, c: Compaction, v: Version, db': Db)
    requires UpOk(db) && MoveWriteStep(db, c, v, db')
    ensures UpOk(db')
  {
    MoveWriteVersions(db, c, v, db');
    VersionWriteKeeps(db, CompactionEdit(c, c.in0), v, db.floor, db');
  }

  lemma MovedNumbers(db: Db, c: Compaction, v: Version)
    requires Holds(db.version, c) && NumbersBelow(db.version, db.nextFile)
    requires Numbers(v) <= Numbers(db.version) + set f | f in c.in0 :: f.number
    ensures Numbers(v) <= Numbers(db.version) && NumbersBelow(v, db.nextFile)
  {
    forall f | f in c.in0 ensures f.number in Numbers(db.version) {
      assert f in db.version[c.level];
    }
    forall l, f | 0 <= l < |v| && f in v[l] ensures f.number < db.nextFile {
      assert f.number in Numbers(v);
    }
  }
}

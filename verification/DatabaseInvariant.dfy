/** The invariant of the state machine. */
module DatabaseInvariant {
  import opened Format
  import opened History
  import opened Versions
  import opened Compactions
  import opened VersionBuilder
  import opened Edits
  import opened Wal
  import opened Faithfulness
  import opened Database

  /** The writes a crash would recover: acknowledged ones, and the group in flight once it is logged. */
  function Durable(db: Db): seq<Op> {
    if db.group.Some? && db.group.value.logged then db.hist + db.group.value.ops else db.hist
  }

  /** The part of the group in flight that is already in the memtable. */
  ghost function Partial(db: Db): set<Entry> {
    if db.group.None? then {}
    else set j | 0 <= j < Min(db.group.value.applied, |db.group.value.ops|)
           :: EntryOf(db.group.value.ops[j], db.lastSequence + 1 + j)
  }

  ghost predicate SnapshotsFrom(db: Db, floor: nat) {
    floor <= |db.hist| && forall s :: s in db.snapshots ==> floor <= s
  }

  ghost predicate BasicsOk(db: Db) {
    && db.lastSequence == |db.hist|
    && (if db.group.None? then |db.hist| < MAX_SEQUENCE
        else |db.hist| + |db.group.value.ops| < MAX_SEQUENCE && db.group.value.applied <= |db.group.value.ops|)
    && db.immStart <= db.memStart <= |db.hist|
    && (db.imm.None? ==> db.immStart == db.memStart)
    && SnapshotsFrom(db, db.floor) && (forall s :: s in db.snapshots ==> s <= |db.hist|)
    && (db.writing.WroteVersion? ==> SnapshotsFrom(db, db.writing.floor))
    && (db.writing.WroteFlush? ==> db.imm.Some?)
  }

  ghost predicate MemTablesOk(db: Db)
    requires BasicsOk(db)
  {
    && db.logfile in db.memtables && db.logfile < db.nextFile
    && db.memtables[db.logfile] == Slice(db.hist, db.memStart, |db.hist|) + Partial(db)
    && (db.imm.Some? ==>
          && db.imm.value in db.memtables && db.imm.value < db.logfile
          && db.memtables[db.imm.value] == Slice(db.hist, db.immStart, db.memStart))
    && forall n :: n in db.memtables ==> n <= db.logfile
  }

  ghost predicate LogsOk(db: Db)
    requires BasicsOk(db)
  {
    var d := db.disk;
    && db.logfile in d.logs && Chain(d.logs[db.logfile], db.memStart, Durable(db))
    && d.logNumber <= db.logfile
    && (db.imm.Some? ==> db.imm.value < db.logfile && db.imm.value in d.logs
                         && Chain(d.logs[db.imm.value], db.immStart, db.hist[..db.memStart]))
    && (db.imm.Some? && !db.writing.WroteFlush? ==> d.logNumber <= db.imm.value)
    && (db.writing.WroteFlush? ==> d.logNumber == db.logfile)
    && (forall n :: n in d.logs && n >= d.logNumber ==>
          n == db.logfile || (db.imm == Some(n) && !db.writing.WroteFlush?))
    && forall n :: n in d.logs ==> n < db.nextFile
  }

  ghost function DiskBound(db: Db): nat { if db.writing.WroteFlush? then db.memStart else db.immStart }
  ghost function DiskFloor(db: Db): nat { if db.writing.WroteVersion? then db.writing.floor else db.floor }

  ghost predicate VersionsOk(db: Db) {
    && Faithful(db.version, db.hist, db.immStart, db.floor)
    && Faithful(db.disk.version, db.hist, DiskBound(db), DiskFloor(db))
    && (db.writing.Nothing? ==> db.disk.version == db.version)
    && DiskBound(db) <= db.disk.lastSequence <= |db.hist|
  }

  /** A file number that was once at a level never reappears above its place. */
  ghost predicate Sinks(manifest: seq<Edit>, v: Version) {
    forall l, g, m, f :: (l, g) in AllAdds(manifest) && 0 <= m < |v| && f in v[m] && f.number == g.number ==> l <= m
  }

  ghost predicate NumbersBelow(v: Version, n: nat) {
    forall l, f :: 0 <= l < |v| && f in v[l] ==> f.number < n
  }

  ghost predicate ManifestOk(d: Disk) {
    && Replays(d.manifest, d.version) && Sinks(d.manifest, d.version)
    && (forall l, f :: (l, f) in AllAdds(d.manifest) ==> f.number < d.nextFile)
    && NumbersBelow(d.version, d.nextFile)
  }

  ghost predicate NumbersOk(db: Db) {
    && db.disk.nextFile <= db.nextFile && NumbersBelow(db.version, db.nextFile)
    && (forall n :: n in db.pending ==> n < db.nextFile)
    && (!db.writing.WroteVersion? ==>
          forall n, l, f :: n in db.pending && (l, f) in AllAdds(db.disk.manifest) ==> f.number != n)
  }

  ghost predicate JobOn(v: Version, c: Compaction) {
    Installable(v, c, Kept(c)) && forall k :: !Exposed(c, Rest(v, c), k)
  }

  ghost predicate JobOk(db: Db) {
    db.job.Running? ==>
      && JobOn(db.version, db.job.c) && JobOn(db.disk.version, db.job.c)
      && db.floor <= db.job.c.horizon && SnapshotsFrom(db, db.job.c.horizon)
      && (db.job.manual || GapFree(db.job.c))
      && !db.writing.WroteVersion?
  }

  ghost predicate ReaderOk(db: Db, r: Reader) {
    && r.snapshot <= |db.hist| && r.mem in db.memtables && (r.imm.Some? ==> r.imm.value in db.memtables && r.imm.value < r.mem)
    && forall k :: ReadsAs(db.memtables[r.mem], if r.imm.Some? then db.memtables[r.imm.value] else {}, r.version,
                           k, r.snapshot, Read(db.hist, k, r.snapshot))
  }

  ghost predicate ReadersOk(db: Db) {
    forall r :: r in db.readers ==> ReaderOk(db, r)
  }

  ghost predicate TablesOk(db: Db) {
    && Numbers(db.version) <= db.disk.tables && Numbers(db.disk.version) <= db.disk.tables
    && db.pending <= db.disk.tables
    && forall r :: r in db.readers ==> Numbers(r.version) <= db.disk.tables
  }

  ghost predicate UpOk(db: Db) {
    && BasicsOk(db) && MemTablesOk(db) && LogsOk(db) && VersionsOk(db) && ManifestOk(db.disk) && NumbersOk(db)
    && JobOk(db) && ReadersOk(db) && TablesOk(db)
  }

  /** The disk alone determines `hist`: a faithful version up to some write, and logs with all later writes. */
  ghost predicate DiskOk(d: Disk, hist: seq<Op>, bound: nat, floor: nat) {
    && |hist| < MAX_SEQUENCE && floor <= |hist|
    && Faithful(d.version, hist, bound, floor) && bound <= d.lastSequence <= |hist|
    && ManifestOk(d) && Numbers(d.version) <= d.tables
    && forall ns :: LiveLogs(d, ns) ==> Chain(Records(d.logs, ns), bound, hist)
  }

  ghost predicate DownOk(d: Disk, hist: seq<Op>) {
    exists bound, floor :: DiskOk(d, hist, bound, floor)
  }

  ghost predicate RecoveredOk(v: Version, hist: seq<Op>, upto: nat) {
    exists floor: nat :: floor <= |hist| && Faithful(v, hist, upto, floor)
  }

  /** The new level-0 files are the manifest record that recovery is going to write. */
  ghost predicate NewFilesOk(d: Disk, files: seq<File>, v: Version, nextFile: nat) {
    && AppliedEdit(d.version, Edit([], Additions(0, files)), v)
    && d.nextFile < nextFile && NumbersBelow(v, nextFile)
    && (forall f :: f in files ==> d.nextFile < f.number < nextFile)
    && (forall i, j :: 0 <= i < j < |files| ==> files[i].number < files[j].number)
  }

  ghost predicate RecoveringOk(s: State)
    requires s.Recovering?
  {
    && DownOk(s.disk, s.hist)
    && RecoveredOk(s.version, s.hist, s.upto)
    && Chain(s.left, s.upto, s.hist)
    && s.upto <= Max(s.disk.lastSequence, s.maxSequence) <= |s.hist|
    && NewFilesOk(s.disk, s.files, s.version, s.nextFile)
  }

  ghost predicate Invariant(s: State) {
    match s
    case Up(db) => UpOk(db)
    case Down(d, hist) => DownOk(d, hist)
    case Recovering(_, _, _, _, _, _, _, _) => RecoveringOk(s)
  }

  /** A step that leaves the memtables, the logs and the group in flight alone. */
  ghost predicate SameMemory(db: Db, db': Db) {
    && db'.hist == db.hist && db'.lastSequence == db.lastSequence && db'.group == db.group
    && db'.memtables == db.memtables && db'.logfile == db.logfile && db'.imm == db.imm
    && db'.immStart == db.immStart && db'.memStart == db.memStart
    && db'.disk.logs == db.disk.logs && db'.disk.logNumber == db.disk.logNumber
    && db'.writing.WroteFlush? == db.writing.WroteFlush? && db.nextFile <= db'.nextFile
  }

  lemma MemoryStays(db: Db, db': Db)
    requires BasicsOk(db) && MemTablesOk(db) && LogsOk(db) && SameMemory(db, db') && BasicsOk(db')
    ensures MemTablesOk(db') && LogsOk(db')
  {
    assert Partial(db') == Partial(db);
  }

  /** Readers see memtables by name and a version of their own: only a change of those reaches them. */
  lemma ReadersStay(db: Db, db': Db)
    requires ReadersOk(db) && db'.hist == db.hist && db'.readers <= db.readers
    requires forall n :: n in db.memtables ==> n in db'.memtables && db'.memtables[n] == db.memtables[n]
    ensures ReadersOk(db')
  {
    forall r | r in db'.readers ensures ReaderOk(db', r) {
      assert ReaderOk(db, r);
    }
  }
}

/** Write steps keep the invariant. */
module DatabaseWrites {
  import opened Format
  import opened History
  import opened Versions
  import opened Compactions
  import opened VersionBuilder
  import opened Wal
  import opened Faithfulness
  import opened Database
  import opened DatabaseInvariant

  /** A step that leaves everything but the group, the logs and the memtables alone. */
  ghost predicate SameVersions(db: Db, db': Db) {
    && db'.hist == db.hist && db'.lastSequence == db.lastSequence
    && db'.version == db.version && db'.floor == db.floor && db'.snapshots == db.snapshots && db'.readers == db.readers
    && db'.job == db.job && db'.writing == db.writing && db'.pending == db.pending
    && db'.immStart == db.immStart
    && db'.disk == db.disk.(logs := db'.disk.logs)
  }

  lemma SameVersionsKeeps(db: Db, db': Db)
    requires UpOk(db) && SameVersions(db, db') && db'.memStart == db.memStart && db'.nextFile == db.nextFile
    ensures VersionsOk(db') && ManifestOk(db'.disk) && NumbersOk(db') && JobOk(db') && TablesOk(db')
  {
  }

  lemma BeginGroupKeeps(db: Db, ops: seq<Op>, db': Db)
    requires UpOk(db) && BeginGroupStep(db, ops, db')
    ensures UpOk(db')
  {
    SameVersionsKeeps(db, db');
    assert Partial(db') == {};
    ReadersStay(db, db');
  }

  lemma LogGroupKeeps(db: Db, db': Db)
    requires UpOk(db) && LogGroupStep(db, db')
    ensures UpOk(db')
  {
    SameVersionsKeeps(db, db');
    ChainStart(db.disk.logs[db.logfile], db.memStart, db.hist);
    ChainAppend(db.disk.logs[db.logfile], db.memStart, db.hist, db.group.value.ops);
    assert Partial(db') == Partial(db);
    ReadersStay(db, db');
  }

  /** Entries above the snapshot are invisible: a reader does not see the memtable grow. */
  lemma GrowingMemTable(mem: set<Entry>, e: Entry, imm: set<Entry>, v: Version, k: UserKey, s: nat, r: Option<Bytes>)
    requires ReadsAs(mem, imm, v, k, s, r) && e.Seq() > s
    ensures ReadsAs(mem + {e}, imm, v, k, s, r)
  {
    forall a | Finds(mem + {e}, k, s, a) ensures Finds(mem, k, s, a) {
    }
  }

  lemma ApplyOneReaders(db: Db, db': Db)
    requires BasicsOk(db) && MemTablesOk(db) && ReadersOk(db) && ApplyOneStep(db, db')
    ensures ReadersOk(db')
  {
    var g := db.group.value;
    var e := EntryOf(g.ops[g.applied], db.lastSequence + 1 + g.applied);
    forall r | r in db'.readers ensures ReaderOk(db', r) {
      assert ReaderOk(db, r);
      GrownReader(db, db', r, e);
    }
  }

  lemma GrownReader(db: Db, db': Db, r: Reader, e: Entry)
    requires ReaderOk(db, r) && db.logfile in db.memtables && db'.hist == db.hist && e.Seq() > |db.hist|
    requires db'.memtables == db.memtables[db.logfile := db.memtables[db.logfile] + {e}]
    requires forall n :: n in db.memtables ==> n <= db.logfile
    ensures ReaderOk(db', r)
  {
    forall k ensures ReadsAs(db'.memtables[r.mem], if r.imm.Some? then db'.memtables[r.imm.value] else {}, r.version,
                             k, r.snapshot, Read(db.hist, k, r.snapshot)) {
      var imm := if r.imm.Some? then db.memtables[r.imm.value] else {};
      assert ReadsAs(db.memtables[r.mem], imm, r.version, k, r.snapshot, Read(db.hist, k, r.snapshot));
      GrowingMemTable(db.memtables[r.mem], e, imm, r.version, k, r.snapshot, Read(db.hist, k, r.snapshot));
    }
  }

  lemma ApplyOneTables(db: Db, db': Db)
    requires BasicsOk(db) && MemTablesOk(db) && LogsOk(db) && ApplyOneStep(db, db')
    ensures BasicsOk(db') && MemTablesOk(db') && LogsOk(db')
  {
    var g := db.group.value;
    var e := EntryOf(g.ops[g.applied], db.lastSequence + 1 + g.applied);
    assert Partial(db') == Partial(db) + {e};
  }

  lemma ApplyOneKeeps(db: Db, db': Db)
    requires UpOk(db) && ApplyOneStep(db, db')
    ensures UpOk(db')
  {
    SameVersionsKeeps(db, db');
    ApplyOneTables(db, db');
    ApplyOneReaders(db, db');
  }

  lemma SliceExtended(hist: seq<Op>, ops: seq<Op>, a: nat, b: nat)
    requires a <= b <= |hist|
    ensures Slice(hist + ops, a, b) == Slice(hist, a, b)
    ensures Slice(hist + ops, |hist|, |hist| + |ops|) ==
            set j | 0 <= j < |ops| :: EntryOf(ops[j], |hist| + 1 + j)
  {
    var h := hist + ops;
    assert forall i :: a <= i < b ==> h[i] == hist[i];
    forall e ensures e in Slice(h, |hist|, |h|) <==> e in (set j | 0 <= j < |ops| :: EntryOf(ops[j], |hist| + 1 + j)) {
      if e in Slice(h, |hist|, |h|) {
        var i :| |hist| <= i < |h| && e == EntryOf(h[i], i + 1);
        var j := i - |hist|;
        assert e == EntryOf(ops[j], |hist| + 1 + j);
      }
      if e in (set j | 0 <= j < |ops| :: EntryOf(ops[j], |hist| + 1 + j)) {
        var j :| 0 <= j < |ops| && e == EntryOf(ops[j], |hist| + 1 + j);
        assert h[|hist| + j] == ops[j];
      }
    }
  }

  lemma PublishVersions(db: Db, db': Db)
    requires UpOk(db) && PublishStep(db, db')
    ensures BasicsOk(db') && VersionsOk(db') && NumbersOk(db') && JobOk(db') && TablesOk(db') && ManifestOk(db'.disk)
  {
    FaithfulStable(db.version, db.hist, db.immStart, db.floor, db.group.value.ops);
    FaithfulStable(db.disk.version, db.hist, DiskBound(db), DiskFloor(db), db.group.value.ops);
  }

  lemma PublishMem(db: Db, db': Db)
    requires BasicsOk(db) && MemTablesOk(db) && PublishStep(db, db') && BasicsOk(db')
    ensures MemTablesOk(db')
  {
    var ops := db.group.value.ops;
    SliceExtended(db.hist, ops, db.memStart, |db.hist|);
    SliceExtended(db.hist, ops, db.immStart, db.memStart);
    SliceSplit(db'.hist, db.memStart, |db.hist|, |db'.hist|);
  }

  lemma PublishLogs(db: Db, db': Db)
    requires BasicsOk(db) && LogsOk(db) && PublishStep(db, db') && BasicsOk(db')
    ensures LogsOk(db')
  {
    assert db'.hist[..db.memStart] == db.hist[..db.memStart];
  }

  lemma PublishTables(db: Db, db': Db)
    requires BasicsOk(db) && MemTablesOk(db) && LogsOk(db) && PublishStep(db, db') && BasicsOk(db')
    ensures MemTablesOk(db') && LogsOk(db')
  {
    PublishMem(db, db');
    PublishLogs(db, db');
  }

  lemma PublishKeeps(db: Db, db': Db)
    requires UpOk(db) && PublishStep(db, db')
    ensures UpOk(db')
  {
    PublishVersions(db, db');
    PublishTables(db, db');
    forall r | r in db'.readers ensures ReaderOk(db', r) {
      assert ReaderOk(db, r);
      forall k ensures Read(db'.hist, k, r.snapshot) == Read(db.hist, k, r.snapshot) {
        ReadStable(db.hist, db.group.value.ops, k, r.snapshot);
      }
    }
  }

  lemma SwitchTables(db: Db, db': Db)
    requires UpOk(db) && SwitchMemTableStep(db, db')
    ensures BasicsOk(db') && MemTablesOk(db') && LogsOk(db')
  {
    assert db.hist[..|db.hist|] == db.hist;
    assert Slice(db.hist, |db.hist|, |db.hist|) == {};
    assert Partial(db) == {} && Partial(db') == {};
    assert forall n :: n in db'.disk.logs <==> n in db.disk.logs || n == db.nextFile;
  }

  lemma SwitchMemTableKeeps(db: Db, db': Db)
    requires UpOk(db) && SwitchMemTableStep(db, db')
    ensures UpOk(db')
  {
    SwitchTables(db, db');
    assert VersionsOk(db') && ManifestOk(db'.disk) && NumbersOk(db') && JobOk(db') && TablesOk(db');
    ReadersStay(db, db');
  }

  /** A step that changes only the snapshots and the readers. */
  ghost predicate SameTables(db: Db, db': Db) {
    db' == db.(snapshots := db'.snapshots, readers := db'.readers)
  }

  lemma SameTablesBasics(db: Db, db': Db)
    requires BasicsOk(db) && SameTables(db, db')
    requires forall s :: s in db'.snapshots ==> s in db.snapshots || s == db.lastSequence
    ensures BasicsOk(db')
  {
  }

  lemma SameTablesJob(db: Db, db': Db)
    requires UpOk(db) && SameTables(db, db')
    requires forall s :: s in db'.snapshots ==> s in db.snapshots || s == db.lastSequence
    ensures VersionsOk(db') && ManifestOk(db'.disk) && NumbersOk(db') && JobOk(db')
  {
  }

  lemma TakeSnapshotKeeps(db: Db, db': Db)
    requires UpOk(db) && TakeSnapshotStep(db, db')
    ensures UpOk(db')
  {
    SameTablesBasics(db, db');
    MemoryStays(db, db');
    SameTablesJob(db, db');
    ReadersStay(db, db');
  }

  lemma ReleaseSnapshotKeeps(db: Db, s: nat, db': Db)
    requires UpOk(db) && ReleaseSnapshotStep(db, s, db')
    ensures UpOk(db')
  {
    SameTablesBasics(db, db');
    MemoryStays(db, db');
    SameTablesJob(db, db');
    ReadersStay(db, db');
  }

  lemma LiveRead(db: Db, s: nat, k: UserKey)
    requires BasicsOk(db) && MemTablesOk(db) && VersionsOk(db)
    requires s == db.lastSequence || s in db.snapshots
    ensures ReadsAs(db.memtables[db.logfile], if db.imm.Some? then db.memtables[db.imm.value] else {}, db.version,
                    k, s, Read(db.hist, k, s))
  {
    var imm := if db.imm.Some? then db.memtables[db.imm.value] else {};
    assert db.imm.None? ==> Slice(db.hist, db.immStart, db.memStart) == {};
    LayersRead(db.memtables[db.logfile], imm, db.version, db.hist, db.immStart, db.memStart, db.floor, k, s);
  }

  lemma StartReadKeeps(db: Db, s: nat, db': Db)
    requires UpOk(db) && StartReadStep(db, s, db')
    ensures UpOk(db')
  {
    SameTablesBasics(db, db');
    MemoryStays(db, db');
    SameTablesJob(db, db');
    forall r | r in db'.readers ensures ReaderOk(db', r) {
      if r in db.readers {
        assert ReaderOk(db, r);
      } else {
        forall k ensures ReadsAs(db'.memtables[r.mem], if r.imm.Some? then db'.memtables[r.imm.value] else {}, r.version,
                                 k, r.snapshot, Read(db'.hist, k, r.snapshot)) {
          LiveRead(db, r.snapshot, k);
        }
      }
    }
  }

  lemma FinishReadKeeps(db: Db, r: Reader, db': Db)
    requires UpOk(db) && FinishReadStep(db, r, db')
    ensures UpOk(db')
  {
    SameTablesBasics(db, db');
    MemoryStays(db, db');
    SameTablesJob(db, db');
    ReadersStay(db, db');
  }

  lemma RemoveObsoleteKeeps(db: Db, keepLogs: set<nat>, keepTables: set<nat>, db': Db)
    requires UpOk(db) && RemoveObsoleteStep(db, keepLogs, keepTables, db')
    ensures UpOk(db')
  {
    assert Partial(db') == Partial(db);
    ReadersStay(db, db');
  }
}

/** The engine's own code meets the guards of the state machine's steps (kv/db/db_impl.cpp BackgroundCompaction,
    DoCompactionWork, CompactMemTable, Get; kv/db/version_set.cpp LogAndApply). */
module Background {
  import opened Format
  import opened History
  import opened Lookup
  import opened Versions
  import opened Compactions
  import opened Selection
  import opened Picking
  import opened CompactionWork
  import opened InputStreams
  import opened VersionBuilder
  import opened Edits
  import opened Faithfulness
  import opened Database
  import opened DatabaseInvariant
  import opened DatabaseWrites
  import opened DatabaseVersions
  import opened DatabaseSafety

  lemma EditMergeable(v: Version, e: Edit, l: nat)
    requires WellFormed(v) && l < NUM_LEVELS && FreshAdds(v[l], l, e.added)
    ensures Mergeable(v[l], ApplyLevel(NOTHING, l, e))
  {
    assert SoundLevel(l, v[l]);
    EditLevel(NOTHING, l, e);
    forall f, g | f in v[l] && g in ApplyLevel(NOTHING, l, e).added ensures f.number != g.number {
      var i :| 0 <= i < |e.added| && e.added[i] == (l, g);
    }
  }

  /** LogAndApply: a builder on the current version, the edit, and a new version. */
  method LogAndApply(v: Version, e: Edit) returns (v': Version)
    requires WellFormed(v) && LevelsOk(e) && forall l :: 0 <= l < NUM_LEVELS ==> FreshAdds(v[l], l, e.added)
    ensures AppliedEdit(v, e, v')
  {
    var builder := new Builder(v);
    builder.Apply(e);
    forall l | 0 <= l < NUM_LEVELS ensures Mergeable(v[l], builder.levels[l]) {
      EditMergeable(v, e, l);
    }
    v' := builder.SaveTo();
  }

  lemma VersionDistinct(db: Db, l: nat)
    requires UpOk(db) && l < NUM_LEVELS
    ensures Distinct(Entries(db.version[l])) && Distinct(All(db.version))
  {
    assert forall e :: e in Entries(db.version[l]) ==> e in All(db.version);
    SoundDistinct(All(db.version), db.hist, db.immStart);
  }

  /** A selected compaction keeps, at whatever horizon, what starting and running it need. */
  lemma AtHorizon(v: Version, level: nat, c: Compaction, h: nat)
    requires WellFormed(v) && Layered(v) && Distinct(All(v)) && Selected(v, level, c)
    ensures var d := c.(horizon := h); Ready(v, d) && (GapFree(c) ==> GapFree(d)) && Runnable(d)
  {
    SelectedStreamable(v, level, c);
    assert c.(horizon := h).Inputs() == c.Inputs();
  }

  /** What the compaction loop needs of its compaction, all of it settled when the inputs are chosen. */
  ghost predicate Runnable(c: Compaction) {
    Streamable(c) && LevelsSound(c.base)
  }

  /** Picking a compaction from any file of the current version starts a job that the machine allows, unless a key is
      exposed. */
  method StartCompaction(ghost db: Db, version: Version, level: nat, f: File, smallest_snapshot: nat, max_file_size: nat)
    returns (c: Compaction, grandparents: seq<File>)
    requires UpOk(db) && db.version == version && db.job.Idle? && db.writing.Nothing?
    requires level + 1 < NUM_LEVELS && f in version[level] && IsHorizon(db, smallest_snapshot)
    ensures (forall k :: !Exposed(c, Rest(version, c), k)) ==> CompactStartStep(db, c, false, db.(job := Running(c, false)))
    ensures c.level == level && f in c.in0 && c.horizon == smallest_snapshot && Ready(version, c) && Runnable(c)
  {
    VersionDistinct(db, level);
    c, grandparents := PickCompaction(version, level, f, max_file_size);
    AtHorizon(version, level, c, smallest_snapshot);
    c := c.(horizon := smallest_snapshot);
  }

  /** The same of a manual compaction. */
  method StartManualCompaction(ghost db: Db, version: Version, level: nat, begin: Option<UserKey>, end: Option<UserKey>,
                               smallest_snapshot: nat, max_file_size: nat)
    returns (r: Option<Compaction>, grandparents: seq<File>)
    requires UpOk(db) && db.version == version && db.job.Idle? && db.writing.Nothing?
    requires level + 1 < NUM_LEVELS && IsHorizon(db, smallest_snapshot)
    ensures r.None? <==> forall f :: f in version[level] ==> !InRange(f, begin, end)
    ensures r.Some? ==> r.value.level == level && r.value.horizon == smallest_snapshot && Runnable(r.value)
    ensures r.Some? && (forall k :: !Exposed(r.value, Rest(version, r.value), k))
      ==> CompactStartStep(db, r.value, true, db.(job := Running(r.value, true)))
  {
    VersionDistinct(db, level);
    ghost var seed;
    r, grandparents, seed := CompactRange(version, level, begin, end, max_file_size);
    if r.Some? {
      AtHorizon(version, level, r.value, smallest_snapshot);
      r := Some(r.value.(horizon := smallest_snapshot));
    }
  }

  ghost function NumbersOf(outs: seq<File>): set<nat> {
    set f | f in outs :: f.number
  }

  /** The state once the output files of a compaction have been created. */
  ghost function Created(db: Db, outs: seq<File>): Db {
    db.(pending := db.pending + NumbersOf(outs), disk := db.disk.(tables := db.disk.tables + NumbersOf(outs)),
        nextFile := if outs == [] then db.nextFile else outs[|outs| - 1].number + 1)
  }

  lemma NumbersSnoc(outs: seq<File>, f: File)
    ensures NumbersOf(outs + [f]) == NumbersOf(outs) + {f.number}
  {
    assert forall g :: g in outs + [f] <==> g in outs || g == f;
  }

  /** They are created one by one, each in a step of its own. */
  lemma CreatedOneByOne(db: Db, outs: seq<File>, next: nat, i: nat)
    requires CompactionWork.Numbered(outs, db.nextFile, next) && i < |outs| && db.job.Running?
    ensures WriteOutputStep(Created(db, outs[..i]), outs[i].number, Created(db, outs[..i + 1]))
  {
    assert outs[..i + 1] == outs[..i] + [outs[i]];
    NumbersSnoc(outs[..i], outs[i]);
    assert i > 0 ==> outs[..i][i - 1] == outs[i - 1];
    var n := outs[i].number;
    assert db.pending + (NumbersOf(outs[..i]) + {n}) == db.pending + NumbersOf(outs[..i]) + {n};
    assert db.disk.tables + (NumbersOf(outs[..i]) + {n}) == db.disk.tables + NumbersOf(outs[..i]) + {n};
  }

  lemma CompactionEditFresh(v: Version, c: Compaction, outs: seq<File>, first: nat, next: nat)
    requires WellFormed(v) && NumbersBelow(v, first) && CompactionWork.Numbered(outs, first, next) && c.level + 1 < NUM_LEVELS
    ensures LevelsOk(CompactionEdit(c, outs))
    ensures forall l :: 0 <= l < NUM_LEVELS ==> FreshAdds(v[l], l, CompactionEdit(c, outs).added)
  {
    CompactionEditLevels(c, outs);
    var e := CompactionEdit(c, outs);
    forall i | 0 <= i < |e.added| ensures first <= e.added[i].1.number {
      assert e.added[i] == (c.level + 1, outs[i]);
    }
  }

  /** Merging the inputs, the compaction loop and LogAndApply produce what InstallCompactionResults may install. */
  method FinishCompaction(ghost db: Db, version: Version, c: Compaction, next_file_number: nat, l: Limits)
    returns (outs: seq<File>, next: nat, v': Version)
    requires UpOk(db) && db.version == version && db.job.Running? && db.job.c == c && db.writing.Nothing?
    requires db.nextFile == next_file_number && Runnable(c)
    ensures CompactionWork.Numbered(outs, next_file_number, next)
    ensures CompactWriteStep(Created(db, outs), outs, v', Wrote(Created(db, outs), outs, v'))
  {
    var input := MakeInputIterator(c);
    var stream := ReadInput(input);
    outs, next := DoCompactionWork(c, stream, next_file_number, l);
    CompactionEditFresh(version, c, outs, next_file_number, next);
    v' := LogAndApply(version, CompactionEdit(c, outs));
  }

  /** However the numbers of the outputs were taken while the loop ran, the outputs can be installed. */
  method InstallOutputs(ghost db: Db, version: Version, c: Compaction, outs: seq<File>) returns (v': Version)
    requires UpOk(db) && db.version == version && db.job.Running? && db.job.c == c && db.writing.Nothing?
    requires ValidFiles(outs) && InOrder(outs) && Entries(outs) == Kept(c) && forall f :: f in outs ==> f.number in db.pending
    requires forall i, j :: 0 <= i < j < |outs| ==> outs[i].number < outs[j].number
    ensures CompactWriteStep(db, outs, v', Wrote(db, outs, v'))
  {
    PendingOutputsFresh(db, c, outs);
    v' := LogAndApply(version, CompactionEdit(c, outs));
  }

  lemma PendingOutputsFresh(db: Db, c: Compaction, outs: seq<File>)
    requires UpOk(db) && db.writing.Nothing? && c.level + 1 < NUM_LEVELS
    requires forall f :: f in outs ==> f.number in db.pending
    requires forall i, j :: 0 <= i < j < |outs| ==> outs[i].number < outs[j].number
    ensures LevelsOk(CompactionEdit(c, outs))
    ensures forall l :: 0 <= l < NUM_LEVELS ==> FreshAdds(db.version[l], l, CompactionEdit(c, outs).added)
  {
    CompactionEditLevels(c, outs);
    var e := CompactionEdit(c, outs);
    forall l, i, g | 0 <= l < NUM_LEVELS && 0 <= i < |e.added| && g in db.version[l] ensures g.number != e.added[i].1.number {
      assert e.added[i] == (c.level + 1, outs[i]);
      PendingFresh(db, l, g, outs[i].number);
    }
  }

  /** The state once the manifest record of the running compaction is written. */
  ghost function Wrote(db: Db, outs: seq<File>, v: Version): Db
    requires db.job.Running?
  {
    db.(disk := AppendEdit(db.disk, CompactionEdit(db.job.c, outs), v, db.disk.logNumber, db.lastSequence, db.nextFile),
        job := Idle, writing := WroteVersion(db.job.c.horizon))
  }

  lemma MoveEditFresh(v: Version, c: Compaction)
    requires WellFormed(v) && Holds(v, c) && |c.in0| == 1
    ensures LevelsOk(CompactionEdit(c, c.in0))
    ensures forall l :: 0 <= l < NUM_LEVELS ==> FreshAdds(v[l], l, CompactionEdit(c, c.in0).added)
  {
    CompactionEditLevels(c, c.in0);
    var e := CompactionEdit(c, c.in0);
    var f := c.in0[0];
    assert f in v[c.level] && e.added == [(c.level + 1, f)];
    forall g | g in v[c.level + 1] ensures g.number != f.number {
      assert f.number == g.number ==> c.level == c.level + 1;
    }
  }

  /** The trivial move of BackgroundCompaction: a file with nothing under it changes its level by one edit, which the
      machine allows whether or not a key is exposed. */
  method MoveFile(ghost db: Db, version: Version, c: Compaction, grandparents: seq<File>, max_file_size: nat)
    returns (v': Version)
    requires UpOk(db) && db.version == version && db.job.Idle? && db.writing.Nothing?
    requires Ready(version, c) && IsTrivialMove(c, grandparents, max_file_size)
    ensures MoveWriteStep(db, c, v', Moved(db, c, v'))
  {
    MoveEditFresh(version, c);
    v' := LogAndApply(version, CompactionEdit(c, c.in0));
  }

  ghost function Moved(db: Db, c: Compaction, v: Version): Db {
    db.(disk := AppendEdit(db.disk, CompactionEdit(c, c.in0), v, db.disk.logNumber, db.lastSequence, db.nextFile),
        writing := WroteVersion(db.floor))
  }

  /** CompactMemTable: the level it picks for the table is one the machine allows; during a manual compaction, unless
      the table enters the output level between two entries that are kept. */
  method Flush(ghost db: Db, version: Version, f: File, max_file_size: nat) returns (level: nat, v': Version)
    requires UpOk(db) && db.version == version && db.writing.Nothing? && db.imm.Some? && f.number == db.nextFile
    requires ValidFile(f) && Entries([f]) == db.memtables[db.imm.value]
    ensures level <= MAX_MEM_COMPACT_LEVEL && Clear(version, level, f)
    ensures (db.job.Running? && db.job.manual && level == db.job.c.level + 1 ==> !Straddles(Kept(db.job.c), f))
      ==> FlushWriteStep(db, Some(f), level, v', Flushed(db, f, level, v'))
  {
    level, v' := FlushTo(version, f, max_file_size, db.nextFile);
  }

  /** The table at its level: picked clear of everything at and above it, and added by one edit. */
  method FlushTo(version: Version, f: File, max_file_size: nat, ghost next: nat) returns (level: nat, v': Version)
    requires WellFormed(version) && NumbersBelow(version, next) && f.number == next
    ensures level <= MAX_MEM_COMPACT_LEVEL && Clear(version, level, f) && AppliedEdit(version, FlushEdit(level, f), v')
  {
    level := PickLevelForMemTableOutput(version, f.Lo(), f.Hi(), max_file_size);
    PickedLevelClear(version, level, f, max_file_size);
    FlushEditFresh(version, level, f, next);
    v' := LogAndApply(version, FlushEdit(level, f));
  }

  lemma FlushEditFresh(v: Version, level: nat, f: File, next: nat)
    requires WellFormed(v) && NumbersBelow(v, next) && level < NUM_LEVELS && f.number == next
    ensures LevelsOk(FlushEdit(level, f)) && forall l :: 0 <= l < NUM_LEVELS ==> FreshAdds(v[l], l, FlushEdit(level, f).added)
  {
  }

  ghost function Flushed(db: Db, f: File, level: nat, v: Version): Db {
    db.(disk := AppendEdit(db.disk, FlushEdit(level, f), v, db.logfile, db.lastSequence, f.number + 1)
                  .(tables := db.disk.tables + {f.number}),
        writing := WroteFlush, nextFile := f.number + 1)
  }

  /** MemTable::Get: the first entry at or after the lookup key, if it is for the same user key. */
  function MemGet(es: seq<Entry>, k: UserKey, s: nat): Option<Entry> {
    var r := TableSeek(es, SeekKey(k, s));
    if r.Some? && r.value.User() == k then r else None
  }

  lemma MemGetNewest(es: seq<Entry>, k: UserKey, s: nat)
    requires Sorted(es)
    ensures Finds(Elements(es), k, s, MemGet(es, k, s))
  {
    TableSeekFirst(es, SeekKey(k, s));
    forall d | d in Elements(es) && Visible(d, k, s) ensures Le(SeekKey(k, s), d.ikey) {
    }
  }

  /** DBImpl::Get after it has captured its memtables and version: whatever the three layers read as, it returns. */
  method Get(mem: seq<Entry>, imm: seq<Entry>, v: Version, k: UserKey, s: nat) returns (r: Option<Bytes>)
    requires Sorted(mem) && Sorted(imm) && WellFormed(v) && Layered(v)
    ensures forall x :: ReadsAs(Elements(mem), Elements(imm), v, k, s, x) ==> r == x
  {
    MemGetNewest(mem, k, s);
    MemGetNewest(imm, k, s);
    var found := MemGet(mem, k, s);
    ghost var a := found;
    ghost var b := MemGet(imm, k, s);
    ghost var c := SearchHasOutcome(All(v), k, s);
    if found.None? {
      found := MemGet(imm, k, s);
      if found.None? {
        found := Versions.Get(v, k, s);
        c := found;
      }
    }
    r := Answer(found);
  }

  /** In every reachable state, Get at any live snapshot returns the newest write at or below it. */
  method GetIsCorrect(ghost states: seq<State>, ghost steps: seq<Step>, ghost i: nat,
                      mem: seq<Entry>, imm: seq<Entry>, v: Version, k: UserKey, s: nat) returns (r: Option<Bytes>)
    requires IsRun(states, steps) && i < |states| && states[i].Up?
    requires s == states[i].db.lastSequence || s in states[i].db.snapshots
    requires var db := states[i].db;
             && v == db.version && Sorted(mem) && Sorted(imm)
             && db.logfile in db.memtables && Elements(mem) == db.memtables[db.logfile]
             && Elements(imm) == if db.imm.Some? && db.imm.value in db.memtables then db.memtables[db.imm.value] else {}
    ensures s <= |states[i].db.hist| && r == Read(states[i].db.hist, k, s)
  {
    ReadsAreCorrect(states, steps, i, k, s);
    r := Get(mem, imm, v, k, s);
  }
}

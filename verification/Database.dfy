/** The database as a state machine over its atomic steps (kv/db/db_impl.cpp, kv/db/version_set.cpp).
    A step is what happens between two points where the mutex is taken or released, or between two
    appends to a file.  `hist`, `immStart`, `memStart` and `floor` are bookkeeping for the proofs:
    no step's guard reads them. */
module Database {
  import opened Format
  import opened History
  import opened Versions
  import opened Compactions
  import opened VersionBuilder
  import opened Edits
  import opened Wal
  import opened Faithfulness

  /** The leader's group: appended to the log?  how many operations are in the memtable? */
  datatype Group = Group(ops: seq<Op>, logged: bool, applied: nat)

  /** The one background thread. */
  datatype Job = Idle | Running(c: Compaction, manual: bool)

  /** LogAndApply releases the mutex between the manifest append and the installation. */
  datatype Writing = Nothing | WroteFlush | WroteVersion(floor: nat)

  /** A Get or an iterator: what it captured under the mutex. */
  datatype Reader = Reader(snapshot: nat, mem: nat, imm: Option<nat>, version: Version)

  /** What survives a process crash.  `version` is what the manifest says. */
  datatype Disk = Disk(manifest: seq<Edit>, version: Version, logNumber: nat, lastSequence: nat, nextFile: nat,
                       logs: map<nat, seq<Batch>>, tables: set<nat>)

  /** Memtables are named by the number of their log; `logfile` names mem_, `imm` names imm_. */
  datatype Db = Db(disk: Disk, hist: seq<Op>, lastSequence: nat, group: Option<Group>,
                   memtables: map<nat, set<Entry>>, logfile: nat, imm: Option<nat>, immStart: nat, memStart: nat,
                   version: Version, floor: nat, snapshots: multiset<nat>, readers: multiset<Reader>,
                   job: Job, writing: Writing, pending: set<nat>, nextFile: nat)

  datatype State =
    | Up(db: Db)
    | Down(disk: Disk, hist: seq<Op>)
    | Recovering(disk: Disk, hist: seq<Op>, left: seq<Batch>, version: Version, files: seq<File>,
                 upto: nat, maxSequence: nat, nextFile: nat)

  datatype Step =
    | BeginGroup(ops: seq<Op>)
    | LogGroup
    | ApplyOne
    | Publish
    | SwitchMemTable
    | FlushWrite(table: Option<File>, level: nat, version: Version)
    | FlushInstall
    | CompactStart(c: Compaction, manual: bool)
    | WriteOutput(number: nat)
    | CompactAbort
    | CompactWrite(outs: seq<File>, version: Version)
    | MoveWrite(c: Compaction, version: Version)
    | VersionInstall
    | TakeSnapshot
    | ReleaseSnapshot(s: nat)
    | StartRead(s: nat)
    | FinishRead(r: Reader)
    | RemoveObsolete(keepLogs: set<nat>, keepTables: set<nat>)
    | Crash
    | StartRecovery(ns: seq<nat>, version: Version)
    | RecoverTable(n: nat, table: Option<File>, version: Version)
    | FinishRecovery(log: nat)
    | FailRecovery(log: nat, tables: set<nat>)

  ghost function Numbers(v: Version): set<nat> {
    set l, f | 0 <= l < |v| && f in v[l] :: f.number
  }

  /** DoCompactionWork's smallest_snapshot: the oldest live snapshot, or LastSequence. */
  ghost predicate IsHorizon(db: Db, h: nat) {
    if db.snapshots == multiset{} then h == db.lastSequence
    else h in db.snapshots && forall s :: s in db.snapshots ==> h <= s
  }

  /** LogAndApply's manifest record. */
  function AppendEdit(d: Disk, e: Edit, v: Version, log: nat, last: nat, next: nat): Disk {
    d.(manifest := d.manifest + [e], version := v, logNumber := log, lastSequence := last, nextFile := next)
  }

  /** The writer at the head of the queue, after MakeRoomForWrite: BuildBatchGroup and SetSequence. */
  ghost predicate BeginGroupStep(db: Db, ops: seq<Op>, db': Db) {
    && db.group.None? && db.lastSequence + |ops| < MAX_SEQUENCE
    && db' == db.(group := Some(Group(ops, false, 0)))
  }

  /** AddRecord, with the mutex released. */
  ghost predicate LogGroupStep(db: Db, db': Db) {
    && db.group.Some? && !db.group.value.logged && db.logfile in db.disk.logs
    && var b := Batch(db.lastSequence + 1, db.group.value.ops);
       db' == db.(disk := db.disk.(logs := db.disk.logs[db.logfile := db.disk.logs[db.logfile] + [b]]),
                  group := Some(db.group.value.(logged := true)))
  }

  /** One operation of InsertInto, with the mutex released. */
  ghost predicate ApplyOneStep(db: Db, db': Db) {
    && db.group.Some? && db.group.value.logged && db.group.value.applied < |db.group.value.ops|
    && db.logfile in db.memtables
    && var n := db.group.value.applied;
       var e := EntryOf(db.group.value.ops[n], db.lastSequence + 1 + n);
       db' == db.(memtables := db.memtables[db.logfile := db.memtables[db.logfile] + {e}],
                  group := Some(db.group.value.(applied := n + 1)))
  }

  /** SetLastSequence: the group becomes visible and its writers are told. */
  ghost predicate PublishStep(db: Db, db': Db) {
    && db.group.Some? && db.group.value.logged && db.group.value.applied == |db.group.value.ops|
    && db' == db.(hist := db.hist + db.group.value.ops, lastSequence := db.lastSequence + |db.group.value.ops|,
                  group := None)
  }

  /** MakeRoomForWrite: a new log and memtable; the full one becomes imm_. */
  ghost predicate SwitchMemTableStep(db: Db, db': Db) {
    && db.group.None? && db.imm.None?
    && db' == db.(disk := db.disk.(logs := db.disk.logs[db.nextFile := []]),
                  memtables := db.memtables[db.nextFile := {}], imm := Some(db.logfile), logfile := db.nextFile,
                  memStart := |db.hist|, nextFile := db.nextFile + 1)
  }

  /** CompactMemTable up to the manifest append: imm_ becomes a table at a clear level, and earlier logs are disowned. */
  ghost predicate FlushWriteStep(db: Db, table: Option<File>, level: nat, v: Version, db': Db) {
    && db.writing.Nothing? && db.imm.Some? && db.imm.value in db.memtables
    && (match table
        case None => db.memtables[db.imm.value] == {} && AppliedEdit(db.version, Edit([], []), v)
        case Some(f) =>
          && ValidFile(f) && Entries([f]) == db.memtables[db.imm.value] && f.number >= db.nextFile
          && level < NUM_LEVELS && Clear(db.version, level, f)
          && AppliedEdit(db.version, FlushEdit(level, f), v)
          && (db.job.Running? && db.job.manual && level == db.job.c.level + 1 ==> !Straddles(Kept(db.job.c), f)))
    && var e := if table.Some? then FlushEdit(level, table.value) else Edit([], []);
       var next := if table.Some? then table.value.number + 1 else db.nextFile;
       db' == db.(disk := AppendEdit(db.disk, e, v, db.logfile, db.lastSequence, next)
                            .(tables := db.disk.tables + (if table.Some? then {table.value.number} else {})),
                  writing := WroteFlush, nextFile := next)
  }

  /** The rest of LogAndApply and CompactMemTable: the version is installed and imm_ released. */
  ghost predicate FlushInstallStep(db: Db, db': Db) {
    && db.writing.WroteFlush?
    && db' == db.(version := db.disk.version, imm := None, immStart := db.memStart, writing := Nothing)
  }

  /** PickCompaction or CompactRange, and the start of DoCompactionWork.  The fourth conjunct is a hypothesis on the inputs. */
  ghost predicate CompactStartStep(db: Db, c: Compaction, manual: bool, db': Db) {
    && db.job.Idle? && db.writing.Nothing?
    && Ready(db.version, c) && c.base == db.version && IsHorizon(db, c.horizon)
    && (forall k :: !Exposed(c, Rest(db.version, c), k))
    && (manual || GapFree(c))
    && db' == db.(job := Running(c, manual))
  }

  /** OpenCompactionOutputFile. */
  ghost predicate WriteOutputStep(db: Db, n: nat, db': Db) {
    && db.job.Running? && n >= db.nextFile
    && db' == db.(pending := db.pending + {n}, nextFile := n + 1, disk := db.disk.(tables := db.disk.tables + {n}))
  }

  /** A compaction that fails or is interrupted. */
  ghost predicate CompactAbortStep(db: Db, db': Db) {
    && db.job.Running? && db.writing.Nothing?
    && db' == db.(job := Idle, pending := {})
  }

  /** InstallCompactionResults up to the manifest append. */
  ghost predicate CompactWriteStep(db: Db, outs: seq<File>, v: Version, db': Db) {
    && db.job.Running? && db.writing.Nothing?
    && ValidFiles(outs) && InOrder(outs) && Entries(outs) == Kept(db.job.c)
    && (forall i, j :: 0 <= i < j < |outs| ==> outs[i].number != outs[j].number)
    && (forall f :: f in outs ==> f.number in db.pending)
    && AppliedEdit(db.version, CompactionEdit(db.job.c, outs), v)
    && db' == db.(disk := AppendEdit(db.disk, CompactionEdit(db.job.c, outs), v, db.disk.logNumber, db.lastSequence, db.nextFile),
                  job := Idle, writing := WroteVersion(db.job.c.horizon))
  }

  /** The trivial move of BackgroundCompaction up to the manifest append. */
  ghost predicate MoveWriteStep(db: Db, c: Compaction, v: Version, db': Db) {
    && db.job.Idle? && db.writing.Nothing?
    && Ready(db.version, c) && |c.in0| == 1 && c.in1 == []
    && AppliedEdit(db.version, CompactionEdit(c, c.in0), v)
    && db' == db.(disk := AppendEdit(db.disk, CompactionEdit(c, c.in0), v, db.disk.logNumber, db.lastSequence, db.nextFile),
                  writing := WroteVersion(db.floor))
  }

  /** The rest of LogAndApply. */
  ghost predicate VersionInstallStep(db: Db, db': Db) {
    && db.writing.WroteVersion?
    && db' == db.(version := db.disk.version, floor := db.writing.floor, writing := Nothing, pending := {})
  }

  /** GetSnapshot. */
  ghost predicate TakeSnapshotStep(db: Db, db': Db) {
    db' == db.(snapshots := db.snapshots + multiset{db.lastSequence})
  }

  /** ReleaseSnapshot. */
  ghost predicate ReleaseSnapshotStep(db: Db, s: nat, db': Db) {
    s in db.snapshots && db' == db.(snapshots := db.snapshots - multiset{s})
  }

  /** The part of Get and NewIterator under the mutex. */
  ghost predicate StartReadStep(db: Db, s: nat, db': Db) {
    && (s == db.lastSequence || s in db.snapshots)
    && db' == db.(readers := db.readers + multiset{Reader(s, db.logfile, db.imm, db.version)})
  }

  /** The read is over. */
  ghost predicate FinishReadStep(db: Db, r: Reader, db': Db) {
    r in db.readers && db' == db.(readers := db.readers - multiset{r})
  }

  /** RemoveObsoleteFiles. */
  ghost predicate RemoveObsoleteStep(db: Db, keepLogs: set<nat>, keepTables: set<nat>, db': Db) {
    && db.writing.Nothing?
    && (forall n :: n in db.disk.logs && n >= db.disk.logNumber ==> n in keepLogs)
    && db.pending <= keepTables && Numbers(db.version) <= keepTables
    && (forall r :: r in db.readers ==> Numbers(r.version) <= keepTables)
    && db' == db.(disk := db.disk.(logs := map n | n in db.disk.logs && n in keepLogs :: db.disk.logs[n],
                                   tables := db.disk.tables * keepTables))
  }

  ghost predicate UpStep(db: Db, step: Step, db': Db) {
    match step
    case BeginGroup(ops) => BeginGroupStep(db, ops, db')
    case LogGroup => LogGroupStep(db, db')
    case ApplyOne => ApplyOneStep(db, db')
    case Publish => PublishStep(db, db')
    case SwitchMemTable => SwitchMemTableStep(db, db')
    case FlushWrite(table, level, v) => FlushWriteStep(db, table, level, v, db')
    case FlushInstall => FlushInstallStep(db, db')
    case CompactStart(c, manual) => CompactStartStep(db, c, manual, db')
    case WriteOutput(n) => WriteOutputStep(db, n, db')
    case CompactAbort => CompactAbortStep(db, db')
    case CompactWrite(outs, v) => CompactWriteStep(db, outs, v, db')
    case MoveWrite(c, v) => MoveWriteStep(db, c, v, db')
    case VersionInstall => VersionInstallStep(db, db')
    case TakeSnapshot => TakeSnapshotStep(db, db')
    case ReleaseSnapshot(s) => ReleaseSnapshotStep(db, s, db')
    case StartRead(s) => StartReadStep(db, s, db')
    case FinishRead(r) => FinishReadStep(db, r, db')
    case RemoveObsolete(keepLogs, keepTables) => RemoveObsoleteStep(db, keepLogs, keepTables, db')
    case _ => false
  }

  /** The logs Recover reads, in the order in which it sorts them. */
  ghost predicate LiveLogs(d: Disk, ns: seq<nat>) {
    && (forall i, j :: 0 <= i < j < |ns| ==> ns[i] < ns[j])
    && forall n :: n in ns <==> n in d.logs && n >= d.logNumber
  }

  ghost function Records(logs: map<nat, seq<Batch>>, ns: seq<nat>): seq<Batch> {
    if ns == [] then []
    else Records(logs, ns[..|ns| - 1]) + if ns[|ns| - 1] in logs then logs[ns[|ns| - 1]] else []
  }

  /** RecoverLogFile's max_sequence. */
  function MaxSequence(bs: seq<Batch>, m: nat): nat {
    if bs == [] then m
    else
      var b, r := bs[|bs| - 1], MaxSequence(bs[..|bs| - 1], m);
      Max(Through(b), r)
  }

  /** The sequence numbers just before and at the end of a record. */
  function Before(b: Batch): nat { if b.first > 0 then b.first - 1 else 0 }
  function Through(b: Batch): nat { Before(b) + |b.ops| }

  function Max(a: nat, b: nat): nat { if a >= b then a else b }

  /** WriteSnapshot: every file of the version, level by level. */
  function SnapshotAdds(v: Version, n: nat): seq<(nat, File)>
    requires n <= |v|
  {
    if n == 0 then [] else SnapshotAdds(v, n - 1) + Additions(n - 1, v[n - 1])
  }

  /** Recover up to the logs: replay the manifest through one builder and sort the live logs. */
  ghost predicate StartRecoveryStep(d: Disk, hist: seq<Op>, ns: seq<nat>, v: Version, s': State) {
    && LiveLogs(d, ns)
    && |v| == NUM_LEVELS
    && (forall l :: 0 <= l < NUM_LEVELS ==> Saved([], ApplyAll(NOTHING, l, d.manifest), v[l]))
    && var left := Records(d.logs, ns);
       s' == Recovering(d, hist, left, v, [], if left == [] then d.lastSequence else Before(left[0]), 0, d.nextFile + 1)
  }

  /** RecoverLogFile: a run of records goes through a memtable into a level-0 table. */
  ghost predicate RecoverTableStep(s: State, n: nat, table: Option<File>, v: Version, s': State)
    requires s.Recovering?
  {
    && 0 < n <= |s.left|
    && (match table
        case None => Replay(s.left[..n]) == {} && v == s.version
        case Some(f) =>
          && ValidFile(f) && Entries([f]) == Replay(s.left[..n]) && f.number >= s.nextFile
          && Added(s.version, 0, f, v))
    && s' == s.(left := s.left[n..], version := v, maxSequence := MaxSequence(s.left[..n], s.maxSequence),
                files := s.files + (if table.Some? then [table.value] else []), upto := Through(s.left[n - 1]),
                nextFile := if table.Some? then table.value.number + 1 else s.nextFile)
  }

  /** The end of Open: a new log, and a new manifest holding a snapshot of the old version and the new tables. */
  ghost predicate FinishRecoveryStep(s: State, log: nat, s': State)
    requires s.Recovering?
  {
    && s.left == [] && log >= s.nextFile && (forall n :: n in s.disk.logs ==> n < log) && |s.disk.version| == NUM_LEVELS
    && var last := Max(s.disk.lastSequence, s.maxSequence);
       var d := Disk([Edit([], SnapshotAdds(s.disk.version, NUM_LEVELS)), Edit([], Additions(0, s.files))], s.version,
                     log, last, log + 1, s.disk.logs[log := []], s.disk.tables + set f | f in s.files :: f.number);
       s' == Up(Db(d, s.hist, last, None, map[log := {}], log, None, last, last, s.version, last, multiset{}, multiset{},
                   Idle, Nothing, {}, log + 1))
  }

  /** A crash or an error before the new manifest is current: at most an empty log and unreferenced tables appear. */
  ghost predicate FailRecoveryStep(s: State, log: nat, tables: set<nat>, s': State)
    requires s.Recovering?
  {
    && log !in s.disk.logs
    && s' == Down(s.disk.(logs := s.disk.logs[log := []], tables := s.disk.tables + tables), s.hist)
  }

  /** A process crash loses the memory, not what was appended.  A group counts once its record is complete. */
  ghost predicate CrashStep(db: Db, s': State) {
    s' == Down(db.disk, if db.group.Some? && db.group.value.logged then db.hist + db.group.value.ops else db.hist)
  }

  ghost predicate Next(s: State, step: Step, s': State) {
    match s
    case Up(db) => if step.Crash? then CrashStep(db, s') else s'.Up? && UpStep(db, step, s'.db)
    case Down(d, hist) => step.StartRecovery? && StartRecoveryStep(d, hist, step.ns, step.version, s')
    case Recovering(_, _, _, _, _, _, _, _) =>
      match step
      case RecoverTable(n, table, v) => RecoverTableStep(s, n, table, v, s')
      case FinishRecovery(log) => FinishRecoveryStep(s, log, s')
      case FailRecovery(log, tables) => FailRecoveryStep(s, log, tables, s')
      case _ => false
  }

  const EMPTY: Version := [[], [], [], [], [], [], []]

  /** NewDB. */
  ghost predicate Init(s: State) {
    s == Down(Disk([Edit([], [])], EMPTY, 0, 0, 2, map[], {}), [])
  }
}

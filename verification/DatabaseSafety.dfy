/** What holds in every reachable state of the database. */
module DatabaseSafety {
  import opened Format
  import opened History
  import opened Versions
  import opened Compactions
  import opened VersionBuilder
  import opened Wal
  import opened Faithfulness
  import opened Database
  import opened DatabaseInvariant
  import opened DatabaseWrites
  import opened DatabaseVersions
  import opened DatabaseRecovery

  lemma EmptyIsFaithful()
    ensures Faithful(EMPTY, [], 0, 0)
  {
    EmptyShape(EMPTY);
    assert Agrees({}, [], 0, 0);
  }

  lemma EmptyShape(v: Version)
    requires |v| == NUM_LEVELS && forall l :: 0 <= l < NUM_LEVELS ==> v[l] == []
    ensures WellFormed(v) && Layered(v) && All(v) == {}
  {
    forall l | 0 <= l < |v| ensures SoundLevel(l, v[l]) {
    }
  }

  lemma NewManifest()
    ensures Replays([Edit([], [])], EMPTY) && AllAdds([Edit([], [])]) == []
  {
    assert [Edit([], [])][..0] == [];
    assert AllAdds([]) == [];
    forall l | 0 <= l < NUM_LEVELS ensures ReplaysLevel([Edit([], [])], l, []) {
    }
  }

  lemma InitOk(s: State)
    requires Init(s)
    ensures Invariant(s)
  {
    var d := s.disk;
    EmptyIsFaithful();
    NewManifest();
    forall ns | LiveLogs(d, ns) ensures Chain(Records(d.logs, ns), 0, []) {
      AscendingUnique(ns, []);
    }
    assert Numbers(EMPTY) == {};
    assert DiskOk(d, [], 0, 0);
  }

  lemma WriteStepKeeps(db: Db, step: Step, db': Db)
    requires UpOk(db) && UpStep(db, step, db')
    requires step.BeginGroup? || step.LogGroup? || step.ApplyOne? || step.Publish? || step.SwitchMemTable?
    ensures UpOk(db')
  {
    match step
    case BeginGroup(ops) => BeginGroupKeeps(db, ops, db');
    case LogGroup => LogGroupKeeps(db, db');
    case ApplyOne => ApplyOneKeeps(db, db');
    case Publish => PublishKeeps(db, db');
    case SwitchMemTable => SwitchMemTableKeeps(db, db');
  }

  lemma SnapshotStepKeeps(db: Db, step: Step, db': Db)
    requires UpOk(db) && UpStep(db, step, db')
    requires step.TakeSnapshot? || step.ReleaseSnapshot?
    ensures UpOk(db')
  {
    match step
    case TakeSnapshot => TakeSnapshotKeeps(db, db');
    case ReleaseSnapshot(s) => ReleaseSnapshotKeeps(db, s, db');
  }

  lemma ReadStepKeeps(db: Db, step: Step, db': Db)
    requires UpOk(db) && UpStep(db, step, db')
    requires step.StartRead? || step.FinishRead? || step.RemoveObsolete?
    ensures UpOk(db')
  {
    match step
    case StartRead(s) => StartReadKeeps(db, s, db');
    case FinishRead(r) => FinishReadKeeps(db, r, db');
    case RemoveObsolete(logs, tables) => RemoveObsoleteKeeps(db, logs, tables, db');
  }

  lemma CompactionStepKeeps(db: Db, step: Step, db': Db)
    requires UpOk(db) && UpStep(db, step, db')
    requires step.CompactStart? || step.WriteOutput? || step.CompactAbort?
    ensures UpOk(db')
  {
    match step
    case CompactStart(c, manual) => CompactStartKeeps(db, c, manual, db');
    case WriteOutput(n) => WriteOutputKeeps(db, n, db');
    case CompactAbort => CompactAbortKeeps(db, db');
  }

  lemma VersionStepKeeps(db: Db, step: Step, db': Db)
    requires UpOk(db) && UpStep(db, step, db')
    requires step.CompactWrite? || step.MoveWrite?
    ensures UpOk(db')
  {
    match step
    case CompactWrite(outs, v) => CompactWriteKeeps(db, outs, v, db');
    case MoveWrite(c, v) => MoveWriteKeeps(db, c, v, db');
  }

  lemma InstallStepKeeps(db: Db, step: Step, db': Db)
    requires UpOk(db) && UpStep(db, step, db')
    requires step.FlushWrite? || step.FlushInstall? || step.VersionInstall?
    ensures UpOk(db')
  {
    match step
    case FlushWrite(table, level, v) => FlushWriteKeeps(db, table, level, v, db');
    case FlushInstall => FlushInstallKeeps(db, db');
    case VersionInstall => VersionInstallKeeps(db, db');
  }

  lemma UpStepKeeps(db: Db, step: Step, db': Db)
    requires UpOk(db) && UpStep(db, step, db')
    ensures UpOk(db')
  {
    if step.BeginGroup? || step.LogGroup? || step.ApplyOne? || step.Publish? || step.SwitchMemTable? {
      WriteStepKeeps(db, step, db');
    } else if step.CompactStart? || step.WriteOutput? || step.CompactAbort? {
      CompactionStepKeeps(db, step, db');
    } else if step.CompactWrite? || step.MoveWrite? {
      VersionStepKeeps(db, step, db');
    } else if step.TakeSnapshot? || step.ReleaseSnapshot? {
      SnapshotStepKeeps(db, step, db');
    } else if step.FlushWrite? || step.FlushInstall? || step.VersionInstall? {
      InstallStepKeeps(db, step, db');
    } else {
      ReadStepKeeps(db, step, db');
    }
  }

  lemma RecoveryStepKeeps(s: State, step: Step, s': State)
    requires s.Recovering? && Invariant(s) && Next(s, step, s')
    ensures Invariant(s') && Hist(s') == Hist(s)
  {
    match step {
      case RecoverTable(n, table, v) => RecoverTableKeeps(s, n, table, v, s');
      case FinishRecovery(log) => FinishRecoveryKeeps(s, log, s');
      case FailRecovery(log, tables) => FailRecoveryKeeps(s.disk, s.hist, log, tables);
      case _ =>
    }
  }

  function Hist(s: State): seq<Op> {
    match s
    case Up(db) => db.hist
    case Down(_, hist) => hist
    case Recovering(_, hist, _, _, _, _, _, _) => hist
  }

  /** Every step keeps the invariant, and never takes back an acknowledged write. */
  lemma StepKeeps(s: State, step: Step, s': State)
    requires Invariant(s) && Next(s, step, s')
    ensures Invariant(s') && Hist(s) <= Hist(s')
  {
    match s
    case Up(db) =>
      if step.Crash? {
        CrashKeeps(db);
      } else {
        UpStepKeeps(db, step, s'.db);
      }
    case Down(d, hist) => StartRecoveryKeeps(d, hist, step.ns, step.version, s');
    case Recovering(_, _, _, _, _, _, _, _) => RecoveryStepKeeps(s, step, s');
  }

  ghost predicate IsRun(states: seq<State>, steps: seq<Step>) {
    && |states| == |steps| + 1 && Init(states[0])
    && forall i :: 0 <= i < |steps| ==> Next(states[i], steps[i], states[i + 1])
  }

  lemma {:induction false} RunInvariant(states: seq<State>, steps: seq<Step>, i: nat)
    requires IsRun(states, steps) && i < |states|
    ensures Invariant(states[i])
  {
    if i == 0 {
      InitOk(states[0]);
    } else {
      RunInvariant(states, steps, i - 1);
      StepKeeps(states[i - 1], steps[i - 1], states[i]);
    }
  }

  /** In every reachable open state, the levels are in shape, and a read at any live snapshot, through memtable,
      immutable memtable and version, returns the newest write at or below it. */
  lemma ReadsAreCorrect(states: seq<State>, steps: seq<Step>, i: nat, k: UserKey, s: nat)
    requires IsRun(states, steps) && i < |states| && states[i].Up?
    requires s == states[i].db.lastSequence || s in states[i].db.snapshots
    ensures var db := states[i].db;
            && WellFormed(db.version) && Layered(db.version)
            && db.lastSequence == |db.hist| && s <= |db.hist| && db.logfile in db.memtables
            && (db.imm.Some? ==> db.imm.value in db.memtables)
            && ReadsAs(db.memtables[db.logfile], if db.imm.Some? then db.memtables[db.imm.value] else {}, db.version,
                       k, s, Read(db.hist, k, s))
  {
    RunInvariant(states, steps, i);
    LiveRead(states[i].db, s, k);
  }

  /** A read in flight sees its snapshot whenever it completes, whatever was written, flushed, compacted,
      installed or deleted in the meantime; and the tables of its version are still on disk. */
  lemma ReadersAreCorrect(states: seq<State>, steps: seq<Step>, i: nat, r: Reader, k: UserKey)
    requires IsRun(states, steps) && i < |states| && states[i].Up? && r in states[i].db.readers
    ensures var db := states[i].db;
            && Numbers(r.version) <= db.disk.tables
            && r.snapshot <= |db.hist| && r.mem in db.memtables && (r.imm.Some? ==> r.imm.value in db.memtables)
            && ReadsAs(db.memtables[r.mem], if r.imm.Some? then db.memtables[r.imm.value] else {}, r.version,
                       k, r.snapshot, Read(db.hist, k, r.snapshot))
  {
    RunInvariant(states, steps, i);
    assert ReaderOk(states[i].db, r);
  }

  /** Acknowledged writes survive everything that follows, crashes included. */
  lemma {:induction false} WritesAreDurable(states: seq<State>, steps: seq<Step>, i: nat, j: nat)
    requires IsRun(states, steps) && i <= j < |states|
    ensures Hist(states[i]) <= Hist(states[j])
  {
    if i < j {
      WritesAreDurable(states, steps, i, j - 1);
      RunInvariant(states, steps, j - 1);
      StepKeeps(states[j - 1], steps[j - 1], states[j]);
    }
  }

  /** A crash keeps the group in flight wholly or not at all, and what recovery opens is exactly that history. */
  lemma GroupsAreAtomic(states: seq<State>, steps: seq<Step>, i: nat)
    requires IsRun(states, steps) && i < |steps|
    ensures Hist(states[i + 1]) == Hist(states[i]) ||
            (states[i].Up? && states[i].db.group.Some? && Hist(states[i + 1]) == Hist(states[i]) + states[i].db.group.value.ops)
    ensures states[i].Recovering? && states[i + 1].Up? ==>
              states[i + 1].db.hist == states[i].hist && states[i + 1].db.lastSequence == |states[i].hist|
  {
    assert Next(states[i], steps[i], states[i + 1]);
    RunInvariant(states, steps, i + 1);
  }

  /** Recovery finds every table the manifest names. */
  lemma NoTableIsMissing(states: seq<State>, steps: seq<Step>, i: nat)
    requires IsRun(states, steps) && i < |states|
    ensures states[i].Down? ==> Numbers(states[i].disk.version) <= states[i].disk.tables
    ensures states[i].Up? ==> Numbers(states[i].db.version) <= states[i].db.disk.tables
  {
    RunInvariant(states, steps, i);
  }
}

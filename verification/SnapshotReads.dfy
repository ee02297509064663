/** What a snapshot is for: the state of the database when it was taken (kv/db/db_impl.cpp GetSnapshot, ReleaseSnapshot
    and Get). */
module SnapshotReads {
  import opened Format
  import opened History
  import opened Versions
  import opened Faithfulness
  import opened Database
  import opened DatabaseInvariant
  import opened DatabaseSafety

  /** Get of `k` at `s`, through memtable, immutable memtable and version, returns `r`. */
  ghost predicate GetsAt(db: Db, k: UserKey, s: nat, r: Option<Bytes>) {
    && db.logfile in db.memtables && (db.imm.Some? ==> db.imm.value in db.memtables)
    && ReadsAs(db.memtables[db.logfile], if db.imm.Some? then db.memtables[db.imm.value] else {}, db.version, k, s, r)
  }

  /** What was acknowledged stays readable under its number. */
  lemma StableRead(states: seq<State>, steps: seq<Step>, i: nat, j: nat, k: UserKey, s: nat)
    requires IsRun(states, steps) && i <= j < |states| && states[i].Up? && states[j].Up? && s <= |states[i].db.hist|
    ensures s <= |states[j].db.hist| && Read(states[j].db.hist, k, s) == Read(states[i].db.hist, k, s)
  {
    WritesAreDurable(states, steps, i, j);
    var h, h' := states[i].db.hist, states[j].db.hist;
    assert h' == h + h'[|h|..];
    ReadStable(h, h'[|h|..], k, s);
  }

  /** GetSnapshot adds one holder of the number of the last write, and leaves the others. */
  lemma SnapshotTaken(states: seq<State>, steps: seq<Step>, i: nat)
    requires IsRun(states, steps) && i < |steps| && steps[i].TakeSnapshot?
    ensures states[i].Up? && states[i + 1].Up? && states[i + 1].db.hist == states[i].db.hist
    ensures var s, a, b := |states[i].db.hist|, states[i].db.snapshots, states[i + 1].db.snapshots;
            b[s] == a[s] + 1 && forall t :: t != s ==> b[t] == a[t]
  {
    assert Next(states[i], steps[i], states[i + 1]);
    RunInvariant(states, steps, i);
  }

  /** A snapshot sees every write acknowledged when it was taken, and no other, as long as it is held. */
  lemma SnapshotSeesItsTime(states: seq<State>, steps: seq<Step>, i: nat, j: nat, k: UserKey)
    requires IsRun(states, steps) && i < j < |states| && i < |steps| && steps[i].TakeSnapshot?
    requires states[i].Up? && states[j].Up? && |states[i].db.hist| in states[j].db.snapshots
    ensures var now := states[i].db.hist; GetsAt(states[j].db, k, |now|, Read(now, k, |now|))
  {
    var s := |states[i].db.hist|;
    ReadsAreCorrect(states, steps, j, k, s);
    StableRead(states, steps, i, j, k, s);
  }

  /** ReleaseSnapshot takes one holder away ... */
  lemma SnapshotReleased(states: seq<State>, steps: seq<Step>, i: nat)
    requires IsRun(states, steps) && i < |steps| && steps[i].ReleaseSnapshot?
    ensures states[i].Up? && states[i + 1].Up? && states[i + 1].db.hist == states[i].db.hist
    ensures var s, a, b := steps[i].s, states[i].db.snapshots, states[i + 1].db.snapshots;
            a[s] == b[s] + 1 && forall t :: t != s ==> b[t] == a[t]
  {
    assert Next(states[i], steps[i], states[i + 1]);
  }

  /** ... and every snapshot still held reads as before. */
  lemma OthersReadOn(states: seq<State>, steps: seq<Step>, i: nat, t: nat, k: UserKey)
    requires IsRun(states, steps) && i < |steps| && steps[i].ReleaseSnapshot?
    requires states[i].Up? && states[i + 1].Up? && t in states[i + 1].db.snapshots
    ensures t <= |states[i].db.hist| && GetsAt(states[i].db, k, t, Read(states[i].db.hist, k, t))
    ensures GetsAt(states[i + 1].db, k, t, Read(states[i].db.hist, k, t))
  {
    SnapshotReleased(states, steps, i);
    assert states[i].db.snapshots[t] > 0;
    ReadsAreCorrect(states, steps, i, k, t);
    ReadsAreCorrect(states, steps, i + 1, k, t);
  }

  /** Nothing else changes the snapshots of an open database. */
  lemma SnapshotsStay(states: seq<State>, steps: seq<Step>, i: nat)
    requires IsRun(states, steps) && i < |steps| && states[i].Up? && states[i + 1].Up?
    requires !steps[i].TakeSnapshot? && !steps[i].ReleaseSnapshot?
    ensures states[i + 1].db.snapshots == states[i].db.snapshots
  {
    assert Next(states[i], steps[i], states[i + 1]);
  }

  /** A read starts at the number of the last write, so that it sees every write acknowledged, or at a snapshot still
      held; what it captures is in use once more, and every other read goes on. */
  lemma ReadStarted(states: seq<State>, steps: seq<Step>, i: nat, s: nat)
    requires IsRun(states, steps) && i < |steps| && steps[i] == StartRead(s)
    ensures states[i].Up? && states[i + 1].Up? && (s == |states[i].db.hist| || s in states[i].db.snapshots)
    ensures var db, a, b := states[i].db, states[i].db.readers, states[i + 1].db.readers;
            var r := Reader(s, db.logfile, db.imm, db.version);
            b[r] == a[r] + 1 && forall t :: t != r ==> b[t] == a[t]
  {
    assert Next(states[i], steps[i], states[i + 1]);
    RunInvariant(states, steps, i);
  }

  /** When a read completes, exactly that one is over ... */
  lemma ReadFinished(states: seq<State>, steps: seq<Step>, i: nat)
    requires IsRun(states, steps) && i < |steps| && steps[i].FinishRead?
    ensures states[i].Up? && states[i + 1].Up?
    ensures var r, a, b := steps[i].r, states[i].db.readers, states[i + 1].db.readers;
            a[r] == b[r] + 1 && forall t :: t != r ==> b[t] == a[t]
  {
    assert Next(states[i], steps[i], states[i + 1]);
  }

  /** ... and nothing else that happens to an open database ends one. */
  lemma ReadsGoOn(states: seq<State>, steps: seq<Step>, i: nat)
    requires IsRun(states, steps) && i < |steps| && states[i].Up? && states[i + 1].Up?
    requires !steps[i].StartRead? && !steps[i].FinishRead?
    ensures states[i + 1].db.readers == states[i].db.readers
  {
    assert Next(states[i], steps[i], states[i + 1]);
  }

  /** A read sees its number's state of the moment it started, whenever it completes. */
  lemma ReaderSeesItsTime(states: seq<State>, steps: seq<Step>, i: nat, j: nat, r: Reader, k: UserKey)
    requires IsRun(states, steps) && i < j < |states| && i < |steps| && steps[i] == StartRead(r.snapshot)
    requires states[i].Up? && states[j].Up? && r in states[j].db.readers && r.snapshot <= |states[i].db.hist|
    ensures var db := states[j].db;
            && r.mem in db.memtables && (r.imm.Some? ==> r.imm.value in db.memtables)
            && ReadsAs(db.memtables[r.mem], if r.imm.Some? then db.memtables[r.imm.value] else {}, r.version,
                       k, r.snapshot, Read(states[i].db.hist, k, r.snapshot))
  {
    ReadersAreCorrect(states, steps, j, r, k);
    StableRead(states, steps, i, j, k, r.snapshot);
  }
}

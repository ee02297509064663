/** What can always be done: a group can be written, the memtables can be flushed, files nobody needs can be removed, and
    after a crash the database can be opened again (kv/db/db_impl.cpp Write, CompactMemTable, RemoveObsoleteFiles,
    Recover and RecoverLogFile). */
module Progress {
  import opened Format
  import opened History
  import opened Versions
  import opened Compactions
  import opened VersionBuilder
  import opened Edits
  import opened Wal
  import opened Faithfulness
  import opened Database
  import opened DatabaseInvariant
  import opened DatabaseRecovery
  import opened DatabaseSafety
  import opened InputStreams
  import opened ManualGaps
  import opened DeletedKeyRun
  import opened Runs

  // ---- Writing ----

  /** The group in flight with its first `n` operations in the memtable. */
  ghost function Applying(db: Db, ops: seq<Op>, n: nat): Db
    requires n <= |ops| && db.logfile in db.memtables
  {
    db.(memtables := db.memtables[db.logfile := db.memtables[db.logfile] + EntriesFrom(ops[..n], db.lastSequence + 1)],
        group := Some(Group(ops, true, n)))
  }

  lemma OneApplied(ops: seq<Op>, n: nat, first: nat)
    requires n < |ops|
    ensures EntriesFrom(ops[..n + 1], first) == EntriesFrom(ops[..n], first) + {EntryOf(ops[n], first + n)}
  {
    assert forall j :: 0 <= j < n ==> ops[..n + 1][j] == ops[..n][j];
    assert ops[..n + 1][n] == ops[n];
    var e := EntryOf(ops[n], first + n);
    assert e == EntryOf(ops[..n + 1][n], first + n);
    forall d | d in EntriesFrom(ops[..n], first) ensures d in EntriesFrom(ops[..n + 1], first) {
      var j :| 0 <= j < |ops[..n]| && d == EntryOf(ops[..n][j], first + j);
      assert d == EntryOf(ops[..n + 1][j], first + j);
    }
  }

  lemma {:induction false} ApplyAllOps(s: State, db: Db, ops: seq<Op>, n: nat)
    requires n <= |ops| && db.logfile in db.memtables
    requires Leads(s, Up(Applying(db, ops, 0))) && Reachable(Up(Applying(db, ops, 0)))
    ensures Leads(s, Up(Applying(db, ops, n))) && Reachable(Up(Applying(db, ops, n)))
  {
    if n > 0 {
      ApplyAllOps(s, db, ops, n - 1);
      var a, b := Applying(db, ops, n - 1), Applying(db, ops, n);
      OneApplied(ops, n - 1, db.lastSequence + 1);
      var m, E, e := db.memtables[db.logfile], EntriesFrom(ops[..n - 1], db.lastSequence + 1),
                     EntryOf(ops[n - 1], db.lastSequence + n);
      assert m + (E + {e}) == m + E + {e};
      assert ApplyOneStep(a, b);
      GoUp(s, a, ApplyOne, b);
    }
  }

  /** From every reachable open state without a group in flight, any group of operations that the sequence numbers
      allow can be written: it is then the end of the history. */
  lemma GroupCanBeWritten(db: Db, ops: seq<Op>) returns (db': Db)
    requires Reachable(Up(db)) && db.group.None? && db.lastSequence + |ops| < MAX_SEQUENCE
    ensures Leads(Up(db), Up(db')) && Reachable(Up(db')) && db'.hist == db.hist + ops && db'.group.None?
  {
    ReachableOk(Up(db));
    Stay(Up(db));
    var a := db.(group := Some(Group(ops, false, 0)));
    GoUp(Up(db), db, BeginGroup(ops), a);
    var b := a.(disk := a.disk.(logs := a.disk.logs[a.logfile := a.disk.logs[a.logfile] + [Batch(a.lastSequence + 1, ops)]]),
                group := Some(Group(ops, true, 0)));
    GoUp(Up(db), a, LogGroup, b);
    assert ops[..0] == [];
    assert b.memtables[b.logfile] + EntriesFrom([], b.lastSequence + 1) == b.memtables[b.logfile];
    assert b.memtables[b.logfile := b.memtables[b.logfile]] == b.memtables;
    assert Applying(b, ops, 0) == b;
    ApplyAllOps(Up(db), b, ops, |ops|);
    var c := Applying(b, ops, |ops|);
    db' := c.(hist := c.hist + ops, lastSequence := c.lastSequence + |ops|, group := None);
    GoUp(Up(db), c, Publish, db');
  }

  // ---- Opening again ----

  lemma {:induction false} SortNumbers(S: set<nat>) returns (ns: seq<nat>)
    ensures (forall i, j :: 0 <= i < j < |ns| ==> ns[i] < ns[j]) && forall n :: n in ns <==> n in S
    decreases |S|
  {
    if S == {} {
      ns := [];
    } else {
      var m := Largest(S);
      var front := SortNumbers(S - {m});
      ns := front + [m];
      forall i | 0 <= i < |front| ensures front[i] < m {
        assert front[i] in front;
      }
    }
  }

  lemma {:induction false} Largest(S: set<nat>) returns (m: nat)
    requires S != {}
    ensures m in S && forall n :: n in S ==> n <= m
    decreases |S|
  {
    var x :| x in S;
    m := x;
    assert forall k :: k in S ==> k == x || k in S - {x};
    if S != {x} {
      assert S - {x} != {};
      var n := Largest(S - {x});
      m := if n > x then n else x;
    }
  }

  /** Recovery can begin: the live logs are read in order and the manifest replays to the version it stands for. */
  lemma RecoveryBegins(d: Disk, hist: seq<Op>) returns (r: State)
    requires Reachable(Down(d, hist))
    ensures Leads(Down(d, hist), r) && Reachable(r) && r.Recovering? && r.hist == hist
  {
    ReachableOk(Down(d, hist));
    Stay(Down(d, hist));
    var ns := SortNumbers(set n | n in d.logs && n >= d.logNumber);
    var left := Records(d.logs, ns);
    r := Recovering(d, hist, left, d.version, [], if left == [] then d.lastSequence else Before(left[0]), 0, d.nextFile + 1);
    ManifestReplays(d, hist);
    assert StartRecoveryStep(d, hist, ns, d.version, r);
    Go(Down(d, hist), Down(d, hist), StartRecovery(ns, d.version), r);
  }

  lemma ManifestReplays(d: Disk, hist: seq<Op>)
    requires DownOk(d, hist)
    ensures |d.version| == NUM_LEVELS
    ensures forall l :: 0 <= l < NUM_LEVELS ==> Saved([], ApplyAll(NOTHING, l, d.manifest), d.version[l])
  {
    var bound, floor :| DiskOk(d, hist, bound, floor);
    forall l | 0 <= l < NUM_LEVELS ensures Saved([], ApplyAll(NOTHING, l, d.manifest), d.version[l]) {
      assert ReplaysLevel(d.manifest, l, d.version[l]);
    }
  }

  lemma SliceDistinct(hist: seq<Op>, a: nat, b: nat)
    requires a <= b <= |hist| < MAX_SEQUENCE
    ensures Distinct(Slice(hist, a, b)) && forall e :: e in Slice(hist, a, b) ==> e.Seq() <= MAX_SEQUENCE
  {
  }

  /** A table of the writes that the logs still hold. */
  lemma TableOfSlice(hist: seq<Op>, a: nat, b: nat, n: nat) returns (f: File)
    requires a <= b <= |hist| < MAX_SEQUENCE && Slice(hist, a, b) != {}
    ensures ValidFile(f) && f.number == n && Entries([f]) == Slice(hist, a, b)
  {
    SliceDistinct(hist, a, b);
    var es := SortSet(Slice(hist, a, b));
    var e :| e in Slice(hist, a, b);
    assert e in es;
    f := TableOf(es, n);
  }

  lemma AddToLevelZero(v: Version, f: File) returns (v': Version)
    requires WellFormed(v) && forall g :: g in v[0] ==> g.number < f.number
    ensures Added(v, 0, f, v')
  {
    assert SoundLevel(0, v[0]);
    InsertFileSpec(v[0], f);
    v' := v[0 := InsertFile(v[0], f)];
  }

  lemma RecoveringFacts(r: State)
    requires r.Recovering? && RecoveringOk(r)
    ensures WellFormed(r.version) && |r.hist| < MAX_SEQUENCE && |r.disk.version| == NUM_LEVELS
    ensures forall g :: g in r.version[0] ==> g.number < r.nextFile
  {
    var bound, floor :| DiskOk(r.disk, r.hist, bound, floor);
    var low: nat :| low <= |r.hist| && Faithful(r.version, r.hist, r.upto, low);
  }

  /** All logs in one go. */
  lemma LogsAreRead(s: State, r: State) returns (r': State)
    requires Leads(s, r) && Reachable(r) && r.Recovering?
    ensures Leads(s, r') && Reachable(r') && r'.Recovering? && r'.hist == r.hist && r'.left == []
  {
    ReachableOk(r);
    r' := r;
    if r.left != [] {
      var n := |r.left|;
      var m := NextSlice(r.left, n, r.upto, r.hist);
      assert r.left[..n] == r.left && r.left[n..] == [];
      RecoveringFacts(r);
      var table: Option<File>, v := None, r.version;
      if Replay(r.left) != {} {
        var f := TableOfSlice(r.hist, r.upto, m, r.nextFile);
        v := AddToLevelZero(r.version, f);
        table := Some(f);
      }
      r' := r.(left := [], version := v, maxSequence := MaxSequence(r.left, r.maxSequence),
               files := r.files + (if table.Some? then [table.value] else []), upto := Through(r.left[n - 1]),
               nextFile := if table.Some? then table.value.number + 1 else r.nextFile);
      assert RecoverTableStep(r, n, table, v, r');
      Go(s, r, RecoverTable(n, table, v), r');
    }
  }

  lemma FreshLog(r: State) returns (log: nat)
    requires r.Recovering?
    ensures log >= r.nextFile && forall n :: n in r.disk.logs ==> n < log
  {
    var m := Largest(r.disk.logs.Keys + {0});
    log := if m + 1 >= r.nextFile then m + 1 else r.nextFile;
  }

  /** After every crash the database can be opened again, with exactly the history the crash left. */
  lemma DatabaseReopens(d: Disk, hist: seq<Op>) returns (db: Db)
    requires Reachable(Down(d, hist))
    ensures Leads(Down(d, hist), Up(db)) && Reachable(Up(db)) && db.hist == hist
  {
    var s := Down(d, hist);
    var r := RecoveryBegins(d, hist);
    r := LogsAreRead(s, r);
    ReachableOk(r);
    RecoveringFacts(r);
    var log := FreshLog(r);
    var last := Max(r.disk.lastSequence, r.maxSequence);
    var d' := Disk([Edit([], SnapshotAdds(r.disk.version, NUM_LEVELS)), Edit([], Additions(0, r.files))], r.version,
                   log, last, log + 1, r.disk.logs[log := []], r.disk.tables + set f | f in r.files :: f.number);
    db := Db(d', r.hist, last, None, map[log := {}], log, None, last, last, r.version, last, multiset{}, multiset{},
             Idle, Nothing, {}, log + 1);
    assert FinishRecoveryStep(r, log, Up(db));
    Go(s, r, FinishRecovery(log), Up(db));
  }

  // ---- Flushing and removing files ----

  /** A table of a slice of the history, younger than all of `v`, as an edit of level 0. */
  lemma LevelZeroTable(v: Version, hist: seq<Op>, a: nat, b: nat, n: nat) returns (table: Option<File>, v': Version)
    requires WellFormed(v) && a <= b <= |hist| < MAX_SEQUENCE && forall g :: g in v[0] ==> g.number < n
    ensures table.None? ==> Slice(hist, a, b) == {} && AppliedEdit(v, Edit([], []), v')
    ensures table.Some? ==> ValidFile(table.value) && table.value.number == n && Entries([table.value]) == Slice(hist, a, b)
                            && AppliedEdit(v, FlushEdit(0, table.value), v')
  {
    table, v' := None, v;
    if Slice(hist, a, b) != {} {
      var f := TableOfSlice(hist, a, b, n);
      v' := AddToLevelZero(v, f);
      AddedApplies(v, 0, f, v');
      table := Some(f);
    } else {
      EmptyEditApplies(v);
    }
  }

  lemma EmptyEditApplies(v: Version)
    requires WellFormed(v)
    ensures AppliedEdit(v, Edit([], []), v)
  {
    forall l | 0 <= l < NUM_LEVELS ensures Applied(v[l], l, Edit([], []), v[l]) {
      assert SoundLevel(l, v[l]) && FreshAdds([], l, []);
      EditLevel(NOTHING, l, Edit([], []));
    }
  }

  /** imm_ can be flushed, whatever else is going on. */
  lemma ImmCanBeFlushed(s: State, db: Db) returns (db': Db)
    requires Leads(s, Up(db)) && Reachable(Up(db)) && db.imm.Some? && db.writing.Nothing?
    ensures Leads(s, Up(db')) && Reachable(Up(db')) && db'.imm.None? && db'.disk.logNumber == db.logfile
    ensures db' == db.(disk := db'.disk, version := db'.version, imm := None, immStart := db'.immStart, nextFile := db'.nextFile)
  {
    ReachableOk(Up(db));
    var table, v := LevelZeroTable(db.version, db.hist, db.immStart, db.memStart, db.nextFile);
    var e := if table.Some? then FlushEdit(0, table.value) else Edit([], []);
    var next := if table.Some? then table.value.number + 1 else db.nextFile;
    var a := db.(disk := AppendEdit(db.disk, e, v, db.logfile, db.lastSequence, next)
                           .(tables := db.disk.tables + (if table.Some? then {table.value.number} else {})),
                 writing := WroteFlush, nextFile := next);
    assert FlushWriteStep(db, table, 0, v, a);
    GoUp(s, db, FlushWrite(table, 0, v), a);
    db' := a.(version := a.disk.version, imm := None, immStart := a.memStart, writing := Nothing);
    GoUp(s, a, FlushInstall, db');
  }

  lemma MemTableCanBeSwitched(s: State, db: Db) returns (db': Db)
    requires Leads(s, Up(db)) && Reachable(Up(db)) && db.imm.None? && db.group.None?
    ensures Leads(s, Up(db')) && Reachable(Up(db')) && db'.imm.Some? && db'.writing == db.writing && db'.group.None?
    ensures db'.hist == db.hist && db'.logfile in db'.memtables && db'.memtables[db'.logfile] == {} && db'.job == db.job
  {
    db' := db.(disk := db.disk.(logs := db.disk.logs[db.nextFile := []]),
               memtables := db.memtables[db.nextFile := {}], imm := Some(db.logfile), logfile := db.nextFile,
               memStart := |db.hist|, nextFile := db.nextFile + 1);
    GoUp(s, db, SwitchMemTable, db');
  }

  /** pending_outputs_ and AddLiveFiles: what a version, a reader or a running compaction still needs. */
  ghost function Live(db: Db): set<nat> {
    db.pending + Numbers(db.version) + set r, n | r in db.readers && n in Numbers(r.version) :: n
  }

  /** RemoveObsoleteFiles leaves exactly the live tables and the logs from log_number on. */
  lemma ObsoleteCanGo(s: State, db: Db) returns (db': Db)
    requires Leads(s, Up(db)) && Reachable(Up(db)) && db.writing.Nothing?
    ensures Leads(s, Up(db')) && Reachable(Up(db')) && db' == db.(disk := db'.disk)
    ensures db'.disk.tables == Live(db) && db'.disk.logNumber == db.disk.logNumber
    ensures forall n :: n in db'.disk.logs <==> n in db.disk.logs && n >= db.disk.logNumber
  {
    ReachableOk(Up(db));
    var logs := set n | n in db.disk.logs && n >= db.disk.logNumber;
    assert forall r :: r in db.readers ==> Numbers(r.version) <= Live(db);
    db' := db.(disk := db.disk.(logs := map n | n in db.disk.logs && n in logs :: db.disk.logs[n],
                                tables := db.disk.tables * Live(db)));
    assert Live(db) <= db.disk.tables;
    GoUp(s, db, RemoveObsolete(logs, Live(db)), db');
  }

  ghost predicate PendingOk(s: State) {
    s.Up? && s.db.job.Idle? && !s.db.writing.WroteVersion? ==> s.db.pending == {}
  }

  /** Only a running compaction, or one whose result is being installed, keeps pending outputs. */
  lemma {:induction false} OnlyRunningPends(states: seq<State>, steps: seq<Step>, i: nat)
    requires IsRun(states, steps) && i < |states|
    ensures PendingOk(states[i])
  {
    if i > 0 {
      OnlyRunningPends(states, steps, i - 1);
      PendingStep(states[i - 1], steps[i - 1], states[i]);
    }
  }

  lemma PendingStep(s: State, step: Step, s': State)
    requires Next(s, step, s') && PendingOk(s)
    ensures PendingOk(s')
  {
  }

  /** From every reachable open state without a group in flight or an edit half written, the database can be brought to
      rest: the memtable empty, nothing but its log left, only live tables, and all writes in the tables. */
  lemma ComesToRest(db: Db) returns (db': Db)
    requires Reachable(Up(db)) && db.group.None? && db.writing.Nothing?
    ensures Leads(Up(db), Up(db')) && Reachable(Up(db')) && db'.hist == db.hist && db'.imm.None?
    ensures db'.disk.logs.Keys == {db'.logfile} && db'.disk.tables == Live(db') && db'.job == db.job
    ensures db'.job.Idle? ==> db'.pending == {}
    ensures forall k :: ReadsAs({}, {}, db'.version, k, |db.hist|, Read(db.hist, k, |db.hist|))
  {
    var s := Up(db);
    Stay(s);
    var a := db;
    if db.imm.Some? {
      a := ImmCanBeFlushed(s, db);
    }
    a := MemTableCanBeSwitched(s, a);
    var b := ImmCanBeFlushed(s, a);
    db' := ObsoleteCanGo(s, b);
    OneLog(db');
    if db'.job.Idle? {
      NothingPending(db');
    }
    forall k ensures ReadsAs({}, {}, db'.version, k, |db.hist|, Read(db.hist, k, |db.hist|)) {
      AtRest(db', k);
    }
  }

  lemma NothingPending(db: Db)
    requires Reachable(Up(db)) && db.job.Idle? && db.writing.Nothing?
    ensures db.pending == {}
  {
    var states, steps :| IsRun(states, steps) && states[|states| - 1] == Up(db);
    OnlyRunningPends(states, steps, |states| - 1);
  }

  lemma OneLog(db: Db)
    requires Reachable(Up(db)) && db.imm.None?
    ensures db.logfile in db.disk.logs && forall n :: n in db.disk.logs && n >= db.disk.logNumber ==> n == db.logfile
  {
    ReachableOk(Up(db));
  }

  lemma AtRest(db: Db, k: UserKey)
    requires Reachable(Up(db)) && db.imm.None? && db.logfile in db.memtables && db.memtables[db.logfile] == {}
    ensures ReadsAs({}, {}, db.version, k, |db.hist|, Read(db.hist, k, |db.hist|))
  {
    ReachableOk(Up(db));
    var states, steps :| IsRun(states, steps) && states[|states| - 1] == Up(db);
    ReadsAreCorrect(states, steps, |states| - 1, k, |db.hist|);
  }

  /** A crash can happen at any moment, and what is opened afterwards is every acknowledged write, and the group in
      flight exactly if its record was complete. */
  lemma CrashAndReopen(db: Db) returns (db': Db)
    requires Reachable(Up(db))
    ensures Leads(Up(db), Up(db')) && Reachable(Up(db'))
    ensures db'.hist == if db.group.Some? && db.group.value.logged then db.hist + db.group.value.ops else db.hist
  {
    var hist := if db.group.Some? && db.group.value.logged then db.hist + db.group.value.ops else db.hist;
    Stay(Up(db));
    Go(Up(db), Up(db), Crash, Down(db.disk, hist));
    db' := DatabaseReopens(db.disk, hist);
    LeadsOn(Up(db), Down(db.disk, hist), Up(db'));
  }

  lemma LeadsOn(s: State, t: State, u: State)
    requires Leads(s, t) && Leads(t, u)
    ensures Leads(s, u)
  {
    var a, x :| IsPath(a, x) && a[0] == s && a[|a| - 1] == t;
    var b, y :| IsPath(b, y) && b[0] == t && b[|b| - 1] == u;
    var c, z := a + b[1..], x + y;
    forall i | 0 <= i < |z| ensures Next(c[i], z[i], c[i + 1]) {
      if i < |x| {
        assert Next(a[i], x[i], a[i + 1]);
      } else {
        var j := i - |x|;
        assert Next(b[j], y[j], b[j + 1]);
        assert c[i] == b[j] && c[i + 1] == b[j + 1];
      }
    }
    assert IsPath(c, z) && c[0] == s && c[|c| - 1] == u;
  }
}

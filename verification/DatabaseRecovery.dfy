/** Crash and recovery steps keep the invariant (kv/db/db_impl.cpp Recover, RecoverLogFile, DB::Open). */
module DatabaseRecovery {
  import opened Format
  import opened History
  import opened Versions
  import opened Compactions
  import opened VersionBuilder
  import opened Edits
  import opened Wal
  import opened Faithfulness
  import opened Database
  import opened DatabaseInvariant
  import opened DatabaseVersions

  ghost predicate Ascending(ns: seq<nat>) {
    forall i, j :: 0 <= i < j < |ns| ==> ns[i] < ns[j]
  }

  /** An ascending list is determined by its members. */
  lemma {:induction false} AscendingUnique(ns: seq<nat>, ms: seq<nat>)
    requires Ascending(ns) && Ascending(ms) && forall n :: n in ns <==> n in ms
    ensures ns == ms
  {
    assert |ms| > 0 ==> ms[0] in ms;
    if ns != [] {
      assert ns[0] in ns && ms != [];
      assert ms[0] in ms;
      var i :| 0 <= i < |ns| && ns[i] == ms[0];
      var j :| 0 <= j < |ms| && ms[j] == ns[0];
      assert ns[0] == ms[0];
      forall n ensures n in ns[1..] <==> n in ms[1..] {
        AscendingTail(ns, n);
        AscendingTail(ms, n);
      }
      AscendingUnique(ns[1..], ms[1..]);
      assert ns == [ns[0]] + ns[1..] && ms == [ms[0]] + ms[1..];
    }
  }

  lemma AscendingTail(ns: seq<nat>, n: nat)
    requires Ascending(ns) && ns != []
    ensures n in ns[1..] <==> n in ns && n != ns[0]
  {
    assert ns == [ns[0]] + ns[1..];
    if n in ns[1..] {
      var i :| 0 <= i < |ns[1..]| && ns[1..][i] == n;
      assert ns[0] < ns[i + 1];
    }
  }

  lemma RecordsOne(logs: map<nat, seq<Batch>>, x: nat)
    requires x in logs
    ensures Records(logs, [x]) == logs[x]
  {
    assert [x][..0] == [];
  }

  lemma RecordsTwo(logs: map<nat, seq<Batch>>, x: nat, y: nat)
    requires x in logs && y in logs
    ensures Records(logs, [x, y]) == logs[x] + logs[y]
  {
    assert [x, y][..1] == [x];
    RecordsOne(logs, x);
  }

  /** Between them, the live logs hold every durable write that the manifest's version lacks. */
  lemma CrashLogs(db: Db, ns: seq<nat>)
    requires BasicsOk(db) && LogsOk(db) && LiveLogs(db.disk, ns)
    ensures Chain(Records(db.disk.logs, ns), DiskBound(db), Durable(db))
  {
    var d, h := db.disk, Durable(db);
    if db.imm.None? || db.writing.WroteFlush? {
      AscendingUnique(ns, [db.logfile]);
      RecordsOne(d.logs, db.logfile);
    } else {
      AscendingUnique(ns, [db.imm.value, db.logfile]);
      RecordsTwo(d.logs, db.imm.value, db.logfile);
      assert h[..db.memStart] == db.hist[..db.memStart];
      ChainConcat(d.logs[db.imm.value], d.logs[db.logfile], db.immStart, db.memStart, h);
    }
  }

  lemma CrashKeeps(db: Db)
    requires UpOk(db)
    ensures DownOk(db.disk, Durable(db))
  {
    var ops := if db.group.Some? && db.group.value.logged then db.group.value.ops else [];
    assert Durable(db) == db.hist + ops;
    FaithfulStable(db.disk.version, db.hist, DiskBound(db), DiskFloor(db), ops);
    forall ns | LiveLogs(db.disk, ns) ensures Chain(Records(db.disk.logs, ns), DiskBound(db), Durable(db)) {
      CrashLogs(db, ns);
    }
    assert DiskOk(db.disk, Durable(db), DiskBound(db), DiskFloor(db));
  }

  /** The manifest replays to the one version it describes. */
  lemma ManifestVersion(d: Disk, v: Version)
    requires ManifestOk(d) && |v| == NUM_LEVELS
    requires forall l :: 0 <= l < NUM_LEVELS ==> Saved([], ApplyAll(NOTHING, l, d.manifest), v[l])
    ensures v == d.version
  {
    forall l | 0 <= l < NUM_LEVELS ensures v[l] == d.version[l] {
      assert ReplaysLevel(d.manifest, l, d.version[l]);
      assert Saved([], ApplyAll(NOTHING, l, d.manifest), v[l]);
      ListedUnique(v[l], d.version[l]);
    }
  }

  lemma NoEdit(v: Version)
    requires WellFormed(v)
    ensures AppliedEdit(v, Edit([], Additions(0, [])), v)
  {
    forall l | 0 <= l < NUM_LEVELS ensures Applied(v[l], l, Edit([], Additions(0, [])), v[l]) {
      assert SoundLevel(l, v[l]);
      assert Additions(0, []) == [];
    }
  }

  lemma StartRecoveryKeeps(d: Disk, hist: seq<Op>, ns: seq<nat>, v: Version, s': State)
    requires DownOk(d, hist) && StartRecoveryStep(d, hist, ns, v, s')
    ensures RecoveringOk(s')
  {
    var bound, floor :| DiskOk(d, hist, bound, floor);
    ManifestVersion(d, v);
    NoEdit(v);
    ChainStart(s'.left, bound, hist);
    assert s'.upto == bound;
    assert Faithful(s'.version, s'.hist, s'.upto, floor);
  }

  lemma {:induction false} MaxOfChain(bs: seq<Batch>, a: nat, h: seq<Op>, m: nat)
    requires Chain(bs, a, h) && bs != []
    ensures MaxSequence(bs, m) == Max(|h|, m) && Through(bs[|bs| - 1]) == |h|
  {
    var front, b := bs[..|bs| - 1], bs[|bs| - 1];
    if front != [] {
      MaxOfChain(front, a, h[..b.first - 1], m);
    }
  }

  /** A record batch taken from the front of a chain is the next slice of writes. */
  lemma NextSlice(left: seq<Batch>, n: nat, upto: nat, hist: seq<Op>) returns (m: nat)
    requires Chain(left, upto, hist) && 0 < n <= |left|
    ensures upto <= m <= |hist| && m == Through(left[n - 1])
    ensures Replay(left[..n]) == Slice(hist, upto, m) && Chain(left[n..], m, hist)
    ensures forall k :: MaxSequence(left[..n], k) == Max(m, k)
  {
    m := ChainSplit(left, n, upto, hist);
    ChainReplay(left[..n], upto, hist[..m]);
    SlicePrefix(hist, upto, m);
    forall k ensures MaxSequence(left[..n], k) == Max(m, k) {
      MaxOfChain(left[..n], upto, hist[..m], k);
    }
    MaxOfChain(left[..n], upto, hist[..m], 0);
  }

  lemma AscendingFresh(level: nat, files: seq<File>)
    requires forall i, j :: 0 <= i < j < |files| ==> files[i].number < files[j].number
    ensures forall l :: FreshAdds([], l, Additions(level, files))
  {
  }

  /** One more level-0 file in the edit that recovery is building. */
  lemma MoreFilesLevel(base: seq<File>, l: nat, files: seq<File>, fs: seq<File>, f: File, fs': seq<File>)
    requires Applied(base, l, Edit([], Additions(0, files)), fs)
    requires if l == 0 then Replaced(fs, [], [f], fs') else fs' == fs
    requires forall i, j :: 0 <= i < j < |files| ==> files[i].number < files[j].number
    requires forall g :: g in files ==> g.number < f.number
    ensures Applied(base, l, Edit([], Additions(0, files + [f])), fs')
  {
    AdditionsMember(0, files);
    AdditionsMember(0, files + [f]);
    AscendingFresh(0, files);
    AscendingFresh(0, files + [f]);
    EditLevel(NOTHING, l, Edit([], Additions(0, files)));
    EditLevel(NOTHING, l, Edit([], Additions(0, files + [f])));
  }

  lemma MoreFiles(base: Version, files: seq<File>, v: Version, f: File, v': Version)
    requires AppliedEdit(base, Edit([], Additions(0, files)), v) && Added(v, 0, f, v')
    requires forall i, j :: 0 <= i < j < |files| ==> files[i].number < files[j].number
    requires forall g :: g in files ==> g.number < f.number
    ensures AppliedEdit(base, Edit([], Additions(0, files + [f])), v')
  {
    forall l | 0 <= l < NUM_LEVELS ensures Applied(base[l], l, Edit([], Additions(0, files + [f])), v'[l]) {
      assert Applied(base[l], l, Edit([], Additions(0, files)), v[l]);
      MoreFilesLevel(base[l], l, files, v[l], f, v'[l]);
    }
  }

  /** Records without operations change nothing but what is left to read. */
  lemma RecoverEmptyRest(left: seq<Batch>, n: nat, upto: nat, hist: seq<Op>, k: nat)
    requires Chain(left, upto, hist) && 0 < n <= |left| && Replay(left[..n]) == {}
    ensures Through(left[n - 1]) == upto <= |hist| && Chain(left[n..], upto, hist) && MaxSequence(left[..n], k) == Max(upto, k)
  {
    var m := NextSlice(left, n, upto, hist);
    if upto < m {
      NonemptySlice(hist, upto, m);
    }
  }

  lemma RecoverEmptyKeeps(s: State, n: nat, v: Version, s': State)
    requires s.Recovering? && RecoveringOk(s) && RecoverTableStep(s, n, None, v, s')
    ensures RecoveringOk(s')
  {
    RecoverEmptyRest(s.left, n, s.upto, s.hist, s.maxSequence);
    assert s' == s.(left := s.left[n..], maxSequence := Max(s.upto, s.maxSequence));
  }

  lemma MoreFilesOk(d: Disk, files: seq<File>, v: Version, nextFile: nat, f: File, v': Version)
    requires NewFilesOk(d, files, v, nextFile) && f.number >= nextFile && Added(v, 0, f, v')
    ensures NewFilesOk(d, files + [f], v', f.number + 1)
  {
    MoreFiles(d.version, files, v, f, v');
    forall l, g | 0 <= l < |v'| && g in v'[l] ensures g.number < f.number + 1 {
      assert g in v[l] || g == f;
    }
    forall i | 0 <= i < |files| ensures files[i].number < f.number {
      assert files[i] in files;
    }
  }

  /** The next slice of writes, as a level-0 file, extends the recovered version. */
  lemma RecoverFileExtends(v: Version, hist: seq<Op>, upto: nat, m: nat, nextFile: nat, f: File, v': Version)
    requires upto <= m <= |hist| && Entries([f]) == Slice(hist, upto, m) && RecoveredOk(v, hist, upto)
    requires ValidFile(f) && f.number >= nextFile && NumbersBelow(v, nextFile) && Added(v, 0, f, v')
    ensures RecoveredOk(v', hist, m)
  {
    var floor: nat :| floor <= |hist| && Faithful(v, hist, upto, floor);
    FaithfulFlush(v, hist, upto, m, floor, 0, f, v');
  }

  lemma RecoverFileKeeps(s: State, n: nat, f: File, v: Version, s': State)
    requires s.Recovering? && RecoveringOk(s) && RecoverTableStep(s, n, Some(f), v, s')
    ensures RecoveringOk(s')
  {
    var m := NextSlice(s.left, n, s.upto, s.hist);
    RecoverFileExtends(s.version, s.hist, s.upto, m, s.nextFile, f, v);
    MoreFilesOk(s.disk, s.files, s.version, s.nextFile, f, v);
  }

  lemma RecoverTableKeeps(s: State, n: nat, table: Option<File>, v: Version, s': State)
    requires s.Recovering? && RecoveringOk(s) && RecoverTableStep(s, n, table, v, s')
    ensures RecoveringOk(s')
  {
    match table
    case None => RecoverEmptyKeeps(s, n, v, s');
    case Some(f) => RecoverFileKeeps(s, n, f, v, s');
  }

  lemma {:induction false} SnapshotMember(v: Version, n: nat)
    requires n <= |v|
    ensures forall l: nat, f :: (l, f) in SnapshotAdds(v, n) <==> l < n && f in v[l]
  {
    if n > 0 {
      SnapshotMember(v, n - 1);
      AdditionsMember(n - 1, v[n - 1]);
    }
  }

  lemma LevelFresh(v: Version, l: nat)
    requires UniqueNumbers(v) && l < |v| && Listed(v[l])
    ensures forall i, j :: 0 <= i < j < |v[l]| ==> v[l][i].number != v[l][j].number
  {
    forall i, j | 0 <= i < j < |v[l]| ensures v[l][i].number != v[l][j].number {
      assert v[l][i] in v[l] && v[l][j] in v[l];
      assert BySmallest(v[l][i], v[l][j]);
    }
  }

  lemma {:induction false} SnapshotFresh(v: Version, n: nat, l: nat)
    requires WellFormed(v) && n <= |v|
    ensures FreshAdds([], l, SnapshotAdds(v, n))
  {
    if n > 0 {
      SnapshotFresh(v, n - 1, l);
      SnapshotMember(v, n - 1);
      assert SoundLevel(n - 1, v[n - 1]);
      LevelFresh(v, n - 1);
      var a, b := SnapshotAdds(v, n - 1), Additions(n - 1, v[n - 1]);
      var c: seq<(nat, File)> := a + b;
      forall i, j | 0 <= i < j < |c| && c[i].0 == l == c[j].0 ensures c[i].1.number != c[j].1.number {
        assert i < |a| ==> (c[i].0, c[i].1) in a;
      }
    }
  }

  lemma SnapshotLevel(fs: seq<File>, adds: seq<(nat, File)>, l: nat)
    requires Listed(fs) && FreshAdds([], l, adds) && forall f :: (l, f) in adds <==> f in fs
    ensures ReplaysLevel([Edit([], adds)], l, fs)
  {
    var e := Edit([], adds);
    EditLevel(NOTHING, l, e);
    assert [e][..0] == [];
  }

  /** WriteSnapshot: a manifest with the one snapshot record replays to the version. */
  lemma SnapshotReplays(v: Version)
    requires WellFormed(v)
    ensures Replays([Edit([], SnapshotAdds(v, NUM_LEVELS))], v)
    ensures AllAdds([Edit([], SnapshotAdds(v, NUM_LEVELS))]) == SnapshotAdds(v, NUM_LEVELS)
  {
    SnapshotMember(v, NUM_LEVELS);
    AddsReplay(v, SnapshotAdds(v, NUM_LEVELS)) by {
      forall l | 0 <= l < NUM_LEVELS ensures FreshAdds([], l, SnapshotAdds(v, NUM_LEVELS)) {
        SnapshotFresh(v, NUM_LEVELS, l);
      }
    }
  }

  lemma AddsReplay(v: Version, adds: seq<(nat, File)>)
    requires WellFormed(v) && forall l: nat, f :: (l, f) in adds <==> l < NUM_LEVELS && f in v[l]
    requires forall l :: 0 <= l < NUM_LEVELS ==> FreshAdds([], l, adds)
    ensures Replays([Edit([], adds)], v) && AllAdds([Edit([], adds)]) == adds
  {
    AllAddsExtend([], Edit([], adds));
    assert [] + [Edit([], adds)] == [Edit([], adds)];
    forall l | 0 <= l < NUM_LEVELS ensures ReplaysLevel([Edit([], adds)], l, v[l]) {
      assert SoundLevel(l, v[l]);
      SnapshotLevel(v[l], adds, l);
    }
  }

  lemma NewFilesFresh(d: Disk, files: seq<File>, v: Version, nextFile: nat)
    requires NewFilesOk(d, files, v, nextFile) && WellFormed(d.version) && NumbersBelow(d.version, d.nextFile)
    ensures FreshFor([Edit([], SnapshotAdds(d.version, NUM_LEVELS))], Edit([], Additions(0, files)))
  {
    var e := Edit([], Additions(0, files));
    SnapshotReplays(d.version);
    SnapshotMember(d.version, NUM_LEVELS);
    AscendingFresh(0, files);
    forall l, f, j | (l, f) in SnapshotAdds(d.version, NUM_LEVELS) && 0 <= j < |e.added| && e.added[j].0 == l
      ensures f.number != e.added[j].1.number
    {
      assert e.added[j] == (0, files[j]) && files[j] in files;
    }
  }

  lemma NewManifestReplays(d: Disk, files: seq<File>, v: Version, nextFile: nat)
    requires NewFilesOk(d, files, v, nextFile) && WellFormed(d.version) && NumbersBelow(d.version, d.nextFile)
    ensures var m := [Edit([], SnapshotAdds(d.version, NUM_LEVELS)), Edit([], Additions(0, files))];
            && Replays(m, v)
            && AllAdds(m) == SnapshotAdds(d.version, NUM_LEVELS) + Additions(0, files)
  {
    var snap, e := Edit([], SnapshotAdds(d.version, NUM_LEVELS)), Edit([], Additions(0, files));
    SnapshotReplays(d.version);
    NewFilesFresh(d, files, v, nextFile);
    ReplaysExtend([snap], d.version, e, v);
    AllAddsExtend([snap], e);
    assert [snap] + [e] == [snap, e];
  }

  lemma NewFilesFrom(d: Disk, files: seq<File>, v: Version, nextFile: nat, l: nat, g: File)
    requires NewFilesOk(d, files, v, nextFile) && l < NUM_LEVELS && g in v[l]
    ensures g in d.version[l] || (l == 0 && g in files)
  {
    var e := Edit([], Additions(0, files));
    assert Applied(d.version[l], l, e, v[l]);
    AscendingFresh(0, files);
    AdditionsMember(0, files);
    EditLevel(NOTHING, l, e);
  }

  /** The manifest written at the end of recovery is in order. */
  lemma NewManifestOk(d: Disk, files: seq<File>, v: Version, nextFile: nat, d': Disk)
    requires NewFilesOk(d, files, v, nextFile) && WellFormed(d.version) && NumbersBelow(d.version, d.nextFile)
    requires d'.manifest == [Edit([], SnapshotAdds(d.version, NUM_LEVELS)), Edit([], Additions(0, files))]
    requires d'.version == v && nextFile < d'.nextFile
    ensures ManifestOk(d')
  {
    NewManifestReplays(d, files, v, nextFile);
    SnapshotMember(d.version, NUM_LEVELS);
    AdditionsMember(0, files);
    forall l, g | 0 <= l < |v| && g in v[l] ensures g in d.version[l] || (l == 0 && g in files) {
      NewFilesFrom(d, files, v, nextFile, l, g);
    }
  }

  lemma NewTables(d: Disk, files: seq<File>, v: Version, nextFile: nat)
    requires NewFilesOk(d, files, v, nextFile) && Numbers(d.version) <= d.tables
    ensures Numbers(v) <= d.tables + set f | f in files :: f.number
  {
    forall n | n in Numbers(v) ensures n in d.tables + set f | f in files :: f.number {
      var l, g :| 0 <= l < |v| && g in v[l] && g.number == n;
      NewFilesFrom(d, files, v, nextFile, l, g);
      if g in d.version[l] {
        assert n in Numbers(d.version);
      }
    }
  }

  lemma FinishRecoveryKeeps(s: State, log: nat, s': State)
    requires s.Recovering? && RecoveringOk(s) && FinishRecoveryStep(s, log, s')
    ensures s'.Up? && UpOk(s'.db)
  {
    var bound, floor :| DiskOk(s.disk, s.hist, bound, floor);
    var floor': nat :| floor' <= |s.hist| && Faithful(s.version, s.hist, s.upto, floor');
    var db := s'.db;
    FaithfulHigher(s.version, s.hist, |s.hist|, floor', |s.hist|);
    NewManifestOk(s.disk, s.files, s.version, s.nextFile, db.disk);
    NewTables(s.disk, s.files, s.version, s.nextFile);
    FinishedTables(db, log);
  }

  /** A freshly opened database: empty memtable, empty log. */
  lemma FinishedTables(db: Db, log: nat)
    requires db.lastSequence == db.immStart == db.memStart == db.floor == |db.hist| < MAX_SEQUENCE
    requires db.group.None? && db.imm.None? && db.snapshots == multiset{} && db.writing.Nothing?
    requires db.memtables == map[log := {}] && db.logfile == log < db.nextFile
    requires db.disk.logNumber == log && log in db.disk.logs && db.disk.logs[log] == []
    requires forall n :: n in db.disk.logs ==> n <= log
    ensures BasicsOk(db) && MemTablesOk(db) && LogsOk(db)
  {
    assert Slice(db.hist, |db.hist|, |db.hist|) == {};
  }

  function Without(ns: seq<nat>, x: nat): seq<nat> {
    if ns == [] then []
    else if ns[|ns| - 1] == x then Without(ns[..|ns| - 1], x)
    else Without(ns[..|ns| - 1], x) + [ns[|ns| - 1]]
  }

  lemma {:induction false} WithoutMember(ns: seq<nat>, x: nat)
    requires Ascending(ns)
    ensures forall n :: n in Without(ns, x) <==> n in ns && n != x
    ensures Ascending(Without(ns, x))
  {
    if ns != [] {
      var front, n := ns[..|ns| - 1], ns[|ns| - 1];
      WithoutMember(front, x);
      var rest := Without(front, x);
      assert ns == front + [n];
      forall i | 0 <= i < |rest| ensures rest[i] < n {
        assert rest[i] in rest;
      }
    }
  }

  lemma {:induction false} WithoutRecords(ns: seq<nat>, x: nat, logs: map<nat, seq<Batch>>)
    requires x !in logs
    ensures Records(logs, Without(ns, x)) == Records(logs[x := []], ns)
  {
    if ns != [] {
      var front, n := ns[..|ns| - 1], ns[|ns| - 1];
      WithoutRecords(front, x, logs);
      var rest := Without(front, x);
      if n != x {
        assert (rest + [n])[..|rest|] == rest;
      }
    }
  }

  /** An empty log and stray tables change nothing that recovery would find. */
  lemma FailRecoveryKeeps(d: Disk, hist: seq<Op>, log: nat, tables: set<nat>)
    requires DownOk(d, hist) && log !in d.logs
    ensures DownOk(d.(logs := d.logs[log := []], tables := d.tables + tables), hist)
  {
    var bound, floor :| DiskOk(d, hist, bound, floor);
    var d' := d.(logs := d.logs[log := []], tables := d.tables + tables);
    forall ns | LiveLogs(d', ns) ensures Chain(Records(d'.logs, ns), bound, hist) {
      WithoutMember(ns, log);
      WithoutRecords(ns, log, d.logs);
      assert LiveLogs(d, Without(ns, log));
    }
    assert DiskOk(d', hist, bound, floor);
  }
}

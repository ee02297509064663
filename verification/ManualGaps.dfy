/** A manual compaction may leave gaps between its inputs, and a memtable flushed into one while it runs may end up
    between its outputs (kv/db/version_set.cpp CompactRange and PickLevelForMemTableOutput). */
module ManualGaps {
  import opened Format
  import opened History
  import opened Lookup
  import opened Versions
  import opened Compactions
  import opened Selection
  import opened Picking
  import opened CompactionWork
  import opened OutputCuts
  import opened InputStreams
  import opened VersionBuilder
  import opened Edits
  import opened Background
  import opened Examples

  /** `v''` is `v` after the compaction `c` has installed the outputs `outs`. */
  ghost predicate Result(v: Version, c: Compaction, outs: seq<File>, v': Version) {
    Holds(v, c) && FreshOutputs(v, c, outs) && Entries(outs) == Kept(c) && Installed(v, c, outs, v')
  }

  lemma InOrderApart(fs: seq<File>, f: File, g: File)
    requires f in fs && g in fs && f != g && InOrder(fs)
    ensures Lt(f.largest, g.smallest) || Lt(g.largest, f.smallest)
  {
    var i :| 0 <= i < |fs| && fs[i] == f;
    var j :| 0 <= j < |fs| && fs[j] == g;
  }

  /** An output with entries on both sides of another file of the level. */
  lemma SpanBreaksOrder(fs: seq<File>, f: File, out: File)
    requires f in fs && out in fs && ValidFile(f) && ValidFile(out) && Straddles(Entries([out]), f)
    ensures !InOrder(fs)
  {
    var d, e :| d in Entries([out]) && e in Entries([out]) && d.User() < f.Lo() && f.Hi() < e.User();
    FileBounds(out, d);
    FileBounds(out, e);
    FileBounds(f, f.entries[0]);
    if InOrder(fs) {
      InOrderApart(fs, f, out);
    }
  }

  lemma TableOf(es: seq<Entry>, n: nat) returns (out: File)
    requires es != [] && Sorted(es) && forall e :: e in es ==> e.Seq() <= MAX_SEQUENCE
    ensures ValidFile(out) && out.number == n && forall e :: e in Entries([out]) <==> e in es
  {
    out := File(n, 0, es[0].ikey, es[|es| - 1].ikey, es);
    assert out in [out];
  }

  lemma KeptDistinct(v: Version, c: Compaction)
    requires WellFormed(v) && Holds(v, c) && Distinct(Entries(c.Inputs()))
    ensures Distinct(Kept(c)) && forall e :: e in Kept(c) ==> e.Seq() <= MAX_SEQUENCE
  {
    InputsValid(v, c);
    forall e | e in Kept(c) ensures e.Seq() <= MAX_SEQUENCE {
      var f :| f in c.Inputs() && e in f.entries;
      assert ValidFile(f);
    }
  }

  /** A table with all that the compaction keeps. */
  lemma OneOutput(v: Version, c: Compaction, n: nat) returns (out: File)
    requires WellFormed(v) && Holds(v, c) && Distinct(Entries(c.Inputs())) && Kept(c) != {}
    ensures ValidFile(out) && Entries([out]) == Kept(c) && out.number == n
  {
    KeptDistinct(v, c);
    var es := SortSet(Kept(c));
    assert es == [] ==> Kept(c) == {};
    out := TableOf(es, n);
  }

  lemma OneIsFresh(v: Version, c: Compaction, out: File)
    requires ValidFile(out) && Entries([out]) <= Entries(c.Inputs())
    requires forall l, g :: 0 <= l < |v| && g in v[l] ==> g.number < out.number
    ensures FreshOutputs(v, c, [out])
  {
  }

  lemma FreshOutput(v: Version, c: Compaction, n: nat) returns (out: File)
    requires WellFormed(v) && Holds(v, c) && Distinct(Entries(c.Inputs())) && Kept(c) != {}
    requires forall l, g :: 0 <= l < |v| && g in v[l] ==> g.number < n
    ensures ValidFile(out) && Entries([out]) == Kept(c) && out.number == n && FreshOutputs(v, c, [out])
  {
    out := OneOutput(v, c, n);
    OneIsFresh(v, c, out);
  }

  function Without(fs: seq<File>, gone: seq<File>): seq<File> {
    if fs == [] then []
    else Without(fs[..|fs| - 1], gone) + if fs[|fs| - 1] in gone then [] else [fs[|fs| - 1]]
  }

  lemma {:induction false} WithoutSpec(fs: seq<File>, gone: seq<File>)
    ensures forall f :: f in Without(fs, gone) <==> f in fs && f !in gone
    ensures Listed(fs) ==> Listed(Without(fs, gone))
  {
    if fs != [] {
      var n := |fs| - 1;
      WithoutSpec(fs[..n], gone);
      assert fs == fs[..n] + [fs[n]];
      if Listed(fs) && fs[n] !in gone {
        OrderSnoc(fs, Without(fs[..n], gone));
      }
    }
  }

  /** There is a version to install one output in. */
  lemma InstallOne(v: Version, c: Compaction, out: File) returns (v': Version)
    requires WellFormed(v) && Holds(v, c) && forall g :: g in v[c.level + 1] ==> g.number != out.number
    ensures Installed(v, c, [out], v')
  {
    assert SoundLevel(c.level, v[c.level]) && SoundLevel(c.level + 1, v[c.level + 1]);
    WithoutSpec(v[c.level], c.in0);
    WithoutSpec(v[c.level + 1], c.in1);
    InsertFileSpec(Without(v[c.level + 1], c.in1), out);
    v' := v[c.level := Without(v[c.level], c.in0)][c.level + 1 := InsertFile(Without(v[c.level + 1], c.in1), out)];
  }

  /** The output level is in order after the compaction, wherever the loop cuts its outputs. */
  ghost predicate StaysInOrder(v: Version, c: Compaction) {
    c.level + 1 < |v| && forall outs, v' :: Result(v, c, outs, v') ==> InOrder(v'[c.level + 1])
  }

  /** A table is flushed to the output level of a compaction, clear of everything there and above, while the compaction
      runs.  The level stays in order exactly if the compaction does not keep entries on both sides of the table. */
  lemma FlushFits(v: Version, c: Compaction, f: File, v': Version)
    requires WellFormed(v) && Layered(v) && Ready(v, c) && Distinct(Entries(c.Inputs()))
    requires Youngest(v, f) && Clear(v, c.level + 1, f) && Added(v, c.level + 1, f, v')
    ensures StaysInOrder(v', c) <==> !Straddles(Kept(c), f)
  {
    FlushKeepsShape(v, c.level + 1, f, v');
    if Straddles(Kept(c), f) {
      FlushBreaks(v, c, f, v');
    } else {
      FlushHarmless(v, c, f, v');
    }
  }

  lemma FlushHarmless(v: Version, c: Compaction, f: File, v': Version)
    requires WellFormed(v) && Ready(v, c) && Youngest(v, f) && Clear(v, c.level + 1, f) && Added(v, c.level + 1, f, v')
    requires WellFormed(v') && !Straddles(Kept(c), f)
    ensures StaysInOrder(v', c)
  {
    ReadyInstalls(v, c, Kept(c));
    FlushKeepsInstallable(v, c.level + 1, f, v', c, Kept(c));
    assert SoundLevel(c.level + 1, v'[c.level + 1]);
    forall outs, v'' | Result(v', c, outs, v'') ensures InOrder(v''[c.level + 1]) {
      OutputsInOrder(v', c, outs, v''[c.level + 1]);
    }
  }

  lemma FlushedNumbers(v: Version, p: nat, f: File, v': Version)
    requires Youngest(v, f) && Added(v, p, f, v')
    ensures forall l, g :: 0 <= l < |v'| && g in v'[l] ==> g.number <= f.number
  {
    forall l, g | 0 <= l < |v'| && g in v'[l] ensures g.number <= f.number {
      assert g == f || g in v[l];
    }
  }

  lemma FlushBreaks(v: Version, c: Compaction, f: File, v': Version)
    requires WellFormed(v) && Holds(v, c) && Distinct(Entries(c.Inputs()))
    requires Youngest(v, f) && Added(v, c.level + 1, f, v') && WellFormed(v') && Straddles(Kept(c), f)
    ensures !StaysInOrder(v', c)
  {
    FlushedNumbers(v, c.level + 1, f, v');
    FlushedHolds(v, c, f, v');
    BetweenBreaks(v', c, f);
  }

  lemma BetweenBreaks(v: Version, c: Compaction, f: File)
    requires WellFormed(v) && Holds(v, c) && f in v[c.level + 1] && f !in c.in1 && ValidFile(f)
    requires Distinct(Entries(c.Inputs())) && Straddles(Kept(c), f)
    requires forall l, g :: 0 <= l < |v| && g in v[l] ==> g.number <= f.number
    ensures !StaysInOrder(v, c)
  {
    var out := FreshOutput(v, c, f.number + 1);
    OneBreaks(v, c, f, out);
  }

  lemma OneBreaks(v: Version, c: Compaction, f: File, out: File)
    requires WellFormed(v) && Holds(v, c) && f in v[c.level + 1] && f !in c.in1 && ValidFile(out) && ValidFile(f)
    requires FreshOutputs(v, c, [out]) && Entries([out]) == Kept(c) && Straddles(Kept(c), f)
    requires forall g :: g in v[c.level + 1] ==> g.number != out.number
    ensures !StaysInOrder(v, c)
  {
    var v' := InstallOne(v, c, out);
    SpanInstalled(v, c, f, out, v');
    assert Result(v, c, [out], v');
  }

  lemma SpanInstalled(v: Version, c: Compaction, f: File, out: File, v': Version)
    requires Holds(v, c) && f in v[c.level + 1] && f !in c.in1 && Installed(v, c, [out], v')
    requires ValidFile(out) && ValidFile(f) && Straddles(Entries([out]), f)
    ensures |v'| == NUM_LEVELS && !InOrder(v'[c.level + 1])
  {
    SpanBreaksOrder(v'[c.level + 1], f, out);
  }

  lemma FlushedHolds(v: Version, c: Compaction, f: File, v': Version)
    requires Holds(v, c) && Youngest(v, f) && Added(v, c.level + 1, f, v')
    ensures Holds(v', c) && f in v'[c.level + 1] && f !in c.in1
  {
  }

  // ---- The code does it ----

  /** Two files at level 1 and `level2` below them. */
  ghost predicate Flanked(v: Version, a: File, b: File, level2: seq<File>) {
    && |v| == NUM_LEVELS && v[1] == [a, b] && v[2] == level2
    && forall l :: 0 <= l < NUM_LEVELS && l != 1 && l != 2 ==> v[l] == []
  }

  /** A manual compaction of `a` and `b` when nothing lies below them. */
  function Manual(v: Version, a: File, b: File, h: nat): Compaction {
    Compaction(1, [a, b], [], a.smallest, b.largest, v, h)
  }

  lemma PairInOrder(fs: seq<File>, a: File, b: File)
    requires InOrder(fs) && a in fs && b in fs && (forall f :: f in fs ==> f == a || f == b)
    requires ValidFile(a) && ValidFile(b) && Lt(a.largest, b.smallest)
    ensures fs == [a, b]
  {
    FileBounds(a, a.entries[0]);
    FileBounds(b, b.entries[0]);
    var i :| 0 <= i < |fs| && fs[i] == a;
    var j :| 0 <= j < |fs| && fs[j] == b;
    forall n | 0 <= n < |fs| ensures (fs[n] == a && n == i) || (fs[n] == b && n == j) {
      assert fs[n] in fs;
    }
    var p, q := if |fs| > 1 then 1 else 0, if |fs| > 2 then 2 else 0;
    assert fs[0] in fs && fs[p] in fs && fs[q] in fs;
  }

  lemma PairSelected(v: Version, a: File, b: File, c: Compaction)
    requires Flanked(v, a, b, []) && WellFormed(v) && Selected(v, 1, c) && a in c.in0 && b in c.in0
    ensures c == Manual(v, a, b, c.horizon)
  {
    PairBounds(v, a, b);
    PairInOrder(c.in0, a, b);
    NothingUnder(v, a, b, c);
    PairRange(a, b, c.start, c.limit);
  }

  lemma PairBounds(v: Version, a: File, b: File)
    requires Flanked(v, a, b, []) && WellFormed(v)
    ensures ValidFile(a) && ValidFile(b) && Lt(a.largest, b.smallest) && a in v[1] && b in v[1]
  {
    assert SoundLevel(1, v[1]);
    assert Lt(v[1][0].largest, v[1][1].smallest);
  }

  lemma NothingUnder(v: Version, a: File, b: File, c: Compaction)
    requires Flanked(v, a, b, []) && c.level == 1 && TakesUnder(v, c)
    ensures c.in1 == []
  {
    SomeMember(c.in1);
    var x, y :| Under(v, c, x, y);
  }

  lemma SomeMember(fs: seq<File>)
    ensures fs == [] || exists f :: f in fs
  {
    if fs != [] {
      assert fs[0] in fs;
    }
  }

  lemma PairRange(a: File, b: File, start: IKey, limit: IKey)
    requires ValidFile(a) && ValidFile(b) && Lt(a.largest, b.smallest) && IsRange([a, b] + [], start, limit)
    ensures start == a.smallest && limit == b.largest
  {
    FileBounds(a, a.entries[0]);
    FileBounds(b, b.entries[0]);
    assert [a, b] + [] == [a, b];
    assert a in [a, b] && b in [a, b];
  }

  lemma WholeLevel(a: File, b: File)
    ensures Overlapping([a, b], None, None) == [a, b] && Overlapping([], None, None) == []
  {
    assert [a, b][..1] == [a] && [a][..0] == [];
    assert Overlapping([a], None, None) == [a];
  }

  /** CompactRange over everything takes both files ... */
  method PickedBoth(v: Version, a: File, b: File, max_file_size: nat)
    returns (c: Compaction, grandparents: seq<File>)
    requires Flanked(v, a, b, []) && WellFormed(v) && Distinct(Entries(v[1])) && a.size < max_file_size
    ensures c == Manual(v, a, b, c.horizon) && grandparents == [] && Selected(v, 1, c)
  {
    PairBounds(v, a, b);
    var r, gs, seed := CompactRange(v, 1, None, None, max_file_size);
    WholeLevel(a, b);
    assert InRange(a, None, None);
    SeedIsPair(a, b, max_file_size, seed);
    PairSelected(v, a, b, r.value);
    c, grandparents := r.value, gs;
  }

  /** ... and PickLevelForMemTableOutput sends a table between them to level 2. */
  method PickedBetween(v: Version, a: File, b: File, f: File, max_file_size: nat) returns (level: nat)
    requires Flanked(v, a, b, []) && WellFormed(v) && a.Hi() < f.Lo() <= f.Hi() < b.Lo()
    ensures level == 2 && Clear(v, 2, f)
  {
    level := PickLevelForMemTableOutput(v, f.Lo(), f.Hi(), max_file_size);
    NothingInGap(v, a, b, f, max_file_size);
    PickedLevelClear(v, level, f, max_file_size);
  }

  lemma NothingInGap(v: Version, a: File, b: File, f: File, max_file_size: nat)
    requires Flanked(v, a, b, []) && a.Hi() < f.Lo() <= f.Hi() < b.Lo()
    ensures !OverlapsLevel(v, 0, f.Lo(), f.Hi()) && StepsDown(v, 0, f.Lo(), f.Hi(), max_file_size)
    ensures StepsDown(v, 1, f.Lo(), f.Hi(), max_file_size)
  {
    assert Overlapping([], Some(f.Lo()), Some(f.Hi())) == [] && TotalFileSize([]) == 0;
  }

  lemma SeedIsPair(a: File, b: File, limit: nat, seed: seq<File>)
    requires CutAt([a, b], limit, seed) && a.size < limit && seed != []
    ensures seed == [a, b]
  {
    assert TotalFileSize([a]) == a.size;
    assert |seed| == 1 ==> seed == [a];
  }

  lemma ManualInputs(v: Version, a: File, b: File, h: nat)
    requires Flanked(v, a, b, [])
    ensures Entries(Manual(v, a, b, h).Inputs()) == Entries(v[1])
  {
    assert [a, b] + [] == [a, b];
  }

  /** With room in one output file, what the loop writes for such a compaction is one file on both sides of the table. */
  method RunInGap(c: Compaction, ghost f: File, first: nat, l: Limits) returns (out: File)
    requires Runnable(c) && c.level + 1 < NUM_LEVELS && c.horizon < MAX_SEQUENCE && Straddles(Kept(c), f)
    requires l.grandparents == [] && forall es :: l.fileSize(es) < l.max_output
    ensures ValidFile(out) && Entries([out]) == Kept(c) && out.number >= first
  {
    var input := MakeInputIterator(c);
    var stream := ReadInput(input);
    var outs, _ := DoCompactionWork(c, stream, first, l);
    OneFull(l, c, stream, outs);
    out := outs[0];
  }

  lemma OneFull(l: Limits, c: Compaction, stream: seq<Entry>, outs: seq<File>)
    requires Kept(c) != {} && Entries(outs) == Kept(c) && WellCut(l, c, stream, outs)
    requires l.grandparents == [] && forall es :: l.fileSize(es) < l.max_output
    ensures |outs| == 1 && outs == [outs[0]]
  {
    SomeMember(outs);
    forall k | 0 <= k < |outs| - 1 ensures l.fileSize(outs[k].entries) >= l.max_output {
      EndedFull(l, c, stream, outs[k]);
    }
    assert |outs| > 1 ==> l.fileSize(outs[0].entries) >= l.max_output;
  }

  /** All of it: the manual compaction is chosen, the table is flushed to the level picked for it, the loop runs, and
      LogAndApply installs a version whose level 2 is out of order. */
  method GapHappens(v: Version, a: File, b: File, f: File, h: nat, max_file_size: nat, l: Limits)
    returns (v': Version, v'': Version)
    requires Flanked(v, a, b, []) && WellFormed(v) && Layered(v) && Distinct(All(v)) && a.size < max_file_size
    requires Youngest(v, f) && a.Hi() < f.Lo() <= f.Hi() < b.Lo()
    requires h < MAX_SEQUENCE && Straddles(Kept(Manual(v, a, b, h)), f)
    requires l.grandparents == [] && forall es :: l.fileSize(es) < l.max_output
    ensures WellFormed(v') && |v''| == NUM_LEVELS && !InOrder(v''[2])
  {
    LevelDistinct(v, 1);
    var picked, _ := PickedBoth(v, a, b, max_file_size);
    AtHorizon(v, 1, picked, h);
    var c := picked.(horizon := h);
    var level := PickedBetween(v, a, b, f, max_file_size);
    v' := FlushInGap(v, f, level);
    var out := RunInGap(c, f, f.number + 1, l);
    v'' := InstallInGap(v, c, f, v', out);
  }

  lemma LevelDistinct(v: Version, l: nat)
    requires l < |v| && Distinct(All(v))
    ensures Distinct(Entries(v[l]))
  {
    assert forall e :: e in Entries(v[l]) ==> e in All(v);
  }

  method FlushInGap(v: Version, f: File, level: nat) returns (v': Version)
    requires WellFormed(v) && Layered(v) && level < NUM_LEVELS && Youngest(v, f) && Clear(v, level, f)
    ensures Added(v, level, f, v') && WellFormed(v')
  {
    FlushEditFresh(v, level, f, f.number);
    v' := LogAndApply(v, FlushEdit(level, f));
    FlushEditAdds(v, level, f, v');
    FlushKeepsShape(v, level, f, v');
  }

  method InstallInGap(ghost v: Version, c: Compaction, ghost f: File, v': Version, out: File) returns (v'': Version)
    requires Holds(v, c) && WellFormed(v') && Youngest(v, f) && Added(v, c.level + 1, f, v')
    requires ValidFile(out) && Entries([out]) == Kept(c) && out.number > f.number && Straddles(Kept(c), f)
    ensures |v''| == NUM_LEVELS && !InOrder(v''[c.level + 1])
  {
    FlushedNumbers(v, c.level + 1, f, v');
    FlushedHolds(v, c, f, v');
    v'' := InstallApplied(v', c, f, out);
  }

  method InstallApplied(v: Version, c: Compaction, ghost f: File, out: File) returns (v': Version)
    requires WellFormed(v) && Holds(v, c) && f in v[c.level + 1] && f !in c.in1 && ValidFile(f)
    requires ValidFile(out) && Straddles(Entries([out]), f)
    requires forall l, g :: 0 <= l < |v| && g in v[l] ==> g.number < out.number
    ensures |v'| == NUM_LEVELS && !InOrder(v'[c.level + 1])
  {
    CompactionEditFresh(v, c, [out], out.number, out.number + 1);
    v' := LogAndApply(v, CompactionEdit(c, [out]));
    CompactionEditInstalls(v, c, [out], v');
    SpanInstalled(v, c, f, out, v');
  }

  // ---- One such version ----

  function Left(): File { Table(4, [Stored(LOW, 1)]) }
  function Right(): File { Table(5, [Stored(HIGH, 2)]) }
  function Between(): File { Table(6, [Stored(MID, 3)]) }
  function Gapped(): Version { [[], [Left(), Right()], [], [], [], [], []] }

  lemma FlankedMember(v: Version, a: File, b: File, l: nat, g: File)
    requires Flanked(v, a, b, []) && l < NUM_LEVELS
    ensures g in v[l] <==> l == 1 && (g == a || g == b)
  {
  }

  lemma FlankedLevels(v: Version, a: File, b: File)
    requires Flanked(v, a, b, []) && ValidFile(a) && ValidFile(b) && Lt(a.largest, b.smallest) && Lt(a.smallest, b.smallest)
    ensures forall l: nat :: l < NUM_LEVELS ==> SoundLevel(l, v[l])
  {
    forall l: nat | l < NUM_LEVELS ensures SoundLevel(l, v[l]) {
    }
  }

  lemma FlankedShape(v: Version, a: File, b: File)
    requires Flanked(v, a, b, []) && ValidFile(a) && ValidFile(b) && Lt(a.largest, b.smallest) && Lt(a.smallest, b.smallest)
    requires a.number != b.number
    ensures WellFormed(v)
  {
    FlankedLevels(v, a, b);
    forall l, m, f, g | 0 <= l < |v| && 0 <= m < |v| && f in v[l] && g in v[m] && f.number == g.number
      ensures l == m && f == g
    {
      FlankedMember(v, a, b, l, f);
      FlankedMember(v, a, b, m, g);
    }
  }

  /** Two files of one entry each, and a younger table between them. */
  ghost predicate Around(v: Version, a: File, b: File, f: File, x: Entry, y: Entry) {
    && Flanked(v, a, b, []) && a.entries == [x] && b.entries == [y] && ValidFile(f)
    && x.User() < f.Lo() && f.Hi() < y.User() && x.Seq() != y.Seq() && !x.IsDeletion() && !y.IsDeletion()
    && a.number < f.number && b.number < f.number && forall e :: e in f.entries ==> e.Seq() > x.Seq() && e.Seq() > y.Seq()
  }

  lemma AroundEntries(v: Version, a: File, b: File, f: File, x: Entry, y: Entry)
    requires Around(v, a, b, f, x, y)
    ensures All(v) == {x, y} && Entries(v[1]) == {x, y}
  {
    assert a in v[1] && b in v[1] && x in a.entries && y in b.entries;
    forall l, e | 0 <= l < |v| && e in Entries(v[l]) ensures e == x || e == y {
      var g :| g in v[l] && e in g.entries;
      FlankedMember(v, a, b, l, g);
    }
    assert Entries(v[1]) == {x, y};
    assert x in All(v) && y in All(v);
  }

  /** Nothing is dropped, and the two entries are on either side of the table. */
  lemma AroundKept(v: Version, a: File, b: File, f: File, x: Entry, y: Entry, h: nat)
    requires Around(v, a, b, f, x, y)
    ensures Kept(Manual(v, a, b, h)) == {x, y} && Straddles(Kept(Manual(v, a, b, h)), f)
  {
    AroundEntries(v, a, b, f, x, y);
    ManualInputs(v, a, b, h);
    FileBounds(f, f.entries[0]);
  }

  lemma AroundAges(v: Version, a: File, b: File, f: File, x: Entry, y: Entry)
    requires Around(v, a, b, f, x, y)
    ensures Layered(v) && Distinct(All(v)) && Youngest(v, f)
  {
    AroundEntries(v, a, b, f, x, y);
    forall l, g | 0 <= l < |v| && g in v[l] ensures g.number < f.number {
      FlankedMember(v, a, b, l, g);
    }
  }

  lemma GappedIsOne()
    ensures WellFormed(Gapped()) && Around(Gapped(), Left(), Right(), Between(), Stored(LOW, 1), Stored(HIGH, 2))
  {
    TableOfOne(4, Stored(LOW, 1));
    TableOfOne(5, Stored(HIGH, 2));
    TableOfOne(6, Stored(MID, 3));
    FlankedShape(Gapped(), Left(), Right());
  }

  /** The run of the code above applies to it. */
  method GappedHappens(l: Limits) returns (v'': Version)
    requires l.grandparents == [] && forall es :: l.fileSize(es) < l.max_output
    ensures |v''| == NUM_LEVELS && !InOrder(v''[2])
  {
    GappedIsOne();
    AroundKept(Gapped(), Left(), Right(), Between(), Stored(LOW, 1), Stored(HIGH, 2), 2);
    AroundAges(Gapped(), Left(), Right(), Between(), Stored(LOW, 1), Stored(HIGH, 2));
    var _, after := GapHappens(Gapped(), Left(), Right(), Between(), 2, 2, l);
    v'' := after;
  }
}

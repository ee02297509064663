/** Assembling a compaction from its seed files (kv/db/version_set.cpp, GetRange and SetupOtherInputs
    to CompactRange). */
module Picking {
  import opened Format
  import opened History
  import opened Lookup
  import opened Versions
  import opened Compactions
  import opened Selection

  function TotalFileSize(files: seq<File>): nat {
    if files == [] then 0 else files[0].size + TotalFileSize(files[1..])
  }

  /** The tightest internal-key range around `fs`. */
  ghost predicate IsRange(fs: seq<File>, smallest: IKey, largest: IKey) {
    && (exists f :: f in fs && f.smallest == smallest)
    && IsTop(fs, largest)
    && forall f :: f in fs ==> Le(smallest, f.smallest)
  }

  method GetRange(inputs: seq<File>) returns (smallest: IKey, largest: IKey)
    requires inputs != []
    ensures IsRange(inputs, smallest, largest)
  {
    smallest, largest := inputs[0].smallest, inputs[0].largest;
    for i := 1 to |inputs|
      invariant IsRange(inputs[..i], smallest, largest)
    {
      RangeStep(inputs[..i], inputs[i], smallest, largest);
      assert inputs[..i + 1] == inputs[..i] + [inputs[i]];
      if Lt(inputs[i].smallest, smallest) {
        smallest := inputs[i].smallest;
      }
      if Lt(largest, inputs[i].largest) {
        largest := inputs[i].largest;
      }
    }
    assert inputs[..|inputs|] == inputs;
  }

  lemma RangeStep(fs: seq<File>, f: File, smallest: IKey, largest: IKey)
    requires IsRange(fs, smallest, largest)
    ensures IsRange(fs + [f], if Lt(f.smallest, smallest) then f.smallest else smallest,
                              if Lt(largest, f.largest) then f.largest else largest)
  {
    var a :| a in fs && a.smallest == smallest;
    var b :| b in fs && b.largest == largest;
    assert a in fs + [f] && b in fs + [f] && f in fs + [f];
  }

  /** No file left out of `fs` overlaps one of `fs`. */
  ghost predicate OverlapClosed(files: seq<File>, fs: seq<File>) {
    forall g, f :: g in files && g !in fs && f in fs ==> !Overlap(g, f)
  }

  /** What a seed must satisfy before AddBoundaryInputs. */
  ghost predicate Seed(v: Version, level: nat, fs: seq<File>) {
    && level + 1 < |v| == NUM_LEVELS && fs != []
    && (forall f :: f in fs ==> f in v[level])
    && (if level == 0 then OverlapClosed(v[0], fs) && Listed(fs) else Run(v[level], fs))
  }

  /** No file twice; above level 0 in key order. */
  ghost predicate Tidy(level: nat, fs: seq<File>) {
    if level == 0 then Listed(fs) else InOrder(fs)
  }

  /** ... and after it: unselected files of the level are newer on the selected keys. */
  ghost predicate Chosen(v: Version, level: nat, fs: seq<File>) {
    && level + 1 < |v| == NUM_LEVELS && fs != []
    && (forall f :: f in fs ==> f in v[level]) && Tidy(level, fs)
    && forall g, f :: g in v[level] && g !in fs && f in fs ==> NewerThan(g, f)
  }

  /** Picking files out of a level keeps their order. */
  lemma {:induction false} OverlappingOrder(files: seq<File>, lo: Option<UserKey>, hi: Option<UserKey>)
    ensures Listed(files) ==> Listed(Overlapping(files, lo, hi))
    ensures InOrder(files) ==> InOrder(Overlapping(files, lo, hi))
  {
    if files != [] {
      var n := |files| - 1;
      OverlappingOrder(files[..n], lo, hi);
      OverlappingMembers(files[..n], lo, hi);
      OrderSnoc(files, Overlapping(files[..n], lo, hi));
    }
  }

  lemma OrderSnoc(files: seq<File>, fs: seq<File>)
    requires files != [] && forall f :: f in fs ==> f in files[..|files| - 1]
    ensures Listed(files) && Listed(fs) ==> Listed(fs + [files[|files| - 1]])
    ensures InOrder(files) && InOrder(fs) ==> InOrder(fs + [files[|files| - 1]])
  {
    var n := |files| - 1;
    forall i | 0 <= i < |fs| ensures Listed(files) ==> BySmallest(fs[i], files[n])
      ensures InOrder(files) ==> Lt(fs[i].largest, files[n].smallest) {
      assert fs[i] in fs;
      assert fs[i] in files[..n];
      var k :| 0 <= k < n && files[..n][k] == fs[i];
    }
  }

  /** Within a level, an earlier file is newer on a shared user key, and a file past it shares none. */
  lemma EarlierIsNewer(f: File, g: File)
    requires ValidFile(f) && ValidFile(g) && Lt(f.largest, g.smallest)
    requires forall e, d :: e in f.entries && d in g.entries && e.Seq() == d.Seq() ==> e == d
    ensures f.Hi() <= g.Lo() && NewerThan(f, g)
    ensures f.Hi() < g.Lo() ==> NewerThan(g, f)
  {
    forall e, d | e in f.entries && d in g.entries
      ensures e.User() == d.User() ==> e.Seq() > d.Seq()
      ensures f.Hi() < g.Lo() ==> e.User() != d.User()
    {
      FileBounds(f, e);
      FileBounds(g, d);
    }
  }

  lemma DistinctPair(files: seq<File>, f: File, g: File)
    requires Distinct(Entries(files)) && f in files && g in files
    ensures forall e, d :: e in f.entries && d in g.entries && e.Seq() == d.Seq() ==> e == d
  {
    forall e, d | e in f.entries && d in g.entries && e.Seq() == d.Seq() ensures e == d {
      assert e in Entries(files) && d in Entries(files);
    }
  }

  lemma RunNewer(files: seq<File>, j: nat, m: nat, n: nat)
    requires ValidFiles(files) && InOrder(files) && Distinct(Entries(files))
    requires n < j <= |files| && m < |files| && (m < n || m >= j)
    requires !IsBoundary(files[m], files[j - 1].largest)
    ensures NewerThan(files[m], files[n])
  {
    assert files[m] in files && files[n] in files;
    DistinctPair(files, files[m], files[n]);
    if m < n {
      EarlierIsNewer(files[m], files[n]);
    } else {
      assert files[j - 1] in files;
      assert files[n].Hi() <= files[j - 1].Hi() by {
        LargestInOrder(files, n, j - 1);
      }
      assert Lt(files[j - 1].largest, files[m].smallest);
      EarlierIsNewer(files[n], files[m]) by {
        DistinctPair(files, files[n], files[m]);
      }
    }
  }

  lemma SliceIndex(files: seq<File>, i: nat, j: nat, f: File) returns (n: nat)
    requires i <= j <= |files|
    requires f in files[i..j]
    ensures i <= n < j && files[n] == f
  {
    var t :| 0 <= t < j - i && files[i..j][t] == f;
    n := i + t;
  }

  lemma OutsideSlice(files: seq<File>, i: nat, j: nat, m: nat)
    requires i <= j <= |files| && m < |files| && files[m] !in files[i..j]
    ensures m < i || m >= j
  {
  }

  lemma RunShape(files: seq<File>, fs: seq<File>)
    requires Run(files, fs)
    ensures fs != [] && (forall f :: f in fs ==> f in files) && (InOrder(files) ==> InOrder(fs))
  {
    var i, j :| 0 <= i < j <= |files| && fs == files[i..j];
  }

  /** Every file outside a closed run is newer on its keys. */
  lemma RunClosed(files: seq<File>, fs: seq<File>, top: IKey, g: File, f: File)
    requires ValidFiles(files) && InOrder(files) && Distinct(Entries(files))
    requires Run(files, fs) && IsTop(fs, top) && g in files && !IsBoundary(g, top) && g !in fs && f in fs
    ensures NewerThan(g, f)
  {
    var i, j :| 0 <= i < j <= |files| && fs == files[i..j];
    RunTop(files, i, j, top);
    RunPair(files, i, j, g, f);
  }

  lemma RunChosen(v: Version, level: nat, fs: seq<File>, top: IKey)
    requires 0 < level && level + 1 < |v| == NUM_LEVELS
    requires ValidFiles(v[level]) && InOrder(v[level]) && Distinct(Entries(v[level]))
    requires Run(v[level], fs) && IsTop(fs, top) && forall g :: g in v[level] ==> !IsBoundary(g, top)
    ensures Chosen(v, level, fs)
  {
    RunShape(v[level], fs);
    forall g, f | g in v[level] && g !in fs && f in fs ensures NewerThan(g, f) {
      RunClosed(v[level], fs, top, g, f);
    }
  }

  lemma RunPair(files: seq<File>, i: nat, j: nat, g: File, f: File)
    requires ValidFiles(files) && InOrder(files) && Distinct(Entries(files)) && i < j <= |files|
    requires g in files && g !in files[i..j] && f in files[i..j] && !IsBoundary(g, files[j - 1].largest)
    ensures NewerThan(g, f)
  {
    var m :| 0 <= m < |files| && files[m] == g;
    var n := SliceIndex(files, i, j, f);
    OutsideSlice(files, i, j, m);
    RunNewer(files, j, m, n);
  }

  lemma ClosedChosen(v: Version, fs: seq<File>)
    requires |v| == NUM_LEVELS && ValidFiles(v[0]) && Seed(v, 0, fs)
    ensures Chosen(v, 0, fs)
    ensures forall g, key :: g in v[0] && IsTop(fs, key) ==> !IsBoundary(g, key)
  {
    forall g, f | g in v[0] && g !in fs && f in fs ensures NewerThan(g, f) {
      ClearNewer(f, g);
    }
    forall g, key | g in v[0] && IsTop(fs, key) ensures !IsBoundary(g, key) {
      var t :| t in fs && t.largest == key;
      FileBounds(t, t.entries[0]);
      FileBounds(g, g.entries[0]);
      if g in fs {
        assert Le(g.largest, key);
      } else {
        assert !Overlap(g, t);
      }
    }
  }

  /** AddBoundaryInputs on a contiguous or overlap-closed seed leaves no older entry behind in the level. */
  method CloseLevel(v: Version, level: nat, seed: seq<File>, ghost others: seq<File>) returns (out: seq<File>)
    requires Seed(v, level, seed) && SoundLevel(level, v[level]) && Distinct(Entries(v[level]))
    ensures Chosen(v, level, out) && Closure(v[level], seed, out)
    ensures forall f :: f in seed ==> f in out
    ensures Solid(others + seed) ==> Solid(others + out)
  {
    ghost var top;
    out, top := AddBoundaryInputs(v[level], seed, others);
    if level == 0 {
      ClosedChosen(v, seed);
    } else {
      RunChosen(v, level, out, top);
    }
  }

  /** Which files a compaction may end up with, before the range is fixed. */
  lemma FencedInputs(v: Version, c: Compaction, smallest: IKey, largest: IKey)
    requires Chosen(v, c.level, c.in0) && ValidFiles(v[c.level]) && ValidFiles(v[c.level + 1]) && InOrder(v[c.level + 1])
    requires IsRange(c.in0, smallest, largest)
    requires c.in1 == Overlapping(v[c.level + 1], Some(smallest.user), Some(largest.user))
    requires IsRange(c.Inputs(), c.start, c.limit)
    ensures Ready(v, c)
  {
    OverlappingMembers(v[c.level + 1], Some(smallest.user), Some(largest.user));
    forall g | g in v[c.level + 1] && g !in c.in1 ensures Lt(g.largest, c.start) || Lt(c.limit, g.smallest) {
      FencedOne(v, c, smallest, largest, g);
    }
  }

  lemma FencedOne(v: Version, c: Compaction, smallest: IKey, largest: IKey, g: File)
    requires Chosen(v, c.level, c.in0) && ValidFiles(v[c.level + 1]) && InOrder(v[c.level + 1])
    requires IsRange(c.in0, smallest, largest) && IsRange(c.Inputs(), c.start, c.limit)
    requires forall f :: f in c.in1 <==> f in v[c.level + 1] && InRange(f, Some(smallest.user), Some(largest.user))
    requires g in v[c.level + 1] && g !in c.in1
    ensures Lt(g.largest, c.start) || Lt(c.limit, g.smallest)
  {
    var files := v[c.level + 1];
    var a :| a in c.Inputs() && a.smallest == c.start;
    var b :| b in c.Inputs() && b.largest == c.limit;
    FileBounds(g, g.entries[0]);
    if g.Hi() < smallest.user {
      if a in c.in1 {
        FileBounds(a, a.entries[0]);
      }
    } else {
      assert g.Lo() > largest.user;
      if b in c.in1 {
        FileBounds(b, b.entries[0]);
      }
    }
  }

  lemma SolidGapFree(c: Compaction)
    requires Solid(c.Inputs()) && IsRange(c.Inputs(), c.start, c.limit) && ValidFiles(c.Inputs())
    ensures GapFree(c)
  {
    var a :| a in c.Inputs() && a.smallest == c.start;
    var b :| b in c.Inputs() && b.largest == c.limit;
    FileBounds(a, a.entries[0]);
  }

  /** A level's files overlapping a range are again a seed. */
  lemma ExpandedSeed(v: Version, level: nat, fs: seq<File>, lo: Option<UserKey>, hi: Option<UserKey>)
    requires level + 1 < |v| == NUM_LEVELS && SoundLevel(level, v[level])
    requires fs == Overlapping(v[level], lo, hi) && fs != []
    requires level == 0 ==> forall f :: f in fs ==> (lo.Some? ==> lo.value <= f.Lo()) && (hi.Some? ==> f.Hi() <= hi.value)
    ensures Seed(v, level, fs)
  {
    OverlappingMembers(v[level], lo, hi);
    OverlappingOrder(v[level], lo, hi);
    if level > 0 {
      OverlappingRun(v[level], lo, hi);
    }
  }

  lemma {:induction false} OverlappingRun(files: seq<File>, lo: Option<UserKey>, hi: Option<UserKey>)
    requires ValidFiles(files) && InOrder(files)
    requires Overlapping(files, lo, hi) != []
    ensures Run(files, Overlapping(files, lo, hi))
  {
    var n := |files| - 1;
    if Overlapping(files[..n], lo, hi) == [] {
      assert [files[n]] == files[n..n + 1];
    } else {
      OverlappingRun(files[..n], lo, hi);
      OverlappingRunStep(files, lo, hi);
    }
  }

  lemma OverlappingRunStep(files: seq<File>, lo: Option<UserKey>, hi: Option<UserKey>)
    requires ValidFiles(files) && InOrder(files) && files != []
    requires Run(files[..|files| - 1], Overlapping(files[..|files| - 1], lo, hi))
    ensures Run(files, Overlapping(files, lo, hi))
  {
    var n := |files| - 1;
    var fs := Overlapping(files[..n], lo, hi);
    assert Overlapping(files, lo, hi) == fs + if InRange(files[n], lo, hi) then [files[n]] else [];
    if InRange(files[n], lo, hi) {
      LastJoins(files, lo, hi);
    } else {
      assert fs + [] == fs;
      var _, _ := RunPlace(files, n, fs);
    }
  }

  lemma LastJoins(files: seq<File>, lo: Option<UserKey>, hi: Option<UserKey>)
    requires ValidFiles(files) && InOrder(files) && files != [] && InRange(files[|files| - 1], lo, hi)
    requires Run(files[..|files| - 1], Overlapping(files[..|files| - 1], lo, hi))
    ensures Run(files, Overlapping(files[..|files| - 1], lo, hi) + [files[|files| - 1]])
  {
    var n := |files| - 1;
    var i, j := RunPlace(files, n, Overlapping(files[..n], lo, hi));
    OverlappingGap(files, i, j, lo, hi);
    RunGrow(files, i, j);
  }

  lemma RunPlace(files: seq<File>, n: nat, fs: seq<File>) returns (i: nat, j: nat)
    requires n <= |files| && Run(files[..n], fs)
    ensures i < j <= n && fs == files[i..j] && Run(files, fs)
  {
    i, j :| 0 <= i < j <= n && fs == files[..n][i..j];
    assert files[..n][i..j] == files[i..j];
  }

  /** A file between two overlapping ones overlaps as well. */
  lemma OverlappingGap(files: seq<File>, i: nat, j: nat, lo: Option<UserKey>, hi: Option<UserKey>)
    requires ValidFiles(files) && InOrder(files) && i < j < |files|
    requires files[i..j] == Overlapping(files[..|files| - 1], lo, hi)
    requires InRange(files[|files| - 1], lo, hi)
    ensures j == |files| - 1
  {
    var n := |files| - 1;
    OverlappingMembers(files[..n], lo, hi);
    var a := files[j - 1];
    assert a in files[i..j];
    if j < n {
      var b := files[j];
      assert b in files[..n];
      assert a in files && b in files && files[n] in files;
      FileBounds(b, b.entries[0]);
      assert InRange(b, lo, hi);
      var _ := SliceIndex(files, i, j, b);
    }
  }

  /** Two choices of input-level files, the second made from the first's range. */
  lemma ExpandedSolid(in0: seq<File>, in1: seq<File>, exp0: seq<File>, exp1: seq<File>, x: File, y: File)
    requires Solid(in0 + in1 + exp0) && x in exp0 && y in exp0 && Grows(exp1, x.Lo(), y.Hi())
    requires forall f :: f in in0 ==> f in exp0
    requires forall f :: f in in1 ==> f in exp1
    ensures Solid(exp0 + exp1)
  {
    SolidGrow(in0 + in1 + exp0, x, y, exp1);
    SolidSame(in0 + in1 + exp0 + exp1, exp0 + exp1);
  }

  /** The output-level inputs are exactly the files overlapping the range from `x` to `y` of the others. */
  ghost predicate Under(v: Version, c: Compaction, x: File, y: File)
    requires c.level + 1 < |v|
  {
    && x in c.in0 && y in c.in0
    && (forall f :: f in c.in0 ==> x.Lo() <= f.Lo() && f.Hi() <= y.Hi())
    && (forall f :: f in c.in1 <==> f in v[c.level + 1] && InRange(f, Some(x.Lo()), Some(y.Hi())))
    && Grows(c.in1, x.Lo(), y.Hi())
  }

  ghost predicate Picked(v: Version, c: Compaction) {
    && c.base == v && Chosen(v, c.level, c.in0) && Ready(v, c)
    && ValidFiles(c.Inputs()) && IsRange(c.Inputs(), c.start, c.limit) && InOrder(c.in1)
  }

  method LevelUnder(v: Version, level: nat, in0: seq<File>) returns (c: Compaction, ghost x: File, ghost y: File)
    requires Chosen(v, level, in0) && WellFormed(v)
    ensures c.level == level && c.in0 == in0
    ensures Picked(v, c) && Under(v, c, x, y)
    ensures Solid(in0) ==> Solid(c.Inputs())
  {
    assert SoundLevel(level, v[level]) && SoundLevel(level + 1, v[level + 1]);
    var smallest, largest := GetRange(in0);
    x :| x in in0 && x.smallest == smallest;
    y :| y in in0 && y.largest == largest;
    FileBounds(x, x.entries[0]);
    var in1, _, _ := GetOverlappingInputs(v[level + 1], level + 1, Some(smallest.user), Some(largest.user));
    var all_start, all_limit := GetRange(in0 + in1);
    c := Compaction(level, in0, in1, all_start, all_limit, v, 0);
    FencedInputs(v, c, smallest, largest);
    OverlappingOrder(v[level + 1], Some(smallest.user), Some(largest.user));
    UnderRange(v, c, x, y, smallest, largest);
    if Solid(in0) {
      SolidGrow(in0, x, y, in1);
    }
  }

  lemma UnderRange(v: Version, c: Compaction, x: File, y: File, smallest: IKey, largest: IKey)
    requires c.level + 1 < |v| && IsRange(c.in0, smallest, largest)
    requires x in c.in0 && x.smallest == smallest && y in c.in0 && y.largest == largest
    requires c.in1 == Overlapping(v[c.level + 1], Some(smallest.user), Some(largest.user))
    requires Grows(c.in1, smallest.user, largest.user)
    ensures Under(v, c, x, y)
  {
    OverlappingMembers(v[c.level + 1], Some(smallest.user), Some(largest.user));
  }

  lemma SecondRound(v: Version, c: Compaction, e: Compaction, x: File, y: File, x': File, y': File)
    requires c.level == e.level && c.level + 1 < |v|
    requires Under(v, c, x, y) && Under(v, e, x', y')
    requires forall f :: f in c.in0 ==> f in e.in0
    requires Solid(c.Inputs() + e.in0)
    ensures Solid(e.Inputs())
  {
    ExpandedSolid(c.in0, c.in1, e.in0, e.in1, x', y');
  }

  /** The input level's files over the whole range so far contain the inputs and leave no gap. */
  lemma ExpandedContains(v: Version, c: Compaction, expanded: seq<File>, lo: Option<UserKey>, hi: Option<UserKey>)
    requires Picked(v, c) && ValidFiles(v[c.level])
    requires Widens(Some(c.start.user), Some(c.limit.user), lo, hi) && expanded == Overlapping(v[c.level], lo, hi)
    requires c.start.user <= c.limit.user ==> Grows(expanded, c.start.user, c.limit.user)
    ensures c.start.user <= c.limit.user
    ensures forall f :: f in c.in0 ==> f in expanded
    ensures Solid(c.Inputs()) ==> Solid(c.Inputs() + expanded)
  {
    var x :| x in c.Inputs() && x.smallest == c.start;
    var y :| y in c.Inputs() && y.largest == c.limit;
    FileBounds(x, x.entries[0]);
    forall f | f in c.in0 ensures f in expanded {
      assert f in c.Inputs();
      FileBounds(f, f.entries[0]);
      OverlappingMember(v[c.level], lo, hi, f);
    }
    if Solid(c.Inputs()) {
      SolidGrow(c.Inputs(), x, y, expanded);
    }
  }

  /** `expanded` is the input level's files over the range of all inputs, closed; at level 0 over the range they reach. */
  ghost predicate ExpandedFrom(v: Version, c: Compaction, expanded: seq<File>)
    requires c.level < |v|
  {
    exists lo, hi :: Widens(Some(c.start.user), Some(c.limit.user), lo, hi)
      && (c.level > 0 ==> lo == Some(c.start.user) && hi == Some(c.limit.user))
      && Closure(v[c.level], Overlapping(v[c.level], lo, hi), expanded)
  }

  /** expanded0: the input level's files over the whole range so far, closed again. */
  method Expand(v: Version, c: Compaction) returns (expanded: seq<File>)
    requires Picked(v, c) && SoundLevel(c.level, v[c.level]) && Distinct(Entries(v[c.level]))
    ensures Chosen(v, c.level, expanded) && ExpandedFrom(v, c, expanded)
    ensures forall f :: f in c.in0 ==> f in expanded
    ensures Solid(c.Inputs()) ==> Solid(c.Inputs() + expanded)
  {
    var expanded0, lo, hi := GetOverlappingInputs(v[c.level], c.level, Some(c.start.user), Some(c.limit.user));
    ExpandedContains(v, c, expanded0, lo, hi);
    assert c.in0[0] in c.in0;
    ExpandedSeed(v, c.level, expanded0, lo, hi);
    expanded := CloseLevel(v, c.level, expanded0, c.Inputs());
  }

  /** The inputs with more of the upper level. */
  ghost predicate Wide(v: Version, c: Compaction, wide: Compaction) {
    && wide.level == c.level && Picked(v, wide) && TakesUnder(v, wide) && c.level < |v| && ExpandedFrom(v, c, wide.in0)
  }

  /** More of the upper level, no more of the lower, and not too much in all. */
  predicate WorthIt(c: Compaction, wide: Compaction, max_file_size: nat) {
    && |wide.in0| > |c.in0| && |wide.in1| == |c.in1|
    && TotalFileSize(c.in1) + TotalFileSize(wide.in0) < 25 * max_file_size
  }

  /** Grow the upper inputs if that neither adds lower inputs nor exceeds the size limit. */
  method TryExpand(v: Version, c: Compaction, ghost x: File, ghost y: File, max_file_size: nat)
    returns (e: Compaction, ghost x': File, ghost y': File)
    requires WellFormed(v) && Picked(v, c) && Under(v, c, x, y) && Distinct(Entries(v[c.level]))
    ensures e.level == c.level && Picked(v, e) && Under(v, e, x', y')
    ensures exists wide :: Wide(v, c, wide) && e == if WorthIt(c, wide, max_file_size) then wide else c
    ensures forall f :: f in c.in0 ==> f in e.in0
    ensures Solid(c.Inputs()) ==> Solid(e.Inputs())
  {
    assert SoundLevel(c.level, v[c.level]);
    var expanded := Expand(v, c);
    e, x', y' := LevelUnder(v, c.level, expanded);
    assert Wide(v, c, e);
    if |expanded| > |c.in0| &&
       TotalFileSize(c.in1) + TotalFileSize(expanded) < 25 * max_file_size &&
       |e.in1| == |c.in1| {
      if Solid(c.Inputs()) {
        SecondRound(v, c, e, x, y, x', y');
      }
    } else {
      e, x', y' := c, x, y;
    }
  }

  /** The output-level inputs are the files that overlap the range of the others, and no more. */
  ghost predicate TakesUnder(v: Version, c: Compaction) {
    c.level + 1 < |v| && exists x, y :: Under(v, c, x, y)
  }

  method FirstInputs(v: Version, level: nat, seed: seq<File>) returns (c: Compaction, ghost x: File, ghost y: File)
    requires WellFormed(v) && Seed(v, level, seed) && Distinct(Entries(v[level]))
    ensures c.level == level && Picked(v, c) && Under(v, c, x, y) && Closure(v[level], seed, c.in0)
    ensures forall f :: f in seed ==> f in c.in0
    ensures Solid(seed) ==> Solid(c.Inputs())
  {
    var in0 := CloseSeed(v, level, seed);
    c, x, y := LevelUnder(v, level, in0);
  }

  method CloseSeed(v: Version, level: nat, seed: seq<File>) returns (in0: seq<File>)
    requires Seed(v, level, seed) && WellFormed(v) && Distinct(Entries(v[level]))
    ensures Chosen(v, level, in0) && Closure(v[level], seed, in0)
    ensures forall f :: f in seed ==> f in in0
    ensures Solid(seed) ==> Solid(in0)
  {
    assert SoundLevel(level, v[level]);
    in0 := CloseLevel(v, level, seed, []);
    SolidAlone(seed);
    SolidAlone(in0);
  }

  lemma SolidAlone(fs: seq<File>)
    ensures Solid([] + fs) <==> Solid(fs)
  {
    assert [] + fs == fs;
  }

  /** Inputs at both levels, before the grandparents. */
  method ChooseInputs(v: Version, level: nat, seed: seq<File>, max_file_size: nat) returns (c: Compaction)
    requires WellFormed(v) && Seed(v, level, seed) && Distinct(Entries(v[level]))
    ensures c.level == level && Picked(v, c) && TakesUnder(v, c) && SettledOn(v, level, seed, max_file_size, c)
    ensures forall f :: f in seed ==> f in c.in0
    ensures Solid(seed) ==> Solid(c.Inputs())
  {
    ghost var x, y;
    var first;
    first, x, y := FirstInputs(v, level, seed);
    c := first;
    assert Narrow(v, level, seed, first);
    if first.in1 != [] {
      c, x, y := TryExpand(v, first, x, y, max_file_size);
    }
    assert Settles(v, first, max_file_size, c);
  }

  /** The inputs to begin with: the seed closed, and what it overlaps one level down. */
  ghost predicate Narrow(v: Version, level: nat, seed: seq<File>, first: Compaction) {
    && level < |v| && first.level == level && Picked(v, first) && TakesUnder(v, first) && Closure(v[level], seed, first.in0)
  }

  /** They are grown if they take something of the lower level and growing is worth it, and else left. */
  ghost predicate Settles(v: Version, first: Compaction, max_file_size: nat, c: Compaction) {
    if first.in1 == [] then c == first
    else exists wide :: Wide(v, first, wide) && c == if WorthIt(first, wide, max_file_size) then wide else first
  }

  ghost predicate SettledOn(v: Version, level: nat, seed: seq<File>, max_file_size: nat, c: Compaction) {
    exists first :: Narrow(v, level, seed, first) && Settles(v, first, max_file_size, c)
  }

  /** What selection guarantees of a compaction, automatic or manual. */
  ghost predicate Selected(v: Version, level: nat, c: Compaction) {
    && c.level == level && c.base == v && Ready(v, c)
    && Chosen(v, level, c.in0) && TakesUnder(v, c) && InOrder(c.in1) && IsRange(c.Inputs(), c.start, c.limit)
  }

  /** SetupOtherInputs: close the seed, take what it overlaps one level down, and take more of the upper level
      if that costs nothing below.  Whatever it settles on is ready to install. */
  method SetupOtherInputs(v: Version, level: nat, seed: seq<File>, max_file_size: nat)
    returns (c: Compaction, grandparents: seq<File>)
    requires WellFormed(v) && Seed(v, level, seed) && Distinct(Entries(v[level]))
    ensures Selected(v, level, c) && SettledOn(v, level, seed, max_file_size, c)
    ensures forall f :: f in seed ==> f in c.in0
    ensures Solid(seed) ==> GapFree(c)
    ensures grandparents == if level + 2 < NUM_LEVELS
                            then Overlapping(v[level + 2], Some(c.start.user), Some(c.limit.user)) else []
  {
    c := ChooseInputs(v, level, seed, max_file_size);
    if Solid(seed) {
      SolidGapFree(c);
    }
    grandparents := [];
    if level + 2 < NUM_LEVELS {
      assert SoundLevel(level + 2, v[level + 2]);
      var overlaps, _, _ := GetOverlappingInputs(v[level + 2], level + 2, Some(c.start.user), Some(c.limit.user));
      grandparents := overlaps;
    }
  }

  /** Where a size compaction starts: the first file past the compaction pointer, or else the first. */
  method FirstAfterPointer(files: seq<File>, pointer: Option<IKey>) returns (i: nat)
    requires files != []
    ensures i < |files|
    ensures pointer.None? ==> i == 0
    ensures pointer.Some? && Lt(pointer.value, files[i].largest) ==>
              forall j :: 0 <= j < i ==> Le(files[j].largest, pointer.value)
    ensures pointer.Some? && Le(files[i].largest, pointer.value) ==>
              i == 0 && forall j :: 0 <= j < |files| ==> Le(files[j].largest, pointer.value)
  {
    i := 0;
    while i < |files|
      invariant 0 <= i <= |files| && (pointer.None? ==> i == 0)
      invariant forall j :: 0 <= j < i ==> pointer.Some? && Le(files[j].largest, pointer.value)
    {
      if pointer.None? || Lt(pointer.value, files[i].largest) {
        return;
      }
      i := i + 1;
    }
    i := 0;
  }

  /** The seed of an automatic compaction is one file; at level 0, all that overlaps it, transitively. */
  ghost predicate PickedFrom(v: Version, level: nat, f: File, max_file_size: nat, c: Compaction)
    requires |v| > 0
  {
    if level > 0 then SettledOn(v, level, [f], max_file_size, c)
    else exists lo, hi :: Widens(Some(f.Lo()), Some(f.Hi()), lo, hi)
           && SettledOn(v, 0, Overlapping(v[0], lo, hi), max_file_size, c)
  }

  /** PickCompaction from a chosen file: at level 0 first everything that overlaps it, transitively. */
  method PickCompaction(v: Version, level: nat, f: File, max_file_size: nat)
    returns (c: Compaction, grandparents: seq<File>)
    requires WellFormed(v) && level + 1 < NUM_LEVELS && f in v[level] && Distinct(Entries(v[level]))
    ensures Selected(v, level, c) && GapFree(c) && f in c.in0 && PickedFrom(v, level, f, max_file_size, c)
    ensures grandparents == if level + 2 < NUM_LEVELS
                            then Overlapping(v[level + 2], Some(c.start.user), Some(c.limit.user)) else []
  {
    assert SoundLevel(level, v[level]);
    var inputs := [f];
    FileBounds(f, f.entries[0]);
    SolidOne(f);
    if level == 0 {
      var overlapping, lo, hi := GetOverlappingInputs(v[0], 0, Some(f.Lo()), Some(f.Hi()));
      OverlappingMember(v[0], lo, hi, f);
      ExpandedSeed(v, 0, overlapping, lo, hi);
      SolidGrow(inputs, f, f, overlapping);
      SolidSame(inputs + overlapping, overlapping);
      inputs := overlapping;
    } else {
      var i :| 0 <= i < |v[level]| && v[level][i] == f;
      assert inputs == v[level][i..i + 1];
    }
    c, grandparents := SetupOtherInputs(v, level, inputs, max_file_size);
  }

  lemma SolidOne(f: File)
    ensures Solid([f])
  {
    forall g, h, k | g in [f] && h in [f] && g.Lo() <= k <= h.Hi() ensures Covers([f], k) {
      assert f in [f];
    }
  }

  /** `r` is `fs` up to the file with which the total reaches the limit. */
  ghost predicate CutAt(fs: seq<File>, limit: nat, r: seq<File>) {
    && r <= fs && (r == fs || TotalFileSize(r) >= limit)
    && forall n :: 0 < n < |r| ==> TotalFileSize(r[..n]) < limit
  }

  /** The files overlapping [begin, end], cut off after about one file's worth above level 0. */
  method RangeInputs(v: Version, level: nat, begin: Option<UserKey>, end: Option<UserKey>, max_file_size: nat)
    returns (inputs: seq<File>)
    requires WellFormed(v) && level + 1 < NUM_LEVELS
    ensures inputs == [] <==> forall f :: f in v[level] ==> !InRange(f, begin, end)
    ensures inputs != [] ==> Seed(v, level, inputs)
    ensures level > 0 ==> CutAt(Overlapping(v[level], begin, end), max_file_size, inputs)
  {
    assert SoundLevel(level, v[level]);
    ghost var lo, hi;
    inputs, lo, hi := GetOverlappingInputs(v[level], level, begin, end);
    OverlappingMembers(v[level], lo, hi);
    if inputs == [] {
      return;
    }
    assert inputs[0] in inputs;
    ExpandedSeed(v, level, inputs, lo, hi);
    if level > 0 {
      inputs := CutOff(v[level], inputs, max_file_size);
    }
  }

  /** CompactRange: a manual compaction of what overlaps [begin, end]. */
  method CompactRange(v: Version, level: nat, begin: Option<UserKey>, end: Option<UserKey>, max_file_size: nat)
    returns (r: Option<Compaction>, grandparents: seq<File>, ghost seed: seq<File>)
    requires WellFormed(v) && level + 1 < NUM_LEVELS && Distinct(Entries(v[level]))
    ensures r.None? <==> forall f :: f in v[level] ==> !InRange(f, begin, end)
    ensures r.Some? ==> Selected(v, level, r.value) && SettledOn(v, level, seed, max_file_size, r.value)
    ensures r.Some? ==> forall f :: f in seed ==> f in r.value.in0
    ensures level > 0 ==> CutAt(Overlapping(v[level], begin, end), max_file_size, seed)
    ensures r.Some? ==> grandparents == if level + 2 < NUM_LEVELS
                        then Overlapping(v[level + 2], Some(r.value.start.user), Some(r.value.limit.user)) else []
  {
    var inputs := RangeInputs(v, level, begin, end, max_file_size);
    seed := inputs;
    if inputs == [] {
      return None, [], seed;
    }
    var c;
    c, grandparents := SetupOtherInputs(v, level, inputs, max_file_size);
    r := Some(c);
  }

  /** No run of the first `i` files reaches the limit. */
  ghost predicate Short(fs: seq<File>, limit: nat, i: nat)
    requires i <= |fs|
  {
    forall n :: 0 < n <= i ==> TotalFileSize(fs[..n]) < limit
  }

  lemma CutHere(fs: seq<File>, limit: nat, i: nat)
    requires i < |fs| && Short(fs, limit, i) && TotalFileSize(fs[..i + 1]) >= limit
    ensures CutAt(fs, limit, fs[..i + 1])
  {
    var r := fs[..i + 1];
    forall n | 0 < n < |r| ensures TotalFileSize(r[..n]) < limit {
      assert r[..n] == fs[..n];
    }
  }

  lemma NoCut(fs: seq<File>, limit: nat)
    requires Short(fs, limit, |fs|)
    ensures CutAt(fs, limit, fs)
  {
  }

  method CutOff(ghost files: seq<File>, fs: seq<File>, limit: nat) returns (r: seq<File>)
    requires fs != [] && Run(files, fs)
    ensures r != [] && Run(files, r) && CutAt(fs, limit, r)
  {
    var total := 0;
    for i := 0 to |fs|
      invariant total == TotalFileSize(fs[..i])
      invariant Short(fs, limit, i)
    {
      total := total + fs[i].size;
      TotalStep(fs[..i], fs[i]);
      assert fs[..i + 1] == fs[..i] + [fs[i]];
      if total >= limit {
        RunPrefix(files, fs, i + 1);
        CutHere(fs, limit, i);
        r := fs[..i + 1];
        return;
      }
    }
    NoCut(fs, limit);
    r := fs;
  }

  lemma {:induction false} TotalStep(fs: seq<File>, f: File)
    ensures TotalFileSize(fs + [f]) == TotalFileSize(fs) + f.size
  {
    if fs == [] {
      assert fs + [f] == [f];
    } else {
      TotalStep(fs[1..], f);
      assert (fs + [f])[1..] == fs[1..] + [f];
    }
  }

  lemma RunPrefix(files: seq<File>, fs: seq<File>, n: nat)
    requires Run(files, fs) && 0 < n <= |fs|
    ensures Run(files, fs[..n])
  {
    var i, j :| 0 <= i < j <= |files| && fs == files[i..j];
    assert fs[..n] == files[i..i + n];
  }

  /** kMaxMemCompactLevel. */
  const MAX_MEM_COMPACT_LEVEL: nat := 2

  ghost predicate OverlapsLevel(v: Version, l: nat, lo: UserKey, hi: UserKey)
    requires l < |v|
  {
    exists f :: f in v[l] && InRange(f, Some(lo), Some(hi))
  }

  /** A flushed table may go from level `l` to the next: nothing there overlaps it, and not too much of the one below. */
  ghost predicate StepsDown(v: Version, l: nat, lo: UserKey, hi: UserKey, max_file_size: nat)
    requires l + 2 < |v|
  {
    && !OverlapsLevel(v, l + 1, lo, hi)
    && TotalFileSize(Overlapping(v[l + 2], Some(lo), Some(hi))) <= 10 * max_file_size
  }

  method MayStepDown(v: Version, level: nat, lo: UserKey, hi: UserKey, max_file_size: nat) returns (r: bool)
    requires WellFormed(v) && level + 2 < NUM_LEVELS
    ensures r <==> StepsDown(v, level, lo, hi, max_file_size)
  {
    assert SoundLevel(level + 1, v[level + 1]) && SoundLevel(level + 2, v[level + 2]);
    var overlap := SomeFileOverlapsRange(true, v[level + 1], Some(lo), Some(hi));
    if overlap {
      return false;
    }
    var overlaps, _, _ := GetOverlappingInputs(v[level + 2], level + 2, Some(lo), Some(hi));
    r := TotalFileSize(overlaps) <= 10 * max_file_size;
  }

  /** The level for a flushed memtable: as deep as it may go step by step, at most 2; level 0 if something there
      overlaps it. */
  method PickLevelForMemTableOutput(v: Version, lo: UserKey, hi: UserKey, max_file_size: nat) returns (level: nat)
    requires WellFormed(v)
    ensures level <= MAX_MEM_COMPACT_LEVEL && (OverlapsLevel(v, 0, lo, hi) ==> level == 0)
    ensures forall l: nat :: l < level ==> StepsDown(v, l, lo, hi, max_file_size)
    ensures !OverlapsLevel(v, 0, lo, hi) && level < MAX_MEM_COMPACT_LEVEL ==> !StepsDown(v, level, lo, hi, max_file_size)
  {
    level := 0;
    assert SoundLevel(0, v[0]);
    var overlap := SomeFileOverlapsRange(false, v[0], Some(lo), Some(hi));
    if !overlap {
      while level < MAX_MEM_COMPACT_LEVEL
        invariant level <= MAX_MEM_COMPACT_LEVEL
        invariant forall l: nat :: l < level ==> StepsDown(v, l, lo, hi, max_file_size)
      {
        var down := MayStepDown(v, level, lo, hi, max_file_size);
        if !down {
          break;
        }
        level := level + 1;
      }
    }
  }

  lemma PickedLevelClear(v: Version, level: nat, f: File, max_file_size: nat)
    requires level + 1 < |v| && (level > 0 ==> !OverlapsLevel(v, 0, f.Lo(), f.Hi()))
    requires forall l: nat :: l < level ==> StepsDown(v, l, f.Lo(), f.Hi(), max_file_size)
    ensures Clear(v, level, f)
  {
    forall l, g | level > 0 && 0 <= l <= level && g in v[l] ensures !Overlap(f, g) {
      assert l > 0 ==> StepsDown(v, l - 1, f.Lo(), f.Hi(), max_file_size);
      assert !OverlapsLevel(v, l, f.Lo(), f.Hi());
    }
  }

  /** IsTrivialMove. */
  predicate IsTrivialMove(c: Compaction, grandparents: seq<File>, max_file_size: nat) {
    |c.in0| == 1 && |c.in1| == 0 && TotalFileSize(grandparents) <= 10 * max_file_size
  }

  /** A selected compaction is a trivial move exactly if its one file may step down like a flushed table. */
  lemma TrivialMoveSteps(v: Version, level: nat, c: Compaction, grandparents: seq<File>, max_file_size: nat)
    requires Selected(v, level, c) && level + 2 < NUM_LEVELS && |c.in0| == 1 && ValidFile(c.in0[0])
    requires grandparents == Overlapping(v[level + 2], Some(c.start.user), Some(c.limit.user))
    ensures IsTrivialMove(c, grandparents, max_file_size) <==>
            StepsDown(v, level, c.in0[0].Lo(), c.in0[0].Hi(), max_file_size)
  {
    var f := c.in0[0];
    SingleUnder(v, c, f);
    if c.in1 == [] {
      SingleRange(c, f);
    }
  }

  lemma SingleUnder(v: Version, c: Compaction, f: File)
    requires c.level + 1 < |v| && TakesUnder(v, c) && c.in0 == [f]
    ensures c.in1 == [] <==> !OverlapsLevel(v, c.level + 1, f.Lo(), f.Hi())
  {
    var x, y :| Under(v, c, x, y);
    assert x == f && y == f;
    assert c.in1 != [] ==> c.in1[0] in c.in1;
  }

  lemma SingleRange(c: Compaction, f: File)
    requires IsRange(c.Inputs(), c.start, c.limit) && c.in0 == [f] && c.in1 == []
    ensures c.start == f.smallest && c.limit == f.largest
  {
    assert c.Inputs() == [f];
  }
}

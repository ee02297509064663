/** Choosing a compaction's inputs (kv/db/version_set.cpp, GetOverlappingInputs to CompactRange). */
module Selection {
  import opened Format
  import opened Lookup
  import opened Versions
  import opened Compactions

  /** The files overlapping [lo, hi], in list order. */
  function Overlapping(files: seq<File>, lo: Option<UserKey>, hi: Option<UserKey>): seq<File> {
    if files == [] then []
    else
      var last := files[|files| - 1];
      Overlapping(files[..|files| - 1], lo, hi) + if InRange(last, lo, hi) then [last] else []
  }

  lemma {:induction false} OverlappingMember(files: seq<File>, lo: Option<UserKey>, hi: Option<UserKey>, f: File)
    ensures f in Overlapping(files, lo, hi) <==> f in files && InRange(f, lo, hi)
  {
    if files != [] {
      OverlappingMember(files[..|files| - 1], lo, hi, f);
      assert files == files[..|files| - 1] + [files[|files| - 1]];
    }
  }

  lemma OverlappingMembers(files: seq<File>, lo: Option<UserKey>, hi: Option<UserKey>)
    ensures forall f :: f in Overlapping(files, lo, hi) <==> f in files && InRange(f, lo, hi)
  {
    forall f ensures f in Overlapping(files, lo, hi) <==> f in files && InRange(f, lo, hi) {
      OverlappingMember(files, lo, hi, f);
    }
  }

  /** How many ends of files stick out of the current range: the restart measure. */
  function Sticking(files: seq<File>, lo: Option<UserKey>, hi: Option<UserKey>): nat {
    if files == [] then 0
    else
      var f := files[0];
      (if lo.Some? && f.Lo() < lo.value then 1 else 0) + (if hi.Some? && f.Hi() > hi.value then 1 else 0)
      + Sticking(files[1..], lo, hi)
  }

  ghost predicate Widens(lo: Option<UserKey>, hi: Option<UserKey>, lo': Option<UserKey>, hi': Option<UserKey>) {
    && lo.Some? == lo'.Some? && (lo.Some? ==> lo'.value <= lo.value)
    && hi.Some? == hi'.Some? && (hi.Some? ==> hi.value <= hi'.value)
  }

  lemma {:induction false} StickingMonotone(files: seq<File>, lo: Option<UserKey>, hi: Option<UserKey>,
                                            lo': Option<UserKey>, hi': Option<UserKey>)
    requires Widens(lo, hi, lo', hi')
    ensures Sticking(files, lo', hi') <= Sticking(files, lo, hi)
  {
    if files != [] {
      StickingMonotone(files[1..], lo, hi, lo', hi');
    }
  }

  /** Widening the range to take in an end of one of the files makes fewer ends stick out. */
  lemma {:induction false} StickingShrinks(files: seq<File>, i: nat, lo: Option<UserKey>, hi: Option<UserKey>,
                                           lo': Option<UserKey>, hi': Option<UserKey>)
    requires i < |files| && Widens(lo, hi, lo', hi')
    requires (lo.Some? && lo'.value == files[i].Lo() < lo.value) || (hi.Some? && hi'.value == files[i].Hi() > hi.value)
    ensures Sticking(files, lo', hi') < Sticking(files, lo, hi)
  {
    if i == 0 {
      StickingMonotone(files[1..], lo, hi, lo', hi');
    } else {
      StickingShrinks(files[1..], i - 1, lo, hi, lo', hi');
    }
  }

  /** Whatever the inputs reach beyond [lo, hi] they also cover. */
  ghost predicate Grows(inputs: seq<File>, lo: UserKey, hi: UserKey) {
    forall f, k :: f in inputs && (f.Lo() <= k < lo || hi < k <= f.Hi()) ==> Covers(inputs, k)
  }

  /** What a range made from [begin, end] by taking in files satisfies. */
  ghost predicate GrownFrom(files: seq<File>, level: nat, begin: Option<UserKey>, end: Option<UserKey>,
                            lo: Option<UserKey>, hi: Option<UserKey>) {
    && Widens(begin, end, lo, hi) && (level > 0 ==> lo == begin && hi == end)
    && ((lo == begin && hi == end) || exists f :: f in files && InRange(f, begin, end))
    && (begin.Some? && end.Some? && begin.value <= end.value ==>
          CoveredBeyond(files, begin.value, end.value, lo.value, hi.value))
  }

  /** After `i` files: those in the range, and at level 0 none of them reaches past it. */
  ghost predicate Scanned(files: seq<File>, level: nat, lo: Option<UserKey>, hi: Option<UserKey>, i: nat, inputs: seq<File>) {
    && i <= |files| && inputs == Overlapping(files[..i], lo, hi)
    && (level == 0 ==> forall f :: f in inputs ==> (lo.Some? ==> lo.value <= f.Lo()) && (hi.Some? ==> f.Hi() <= hi.value))
  }

  lemma ScanNext(files: seq<File>, level: nat, lo: Option<UserKey>, hi: Option<UserKey>, i: nat, inputs: seq<File>)
    requires Scanned(files, level, lo, hi, i, inputs) && i < |files|
    requires var f := files[i];
             InRange(f, lo, hi) && level == 0 ==> (lo.Some? ==> lo.value <= f.Lo()) && (hi.Some? ==> f.Hi() <= hi.value)
    ensures Scanned(files, level, lo, hi, i + 1, if InRange(files[i], lo, hi) then inputs + [files[i]] else inputs)
  {
    assert files[..i + 1][..i] == files[..i];
  }

  /** A file of level 0 that reaches past the range widens it. */
  lemma WidenBy(files: seq<File>, begin: Option<UserKey>, end: Option<UserKey>, lo: Option<UserKey>, hi: Option<UserKey>,
                i: nat, lo': Option<UserKey>, hi': Option<UserKey>)
    requires ValidFiles(files) && GrownFrom(files, 0, begin, end, lo, hi) && i < |files| && InRange(files[i], lo, hi)
    requires (lo.Some? && lo' == Some(files[i].Lo()) && files[i].Lo() < lo.value && hi' == hi) ||
             (hi.Some? && hi' == Some(files[i].Hi()) && files[i].Hi() > hi.value && lo' == lo)
    ensures GrownFrom(files, 0, begin, end, lo', hi') && Sticking(files, lo', hi') < Sticking(files, lo, hi)
  {
    var f := files[i];
    assert f in files;
    FileBounds(f, f.entries[0]);
    StickingShrinks(files, i, lo, hi, lo', hi');
    if begin.Some? && end.Some? && begin.value <= end.value {
      CoveredWiden(files, f, begin.value, end.value, lo.value, hi.value, lo'.value, hi'.value);
    }
    assert lo == begin && hi == end ==> InRange(f, begin, end);
  }

  /** All files of the level overlapping [begin, end].  At level 0 a file reaching past the range widens it and
      restarts the scan: the result is exactly the files overlapping the final range, and none reaches past it. */
  method GetOverlappingInputs(files: seq<File>, level: nat, begin: Option<UserKey>, end: Option<UserKey>)
    returns (inputs: seq<File>, ghost lo: Option<UserKey>, ghost hi: Option<UserKey>)
    requires ValidFiles(files)
    ensures Widens(begin, end, lo, hi) && (level > 0 ==> lo == begin && hi == end)
    ensures inputs == Overlapping(files, lo, hi)
    ensures (lo == begin && hi == end) || exists f :: f in files && InRange(f, begin, end)
    ensures level == 0 ==> forall f :: f in inputs ==> (lo.Some? ==> lo.value <= f.Lo()) && (hi.Some? ==> f.Hi() <= hi.value)
    ensures begin.Some? && end.Some? && begin.value <= end.value ==> Grows(inputs, begin.value, end.value)
  {
    inputs := [];
    var user_begin, user_end := begin, end;
    var i := 0;
    while i < |files|
      invariant Scanned(files, level, user_begin, user_end, i, inputs)
      invariant GrownFrom(files, level, begin, end, user_begin, user_end)
      decreases Sticking(files, user_begin, user_end), |files| - i
    {
      var f := files[i];
      var file_start, file_limit := f.Lo(), f.Hi();
      if user_begin.Some? && file_limit < user_begin.value {
        // completely before the range
        ScanNext(files, level, user_begin, user_end, i, inputs);
        i := i + 1;
      } else if user_end.Some? && file_start > user_end.value {
        // completely after the range
        ScanNext(files, level, user_begin, user_end, i, inputs);
        i := i + 1;
      } else if level == 0 && user_begin.Some? && file_start < user_begin.value {
        WidenBy(files, begin, end, user_begin, user_end, i, Some(file_start), user_end);
        user_begin := Some(file_start);
        inputs, i := [], 0;
      } else if level == 0 && user_end.Some? && file_limit > user_end.value {
        WidenBy(files, begin, end, user_begin, user_end, i, user_begin, Some(file_limit));
        user_end := Some(file_limit);
        inputs, i := [], 0;
      } else {
        ScanNext(files, level, user_begin, user_end, i, inputs);
        inputs := inputs + [f];
        i := i + 1;
      }
    }
    assert files[..i] == files;
    lo, hi := user_begin, user_end;
    ScannedGrows(files, level, begin, end, lo, hi, inputs);
  }

  lemma ScannedGrows(files: seq<File>, level: nat, begin: Option<UserKey>, end: Option<UserKey>,
                     lo: Option<UserKey>, hi: Option<UserKey>, inputs: seq<File>)
    requires ValidFiles(files) && GrownFrom(files, level, begin, end, lo, hi) && inputs == Overlapping(files, lo, hi)
    requires level == 0 ==> forall f :: f in inputs ==> (lo.Some? ==> lo.value <= f.Lo()) && (hi.Some? ==> f.Hi() <= hi.value)
    ensures begin.Some? && end.Some? && begin.value <= end.value ==> Grows(inputs, begin.value, end.value)
  {
    OverlappingMembers(files, lo, hi);
    ValidOrdered(files);
    if begin.Some? && end.Some? && begin.value <= end.value {
      GrowsBeyond(files, inputs, level, begin.value, end.value, lo.value, hi.value);
    }
  }

  lemma ValidOrdered(files: seq<File>)
    requires ValidFiles(files)
    ensures forall f :: f in files ==> f.Lo() <= f.Hi()
  {
    forall f | f in files ensures f.Lo() <= f.Hi() {
      FileBounds(f, f.entries[0]);
    }
  }

  /** Every key by which [lo', hi'] exceeds [lo, hi] lies in a file overlapping [lo', hi']. */
  ghost predicate CoveredBeyond(files: seq<File>, lo: UserKey, hi: UserKey, lo': UserKey, hi': UserKey) {
    forall k :: lo' <= k <= hi' ==> lo <= k <= hi || CoversWithin(files, k, lo', hi')
  }

  ghost predicate CoversWithin(files: seq<File>, k: UserKey, lo: UserKey, hi: UserKey) {
    exists f :: f in files && f.Lo() <= k <= f.Hi() && InRange(f, Some(lo), Some(hi))
  }

  lemma CoveredWiden(files: seq<File>, f: File, lo: UserKey, hi: UserKey,
                     lo': UserKey, hi': UserKey, lo'': UserKey, hi'': UserKey)
    requires CoveredBeyond(files, lo, hi, lo', hi') && lo' <= lo <= hi <= hi'
    requires f in files && f.Lo() <= f.Hi() && InRange(f, Some(lo'), Some(hi'))
    requires (lo'' == f.Lo() <= lo' && hi'' == hi') || (lo'' == lo' && hi'' == f.Hi() >= hi')
    ensures CoveredBeyond(files, lo, hi, lo'', hi'')
  {
    forall k | lo'' <= k <= hi'' ensures lo <= k <= hi || CoversWithin(files, k, lo'', hi'') {
      if lo' <= k <= hi' {
        if !(lo <= k <= hi) {
          assert CoversWithin(files, k, lo', hi');
          var g :| g in files && g.Lo() <= k <= g.Hi() && InRange(g, Some(lo'), Some(hi'));
          assert InRange(g, Some(lo''), Some(hi''));
        }
      } else {
        assert f.Lo() <= k <= f.Hi();
      }
    }
  }

  lemma GrowsBeyond(files: seq<File>, inputs: seq<File>, level: nat, lo: UserKey, hi: UserKey, lo': UserKey, hi': UserKey)
    requires forall f :: f in inputs <==> f in files && InRange(f, Some(lo'), Some(hi'))
    requires lo' <= lo <= hi <= hi' && (level > 0 ==> lo == lo' && hi == hi')
    requires level == 0 ==> forall f :: f in inputs ==> lo' <= f.Lo() && f.Hi() <= hi'
    requires CoveredBeyond(files, lo, hi, lo', hi')
    requires forall f :: f in inputs ==> f.Lo() <= f.Hi()
    ensures Grows(inputs, lo, hi)
  {
    forall f, k | f in inputs && (f.Lo() <= k < lo || hi < k <= f.Hi()) ensures Covers(inputs, k) {
      if level == 0 {
        assert lo' <= k <= hi';
        assert CoversWithin(files, k, lo', hi');
      } else {
        assert f.Lo() <= k <= f.Hi();
      }
    }
  }

  ghost predicate IsTop(fs: seq<File>, key: IKey) {
    (exists f :: f in fs && f.largest == key) && forall f :: f in fs ==> Le(f.largest, key)
  }

  method FindLargestKey(files: seq<File>) returns (largest: Option<IKey>)
    ensures largest.None? <==> files == []
    ensures largest.Some? ==> IsTop(files, largest.value)
  {
    if files == [] {
      return None;
    }
    var key := files[0].largest;
    for i := 1 to |files|
      invariant IsTop(files[..i], key)
    {
      assert files[..i + 1] == files[..i] + [files[i]];
      var f :| f in files[..i] && f.largest == key;
      if Lt(key, files[i].largest) {
        key := files[i].largest;
        assert files[i] in files[..i + 1];
      } else {
        assert f in files[..i + 1];
      }
    }
    assert files[..|files|] == files;
    largest := Some(key);
  }

  /** `f` starts after `key` but with the same user key. */
  predicate IsBoundary(f: File, key: IKey) {
    Lt(key, f.smallest) && f.Lo() == key.user
  }

  method FindSmallestBoundaryFile(level_files: seq<File>, largest_key: IKey) returns (r: Option<File>)
    ensures r.None? ==> forall g :: g in level_files ==> !IsBoundary(g, largest_key)
    ensures r.Some? ==> r.value in level_files && IsBoundary(r.value, largest_key)
                        && forall g :: g in level_files && IsBoundary(g, largest_key) ==> Le(r.value.smallest, g.smallest)
  {
    r := None;
    for i := 0 to |level_files|
      invariant r.None? ==> forall j :: 0 <= j < i ==> !IsBoundary(level_files[j], largest_key)
      invariant r.Some? ==> r.value in level_files && IsBoundary(r.value, largest_key)
                            && forall j :: 0 <= j < i && IsBoundary(level_files[j], largest_key)
                                           ==> Le(r.value.smallest, level_files[j].smallest)
    {
      var f := level_files[i];
      if Lt(largest_key, f.smallest) && f.Lo() == largest_key.user {
        if r.None? || Lt(f.smallest, r.value.smallest) {
          r := Some(f);
        }
      }
    }
  }

  /** Number of files starting after `key`: the measure of AddBoundaryInputs. */
  function After(files: seq<File>, key: IKey): nat {
    if files == [] then 0 else (if Lt(key, files[0].smallest) then 1 else 0) + After(files[1..], key)
  }

  lemma {:induction false} AfterMonotone(files: seq<File>, key: IKey, key': IKey)
    requires Le(key, key')
    ensures After(files, key') <= After(files, key)
  {
    if files != [] {
      AfterMonotone(files[1..], key, key');
    }
  }

  lemma {:induction false} AfterShrinks(files: seq<File>, f: File, key: IKey, key': IKey)
    requires f in files && Lt(key, f.smallest) && Le(f.smallest, key')
    ensures After(files, key') < After(files, key)
  {
    if files[0] == f {
      AfterMonotone(files[1..], key, key');
    } else {
      assert files == [files[0]] + files[1..];
      AfterShrinks(files[1..], f, key, key');
    }
  }

  /** No gap between the files: whatever key lies between two ends is covered. */
  ghost predicate Solid(fs: seq<File>) {
    forall f, g, k :: f in fs && g in fs && f.Lo() <= k <= g.Hi() ==> Covers(fs, k)
  }

  /** `fs` is a contiguous run of the level's list. */
  ghost predicate Run(level_files: seq<File>, fs: seq<File>) {
    exists i, j :: 0 <= i < j <= |level_files| && fs == level_files[i..j]
  }

  lemma SolidExtend(fs: seq<File>, t: File, g: File)
    requires Solid(fs) && t in fs && t.Lo() <= t.Hi() && g.Lo() == t.Hi() && g.Lo() <= g.Hi()
    ensures Solid(fs + [g])
  {
    forall f, h, k | f in fs + [g] && h in fs + [g] && f.Lo() <= k <= h.Hi() ensures Covers(fs + [g], k) {
      if g.Lo() <= k <= g.Hi() {
        assert g in fs + [g];
      } else {
        var f', h' := if f in fs then f else t, if h in fs then h else t;
        assert f'.Lo() <= k <= h'.Hi();
        assert Covers(fs, k);
        var c :| c in fs && c.Lo() <= k <= c.Hi();
        assert c in fs + [g];
      }
    }
  }

  /** Adding files that cover whatever they reach beyond the range of two files of `fs`. */
  lemma SolidGrow(fs: seq<File>, x: File, y: File, more: seq<File>)
    requires Solid(fs) && x in fs && y in fs && Grows(more, x.Lo(), y.Hi())
    ensures Solid(fs + more)
  {
    forall f, h, k | f in fs + more && h in fs + more && f.Lo() <= k <= h.Hi() ensures Covers(fs + more, k) {
      if (f in more && k < x.Lo()) || (h in more && k > y.Hi()) {
        assert Covers(more, k);
        var c :| c in more && c.Lo() <= k <= c.Hi();
        assert c in fs + more;
      } else {
        var f', h' := if f in fs then f else x, if h in fs then h else y;
        assert f'.Lo() <= k <= h'.Hi();
        assert Covers(fs, k);
        var c :| c in fs && c.Lo() <= k <= c.Hi();
        assert c in fs + more;
      }
    }
  }

  lemma SolidSame(fs: seq<File>, gs: seq<File>)
    requires Solid(fs) && forall f :: f in fs <==> f in gs
    ensures Solid(gs)
  {
    forall f, h, k | f in gs && h in gs && f.Lo() <= k <= h.Hi() ensures Covers(gs, k) {
      assert Covers(fs, k);
    }
  }

  lemma RunTop(files: seq<File>, i: nat, j: nat, top: IKey)
    requires ValidFiles(files) && InOrder(files) && i < j <= |files| && IsTop(files[i..j], top)
    ensures top == files[j - 1].largest
  {
    var fs := files[i..j];
    assert fs[j - 1 - i] in fs;
    var t :| 0 <= t < |fs| && fs[t].largest == top;
    LargestInOrder(files, i + t, j - 1);
  }

  lemma BoundaryIsNext(files: seq<File>, j: nat, m: nat)
    requires ValidFiles(files) && InOrder(files) && 0 < j <= |files| && m < |files|
    requires IsBoundary(files[m], files[j - 1].largest)
    requires forall h :: h in files && IsBoundary(h, files[j - 1].largest) ==> Le(files[m].smallest, h.smallest)
    ensures m == j
  {
    assert files[m] in files;
    FileBounds(files[m], files[m].entries[0]);
    LargestInOrder(files, if m < j then m else j - 1, j - 1);
    assert m >= j;
    assert files[j] in files;
    FileBounds(files[j], files[j].entries[0]);
  }

  lemma RunGrow(files: seq<File>, i: nat, j: nat)
    requires i < j < |files|
    ensures Run(files, files[i..j] + [files[j]])
  {
    assert files[i..j] + [files[j]] == files[i..j + 1];
  }

  lemma RunExtend(files: seq<File>, fs: seq<File>, top: IKey, g: File)
    requires ValidFiles(files) && InOrder(files) && Run(files, fs) && IsTop(fs, top)
    requires g in files && IsBoundary(g, top)
    requires forall h :: h in files && IsBoundary(h, top) ==> Le(g.smallest, h.smallest)
    ensures Run(files, fs + [g])
  {
    var i, j :| 0 <= i < j <= |files| && fs == files[i..j];
    var m :| 0 <= m < |files| && files[m] == g;
    RunTop(files, i, j, top);
    BoundaryIsNext(files, j, m);
    RunGrow(files, i, j);
  }

  /** Chains on the files that continue the largest user key, until none is left.  `others` are files
      selected at another level. */
  /** `g` is the first file of the level that continues the user key of the largest key of `fs`. */
  ghost predicate Continues(level_files: seq<File>, fs: seq<File>, g: File) {
    exists key :: IsTop(fs, key) && g in level_files && IsBoundary(g, key)
      && forall h :: h in level_files && IsBoundary(h, key) ==> Le(g.smallest, h.smallest)
  }

  ghost predicate Link(level_files: seq<File>, out: seq<File>, i: nat)
    requires i < |out|
  {
    Continues(level_files, out[..i], out[i])
  }

  /** `out` is `fs` with such files added one by one, and nothing else. */
  ghost predicate Closure(level_files: seq<File>, fs: seq<File>, out: seq<File>) {
    fs <= out && forall i: nat :: |fs| <= i < |out| ==> Link(level_files, out, i)
  }

  lemma ClosureGrows(level_files: seq<File>, fs: seq<File>, out: seq<File>, key: IKey, g: File)
    requires Closure(level_files, fs, out) && IsTop(out, key) && g in level_files && IsBoundary(g, key)
    requires forall h :: h in level_files && IsBoundary(h, key) ==> Le(g.smallest, h.smallest)
    ensures Closure(level_files, fs, out + [g])
  {
    var more := out + [g];
    forall i: nat | |fs| <= i < |more| ensures Link(level_files, more, i) {
      assert more[..i] == out[..i];
      if i < |out| {
        assert Link(level_files, out, i);
      } else {
        assert out[..i] == out;
        assert Continues(level_files, out, g);
      }
    }
  }

  method AddBoundaryInputs(level_files: seq<File>, compaction_files: seq<File>, ghost others: seq<File>)
    returns (out: seq<File>, ghost top: IKey)
    requires ValidFiles(level_files) && ValidFiles(compaction_files)
    ensures compaction_files == [] ==> out == []
    ensures Closure(level_files, compaction_files, out)
    ensures forall f :: f in out ==> f in compaction_files || f in level_files
    ensures compaction_files != [] ==> IsTop(out, top) && forall g :: g in level_files ==> !IsBoundary(g, top)
    ensures out == compaction_files || exists g, key :: g in level_files && IsTop(compaction_files, key) && IsBoundary(g, key)
    ensures Solid(others + compaction_files) ==> Solid(others + out)
    ensures InOrder(level_files) && Run(level_files, compaction_files) ==> Run(level_files, out)
  {
    out := compaction_files;
    var largest_key := FindLargestKey(out);
    top := IKey(0.0, 0, Value);
    if largest_key.None? {
      return;
    }
    var key := largest_key.value;
    var continue_searching := true;
    while continue_searching
      invariant Closure(level_files, compaction_files, out) && IsTop(out, key)
      invariant forall f :: f in out ==> f in compaction_files || f in level_files
      invariant !continue_searching ==> forall g :: g in level_files ==> !IsBoundary(g, key)
      invariant out == compaction_files || exists g, key :: g in level_files && IsTop(compaction_files, key) && IsBoundary(g, key)
      invariant Solid(others + compaction_files) ==> Solid(others + out)
      invariant InOrder(level_files) && Run(level_files, compaction_files) ==> Run(level_files, out)
      decreases continue_searching, After(level_files, key)
    {
      var boundary := FindSmallestBoundaryFile(level_files, key);
      if boundary.Some? {
        var g := boundary.value;
        AfterShrinks(level_files, g, key, g.largest) by {
          FileBounds(g, g.entries[0]);
        }
        StepKeeps(level_files, compaction_files, others, out, key, g);
        ClosureGrows(level_files, compaction_files, out, key, g);
        out := out + [g];
        key := g.largest;
      } else {
        continue_searching := false;
      }
    }
    top := key;
  }

  lemma TopGrows(out: seq<File>, key: IKey, g: File)
    requires IsTop(out, key) && IsBoundary(g, key) && ValidFile(g)
    ensures Lt(key, g.largest) && IsTop(out + [g], g.largest)
  {
    FileBounds(g, g.entries[0]);
    assert g in out + [g];
  }

  lemma SolidStep(others: seq<File>, out: seq<File>, key: IKey, g: File)
    requires ValidFiles(out) && ValidFile(g) && IsTop(out, key) && IsBoundary(g, key) && Solid(others + out)
    ensures Solid(others + (out + [g]))
  {
    FileBounds(g, g.entries[0]);
    var t :| t in out && t.largest == key;
    FileBounds(t, t.entries[0]);
    SolidExtend(others + out, t, g);
    assert others + out + [g] == others + (out + [g]);
  }

  lemma StepKeeps(level_files: seq<File>, compaction_files: seq<File>, others: seq<File>, out: seq<File>, key: IKey, g: File)
    requires ValidFiles(level_files) && ValidFiles(out)
    requires IsTop(out, key) && g in level_files && IsBoundary(g, key)
    requires forall h :: h in level_files && IsBoundary(h, key) ==> Le(g.smallest, h.smallest)
    ensures Lt(key, g.largest) && IsTop(out + [g], g.largest)
    ensures Solid(others + out) ==> Solid(others + (out + [g]))
    ensures InOrder(level_files) && Run(level_files, out) ==> Run(level_files, out + [g])
  {
    TopGrows(out, key, g);
    if Solid(others + out) {
      SolidStep(others, out, key, g);
    }
    if InOrder(level_files) && Run(level_files, out) {
      RunExtend(level_files, out, key, g);
    }
  }
}

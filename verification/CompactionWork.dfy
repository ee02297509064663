/** The compaction loop and its two moving cursors (kv/db/db_impl.cpp DoCompactionWork,
    kv/db/version_set.cpp IsBaseLevelForKey and ShouldStopBefore). */
module CompactionWork {
  import opened Format
  import opened History
  import opened Lookup
  import opened Versions
  import opened Compactions
  import opened Picking

  ghost predicate LevelsSound(v: Version) {
    |v| == NUM_LEVELS && forall l :: 0 <= l < |v| ==> SoundLevel(l, v[l])
  }

  /** The parts of class Compaction that its loop updates. */
  class Cursor {
    const version: Version
    const level: nat
    const grandparents: seq<File>
    const level_ptrs: array<nat>
    var grandparent_index: nat
    var seen_key: bool
    var overlapped_bytes: nat

    constructor (v: Version, l: nat, gs: seq<File>)
      requires LevelsSound(v) && l + 1 < NUM_LEVELS
      ensures version == v && level == l && grandparents == gs
      ensures Valid() && fresh(level_ptrs) && grandparent_index == 0 && overlapped_bytes == 0 && !seen_key
      ensures forall k :: Passed(k)
    {
      version, level, grandparents := v, l, gs;
      level_ptrs := new nat[NUM_LEVELS](_ => 0);
      grandparent_index, seen_key, overlapped_bytes := 0, false, 0;
    }

    ghost predicate PointersValid()
      reads level_ptrs
    {
      && LevelsSound(version) && level + 1 < NUM_LEVELS
      && level_ptrs.Length == NUM_LEVELS
      && forall l :: 0 <= l < NUM_LEVELS ==> level_ptrs[l] <= |version[l]|
    }

    ghost predicate Valid()
      reads this, level_ptrs
    {
      PointersValid() && grandparent_index <= |grandparents|
    }

    /** Every file a cursor has left behind ends before `k`. */
    ghost predicate Passed(k: UserKey)
      requires PointersValid()
      reads level_ptrs
    {
      forall l, i :: 0 <= l < NUM_LEVELS && 0 <= i < level_ptrs[l] ==> version[l][i].Hi() < k
    }

    /** With keys arriving in order, the moving cursors decide what a full scan would. */
    method IsBaseLevelForKey(user_key: UserKey) returns (r: bool)
      requires PointersValid() && Passed(user_key)
      modifies level_ptrs
      ensures PointersValid() && Passed(user_key)
      ensures r <==> BaseLevel(version, level, user_key)
    {
      var lvl := level + 2;
      while lvl < NUM_LEVELS
        invariant level + 2 <= lvl
        invariant PointersValid() && Passed(user_key)
        invariant forall l, f :: level + 2 <= l < lvl && l < |version| && f in version[l] ==> !(f.Lo() <= user_key <= f.Hi())
      {
        var files := version[lvl];
        assert SoundLevel(lvl, files);
        var covered := AdvancePointer(lvl, user_key);
        if covered {
          assert files[level_ptrs[lvl]] in files;
          return false;
        }
        CursorScan(files, level_ptrs[lvl], user_key);
        lvl := lvl + 1;
      }
      return true;
    }

    /** The inner loop of IsBaseLevelForKey at one level. */
    method AdvancePointer(lvl: nat, user_key: UserKey) returns (covered: bool)
      requires PointersValid() && Passed(user_key) && lvl < NUM_LEVELS
      modifies level_ptrs
      ensures PointersValid() && Passed(user_key)
      ensures var files := version[lvl]; var p := level_ptrs[lvl];
              if p == |files| then !covered
              else user_key <= files[p].Hi() && (covered <==> user_key >= files[p].Lo())
    {
      var files := version[lvl];
      while level_ptrs[lvl] < |files|
        invariant PointersValid() && Passed(user_key)
        decreases |files| - level_ptrs[lvl]
      {
        var f := files[level_ptrs[lvl]];
        if user_key <= f.Hi() {
          return user_key >= f.Lo();
        }
        level_ptrs[lvl] := level_ptrs[lvl] + 1;
      }
      return false;
    }

    /** Whether the current output should end before `key`: it already overlaps too much of the
        grandparent level. */
    method ShouldStopBefore(key: IKey, max_overlap: nat) returns (stop: bool)
      requires Valid()
      requires forall i :: 0 <= i < grandparent_index ==> Lt(grandparents[i].largest, key)
      modifies this
      ensures Valid() && seen_key
      ensures forall i :: 0 <= i < grandparent_index ==> Lt(grandparents[i].largest, key)
      ensures grandparent_index < |grandparents| ==> Le(key, grandparents[grandparent_index].largest)
      ensures old(grandparent_index) <= grandparent_index
      ensures var passed := TotalFileSize(grandparents[old(grandparent_index)..grandparent_index]);
              var overlap := old(overlapped_bytes) + if old(seen_key) then passed else 0;
              stop == (overlap > max_overlap) && overlapped_bytes == if stop then 0 else overlap
    {
      ghost var first := grandparent_index;
      assert grandparents[first..first] == [];
      while grandparent_index < |grandparents| && Lt(grandparents[grandparent_index].largest, key)
        invariant Valid() && seen_key == old(seen_key) && first <= grandparent_index
        invariant forall i :: 0 <= i < grandparent_index ==> Lt(grandparents[i].largest, key)
        invariant overlapped_bytes == old(overlapped_bytes) +
                    if seen_key then TotalFileSize(grandparents[first..grandparent_index]) else 0
      {
        ghost var f := grandparents[grandparent_index];
        TotalStep(grandparents[first..grandparent_index], f);
        assert grandparents[first..grandparent_index + 1] == grandparents[first..grandparent_index] + [f];
        if seen_key {
          overlapped_bytes := overlapped_bytes + grandparents[grandparent_index].size;
        }
        grandparent_index := grandparent_index + 1;
      }
      seen_key := true;
      if overlapped_bytes > max_overlap {
        overlapped_bytes := 0;
        stop := true;
      } else {
        stop := false;
      }
    }
  }

  lemma CursorScan(files: seq<File>, p: nat, k: UserKey)
    requires ValidFiles(files) && InOrder(files) && p <= |files|
    requires forall i :: 0 <= i < p ==> files[i].Hi() < k
    requires p < |files| ==> k < files[p].Lo()
    ensures forall f :: f in files ==> !(f.Lo() <= k <= f.Hi())
  {
    forall f | f in files ensures !(f.Lo() <= k <= f.Hi()) {
      var i :| 0 <= i < |files| && files[i] == f;
      if i >= p {
        SmallestInOrder(files, p, i);
      }
    }
  }

  // ---- Where outputs end ----

  /** The grandparents that end before `key`. */
  function Leading(gs: seq<File>, key: IKey): (n: nat)
    ensures n <= |gs| && forall i :: 0 <= i < n ==> Lt(gs[i].largest, key)
    ensures n < |gs| ==> Le(key, gs[n].largest)
  {
    if gs == [] || !Lt(gs[0].largest, key) then 0 else 1 + Leading(gs[1..], key)
  }

  /** The limits an output is held to: its size, and the bytes of the grandparent level it may reach over. */
  datatype Limits = Limits(fileSize: seq<Entry> -> nat, max_output: nat, grandparents: seq<File>, max_overlap: nat)

  /** Bytes of the grandparents that end between two keys. */
  function Passed(gs: seq<File>, a: IKey, b: IKey): nat {
    if Leading(gs, a) <= Leading(gs, b) then TotalFileSize(gs[Leading(gs, a)..Leading(gs, b)]) else 0
  }

  /** Bytes passed up to stream entry `i` since the count was last exceeded. */
  function Reach(l: Limits, stream: seq<Entry>, i: nat): nat
    requires i < |stream|
  {
    if i == 0 then 0
    else
      var r := Reach(l, stream, i - 1);
      (if r > l.max_overlap then 0 else r) + Passed(l.grandparents, stream[i - 1].ikey, stream[i].ikey)
  }

  /** The output must end before stream entry `i`. */
  predicate StopsAt(l: Limits, stream: seq<Entry>, i: nat)
    requires i < |stream|
  {
    Reach(l, stream, i) > l.max_overlap
  }

  /** With fewer than its last entries the output was not full. */
  ghost predicate Fitting(l: Limits, es: seq<Entry>, n: nat)
    requires n <= |es| + 1
  {
    forall m :: 0 < m < n ==> l.fileSize(es[..m]) < l.max_output
  }

  /** If stream entry `j` is after the first key and not after the last, it is no stop. */
  ghost predicate NoStop(l: Limits, stream: seq<Entry>, first: IKey, last: IKey, j: nat)
    requires j < |stream|
  {
    Lt(first, stream[j].ikey) && Le(stream[j].ikey, last) ==> !StopsAt(l, stream, j)
  }

  /** No stop after the first key and up to the last. */
  ghost predicate Unstopped(l: Limits, stream: seq<Entry>, first: IKey, last: IKey) {
    forall j: nat :: j < |stream| ==> NoStop(l, stream, first, last, j)
  }

  /** No stop after the first key among the first `i` entries. */
  ghost predicate UnstoppedSince(l: Limits, stream: seq<Entry>, i: nat, first: IKey)
    requires i <= |stream|
  {
    forall j: nat :: j < i ==> NoStop(l, stream, first, stream[j].ikey, j)
  }

  /** What holds of every output: its size is recorded, it was cut no later than it must be. */
  ghost predicate OutputOk(l: Limits, stream: seq<Entry>, f: File) {
    && f.size == l.fileSize(f.entries) && Fitting(l, f.entries, |f.entries|)
    && Unstopped(l, stream, f.smallest, f.largest)
  }

  /** A stop at stream entry `j` is the first thing after `f`: what lies between is dropped. */
  ghost predicate StopAfter(l: Limits, c: Compaction, stream: seq<Entry>, f: File, j: nat)
    requires j < |stream|
  {
    && StopsAt(l, stream, j) && Lt(f.largest, stream[j].ikey)
    && forall t: nat :: t < j ==> DroppedAfter(c, stream, f.largest, t)
  }

  ghost predicate DroppedAfter(c: Compaction, stream: seq<Entry>, last: IKey, t: nat)
    requires t < |stream|
  {
    Lt(last, stream[t].ikey) ==> Dropped(c, stream[t])
  }

  /** ... and no sooner: it is full, or the next entry would reach over too many grandparents. */
  ghost predicate Ended(l: Limits, c: Compaction, stream: seq<Entry>, f: File) {
    l.fileSize(f.entries) >= l.max_output || exists j: nat :: j < |stream| && StopAfter(l, c, stream, f, j)
  }

  ghost predicate OpenOk(l: Limits, stream: seq<Entry>, i: nat, open: seq<Entry>)
    requires i <= |stream|
  {
    && Fitting(l, open, |open| + 1)
    && (open != [] ==> UnstoppedSince(l, stream, i, open[0].ikey))
  }

  ghost predicate Shaped(l: Limits, c: Compaction, stream: seq<Entry>, i: nat, files: seq<File>, open: seq<Entry>)
    requires i <= |stream|
  {
    (forall f :: f in files ==> OutputOk(l, stream, f) && Ended(l, c, stream, f)) && OpenOk(l, stream, i, open)
  }

  lemma LeadingUnique(gs: seq<File>, key: IKey, n: nat)
    requires n <= |gs| && (forall i :: 0 <= i < n ==> Lt(gs[i].largest, key)) && (n < |gs| ==> Le(key, gs[n].largest))
    ensures n == Leading(gs, key)
  {
    var m := Leading(gs, key);
    var k := if m < n then m else n;
    assert k < |gs| ==> Lt(gs[k].largest, key) || Le(key, gs[k].largest);
  }

  /** Everything in `open` is from the first `i` entries of the stream, and so before the others. */
  lemma OpenBefore(c: Compaction, stream: seq<Entry>, i: nat, outs: seq<File>, open: seq<Entry>, j: nat)
    requires Sorted(stream) && i <= j < |stream| && Progress(c, stream, i, outs, open) && open != []
    ensures Lt(open[|open| - 1].ikey, stream[j].ikey)
  {
    assert open[|open| - 1] in open;
    assert open[|open| - 1] in stream[..i];
    var t :| 0 <= t < i && stream[t] == open[|open| - 1];
  }

  /** What is kept of the first `i` entries is not after the last entry of `open`. */
  lemma KeptUpToLast(c: Compaction, stream: seq<Entry>, i: nat, outs: seq<File>, open: seq<Entry>, t: nat)
    requires i <= |stream| && Progress(c, stream, i, outs, open) && open != [] && t < i && !Dropped(c, stream[t])
    ensures Le(stream[t].ikey, open[|open| - 1].ikey)
  {
    var e, last := stream[t], open[|open| - 1];
    assert e in stream[..i] && last in open;
    if e in open {
      var m :| 0 <= m < |open| && open[m] == e;
    } else {
      var f :| f in outs && e in f.entries;
      FileBounds(f, e);
      assert Lt(f.largest, last.ikey);
    }
  }

  lemma ClosedUnstopped(l: Limits, c: Compaction, stream: seq<Entry>, i: nat, files: seq<File>, open: seq<Entry>)
    requires Sorted(stream) && i <= |stream| && Progress(c, stream, i, files, open) && open != []
    requires UnstoppedSince(l, stream, i, open[0].ikey)
    ensures Unstopped(l, stream, open[0].ikey, open[|open| - 1].ikey)
  {
    var first, last := open[0].ikey, open[|open| - 1].ikey;
    forall j: nat | j < |stream| ensures NoStop(l, stream, first, last, j) {
      if j >= i {
        OpenBefore(c, stream, i, files, open, j);
      } else {
        assert NoStop(l, stream, first, stream[j].ikey, j);
      }
    }
  }

  lemma StoppedAfter(l: Limits, c: Compaction, stream: seq<Entry>, i: nat, files: seq<File>, open: seq<Entry>, f: File)
    requires Sorted(stream) && i < |stream| && Progress(c, stream, i, files, open) && open != []
    requires f.largest == open[|open| - 1].ikey && StopsAt(l, stream, i)
    ensures Ended(l, c, stream, f)
  {
    OpenBefore(c, stream, i, files, open, i);
    forall t: nat | t < i ensures DroppedAfter(c, stream, f.largest, t) {
      if !Dropped(c, stream[t]) {
        KeptUpToLast(c, stream, i, files, open, t);
      }
    }
    assert StopAfter(l, c, stream, f, i);
  }

  /** Closing the open output at stream entry `i`, for either reason. */
  lemma CloseShaped(l: Limits, c: Compaction, stream: seq<Entry>, i: nat, files: seq<File>, open: seq<Entry>, f: File)
    requires Sorted(stream) && i <= |stream| && Progress(c, stream, i, files, open) && open != []
    requires forall g :: g in files ==> OutputOk(l, stream, g) && Ended(l, c, stream, g)
    requires Fitting(l, open, |open|) && UnstoppedSince(l, stream, i, open[0].ikey)
    requires f == Finished(f.number, l.fileSize(open), open)
    ensures OutputOk(l, stream, f)
    ensures l.fileSize(open) >= l.max_output || (i < |stream| && StopsAt(l, stream, i)) ==>
              Shaped(l, c, stream, i, files + [f], [])
  {
    ClosedUnstopped(l, c, stream, i, files, open);
    if i < |stream| && StopsAt(l, stream, i) {
      StoppedAfter(l, c, stream, i, files, open, f);
    }
  }

  lemma PassShaped(l: Limits, c: Compaction, stream: seq<Entry>, i: nat, files: seq<File>, open: seq<Entry>)
    requires i < |stream| && Shaped(l, c, stream, i, files, open) && (open != [] ==> !StopsAt(l, stream, i))
    ensures Shaped(l, c, stream, i + 1, files, open)
  {
    if open != [] {
      SinceMore(l, stream, i, open[0].ikey);
    }
  }

  lemma SinceMore(l: Limits, stream: seq<Entry>, i: nat, first: IKey)
    requires i < |stream| && UnstoppedSince(l, stream, i, first) && !StopsAt(l, stream, i)
    ensures UnstoppedSince(l, stream, i + 1, first)
  {
  }

  lemma SinceHere(l: Limits, stream: seq<Entry>, i: nat)
    requires Sorted(stream) && i < |stream|
    ensures UnstoppedSince(l, stream, i + 1, stream[i].ikey)
  {
    forall j: nat | j < i + 1 ensures NoStop(l, stream, stream[i].ikey, stream[j].ikey, j) {
      assert j < i ==> Lt(stream[j].ikey, stream[i].ikey);
    }
  }

  lemma AddShaped(l: Limits, stream: seq<Entry>, i: nat, open: seq<Entry>)
    requires Sorted(stream) && i < |stream| && OpenOk(l, stream, i, open) && (open != [] ==> !StopsAt(l, stream, i))
    ensures var open' := open + [stream[i]];
            Fitting(l, open', |open'|) && UnstoppedSince(l, stream, i + 1, open'[0].ikey)
  {
    var open' := open + [stream[i]];
    forall m | 0 < m < |open'| ensures l.fileSize(open'[..m]) < l.max_output {
      assert open'[..m] == open[..m];
    }
    if open == [] {
      SinceHere(l, stream, i);
    } else {
      SinceMore(l, stream, i, open[0].ikey);
    }
  }

  lemma OpenFits(l: Limits, stream: seq<Entry>, i: nat, open: seq<Entry>)
    requires i <= |stream| && Fitting(l, open, |open|) && l.fileSize(open) < l.max_output
    requires open != [] ==> UnstoppedSince(l, stream, i, open[0].ikey)
    ensures OpenOk(l, stream, i, open)
  {
    assert open[..|open|] == open;
  }

  /** MakeInputIterator's stream: the inputs' entries in internal-key order. */
  ghost predicate InputStream(c: Compaction, stream: seq<Entry>) {
    && Sorted(stream)
    && (forall e :: e in stream <==> e in Entries(c.Inputs()))
    && Distinct(Entries(c.Inputs()))
    && forall e :: e in stream ==> e.Seq() <= MAX_SEQUENCE
  }

  /** The loop remembers only the previous entry, yet its test (A) is the one over all inputs. */
  lemma HiddenByPrevious(c: Compaction, stream: seq<Entry>, i: nat)
    requires InputStream(c, stream) && i < |stream|
    ensures Hidden(Entries(c.Inputs()), c.horizon, stream[i]) <==>
            i > 0 && stream[i - 1].User() == stream[i].User() && stream[i - 1].Seq() <= c.horizon
  {
    var In, e := Entries(c.Inputs()), stream[i];
    assert e in In;
    if i > 0 && stream[i - 1].User() == e.User() && stream[i - 1].Seq() <= c.horizon {
      var d := stream[i - 1];
      assert d in stream;
      assert Lt(d.ikey, e.ikey);
      assert d in In && e.Seq() < d.Seq();
    }
    if Hidden(In, c.horizon, e) {
      var d :| d in In && d.User() == e.User() && e.Seq() < d.Seq() <= c.horizon;
      var j :| 0 <= j < |stream| && stream[j] == d;
      assert j < i;
      assert j < i - 1 ==> Lt(stream[j].ikey, stream[i - 1].ikey);
      assert Lt(stream[i - 1].ikey, e.ikey);
    }
  }

  /** After `i` entries: closed outputs and the open one hold exactly the entries kept so far, in order. */
  ghost predicate Progress(c: Compaction, stream: seq<Entry>, i: nat, outs: seq<File>, open: seq<Entry>)
    requires i <= |stream|
  {
    && ValidFiles(outs) && InOrder(outs) && Sorted(open)
    && (forall f, e :: f in outs && e in open ==> Lt(f.largest, e.ikey))
    && forall e :: (e in Entries(outs) || e in open) <==> e in stream[..i] && !Dropped(c, e)
  }

  /** FinishCompactionOutputFile's metadata. */
  function Finished(number: nat, size: nat, es: seq<Entry>): File
    requires es != []
  {
    File(number, size, es[0].ikey, es[|es| - 1].ikey, es)
  }

  lemma CloseOutput(c: Compaction, stream: seq<Entry>, i: nat, outs: seq<File>, open: seq<Entry>, number: nat, size: nat)
    requires InputStream(c, stream) && i <= |stream| && Progress(c, stream, i, outs, open) && open != []
    ensures Progress(c, stream, i, outs + [Finished(number, size, open)], [])
  {
    var f := Finished(number, size, open);
    var outs' := outs + [f];
    forall e | e in open ensures e.Seq() <= MAX_SEQUENCE {
      assert e in stream[..i];
    }
    assert open[0] in open;
    assert Entries(outs') == Entries(outs) + Entries([f]);
    assert forall e :: e in Entries([f]) <==> e in open;
  }

  lemma SkipEntry(c: Compaction, stream: seq<Entry>, i: nat, outs: seq<File>, open: seq<Entry>)
    requires i < |stream| && Progress(c, stream, i, outs, open) && Dropped(c, stream[i])
    ensures Progress(c, stream, i + 1, outs, open)
  {
    assert stream[..i + 1] == stream[..i] + [stream[i]];
  }

  lemma KeepEntry(c: Compaction, stream: seq<Entry>, i: nat, outs: seq<File>, open: seq<Entry>)
    requires i < |stream| && Sorted(stream) && Progress(c, stream, i, outs, open) && !Dropped(c, stream[i])
    ensures Progress(c, stream, i + 1, outs, open + [stream[i]])
  {
    var e := stream[i];
    assert stream[..i + 1] == stream[..i] + [e];
    forall d | d in stream[..i] ensures Lt(d.ikey, e.ikey) {
    }
    forall j | 0 <= j < |open| ensures Lt(open[j].ikey, e.ikey) {
      assert open[j] in open;
    }
    forall f | f in outs ensures Lt(f.largest, e.ikey) {
      var last := f.entries[|f.entries| - 1];
      assert last in f.entries;
      assert last in Entries(outs);
    }
  }

  ghost predicate Numbered(outs: seq<File>, first: nat, next: nat) {
    && (forall a :: 0 <= a < |outs| ==> first <= outs[a].number < next)
    && (forall a, b :: 0 <= a < b < |outs| ==> outs[a].number < outs[b].number)
  }

  /** CompactionState: finished outputs, the open builder (none if `open` is empty) and its file number. */
  datatype Outputs = Outputs(files: seq<File>, open: seq<Entry>, number: nat, next: nat)

  ghost predicate Building(c: Compaction, stream: seq<Entry>, i: nat, o: Outputs, first: nat)
    requires i <= |stream|
  {
    && Progress(c, stream, i, o.files, o.open)
    && first <= o.next && Numbered(o.files, first, o.next)
    && (o.open != [] ==> first <= o.number < o.next && forall f :: f in o.files ==> f.number < o.number)
  }

  /** FinishCompactionOutputFile. */
  method FinishOutput(c: Compaction, ghost stream: seq<Entry>, ghost i: nat, o: Outputs, ghost first: nat, size: nat)
    returns (o': Outputs)
    requires InputStream(c, stream) && i <= |stream| && Building(c, stream, i, o, first) && o.open != []
    ensures Building(c, stream, i, o', first) && o'.open == []
    ensures o'.files == o.files + [Finished(o.number, size, o.open)]
  {
    CloseOutput(c, stream, i, o.files, o.open, o.number, size);
    o' := o.(files := o.files + [Finished(o.number, size, o.open)], open := []);
  }

  /** OpenCompactionOutputFile if necessary, then TableBuilder::Add.  Other threads may take file numbers in between. */
  method AddOutput(c: Compaction, stream: seq<Entry>, i: nat, o: Outputs, ghost first: nat) returns (o': Outputs)
    requires InputStream(c, stream) && i < |stream| && Building(c, stream, i, o, first) && !Dropped(c, stream[i])
    ensures Building(c, stream, i + 1, o', first) && o'.open == o.open + [stream[i]] && o'.files == o.files
    ensures if o.open == [] then o'.next == o'.number + 1 else o'.next == o.next && o'.number == o.number
  {
    o' := o;
    if o.open == [] {
      var taken :| 0 <= taken;
      o' := o.(number := o.next + taken, next := o.next + taken + 1);
      assert forall f :: f in o.files ==> f.number < o.next;
    }
    KeepEntry(c, stream, i, o.files, o.open);
    o' := o'.(open := o.open + [stream[i]]);
  }

  /** The drop test of one iteration. */
  method ShouldDrop(c: Compaction, ghost stream: seq<Entry>, ghost i: nat, ikey: IKey, last_sequence_for_key: nat, cursor: Cursor)
    returns (drop: bool)
    requires InputStream(c, stream) && i < |stream| && stream[i].ikey == ikey && c.horizon < MAX_SEQUENCE
    requires last_sequence_for_key ==
               if i > 0 && stream[i - 1].User() == ikey.user then stream[i - 1].Seq() else MAX_SEQUENCE
    requires cursor.PointersValid() && cursor.Passed(ikey.user) && cursor.version == c.base && cursor.level == c.level
    modifies cursor.level_ptrs
    ensures cursor.PointersValid() && cursor.Passed(ikey.user)
    ensures drop <==> Dropped(c, stream[i])
  {
    HiddenByPrevious(c, stream, i);
    drop := false;
    if last_sequence_for_key <= c.horizon {
      drop := true;
    } else if ikey.kind.Deletion? && ikey.sequence <= c.horizon {
      drop := cursor.IsBaseLevelForKey(ikey.user);
    }
  }

  /** The output half of one iteration. */
  method Emit(c: Compaction, stream: seq<Entry>, i: nat, o: Outputs, ghost first: nat, stop: bool, drop: bool, l: Limits)
    returns (o': Outputs)
    requires InputStream(c, stream) && i < |stream| && Building(c, stream, i, o, first)
    requires Shaped(l, c, stream, i, o.files, o.open) && stop == StopsAt(l, stream, i)
    requires drop <==> Dropped(c, stream[i])
    ensures Building(c, stream, i + 1, o', first) && Shaped(l, c, stream, i + 1, o'.files, o'.open)
  {
    o' := EndBefore(c, stream, i, o, first, stop, l);
    if drop {
      PassShaped(l, c, stream, i, o'.files, o'.open);
      SkipEntry(c, stream, i, o'.files, o'.open);
    } else {
      o' := Keep(c, stream, i, o', first, l);
    }
  }

  /** The open output ends before entry `i` if it must. */
  method EndBefore(c: Compaction, ghost stream: seq<Entry>, ghost i: nat, o: Outputs, ghost first: nat, stop: bool, l: Limits)
    returns (o': Outputs)
    requires InputStream(c, stream) && i < |stream| && Building(c, stream, i, o, first)
    requires Shaped(l, c, stream, i, o.files, o.open) && stop == StopsAt(l, stream, i)
    ensures Building(c, stream, i, o', first) && Shaped(l, c, stream, i, o'.files, o'.open)
    ensures o'.open != [] ==> !StopsAt(l, stream, i)
  {
    o' := o;
    if stop && o.open != [] {
      CloseShaped(l, c, stream, i, o.files, o.open, Finished(o.number, l.fileSize(o.open), o.open));
      o' := FinishOutput(c, stream, i, o, first, l.fileSize(o.open));
    }
  }

  /** An entry that is kept: into the open output, which is closed if it is big enough now. */
  method Keep(c: Compaction, stream: seq<Entry>, i: nat, o: Outputs, ghost first: nat, l: Limits) returns (o': Outputs)
    requires InputStream(c, stream) && i < |stream| && Building(c, stream, i, o, first) && !Dropped(c, stream[i])
    requires Shaped(l, c, stream, i, o.files, o.open) && (o.open != [] ==> !StopsAt(l, stream, i))
    ensures Building(c, stream, i + 1, o', first) && Shaped(l, c, stream, i + 1, o'.files, o'.open)
  {
    AddShaped(l, stream, i, o.open);
    o' := AddOutput(c, stream, i, o, first);
    if l.fileSize(o'.open) >= l.max_output {
      CloseShaped(l, c, stream, i + 1, o'.files, o'.open, Finished(o'.number, l.fileSize(o'.open), o'.open));
      o' := FinishOutput(c, stream, i + 1, o', first, l.fileSize(o'.open));
    } else {
      OpenFits(l, stream, i + 1, o'.open);
    }
  }

  lemma AllEmitted(c: Compaction, stream: seq<Entry>, o: Outputs, first: nat)
    requires InputStream(c, stream) && Building(c, stream, |stream|, o, first) && o.open == []
    ensures Entries(o.files) == Kept(c)
  {
    assert stream[..|stream|] == stream;
  }

  /** Every output is as it must be, and all but the last ended for a reason. */
  ghost predicate WellCut(l: Limits, c: Compaction, stream: seq<Entry>, outs: seq<File>) {
    && (forall f :: f in outs ==> OutputOk(l, stream, f))
    && forall k :: 0 <= k < |outs| - 1 ==> Ended(l, c, stream, outs[k])
  }

  /** The end of the loop: the open output is finished, too. */
  method FinishLast(c: Compaction, ghost stream: seq<Entry>, o: Outputs, ghost first: nat, l: Limits)
    returns (outs: seq<File>, next: nat)
    requires InputStream(c, stream) && Building(c, stream, |stream|, o, first)
    requires Shaped(l, c, stream, |stream|, o.files, o.open)
    ensures ValidFiles(outs) && InOrder(outs) && Entries(outs) == Kept(c)
    ensures first <= next && Numbered(outs, first, next)
    ensures WellCut(l, c, stream, outs)
  {
    var o' := o;
    if o.open != [] {
      CloseShaped(l, c, stream, |stream|, o.files, o.open, Finished(o.number, l.fileSize(o.open), o.open));
      o' := FinishOutput(c, stream, |stream|, o, first, l.fileSize(o.open));
    }
    AllEmitted(c, stream, o', first);
    outs, next := o'.files, o'.next;
    forall k | 0 <= k < |outs| - 1 ensures Ended(l, c, stream, outs[k]) {
      assert outs[k] in o.files;
    }
  }

  /** The cursors have seen the first `i` keys of the stream. */
  ghost predicate Tracks(cursor: Cursor, c: Compaction, stream: seq<Entry>, i: nat, l: Limits)
    requires i <= |stream|
    reads cursor, cursor.level_ptrs
  {
    && cursor.Valid() && cursor.grandparents == l.grandparents && cursor.version == c.base && cursor.level == c.level
    && (forall k :: (i > 0 ==> k >= stream[i - 1].User()) ==> cursor.Passed(k))
    && cursor.seen_key == (i > 0)
    && (if i == 0 then cursor.grandparent_index == 0 && cursor.overlapped_bytes == 0
        else
          && cursor.grandparent_index == Leading(l.grandparents, stream[i - 1].ikey)
          && cursor.overlapped_bytes == if StopsAt(l, stream, i - 1) then 0 else Reach(l, stream, i - 1))
  }

  lemma ReachStep(l: Limits, stream: seq<Entry>, i: nat)
    requires Sorted(stream) && 0 < i < |stream|
    ensures var a, b := Leading(l.grandparents, stream[i - 1].ikey), Leading(l.grandparents, stream[i].ikey);
            && a <= b
            && Reach(l, stream, i) == (if StopsAt(l, stream, i - 1) then 0 else Reach(l, stream, i - 1))
                                      + TotalFileSize(l.grandparents[a..b])
  {
    var gs := l.grandparents;
    var a, b := Leading(gs, stream[i - 1].ikey), Leading(gs, stream[i].ikey);
    assert b < a ==> Lt(gs[b].largest, stream[i - 1].ikey);
  }

  /** ShouldStopBefore along the stream. */
  method AskStop(stream: seq<Entry>, i: nat, cursor: Cursor, l: Limits) returns (stop: bool)
    requires Sorted(stream) && i < |stream| && cursor.Valid() && cursor.grandparents == l.grandparents
    requires cursor.seen_key == (i > 0)
    requires if i == 0 then cursor.grandparent_index == 0 && cursor.overlapped_bytes == 0
             else && cursor.grandparent_index == Leading(l.grandparents, stream[i - 1].ikey)
                  && cursor.overlapped_bytes == if StopsAt(l, stream, i - 1) then 0 else Reach(l, stream, i - 1)
    modifies cursor
    ensures cursor.Valid() && cursor.seen_key && stop == StopsAt(l, stream, i)
    ensures cursor.grandparent_index == Leading(l.grandparents, stream[i].ikey)
    ensures cursor.overlapped_bytes == if stop then 0 else Reach(l, stream, i)
  {
    assert i > 0 ==> Lt(stream[i - 1].ikey, stream[i].ikey);
    if i > 0 {
      ReachStep(l, stream, i);
    }
    stop := cursor.ShouldStopBefore(stream[i].ikey, l.max_overlap);
    LeadingUnique(l.grandparents, stream[i].ikey, cursor.grandparent_index);
  }

  /** Both questions the loop asks about a key: end the output before it, and drop it? */
  method Examine(c: Compaction, stream: seq<Entry>, i: nat, last_sequence_for_key: nat, cursor: Cursor, l: Limits)
    returns (stop: bool, drop: bool)
    requires InputStream(c, stream) && i < |stream| && c.horizon < MAX_SEQUENCE
    requires last_sequence_for_key ==
               if i > 0 && stream[i - 1].User() == stream[i].User() then stream[i - 1].Seq() else MAX_SEQUENCE
    requires Tracks(cursor, c, stream, i, l)
    modifies cursor, cursor.level_ptrs
    ensures Tracks(cursor, c, stream, i + 1, l)
    ensures stop == StopsAt(l, stream, i) && (drop <==> Dropped(c, stream[i]))
  {
    assert i > 0 ==> Lt(stream[i - 1].ikey, stream[i].ikey);
    stop := AskStop(stream, i, cursor, l);
    drop := ShouldDrop(c, stream, i, stream[i].ikey, last_sequence_for_key, cursor);
  }

  /** current_user_key and last_sequence_for_key after `i` entries. */
  ghost predicate Remembers(stream: seq<Entry>, i: nat, current_user_key: Option<UserKey>, last_sequence_for_key: nat)
    requires i <= |stream|
  {
    if i == 0 then current_user_key == None
    else current_user_key == Some(stream[i - 1].User()) && last_sequence_for_key == stream[i - 1].Seq()
  }

  /** The sequence number of the entry before, if it is of the same user key. */
  method PreviousSequence(stream: seq<Entry>, i: nat, current_user_key: Option<UserKey>, last_sequence_for_key: nat) returns (last: nat)
    requires i < |stream| && Remembers(stream, i, current_user_key, last_sequence_for_key)
    ensures last == if i > 0 && stream[i - 1].User() == stream[i].User() then stream[i - 1].Seq() else MAX_SEQUENCE
  {
    last := if current_user_key != Some(stream[i].User()) then MAX_SEQUENCE else last_sequence_for_key;
  }

  /** The state of the loop after `n` entries, which is before entry `i`. */
  ghost predicate Looping(c: Compaction, stream: seq<Entry>, i: nat, o: Outputs, first: nat, l: Limits, cursor: Cursor,
                          current_user_key: Option<UserKey>, last_sequence_for_key: nat)
    requires i <= |stream|
    reads cursor, cursor.level_ptrs
  {
    exists n: nat :: n <= |stream| && n == i
      && Building(c, stream, n, o, first) && Shaped(l, c, stream, n, o.files, o.open)
      && Tracks(cursor, c, stream, n, l) && Remembers(stream, n, current_user_key, last_sequence_for_key)
  }

  /** One iteration. */
  method Iterate(c: Compaction, stream: seq<Entry>, i: nat, o: Outputs, ghost first: nat, current_user_key: Option<UserKey>,
                 last_sequence_for_key: nat, cursor: Cursor, l: Limits)
    returns (o': Outputs)
    requires InputStream(c, stream) && i < |stream| && c.horizon < MAX_SEQUENCE
    requires Looping(c, stream, i, o, first, l, cursor, current_user_key, last_sequence_for_key)
    modifies cursor, cursor.level_ptrs
    ensures Looping(c, stream, i + 1, o', first, l, cursor, Some(stream[i].User()), stream[i].Seq())
  {
    var last := PreviousSequence(stream, i, current_user_key, last_sequence_for_key);
    var stop, drop := Examine(c, stream, i, last, cursor, l);
    o' := Emit(c, stream, i, o, first, stop, drop, l);
  }

  method RunLoop(c: Compaction, stream: seq<Entry>, next_file_number: nat, cursor: Cursor, l: Limits) returns (o: Outputs)
    requires InputStream(c, stream) && c.horizon < MAX_SEQUENCE && Tracks(cursor, c, stream, 0, l)
    modifies cursor, cursor.level_ptrs
    ensures Building(c, stream, |stream|, o, next_file_number) && Shaped(l, c, stream, |stream|, o.files, o.open)
  {
    o := Outputs([], [], 0, next_file_number);
    var current_user_key: Option<UserKey> := None;
    var last_sequence_for_key := MAX_SEQUENCE;
    var i := 0;
    while i < |stream|
      invariant 0 <= i <= |stream|
      invariant Looping(c, stream, i, o, next_file_number, l, cursor, current_user_key, last_sequence_for_key)
    {
      o := Iterate(c, stream, i, o, next_file_number, current_user_key, last_sequence_for_key, cursor, l);
      current_user_key, last_sequence_for_key := Some(stream[i].User()), stream[i].Seq();
      i := i + 1;
    }
  }

  /** The whole loop: the finished files are in order and hold exactly the entries the drop rules keep; each records its
      size and is cut where it is full or would reach over too many grandparents, neither later nor sooner. */
  method DoCompactionWork(c: Compaction, stream: seq<Entry>, next_file_number: nat, l: Limits)
    returns (outs: seq<File>, next: nat)
    requires InputStream(c, stream) && LevelsSound(c.base) && c.level + 1 < NUM_LEVELS
    requires c.horizon < MAX_SEQUENCE
    ensures ValidFiles(outs) && InOrder(outs) && Entries(outs) == Kept(c)
    ensures next_file_number <= next && Numbered(outs, next_file_number, next)
    ensures WellCut(l, c, stream, outs)
  {
    var cursor := new Cursor(c.base, c.level, l.grandparents);
    var o := RunLoop(c, stream, next_file_number, cursor, l);
    outs, next := FinishLast(c, stream, o, next_file_number, l);
  }
}

/** The stream a compaction reads: its input files merged by MakeInputIterator (kv/db/version_set.cpp). */
module InputStreams {
  import opened Format
  import opened History
  import opened Versions
  import opened Compactions
  import opened Picking
  import opened CompactionWork
  import opened Merger
  import opened TwoLevelIterators
  import opened Concatenation

  function Tables(fs: seq<File>): seq<seq<Entry>> {
    seq(|fs|, i requires 0 <= i < |fs| => fs[i].entries)
  }

  /** The iterators over the inputs of one level: one for each file at level 0, one for all of them further down. */
  function LevelChildren(level: nat, fs: seq<File>): seq<seq<Entry>> {
    if fs == [] then [] else if level == 0 then Tables(fs) else [Flat(Tables(fs))]
  }

  function Children(c: Compaction): seq<seq<Entry>> {
    LevelChildren(c.level, c.in0) + LevelChildren(c.level + 1, c.in1)
  }

  /** No entry is in two of the files. */
  ghost predicate Separate(fs: seq<File>) {
    forall i, j, e :: 0 <= i < j < |fs| && e in fs[i].entries ==> e !in fs[j].entries
  }

  /** What merging the inputs of a compaction relies on. */
  ghost predicate Streamable(c: Compaction) {
    && ValidFiles(c.Inputs()) && Tidy(c.level, c.in0) && InOrder(c.in1)
    && Separate(c.Inputs()) && Distinct(Entries(c.Inputs()))
  }

  /** Files on different levels share no entry, and neither do different files of level 0. */
  lemma NotShared(v: Version, l: nat, m: nat, f: File, g: File, e: Entry)
    requires WellFormed(v) && Layered(v) && l < |v| && m < |v| && f in v[l] && g in v[m] && e in f.entries
    requires l != m || (l == 0 && f != g)
    ensures e !in g.entries
  {
    assert l < m ==> Above(v[l], v[m]) && NewerThan(f, g);
    assert m < l ==> Above(v[m], v[l]) && NewerThan(g, f);
    assert l == m && f.number > g.number ==> NewerThan(f, g);
    assert l == m && g.number > f.number ==> NewerThan(g, f);
  }

  lemma OrderedApart(fs: seq<File>, i: nat, j: nat, e: Entry)
    requires ValidFiles(fs) && InOrder(fs) && i < j < |fs| && e in fs[i].entries
    ensures e !in fs[j].entries
  {
    assert ValidFile(fs[i]) && ValidFile(fs[j]);
    FileBounds(fs[i], e);
    if e in fs[j].entries {
      FileBounds(fs[j], e);
    }
  }

  lemma SplitValid(c: Compaction)
    requires ValidFiles(c.Inputs())
    ensures ValidFiles(c.in0) && ValidFiles(c.in1)
  {
    assert forall f :: f in c.in0 || f in c.in1 ==> f in c.Inputs();
  }

  /** The level of input `i`. */
  lemma InputAt(v: Version, c: Compaction, i: nat) returns (l: nat)
    requires Holds(v, c) && i < |c.Inputs()|
    ensures l == (if i < |c.in0| then c.level else c.level + 1) && l < |v| && c.Inputs()[i] in v[l]
  {
    l := if i < |c.in0| then c.level else c.level + 1;
    assert c.Inputs()[i] in if i < |c.in0| then c.in0 else c.in1;
  }

  lemma SelectedApart(v: Version, c: Compaction, i: nat, j: nat, e: Entry)
    requires WellFormed(v) && Layered(v) && Holds(v, c) && Tidy(c.level, c.in0) && InOrder(c.in1)
    requires ValidFiles(c.Inputs()) && i < j < |c.Inputs()| && e in c.Inputs()[i].entries
    ensures e !in c.Inputs()[j].entries
  {
    var n := |c.in0|;
    var l := InputAt(v, c, i);
    var m := InputAt(v, c, j);
    SplitValid(c);
    if l != m || l == 0 {
      NotShared(v, l, m, c.Inputs()[i], c.Inputs()[j], e);
    } else if j < n {
      OrderedApart(c.in0, i, j, e);
    } else {
      OrderedApart(c.in1, i - n, j - n, e);
    }
  }

  lemma SelectedValid(v: Version, c: Compaction)
    requires WellFormed(v) && Holds(v, c)
    ensures ValidFiles(c.Inputs()) && forall e :: e in Entries(c.Inputs()) ==> e in All(v)
  {
    assert SoundLevel(c.level, v[c.level]) && SoundLevel(c.level + 1, v[c.level + 1]);
    forall e | e in Entries(c.Inputs()) ensures e in All(v) {
      var f :| f in c.Inputs() && e in f.entries;
      assert f in v[c.level] ==> e in Entries(v[c.level]);
      assert f in v[c.level + 1] ==> e in Entries(v[c.level + 1]);
    }
  }

  /** Whatever inputs are selected, manually or not, can be merged. */
  lemma SelectedStreamable(v: Version, level: nat, c: Compaction)
    requires WellFormed(v) && Layered(v) && Distinct(All(v)) && Selected(v, level, c)
    ensures Streamable(c)
  {
    SelectedValid(v, c);
    forall i, j, e | 0 <= i < j < |c.Inputs()| && e in c.Inputs()[i].entries ensures e !in c.Inputs()[j].entries {
      SelectedApart(v, c, i, j, e);
    }
  }

  lemma {:induction false} FlatMember(blocks: seq<seq<Entry>>, e: Entry)
    ensures e in Flat(blocks) <==> exists b :: 0 <= b < |blocks| && e in blocks[b]
  {
    if blocks != [] {
      var n := |blocks| - 1;
      FlatMember(blocks[..n], e);
      assert forall b :: 0 <= b < n ==> blocks[..n][b] == blocks[b];
    }
  }

  lemma TablesMember(fs: seq<File>, e: Entry)
    ensures e in Entries(fs) <==> exists b :: 0 <= b < |Tables(fs)| && e in Tables(fs)[b]
  {
    if e in Entries(fs) {
      var f :| f in fs && e in f.entries;
      var b :| 0 <= b < |fs| && fs[b] == f;
      assert e in Tables(fs)[b];
    }
  }

  /** The files of a level above 0 read as one sorted run. */
  lemma {:induction false} LevelSorted(fs: seq<File>)
    requires ValidFiles(fs) && InOrder(fs)
    ensures Sorted(Flat(Tables(fs)))
  {
    if fs != [] {
      var n := |fs| - 1;
      LevelSorted(fs[..n]);
      assert Tables(fs)[..n] == Tables(fs[..n]);
      assert ValidFile(fs[n]);
      forall d, e | d in Flat(Tables(fs[..n])) && e in fs[n].entries ensures Lt(d.ikey, e.ikey) {
        BeforeLast(fs, d, e);
      }
      SortedConcat(Flat(Tables(fs[..n])), fs[n].entries);
    }
  }

  lemma BeforeLast(fs: seq<File>, d: Entry, e: Entry)
    requires fs != [] && ValidFiles(fs) && InOrder(fs)
    requires d in Flat(Tables(fs[..|fs| - 1])) && e in fs[|fs| - 1].entries
    ensures Lt(d.ikey, e.ikey)
  {
    var n := |fs| - 1;
    FlatMember(Tables(fs[..n]), d);
    var b :| 0 <= b < n && d in Tables(fs[..n])[b];
    assert ValidFile(fs[b]) && ValidFile(fs[n]);
    FileBounds(fs[b], d);
    FileBounds(fs[n], e);
    assert Lt(fs[b].largest, fs[n].smallest);
  }

  lemma SortedConcat(a: seq<Entry>, b: seq<Entry>)
    requires Sorted(a) && Sorted(b) && forall d, e :: d in a && e in b ==> Lt(d.ikey, e.ikey)
    ensures Sorted(a + b)
  {
  }

  /** The children of one level: sorted, and together the files' entries. */
  lemma LevelChildrenSpec(level: nat, fs: seq<File>)
    requires ValidFiles(fs) && (level > 0 ==> InOrder(fs))
    ensures forall i :: 0 <= i < |LevelChildren(level, fs)| ==> Sorted(LevelChildren(level, fs)[i])
    ensures forall e :: e in Entries(fs) <==> exists i :: 0 <= i < |LevelChildren(level, fs)| && e in LevelChildren(level, fs)[i]
  {
    var lists := LevelChildren(level, fs);
    if level == 0 {
      assert forall i :: 0 <= i < |fs| ==> ValidFile(fs[i]);
    } else {
      LevelSorted(fs);
    }
    forall e ensures e in Entries(fs) <==> exists i :: 0 <= i < |lists| && e in lists[i] {
      TablesMember(fs, e);
      FlatMember(Tables(fs), e);
      assert level > 0 && fs != [] ==> (e in lists[0] <==> e in Flat(Tables(fs)));
    }
  }

  /** The file behind an entry of a child. */
  lemma ChildFile(level: nat, fs: seq<File>, i: nat, e: Entry) returns (b: nat)
    requires i < |LevelChildren(level, fs)| && e in LevelChildren(level, fs)[i]
    ensures b < |fs| && e in fs[b].entries && (level == 0 ==> b == i) && (level > 0 ==> i == 0)
  {
    if level == 0 {
      b := i;
    } else {
      FlatMember(Tables(fs), e);
      b :| 0 <= b < |fs| && e in Tables(fs)[b];
    }
  }

  /** The input file behind an entry of a child, and where that file stands. */
  lemma ChildInput(c: Compaction, i: nat, e: Entry) returns (a: nat)
    requires i < |Children(c)| && e in Children(c)[i]
    ensures a < |c.Inputs()| && e in c.Inputs()[a].entries
    ensures var m := |LevelChildren(c.level, c.in0)|;
            if i < m then a < |c.in0| && (if c.level == 0 then a == i else i == 0) else i == m && a >= |c.in0|
  {
    var m := |LevelChildren(c.level, c.in0)|;
    if i < m {
      a := ChildFile(c.level, c.in0, i, e);
      assert c.Inputs()[a] == c.in0[a];
    } else {
      var b := ChildFile(c.level + 1, c.in1, i - m, e);
      a := b + |c.in0|;
      assert c.Inputs()[a] == c.in1[b];
    }
  }

  lemma ChildrenApart(c: Compaction, i: nat, j: nat, e: Entry)
    requires Separate(c.Inputs()) && i < j < |Children(c)| && e in Children(c)[i]
    ensures e !in Children(c)[j]
  {
    if e in Children(c)[j] {
      var a := ChildInput(c, i, e);
      var b := ChildInput(c, j, e);
    }
  }

  lemma Trichotomy(d: Entry, e: Entry)
    requires d.Seq() != e.Seq()
    ensures Lt(d.ikey, e.ikey) || Lt(e.ikey, d.ikey)
  {
  }

  lemma InsertSorted(es: seq<Entry>, e: Entry) returns (r: seq<Entry>)
    requires Sorted(es) && forall d :: d in es ==> d.Seq() != e.Seq()
    ensures Sorted(r) && forall d :: d in r <==> d == e || d in es
  {
    var n := LowerBound(es, e.ikey);
    LowerBoundSplits(es, e.ikey);
    r := InsertBetween(es[..n], e, es[n..]);
    assert es == es[..n] + es[n..];
  }

  lemma InsertBetween(a: seq<Entry>, e: Entry, b: seq<Entry>) returns (r: seq<Entry>)
    requires Sorted(a) && Sorted(b) && forall d :: d in a || d in b ==> d.Seq() != e.Seq()
    requires forall d :: d in a ==> Lt(d.ikey, e.ikey)
    requires forall d :: d in b ==> !Lt(d.ikey, e.ikey)
    ensures Sorted(r) && forall d :: d in r <==> d == e || d in a || d in b
  {
    forall d | d in b ensures Lt(e.ikey, d.ikey) {
      Trichotomy(d, e);
    }
    SortedConcat([e], b);
    SortedConcat(a, [e] + b);
    r := a + ([e] + b);
  }

  /** Entries with distinct sequence numbers have exactly one order; here it is. */
  lemma {:induction false} SortSet(S: set<Entry>) returns (es: seq<Entry>)
    requires Distinct(S)
    ensures Sorted(es) && forall e :: e in es <==> e in S
    decreases |S|
  {
    if S == {} {
      es := [];
    } else {
      var e :| e in S;
      var rest := SortSet(S - {e});
      es := InsertSorted(rest, e);
    }
  }

  lemma ChildrenMember(c: Compaction, e: Entry)
    requires ValidFiles(c.Inputs()) && Tidy(c.level, c.in0) && InOrder(c.in1)
    ensures e in Entries(c.Inputs()) <==> exists i :: 0 <= i < |Children(c)| && e in Children(c)[i]
  {
    var A, B := LevelChildren(c.level, c.in0), LevelChildren(c.level + 1, c.in1);
    SplitValid(c);
    LevelChildrenSpec(c.level, c.in0);
    LevelChildrenSpec(c.level + 1, c.in1);
    assert e in Entries(c.Inputs()) <==> e in Entries(c.in0) || e in Entries(c.in1);
    if e in Entries(c.in0) {
      var i :| 0 <= i < |A| && e in A[i];
      assert Children(c)[i] == A[i];
    }
    if e in Entries(c.in1) {
      var i :| 0 <= i < |B| && e in B[i];
      assert Children(c)[|A| + i] == B[i];
    }
  }

  /** The children have a sorted union, and that union is the stream the compaction loop is proved for. */
  lemma ChildrenMerge(c: Compaction) returns (merged: seq<Entry>)
    requires Streamable(c)
    ensures IsMerge(Children(c), merged) && InputStream(c, merged)
  {
    merged := SortSet(Entries(c.Inputs()));
    SplitValid(c);
    LevelChildrenSpec(c.level, c.in0);
    LevelChildrenSpec(c.level + 1, c.in1);
    forall e ensures e in merged <==> exists i :: 0 <= i < |Children(c)| && e in Children(c)[i] {
      ChildrenMember(c, e);
    }
    forall i, j, e | 0 <= i < j < |Children(c)| && e in Children(c)[i] ensures e !in Children(c)[j] {
      ChildrenApart(c, i, j, e);
    }
    forall e | e in merged ensures e.Seq() <= MAX_SEQUENCE {
      var f :| f in c.Inputs() && e in f.entries;
      assert ValidFile(f);
    }
  }

  /** MakeInputIterator: what the merging iterator ranges over is the compaction's input stream. */
  method MakeInputIterator(c: Compaction) returns (input: MergingIterator)
    requires Streamable(c)
    ensures fresh(input) && input.Ok() && InputStream(c, input.merged)
  {
    var list: seq<seq<Entry>> := [];
    for which := 0 to 2
      invariant which == 0 ==> list == []
      invariant which == 1 ==> list == LevelChildren(c.level, c.in0)
      invariant which == 2 ==> list == Children(c)
    {
      var files := if which == 0 then c.in0 else c.in1;
      if files != [] {
        if c.level + which == 0 {
          ghost var before := list;
          for i := 0 to |files|
            invariant list == before + Tables(files)[..i]
          {
            list := list + [files[i].entries];
          }
        } else {
          list := list + [Flat(Tables(files))];
        }
      }
    }
    ghost var merged := ChildrenMerge(c);
    input := new MergingIterator(list, merged);
  }

  /** Reading the iterator from first to last, as the compaction loop does, gives that stream. */
  method ReadInput(input: MergingIterator) returns (stream: seq<Entry>)
    requires input.Ok()
    modifies input
    ensures stream == input.merged
  {
    stream := [];
    input.SeekToFirst();
    while input.Valid()
      invariant input.Ok() && |stream| <= |input.merged| && stream == input.merged[..|stream|]
      invariant if |stream| == |input.merged| then !input.Valid() else input.At(|stream|)
      decreases |input.merged| - |stream|
    {
      ghost var p := |stream|;
      stream := stream + [input.Current()];
      input.Next(p);
    }
  }
}

/** What the cuts of a compaction's outputs amount to (kv/db/version_set.cpp ShouldStopBefore, kv/db/db_impl.cpp
    DoCompactionWork). */
module OutputCuts {
  import opened Format
  import opened Versions
  import opened Compactions
  import opened Picking
  import opened CompactionWork

  lemma {:induction false} TotalConcat(a: seq<File>, b: seq<File>)
    ensures TotalFileSize(a + b) == TotalFileSize(a) + TotalFileSize(b)
  {
    if a == [] {
      assert a + b == b;
    } else {
      assert (a + b)[1..] == a[1..] + b;
      TotalConcat(a[1..], b);
    }
  }

  lemma LeadingMonotone(gs: seq<File>, a: IKey, b: IKey)
    requires Le(a, b)
    ensures Leading(gs, a) <= Leading(gs, b)
  {
    var n := Leading(gs, b);
    assert n < Leading(gs, a) ==> Lt(gs[n].largest, a);
  }

  lemma PassedAdds(gs: seq<File>, a: IKey, b: IKey, d: IKey)
    requires Le(a, b) && Le(b, d)
    ensures Passed(gs, a, d) == Passed(gs, a, b) + Passed(gs, b, d)
  {
    LeadingMonotone(gs, a, b);
    LeadingMonotone(gs, b, d);
    var i, j, k := Leading(gs, a), Leading(gs, b), Leading(gs, d);
    assert gs[i..k] == gs[i..j] + gs[j..k];
    TotalConcat(gs[i..j], gs[j..k]);
  }

  lemma ReachGrows(l: Limits, stream: seq<Entry>, b: nat)
    requires 0 < b < |stream|
    ensures Passed(l.grandparents, stream[b - 1].ikey, stream[b].ikey) <= Reach(l, stream, b)
    ensures !StopsAt(l, stream, b - 1) ==>
              Reach(l, stream, b) == Reach(l, stream, b - 1) + Passed(l.grandparents, stream[b - 1].ikey, stream[b].ikey)
  {
  }

  /** Without a stop between two entries, the bytes passed between them are all in the count. */
  lemma {:induction false} PassedCounted(l: Limits, stream: seq<Entry>, a: nat, b: nat)
    requires Sorted(stream) && a < b < |stream| && forall j: nat :: a < j <= b ==> !StopsAt(l, stream, j)
    ensures Passed(l.grandparents, stream[a].ikey, stream[b].ikey) <= Reach(l, stream, b) <= l.max_overlap
  {
    assert !StopsAt(l, stream, b);
    ReachGrows(l, stream, b);
    if a < b - 1 {
      assert !StopsAt(l, stream, b - 1);
      PassedCounted(l, stream, a, b - 1);
      PassedAdds(l.grandparents, stream[a].ikey, stream[b - 1].ikey, stream[b].ikey);
    }
  }

  ghost predicate At(stream: seq<Entry>, key: IKey, i: nat) {
    i < |stream| && stream[i].ikey == key
  }

  /** One output reaches over at most max_overlap bytes of grandparents. */
  lemma OutputReach(l: Limits, stream: seq<Entry>, f: File, a: nat, b: nat)
    requires Sorted(stream) && OutputOk(l, stream, f) && At(stream, f.smallest, a) && At(stream, f.largest, b) && a <= b
    ensures Passed(l.grandparents, f.smallest, f.largest) <= l.max_overlap
  {
    if a < b {
      forall j: nat | a < j <= b ensures !StopsAt(l, stream, j) {
        assert NoStop(l, stream, f.smallest, f.largest, j);
        assert j < b ==> Lt(stream[j].ikey, stream[b].ikey);
      }
      PassedCounted(l, stream, a, b);
    } else {
      assert l.grandparents[Leading(l.grandparents, f.smallest)..Leading(l.grandparents, f.smallest)] == [];
    }
  }

  /** Bytes of the files wholly between two keys. */
  function Between(gs: seq<File>, lo: IKey, hi: IKey): nat {
    if gs == [] then 0
    else (if Lt(lo, gs[0].smallest) && Lt(gs[0].largest, hi) then gs[0].size else 0) + Between(gs[1..], lo, hi)
  }

  lemma {:induction false} NoneBetween(gs: seq<File>, lo: IKey, hi: IKey)
    requires forall g :: g in gs ==> !Lt(g.largest, hi)
    ensures Between(gs, lo, hi) == 0
  {
    if gs != [] {
      assert gs[0] in gs;
      NoneBetween(gs[1..], lo, hi);
    }
  }

  lemma {:induction false} BetweenAll(gs: seq<File>, lo: IKey, hi: IKey)
    ensures Between(gs, lo, hi) <= TotalFileSize(gs)
  {
    if gs != [] {
      BetweenAll(gs[1..], lo, hi);
    }
  }

  lemma LastOfLeading(gs: seq<File>, hi: IKey, g: File)
    requires ValidFiles(gs) && InOrder(gs) && gs != [] && Le(hi, gs[0].largest) && g in gs
    ensures !Lt(g.largest, hi)
  {
    var i :| 0 <= i < |gs| && gs[i] == g;
    FileBounds(g, g.entries[0]);
    assert i > 0 ==> Lt(gs[0].largest, gs[i].smallest);
  }

  lemma TailInOrder(gs: seq<File>)
    requires ValidFiles(gs) && InOrder(gs) && gs != []
    ensures ValidFiles(gs[1..]) && InOrder(gs[1..])
  {
    assert forall g :: g in gs[1..] ==> g in gs;
  }

  lemma SliceTotal(gs: seq<File>, i: nat, j: nat)
    requires i <= j <= |gs|
    ensures TotalFileSize(gs[i..j]) <= TotalFileSize(gs[..j])
  {
    assert gs[..j] == gs[..i] + gs[i..j];
    TotalConcat(gs[..i], gs[i..j]);
  }

  lemma SliceTail(gs: seq<File>, i: nat, j: nat)
    requires gs != [] && 0 < i <= j <= |gs|
    ensures gs[i..j] == gs[1..][i - 1..j - 1]
  {
    forall k | 0 <= k < j - i ensures gs[i..j][k] == gs[1..][i - 1..j - 1][k] {
    }
  }

  lemma LtLe(a: IKey, b: IKey, d: IKey)
    requires Lt(a, b) && Le(b, d)
    ensures Lt(a, d)
  {
  }

  lemma PassedFirst(gs: seq<File>, lo: IKey, hi: IKey)
    requires gs != [] && Lt(gs[0].largest, lo) && Lt(gs[0].largest, hi) && Le(lo, hi)
    ensures Passed(gs, lo, hi) == Passed(gs[1..], lo, hi)
  {
    LeadingMonotone(gs, lo, hi);
    SliceTail(gs, Leading(gs, lo), Leading(gs, hi));
  }

  lemma FirstBefore(gs: seq<File>, lo: IKey, hi: IKey)
    requires gs != [] && ValidFile(gs[0]) && Lt(gs[0].largest, lo) && Le(lo, hi)
    ensures Between(gs, lo, hi) == Between(gs[1..], lo, hi) && Passed(gs, lo, hi) == Passed(gs[1..], lo, hi)
  {
    FileBounds(gs[0], gs[0].entries[0]);
    LtLe(gs[0].largest, lo, hi);
    PassedFirst(gs, lo, hi);
  }

  lemma FirstWithin(gs: seq<File>, lo: IKey, hi: IKey)
    requires gs != [] && !Lt(gs[0].largest, lo) && Lt(gs[0].largest, hi) && Le(lo, hi)
    requires Between(gs[1..], lo, hi) <= Passed(gs[1..], lo, hi)
    ensures Between(gs, lo, hi) <= Passed(gs, lo, hi)
  {
    LeadingMonotone(gs[1..], lo, hi);
    SliceTotal(gs[1..], Leading(gs[1..], lo), Leading(gs[1..], hi));
    PassedTail(gs, lo, hi);
  }

  /** In a level in order, what is wholly between two keys is among what ends between them. */
  lemma {:induction false} BetweenPassed(gs: seq<File>, lo: IKey, hi: IKey)
    requires ValidFiles(gs) && InOrder(gs) && Le(lo, hi)
    ensures Between(gs, lo, hi) <= Passed(gs, lo, hi)
  {
    if gs != [] {
      TailInOrder(gs);
      BetweenPassed(gs[1..], lo, hi);
      assert gs[0] in gs;
      if Lt(gs[0].largest, lo) {
        FirstBefore(gs, lo, hi);
      } else if Lt(gs[0].largest, hi) {
        FirstWithin(gs, lo, hi);
      } else {
        forall g | g in gs ensures !Lt(g.largest, hi) {
          LastOfLeading(gs, hi, g);
        }
        NoneBetween(gs, lo, hi);
      }
    }
  }

  lemma StreamOrder(stream: seq<Entry>, a: nat, b: nat)
    requires Sorted(stream) && a < |stream| && b < |stream|
    ensures b < a ==> Lt(stream[b].ikey, stream[a].ikey)
  {
  }

  lemma PassedTail(gs: seq<File>, lo: IKey, hi: IKey)
    requires gs != [] && Leading(gs, lo) == 0 < Leading(gs, hi)
    ensures Passed(gs, lo, hi) == gs[0].size + TotalFileSize(gs[1..][..Leading(gs[1..], hi)])
  {
    var j := Leading(gs, hi);
    assert gs[0..j] == [gs[0]] + gs[1..][..j - 1];
  }

  /** Every output of the loop: between its first and its last key lie at most max_overlap bytes of grandparents. */
  lemma OutputOverlap(l: Limits, c: Compaction, stream: seq<Entry>, outs: seq<File>, f: File)
    requires InputStream(c, stream) && ValidFiles(outs) && Entries(outs) == Kept(c) && WellCut(l, c, stream, outs) && f in outs
    requires ValidFiles(l.grandparents) && InOrder(l.grandparents)
    ensures Between(l.grandparents, f.smallest, f.largest) <= l.max_overlap
  {
    var first, last := f.entries[0], f.entries[|f.entries| - 1];
    assert first in f.entries && last in f.entries;
    assert first in Entries(outs) && last in Entries(outs);
    var a :| 0 <= a < |stream| && stream[a] == first;
    var b :| 0 <= b < |stream| && stream[b] == last;
    FileBounds(f, first);
    StreamOrder(stream, a, b);
    OutputReach(l, stream, f, a, b);
    BetweenPassed(l.grandparents, f.smallest, f.largest);
  }

  /** Without grandparents nothing but its size ends an output. */
  lemma {:induction false} NothingReached(l: Limits, stream: seq<Entry>, i: nat)
    requires i < |stream| && l.grandparents == []
    ensures Reach(l, stream, i) == 0 && !StopsAt(l, stream, i)
  {
    if i > 0 {
      NothingReached(l, stream, i - 1);
    }
  }

  lemma EndedFull(l: Limits, c: Compaction, stream: seq<Entry>, f: File)
    requires l.grandparents == [] && Ended(l, c, stream, f)
    ensures l.fileSize(f.entries) >= l.max_output
  {
    if l.fileSize(f.entries) < l.max_output {
      var j: nat :| j < |stream| && StopAfter(l, c, stream, f, j);
      NothingReached(l, stream, j);
    }
  }
}

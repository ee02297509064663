/** The merging iterator as a cursor over the sorted union of its children (kv/table/merger.cpp). */
module Merger {
  import opened Format

  /** Number of entries of `list` before `key`: where Seek(key) lands. */
  function LowerBound(list: seq<Entry>, key: IKey): nat
    ensures LowerBound(list, key) <= |list|
  {
    if list == [] || !Lt(list[0].ikey, key) then 0 else 1 + LowerBound(list[1..], key)
  }

  lemma {:induction false} LowerBoundSplits(list: seq<Entry>, key: IKey)
    requires Sorted(list)
    ensures forall j :: 0 <= j < |list| ==> (j < LowerBound(list, key) <==> Lt(list[j].ikey, key))
  {
    if list != [] {
      if Lt(list[0].ikey, key) {
        LowerBoundSplits(list[1..], key);
        forall j | 1 <= j < |list| ensures j < LowerBound(list, key) <==> Lt(list[j].ikey, key) {
          assert list[1..][j - 1] == list[j];
        }
      } else {
        forall j | 1 <= j < |list| ensures !Lt(list[j].ikey, key) {
          assert Lt(list[0].ikey, list[j].ikey);
        }
      }
    }
  }

  lemma LowerBoundUnique(list: seq<Entry>, key: IKey, n: nat)
    requires Sorted(list) && n <= |list|
    requires forall j :: 0 <= j < |list| ==> (j < n <==> Lt(list[j].ikey, key))
    ensures n == LowerBound(list, key)
  {
    LowerBoundSplits(list, key);
    var m := LowerBound(list, key);
    assert n < |list| ==> !Lt(list[n].ikey, key);
    assert m < |list| ==> !Lt(list[m].ikey, key);
  }

  /** `merged` is the sorted union of the children, which share no entry. */
  ghost predicate IsMerge(lists: seq<seq<Entry>>, merged: seq<Entry>) {
    && Sorted(merged)
    && (forall i :: 0 <= i < |lists| ==> Sorted(lists[i]))
    && (forall i, e :: 0 <= i < |lists| && e in lists[i] ==> e in merged)
    && (forall e :: e in merged ==> exists i :: 0 <= i < |lists| && e in lists[i])
    && (forall i, j, e :: 0 <= i < j < |lists| && e in lists[i] ==> e !in lists[j])
  }

  /** How many entries of `list` come before position `q` of the merge. */
  ghost function Cut(list: seq<Entry>, merged: seq<Entry>, q: nat): nat
    requires q <= |merged|
  {
    if q == |merged| then |list| else LowerBound(list, merged[q].ikey)
  }

  lemma MergedIndex(merged: seq<Entry>, e: Entry) returns (n: nat)
    requires e in merged
    ensures n < |merged| && merged[n] == e
  {
    n :| 0 <= n < |merged| && merged[n] == e;
  }

  /** One step of the merge advances exactly the child that holds its entry. */
  lemma CutStep(list: seq<Entry>, merged: seq<Entry>, q: nat)
    requires Sorted(list) && Sorted(merged) && (forall e :: e in list ==> e in merged) && q < |merged|
    ensures var c := Cut(list, merged, q);
            if merged[q] in list then c < |list| && list[c] == merged[q] && Cut(list, merged, q + 1) == c + 1
            else Cut(list, merged, q + 1) == c
  {
    var key := merged[q].ikey;
    LowerBoundSplits(list, key);
    var c := LowerBound(list, key);
    var n := if merged[q] in list then c + 1 else c;
    if merged[q] in list {
      var m :| 0 <= m < |list| && list[m] == merged[q];
      HeadOfCut(list, c, m);
    }
    forall j | 0 <= j < |list|
      ensures j < n <==> (q + 1 == |merged| || Lt(list[j].ikey, merged[q + 1].ikey))
    {
      assert list[j] in merged;
      var t := MergedIndex(merged, list[j]);
      assert t == q ==> list[j] == merged[q];
      CutCompare(list, merged, q, c, n, j, t);
    }
    if q + 1 < |merged| {
      LowerBoundUnique(list, merged[q + 1].ikey, n);
    } else {
      assert |list| > 0 ==> list[|list| - 1] in list;
    }
  }

  lemma HeadOfCut(list: seq<Entry>, c: nat, m: nat)
    requires Sorted(list) && m < |list| && c <= |list|
    requires forall j :: 0 <= j < |list| ==> (j < c <==> Lt(list[j].ikey, list[m].ikey))
    ensures c == m
  {
    assert m < c <==> Lt(list[m].ikey, list[m].ikey);
    assert c < |list| ==> !Lt(list[c].ikey, list[m].ikey);
  }

  lemma CutCompare(list: seq<Entry>, merged: seq<Entry>, q: nat, c: nat, n: nat, j: nat, t: nat)
    requires Sorted(list) && Sorted(merged) && q < |merged| && j < |list| && t < |merged| && merged[t] == list[j]
    requires c == LowerBound(list, merged[q].ikey)
    requires forall j :: 0 <= j < |list| ==> (j < c <==> Lt(list[j].ikey, merged[q].ikey))
    requires if merged[q] in list then n == c + 1 && c < |list| && list[c] == merged[q] else n == c
    ensures j < n <==> (q + 1 == |merged| || Lt(list[j].ikey, merged[q + 1].ikey))
  {
    if t < q {
      assert Lt(merged[t].ikey, merged[q].ikey);
    } else if t == q {
      assert list[j] in list;
      assert j == c;
    } else {
      assert Lt(merged[q].ikey, merged[t].ikey);
      assert j >= c;
      if merged[q] in list {
        assert j != c;
      }
      assert t > q + 1 ==> Lt(merged[q + 1].ikey, merged[t].ikey);
    }
  }

  datatype Direction = Forward | Reverse

  /** Child positions are indices; |list| stands for "not valid". */
  class MergingIterator {
    const lists: seq<seq<Entry>>
    ghost const merged: seq<Entry>
    var pos: seq<nat>
    var current: Option<nat>
    var direction: Direction

    constructor (children: seq<seq<Entry>>, ghost union: seq<Entry>)
      requires IsMerge(children, union)
      ensures lists == children && merged == union
      ensures Ok() && current.None?
    {
      lists, merged := children, union;
      pos := seq(|children|, i requires 0 <= i < |children| => |children[i]|);
      current, direction := None, Forward;
    }

    ghost predicate Ok()
      reads this
    {
      && IsMerge(lists, merged) && |pos| == |lists|
      && (forall i :: 0 <= i < |pos| ==> pos[i] <= |lists[i]|)
      && (current.Some? ==> current.value < |lists| && pos[current.value] < |lists[current.value]|)
    }

    /** Every child is at its first entry from merge position `q` on. */
    ghost predicate AheadAt(q: nat)
      requires q <= |merged|
      reads this
    {
      |pos| == |lists| && forall i :: 0 <= i < |lists| ==> pos[i] == Cut(lists[i], merged, q)
    }

    /** Every child is at its last entry before merge position `q`. */
    ghost predicate BehindAt(q: nat)
      requires q <= |merged|
      reads this
    {
      |pos| == |lists| && forall i :: 0 <= i < |lists| ==> pos[i] == StepBack(Cut(lists[i], merged, q), |lists[i]|)
    }

    /** The iterator stands at position `p` of the merge. */
    ghost predicate At(p: nat)
      requires p < |merged|
      reads this
    {
      && Ok() && current.Some? && lists[current.value][pos[current.value]] == merged[p]
      && (if direction.Forward? then AheadAt(p) else BehindAt(p + 1))
    }

    predicate Valid()
      reads this
    {
      current.Some?
    }

    function Current(): Entry
      requires Ok() && Valid()
      reads this
    {
      lists[current.value][pos[current.value]]
    }

    method FindSmallest(ghost q: nat)
      requires Ok() && q <= |merged| && AheadAt(q)
      modifies this`current
      ensures Ok()
      ensures if q == |merged| then current.None? else current.Some? && Current() == merged[q]
    {
      var smallest: Option<nat> := None;
      for i := 0 to |lists|
        invariant smallest.Some? ==> smallest.value < i && pos[smallest.value] < |lists[smallest.value]|
        invariant smallest.None? ==> forall j :: 0 <= j < i ==> pos[j] == |lists[j]|
        invariant smallest.Some? ==> forall j :: 0 <= j < i && pos[j] < |lists[j]| ==>
                    Le(lists[smallest.value][pos[smallest.value]].ikey, lists[j][pos[j]].ikey)
      {
        if pos[i] < |lists[i]| {
          if smallest.None? || Lt(lists[i][pos[i]].ikey, lists[smallest.value][pos[smallest.value]].ikey) {
            smallest := Some(i);
          }
        }
      }
      SmallestIsNext(lists, merged, pos, q, smallest);
      current := smallest;
    }

    method FindLargest(ghost q: nat)
      requires Ok() && q <= |merged| && BehindAt(q)
      modifies this`current
      ensures Ok()
      ensures if q == 0 then current.None? else current.Some? && Current() == merged[q - 1]
    {
      var largest: Option<nat> := None;
      for i := |lists| downto 0
        invariant largest.Some? ==> i <= largest.value < |lists| && pos[largest.value] < |lists[largest.value]|
        invariant largest.None? ==> forall j :: i <= j < |lists| ==> pos[j] == |lists[j]|
        invariant largest.Some? ==> forall j :: i <= j < |lists| && pos[j] < |lists[j]| ==>
                    Le(lists[j][pos[j]].ikey, lists[largest.value][pos[largest.value]].ikey)
      {
        if pos[i] < |lists[i]| {
          if largest.None? || Lt(lists[largest.value][pos[largest.value]].ikey, lists[i][pos[i]].ikey) {
            largest := Some(i);
          }
        }
      }
      LargestIsPrevious(lists, merged, pos, q, largest);
      current := largest;
    }

    method SeekToFirst()
      requires Ok()
      modifies this
      ensures Ok()
      ensures if merged == [] then !Valid() else At(0)
    {
      pos := seq(|lists|, _ => 0);
      forall i | 0 <= i < |lists| ensures Cut(lists[i], merged, 0) == 0 {
        CutStart(lists[i], merged);
      }
      current, direction := None, Forward;
      FindSmallest(0);
    }

    method SeekToLast()
      requires Ok()
      modifies this
      ensures Ok()
      ensures if merged == [] then !Valid() else At(|merged| - 1)
    {
      pos := seq(|lists|, i requires 0 <= i < |lists| => StepBack(|lists[i]|, |lists[i]|));
      current, direction := None, Reverse;
      FindLargest(|merged|);
    }

    /** Lands on the first entry of the merge at or after `target`. */
    method Seek(target: IKey)
      requires Ok()
      modifies this
      ensures Ok()
      ensures var p := LowerBound(merged, target); if p == |merged| then !Valid() else At(p)
    {
      pos := seq(|lists|, i requires 0 <= i < |lists| => LowerBound(lists[i], target));
      ghost var p := LowerBound(merged, target);
      forall i | 0 <= i < |lists| ensures LowerBound(lists[i], target) == Cut(lists[i], merged, p) {
        CutOfTarget(lists[i], merged, target);
      }
      current, direction := None, Forward;
      FindSmallest(p);
    }

    /** Whichever way the iterator last moved, Next gives the successor in the merge. */
    method Next(ghost p: nat)
      requires p < |merged| && At(p)
      modifies this
      ensures Ok()
      ensures if p + 1 == |merged| then !Valid() else At(p + 1)
    {
      if direction != Forward {
        TurnForward(p);
      }
      var c := current.value;
      pos := pos[c := pos[c] + 1];
      current := None;
      Advance(lists, merged, c, p);
      FindSmallest(p + 1);
    }

    method TurnForward(ghost p: nat)
      requires p < |merged| && At(p)
      modifies this
      ensures At(p) && direction.Forward? && current == old(current)
    {
      ghost var here := pos;
      var c := current.value;
      var key := Current().ikey;
      CurrentCut(lists, merged, c, pos[c], p);
      for i := 0 to |lists|
        invariant Ok() && current == Some(c) && pos[c] == here[c] && lists[c][pos[c]].ikey == key
        invariant forall j :: 0 <= j < i ==> pos[j] == Cut(lists[j], merged, p)
      {
        if i != c {
          OtherChild(lists, merged, c, i, p);
          pos := pos[i := LowerBound(lists[i], key)];
          if pos[i] < |lists[i]| && key == lists[i][pos[i]].ikey {
            pos := pos[i := pos[i] + 1];
          }
        }
      }
      direction := Forward;
    }

    /** Whichever way the iterator last moved, Prev gives the predecessor in the merge. */
    method Prev(ghost p: nat)
      requires p < |merged| && At(p)
      modifies this
      ensures Ok()
      ensures if p == 0 then !Valid() else At(p - 1)
    {
      if direction != Reverse {
        TurnBack(p);
      }
      var c := current.value;
      Advance(lists, merged, c, p);
      pos := pos[c := StepBack(pos[c], |lists[c]|)];
      current := None;
      FindLargest(p);
    }

    method TurnBack(ghost p: nat)
      requires p < |merged| && At(p)
      modifies this
      ensures At(p) && direction.Reverse? && current == old(current)
    {
      ghost var here := pos;
      var c := current.value;
      var key := Current().ikey;
      CurrentCut(lists, merged, c, pos[c], p);
      Advance(lists, merged, c, p);
      for i := 0 to |lists|
        invariant Ok() && current == Some(c) && pos[c] == here[c] && lists[c][pos[c]].ikey == key
        invariant forall j :: 0 <= j < i ==> pos[j] == StepBack(Cut(lists[j], merged, p + 1), |lists[j]|)
      {
        if i != c {
          OtherChild(lists, merged, c, i, p);
          pos := pos[i := LowerBound(lists[i], key)];
          if pos[i] < |lists[i]| {
            pos := pos[i := StepBack(pos[i], |lists[i]|)];
          } else {
            pos := pos[i := StepBack(|lists[i]|, |lists[i]|)];
          }
        }
      }
      direction := Reverse;
    }
  }

  /** The position before `n`, or invalid. */
  function StepBack(n: nat, length: nat): nat {
    if n == 0 then length else n - 1
  }

  lemma SmallestIsNext(lists: seq<seq<Entry>>, merged: seq<Entry>, pos: seq<nat>, q: nat, smallest: Option<nat>)
    requires IsMerge(lists, merged) && q <= |merged| && |pos| == |lists|
    requires forall i :: 0 <= i < |lists| ==> pos[i] == Cut(lists[i], merged, q)
    requires smallest.None? ==> forall j :: 0 <= j < |lists| ==> pos[j] == |lists[j]|
    requires smallest.Some? ==>
               && smallest.value < |lists| && pos[smallest.value] < |lists[smallest.value]|
               && forall j :: 0 <= j < |lists| && pos[j] < |lists[j]| ==>
                    Le(lists[smallest.value][pos[smallest.value]].ikey, lists[j][pos[j]].ikey)
    ensures if q == |merged| then smallest.None?
            else smallest.Some? && lists[smallest.value][pos[smallest.value]] == merged[q]
  {
    if q < |merged| {
      assert merged[q] in merged;
      var i :| 0 <= i < |lists| && merged[q] in lists[i];
      CutStep(lists[i], merged, q);
      var e := lists[smallest.value][pos[smallest.value]];
      assert e in lists[smallest.value];
      var t := MergedIndex(merged, e);
      LowerBoundSplits(lists[smallest.value], merged[q].ikey);
    }
  }

  lemma LargestIsPrevious(lists: seq<seq<Entry>>, merged: seq<Entry>, pos: seq<nat>, q: nat, largest: Option<nat>)
    requires IsMerge(lists, merged) && q <= |merged| && |pos| == |lists|
    requires forall i :: 0 <= i < |lists| ==> pos[i] == StepBack(Cut(lists[i], merged, q), |lists[i]|)
    requires largest.None? ==> forall j :: 0 <= j < |lists| ==> pos[j] == |lists[j]|
    requires largest.Some? ==>
               && largest.value < |lists| && pos[largest.value] < |lists[largest.value]|
               && forall j :: 0 <= j < |lists| && pos[j] < |lists[j]| ==>
                    Le(lists[j][pos[j]].ikey, lists[largest.value][pos[largest.value]].ikey)
    ensures if q == 0 then largest.None?
            else largest.Some? && lists[largest.value][pos[largest.value]] == merged[q - 1]
  {
    if q > 0 {
      assert merged[q - 1] in merged;
      var i :| 0 <= i < |lists| && merged[q - 1] in lists[i];
      CutStep(lists[i], merged, q - 1);
    }
    if largest.Some? {
      var e := lists[largest.value][pos[largest.value]];
      assert e in lists[largest.value];
      var t := MergedIndex(merged, e);
      assert t < q by {
        if q < |merged| {
          LowerBoundSplits(lists[largest.value], merged[q].ikey);
        }
      }
    }
  }

  lemma CutStart(list: seq<Entry>, merged: seq<Entry>)
    requires Sorted(list) && Sorted(merged) && forall e :: e in list ==> e in merged
    ensures Cut(list, merged, 0) == 0
  {
    if list != [] {
      assert list[0] in merged;
      var t := MergedIndex(merged, list[0]);
      assert t > 0 ==> Lt(merged[0].ikey, merged[t].ikey);
    }
  }

  lemma CutOfTarget(list: seq<Entry>, merged: seq<Entry>, target: IKey)
    requires Sorted(list) && Sorted(merged) && forall e :: e in list ==> e in merged
    ensures LowerBound(list, target) == Cut(list, merged, LowerBound(merged, target))
  {
    var p := LowerBound(merged, target);
    LowerBoundSplits(merged, target);
    LowerBoundSplits(list, target);
    var n := LowerBound(list, target);
    forall j | 0 <= j < |list| ensures j < n <==> (p == |merged| || Lt(list[j].ikey, merged[p].ikey)) {
      assert list[j] in merged;
      var t := MergedIndex(merged, list[j]);
      assert t < p < |merged| ==> Lt(merged[t].ikey, merged[p].ikey);
      assert p < t ==> Lt(merged[p].ikey, merged[t].ikey);
    }
    if p < |merged| {
      LowerBoundUnique(list, merged[p].ikey, n);
    } else {
      assert |list| > 0 ==> list[|list| - 1] in list;
    }
  }

  /** The current child's place in either direction. */
  lemma CurrentCut(lists: seq<seq<Entry>>, merged: seq<Entry>, c: nat, n: nat, p: nat)
    requires IsMerge(lists, merged) && p < |merged| && c < |lists| && n < |lists[c]| && lists[c][n] == merged[p]
    ensures Cut(lists[c], merged, p) == n
  {
    LowerBoundSplits(lists[c], merged[p].ikey);
    HeadOfCut(lists[c], LowerBound(lists[c], merged[p].ikey), n);
  }

  lemma Advance(lists: seq<seq<Entry>>, merged: seq<Entry>, c: nat, p: nat)
    requires IsMerge(lists, merged) && p < |merged| && c < |lists| && merged[p] in lists[c]
    ensures Cut(lists[c], merged, p + 1) == Cut(lists[c], merged, p) + 1
    ensures forall i :: 0 <= i < |lists| && i != c ==> Cut(lists[i], merged, p + 1) == Cut(lists[i], merged, p)
  {
    CutStep(lists[c], merged, p);
    forall i | 0 <= i < |lists| && i != c ensures Cut(lists[i], merged, p + 1) == Cut(lists[i], merged, p) {
      CutStep(lists[i], merged, p);
    }
  }

  /** Another child never holds the current key, so both direction switches leave it where it belongs. */
  lemma OtherChild(lists: seq<seq<Entry>>, merged: seq<Entry>, c: nat, i: nat, p: nat)
    requires IsMerge(lists, merged) && p < |merged| && c < |lists| && i < |lists| && i != c && merged[p] in lists[c]
    ensures var n := LowerBound(lists[i], merged[p].ikey);
            && n == Cut(lists[i], merged, p) == Cut(lists[i], merged, p + 1)
            && (n < |lists[i]| ==> lists[i][n].ikey != merged[p].ikey)
  {
    Advance(lists, merged, c, p);
    var n := LowerBound(lists[i], merged[p].ikey);
    if n < |lists[i]| {
      var e := lists[i][n];
      assert e in lists[i];
      var t := MergedIndex(merged, e);
      assert t < p ==> Lt(merged[t].ikey, merged[p].ikey);
      assert t > p ==> Lt(merged[p].ikey, merged[t].ikey);
    }
  }
}

/** What group commit does not do (kv/db/db_impl.cpp, Write and BuildBatchGroup): a null batch that rides along in a
    group does not switch the memtable, and the numbers of a group whose log write fails are lost. */
module GroupCommitLimits {
  import opened Format
  import opened History
  import opened GroupCommit

  // ---- Null batches ----

  /** A leader's group has reached the call with position `p` in the order of arrival. */
  ghost predicate Taken(states: seq<Commit>, steps: seq<Step>, i: nat, p: nat)
    requires i <= |steps| <= |states|
  {
    exists j :: 0 <= j < i && steps[j].Lead? && |states[j].completed| <= p < |states[j].completed| + steps[j].n
  }

  /** The groups led so far are completed, except for the one in flight. */
  ghost predicate LedOk(states: seq<Commit>, steps: seq<Step>, i: nat)
    requires i < |states| == |steps| + 1
  {
    var s := states[i];
    && (forall j :: 0 <= j < i && steps[j].Lead? ==>
          |states[j].completed| + steps[j].n <= |s.completed| ||
          (s.leading.Some? && |states[j].completed| == |s.completed| && steps[j].n == s.leading.value.n))
    && (s.leading.Some? ==>
          exists j :: 0 <= j < i && steps[j].Lead? && |states[j].completed| == |s.completed| && steps[j].n == s.leading.value.n)
  }

  lemma {:induction false} RunLed(states: seq<Commit>, steps: seq<Step>, i: nat)
    requires IsRun(states, steps) && i < |states|
    ensures LedOk(states, steps, i)
  {
    if i > 0 {
      RunLed(states, steps, i - 1);
      RunInvariant(states, steps, i - 1);
      LedStep(states, steps, i - 1);
    }
  }

  lemma LedStep(states: seq<Commit>, steps: seq<Step>, i: nat)
    requires |states| == |steps| + 1 && i < |steps| && Next(states[i], steps[i], states[i + 1]) && LeadingOk(states[i])
    requires LedOk(states, steps, i)
    ensures LedOk(states, steps, i + 1)
  {
    var s, s' := states[i], states[i + 1];
    if steps[i].Finish? {
      FinishCompletes(s, steps[i].ok, s');
    }
    if steps[i].Lead? {
      assert |states[i].completed| == |s'.completed| && steps[i].n == s'.leading.value.n;
    } else if s'.leading.Some? {
      var j :| 0 <= j < i && steps[j].Lead? && |states[j].completed| == |s.completed| && steps[j].n == s.leading.value.n;
      assert 0 <= j < i + 1 && steps[j].Lead? && |states[j].completed| == |s'.completed| && steps[j].n == s'.leading.value.n;
    }
  }

  lemma TakenMore(states: seq<Commit>, steps: seq<Step>, i: nat, p: nat)
    requires |states| == |steps| + 1 && i < |steps| && (steps[i].Lead? ==> p < |states[i].completed|)
    ensures Taken(states, steps, i + 1, p) <==> Taken(states, steps, i, p)
  {
  }

  /** A call that completes in a group was taken by it. */
  lemma FinishTaken(states: seq<Commit>, steps: seq<Step>, i: nat, p: nat)
    requires |states| == |steps| + 1 && i < |steps| && LedOk(states, steps, i) && states[i].leading.Some?
    requires |states[i].completed| <= p < |states[i].completed| + states[i].leading.value.n
    ensures Taken(states, steps, i, p)
  {
    var s := states[i];
    var j :| 0 <= j < i && steps[j].Lead? && |states[j].completed| == |s.completed| && steps[j].n == s.leading.value.n;
  }

  /** The call at the front was not. */
  lemma FrontNotTaken(states: seq<Commit>, steps: seq<Step>, i: nat)
    requires |states| == |steps| + 1 && i < |steps| && LedOk(states, steps, i) && states[i].leading.None?
    ensures !Taken(states, steps, i, |states[i].completed|)
  {
  }

  /** A completed call is `forced` exactly if it was not taken by another call's group, if it is a null call that
      returned OK. */
  ghost predicate ForcedIfFront(states: seq<Commit>, steps: seq<Step>, i: nat, p: nat)
    requires i < |states| == |steps| + 1 && p < |states[i].completed|
  {
    var o := states[i].completed[p];
    o.ok && o.writer.batch.None? ==> (o.forced <==> !Taken(states, steps, i, p))
  }

  lemma ForcedStays(states: seq<Commit>, steps: seq<Step>, i: nat, p: nat)
    requires |states| == |steps| + 1 && i < |steps| && Next(states[i], steps[i], states[i + 1])
    requires p < |states[i].completed| && ForcedIfFront(states, steps, i, p)
    ensures p < |states[i + 1].completed| && ForcedIfFront(states, steps, i + 1, p)
  {
    assert states[i].completed <= states[i + 1].completed;
    TakenMore(states, steps, i, p);
  }

  /** A call that completes in a group forces nothing. */
  lemma FinishForces(s: Commit, ok: bool, s': Commit, p: nat)
    requires LeadingOk(s) && Next(s, Finish(ok), s') && |s.completed| <= p < |s'.completed|
    ensures !s'.completed[p].forced && p < |s.completed| + s.leading.value.n
  {
    FinishCompletes(s, ok, s');
    var ws := s.queue[..s.leading.value.n];
    OutcomesAlike(ws, ok, s.last + 1, s.queue[0].sync);
    assert s'.completed[p] in Outcomes(ws, ok, s.last + 1, s.queue[0].sync);
  }

  lemma ForcedFinish(states: seq<Commit>, steps: seq<Step>, i: nat, p: nat)
    requires |states| == |steps| + 1 && i < |steps| && Next(states[i], steps[i], states[i + 1]) && steps[i].Finish?
    requires LeadingOk(states[i]) && LedOk(states, steps, i) && |states[i].completed| <= p < |states[i + 1].completed|
    ensures ForcedIfFront(states, steps, i + 1, p)
  {
    FinishForces(states[i], steps[i].ok, states[i + 1], p);
    FinishTaken(states, steps, i, p);
    TakenMore(states, steps, i, p);
  }

  lemma ForcedSkip(states: seq<Commit>, steps: seq<Step>, i: nat)
    requires |states| == |steps| + 1 && i < |steps| && Next(states[i], steps[i], states[i + 1]) && steps[i].Skip?
    requires LedOk(states, steps, i)
    ensures |states[i + 1].completed| == |states[i].completed| + 1
    ensures ForcedIfFront(states, steps, i + 1, |states[i].completed|)
  {
    FrontNotTaken(states, steps, i);
    TakenMore(states, steps, i, |states[i].completed|);
  }

  /** A null call that returned OK forced a memtable switch exactly if no group reached it before it was at the front
      of the queue. */
  lemma {:induction false} NullCallForces(states: seq<Commit>, steps: seq<Step>, i: nat, p: nat)
    requires IsRun(states, steps) && i < |states| && p < |states[i].completed|
    ensures var o := states[i].completed[p];
            o.ok && o.writer.batch.None? ==> (o.forced <==> !Taken(states, steps, i, p))
  {
    if i > 0 {
      assert Next(states[i - 1], steps[i - 1], states[i]);
      if p < |states[i - 1].completed| {
        NullCallForces(states, steps, i - 1, p);
        ForcedStays(states, steps, i - 1, p);
      } else {
        RunInvariant(states, steps, i - 1);
        RunLed(states, steps, i - 1);
        if steps[i - 1].Finish? {
          ForcedFinish(states, steps, i - 1, p);
        } else {
          ForcedSkip(states, steps, i - 1);
        }
      }
    }
  }

  /** The memtable was switched on demand as often as calls forced it. */
  lemma SwitchesCounted(states: seq<Commit>, steps: seq<Step>, i: nat)
    requires IsRun(states, steps) && i < |states|
    ensures states[i].switches == Forced(states[i].completed)
  {
    RunInvariant(states, steps, i);
  }

  lemma {:induction false} Grows(states: seq<Commit>, steps: seq<Step>, i: nat, j: nat)
    requires IsRun(states, steps) && i <= j < |states|
    ensures states[i].arrived <= states[j].arrived && |states[i].completed| <= |states[j].completed|
  {
    if i < j {
      Grows(states, steps, i, j - 1);
      assert Next(states[j - 1], steps[j - 1], states[j]);
    }
  }

  lemma {:induction false} WritersLength(os: seq<Outcome>)
    ensures |Writers(os)| == |os|
  {
    if os != [] {
      WritersLength(os[..|os| - 1]);
    }
  }

  /** A leader has a batch. */
  lemma FrontHasBatch(states: seq<Commit>, steps: seq<Step>, j: nat)
    requires IsRun(states, steps) && j < |steps| && steps[j].Lead?
    ensures |states[j].completed| < |states[j].arrived| && states[j].arrived[|states[j].completed|].batch.Some?
  {
    RunInvariant(states, steps, j);
    assert Next(states[j], steps[j], states[j + 1]);
    WritersLength(states[j].completed);
  }

  /** A null call that finds the queue empty and returns OK has forced a switch. */
  lemma AloneForces(states: seq<Commit>, steps: seq<Step>, i: nat, w: Writer, k: nat)
    requires IsRun(states, steps) && i < k < |states| && steps[i] == Arrive(w) && states[i].queue == [] && w.batch.None?
    requires var p := |states[i].completed|; p < |states[k].completed| && states[k].completed[p].ok
    ensures var o := states[k].completed[|states[i].completed|]; o.writer == w && o.forced
  {
    var p := |states[i].completed|;
    RunInvariant(states, steps, i);
    WritersLength(states[i].completed);
    assert Next(states[i], steps[i], states[i + 1]);
    Grows(states, steps, i + 1, k);
    RunInvariant(states, steps, k);
    WriterAt(states[k].completed, p);
    assert states[i + 1].arrived[p] == w;
    forall j | 0 <= j < k && steps[j].Lead? ensures !(|states[j].completed| <= p < |states[j].completed| + steps[j].n) {
      LedBefore(states, steps, i, j, w);
    }
    NullCallForces(states, steps, k, p);
  }

  lemma {:induction false} WriterAt(os: seq<Outcome>, p: nat)
    requires p < |os|
    ensures |Writers(os)| == |os| && Writers(os)[p] == os[p].writer
  {
    WritersLength(os);
    if p < |os| - 1 {
      WritersLength(os[..|os| - 1]);
      WriterAt(os[..|os| - 1], p);
    }
  }

  lemma LedBefore(states: seq<Commit>, steps: seq<Step>, i: nat, j: nat, w: Writer)
    requires IsRun(states, steps) && i < |steps| && steps[i] == Arrive(w) && states[i].queue == [] && w.batch.None?
    requires j < |steps| && steps[j].Lead?
    ensures !(|states[j].completed| <= |states[i].completed| < |states[j].completed| + steps[j].n)
  {
    RunInvariant(states, steps, i);
    WritersLength(states[i].completed);
    if j < i {
      RunLed(states, steps, i);
    } else {
      Grows(states, steps, i, j);
      assert Next(states[i], steps[i], states[i + 1]);
      if i < j {
        Grows(states, steps, i + 1, j);
        FrontHasBatch(states, steps, j);
        assert states[i + 1].arrived[|states[i].completed|] == w;
      }
    }
  }

  // ---- A null call that returns OK and switches nothing ----

  const BATCH: Writer := Writer(0, Some([Put(1.0, [])]), 24, false)
  const NULL: Writer := Writer(1, None, 0, false)

  lemma PairOps()
    ensures Ops([BATCH, NULL]) == [Put(1.0, [])] && Size([BATCH, NULL]) == 24 && Ops([BATCH]) == [Put(1.0, [])]
  {
    var b, n := BATCH, NULL;
    assert [b, n][..1] == [b] && [b][..0] == [];
    assert Ops([b]) == [Put(1.0, [])] && Size([b]) == 24;
  }

  lemma PairIsGroup()
    ensures IsGroup([BATCH, NULL], 2)
  {
    PairOps();
    assert [BATCH, NULL][..2] == [BATCH, NULL];
  }

  lemma PairOutcomes()
    ensures Outcomes([BATCH, NULL], true, 1, false) ==
            [Outcome(BATCH, true, 1, false, true, false), Outcome(NULL, true, 2, false, true, false)]
  {
    var b, n := BATCH, NULL;
    assert [b, n][..1] == [b] && [b][..0] == [];
    PairOps();
    assert Outcomes([b], true, 1, false) == [Outcome(b, true, 1, false, true, false)];
  }

  lemma NullRidesAlong() returns (states: seq<Commit>, steps: seq<Step>)
    ensures IsRun(states, steps) && |states| == 6
    ensures var s := states[5];
            && |s.completed| == 2 && s.completed[1].writer == NULL && s.completed[1].ok && !s.completed[1].forced
            && s.switches == 0
  {
    var b, n := BATCH, NULL;
    var ops := [Put(1.0, [])];
    PairOps();
    PairIsGroup();
    PairOutcomes();
    var e := EntryOf(ops[0], 1);
    var s0 := Commit([], [], None, [], 0, [], 0);
    var s1 := Commit([b], [b], None, [], 0, [], 0);
    var s2 := Commit([b, n], [b, n], None, [], 0, [], 0);
    var s3 := Commit([b, n], [b, n], Some(Leading(2, ops, 0)), [], 0, [], 0);
    var s4 := Commit([b, n], [b, n], Some(Leading(2, ops, 1)), [], 0, [e], 0);
    var os := [Outcome(b, true, 1, false, true, false), Outcome(n, true, 2, false, true, false)];
    var s5 := Commit([b, n], [], None, os, 1, [e], 0);
    assert [b, n][..2] == [b, n];
    assert Next(s0, Arrive(b), s1);
    assert Next(s1, Arrive(n), s2);
    assert Next(s2, Lead(2), s3);
    assert Next(s3, Apply, s4);
    assert Next(s4, Finish(true), s5);
    states, steps := [s0, s1, s2, s3, s4, s5], [Arrive(b), Arrive(n), Lead(2), Apply, Finish(true)];
  }

  // ---- Numbers of a group whose log write failed ----

  /** The sequence number `n` was given to an operation of the call. */
  ghost predicate Given(o: Outcome, n: nat) {
    o.numbered && o.first <= n < o.first + |o.writer.Ops()|
  }

  ghost predicate Holds(es: seq<Entry>, n: nat) {
    exists e :: e in es && e.Seq() == n
  }

  lemma {:induction false} UsedGrows(os: seq<Outcome>, p: nat)
    requires p < |os|
    ensures Used(os[..p]) + os[p].Used() <= Used(os)
  {
    var n := |os| - 1;
    if p < n {
      UsedGrows(os[..n], p);
      assert os[..n][..p] == os[..p];
    }
  }

  /** Every number up to the last belongs to a call ... */
  lemma {:induction false} NumberGiven(os: seq<Outcome>, n: nat) returns (p: nat)
    requires Consecutive(os) && 1 <= n <= Used(os)
    ensures p < |os| && Given(os[p], n)
  {
    var m := |os| - 1;
    var front := os[..m];
    if n <= Used(front) {
      forall q: nat | q < m ensures Follows(front, q) {
        assert Follows(os, q) && front[..q] == os[..q];
      }
      p := NumberGiven(front, n);
    } else {
      p := m;
      assert Follows(os, m);
    }
  }

  /** ... and to one only. */
  lemma GivenOnce(os: seq<Outcome>, p: nat, q: nat, n: nat)
    requires Consecutive(os) && p < q < |os| && Given(os[p], n)
    ensures !Given(os[q], n)
  {
    UsedGrows(os[..q], p);
    assert os[..q][..p] == os[..p] && os[..q][p] == os[p];
    assert Follows(os, p) && Follows(os, q);
  }

  lemma NumberedHolds(ops: seq<Op>, first: nat, n: nat)
    ensures Holds(Numbered(ops, first), n) <==> first <= n < first + |ops|
  {
    if first <= n < first + |ops| {
      assert Numbered(ops, first)[n - first].Seq() == n;
    }
    NumberedRange(ops, first);
  }

  lemma {:induction false} AppliedHolds(os: seq<Outcome>, n: nat)
    ensures Holds(Applied(os), n) <==>
            exists p :: 0 <= p < |os| && os[p].ok && os[p].first <= n < os[p].first + |os[p].writer.Ops()|
  {
    if os != [] {
      var m := |os| - 1;
      var front, o := os[..m], os[m];
      AppliedHolds(front, n);
      NumberedHolds(o.writer.Ops(), o.first, n);
      HoldsConcat(Applied(front), if o.ok then Numbered(o.writer.Ops(), o.first) else [], n);
      assert forall p :: 0 <= p < m ==> front[p] == os[p];
    }
  }

  lemma HoldsConcat(a: seq<Entry>, b: seq<Entry>, n: nat)
    ensures Holds(a + b, n) <==> Holds(a, n) || Holds(b, n)
  {
    if Holds(a, n) {
      var e :| e in a && e.Seq() == n;
      assert e in a + b;
    }
    if Holds(b, n) {
      var e :| e in b && e.Seq() == n;
      assert e in a + b;
    }
  }

  lemma GivenApplied(os: seq<Outcome>, p: nat, n: nat)
    requires Consecutive(os) && p < |os| && Given(os[p], n)
    ensures Holds(Applied(os), n) <==> os[p].ok
  {
    AppliedHolds(os, n);
    forall q: nat | q < |os| && os[q].ok && os[q].first <= n < os[q].first + |os[q].writer.Ops()| ensures q == p {
      assert Follows(os, q);
      assert Given(os[q], n);
      if q < p {
        GivenOnce(os, q, p, n);
      } else if p < q {
        GivenOnce(os, p, q, n);
      }
    }
  }

  lemma MemtableHolds(s: Commit, n: nat)
    requires Invariant(s) && n <= s.last
    ensures Holds(s.memtable, n) <==> Holds(Applied(s.completed), n)
  {
    HoldsConcat(Applied(s.completed), InFlight(s), n);
    if s.leading.Some? {
      NumberedRange(s.leading.value.ops, s.last + 1);
    }
  }

  /** A number given to a call is in the memtable exactly if the call returned OK: a failed group's numbers are used up. */
  lemma NumberApplied(states: seq<Commit>, steps: seq<Step>, i: nat, p: nat, n: nat)
    requires IsRun(states, steps) && i < |states| && p < |states[i].completed| && Given(states[i].completed[p], n)
    ensures n <= states[i].last && (Holds(states[i].memtable, n) <==> states[i].completed[p].ok)
  {
    RunInvariant(states, steps, i);
    var s := states[i];
    UsedGrows(s.completed, p);
    assert Follows(s.completed, p);
    GivenApplied(s.completed, p, n);
    MemtableHolds(s, n);
  }

  /** All numbers up to LastSequence are in the memtable exactly if no group with operations has failed. */
  lemma NoNumberLost(states: seq<Commit>, steps: seq<Step>, i: nat)
    requires IsRun(states, steps) && i < |states|
    ensures var s := states[i];
            (forall n :: 1 <= n <= s.last ==> Holds(s.memtable, n)) <==>
            (forall o :: o in s.completed && o.numbered && !o.ok ==> o.writer.Ops() == [])
  {
    RunInvariant(states, steps, i);
    var s := states[i];
    if forall n :: 1 <= n <= s.last ==> Holds(s.memtable, n) {
      forall o | o in s.completed && o.numbered && !o.ok ensures o.writer.Ops() == [] {
        FailedLost(states, steps, i, o);
      }
    }
    if forall o :: o in s.completed && o.numbered && !o.ok ==> o.writer.Ops() == [] {
      forall n | 1 <= n <= s.last ensures Holds(s.memtable, n) {
        var p := NumberGiven(s.completed, n);
        assert s.completed[p] in s.completed;
        NumberApplied(states, steps, i, p, n);
      }
    }
  }

  lemma FailedLost(states: seq<Commit>, steps: seq<Step>, i: nat, o: Outcome)
    requires IsRun(states, steps) && i < |states| && o in states[i].completed && o.numbered && !o.ok
    requires forall n :: 1 <= n <= states[i].last ==> Holds(states[i].memtable, n)
    ensures o.writer.Ops() == []
  {
    RunInvariant(states, steps, i);
    var p :| 0 <= p < |states[i].completed| && states[i].completed[p] == o;
    assert Follows(states[i].completed, p);
    if o.writer.Ops() != [] {
      NumberApplied(states, steps, i, p, o.first);
    }
  }

  /** It does happen. */
  lemma NumberIsLost() returns (states: seq<Commit>, steps: seq<Step>)
    ensures IsRun(states, steps) && |states| == 4
    ensures states[3].last == 1 && states[3].memtable == [] && |states[3].completed| == 1 && !states[3].completed[0].ok
  {
    var b := BATCH;
    var ops := [Put(1.0, [])];
    PairOps();
    var s0 := Commit([], [], None, [], 0, [], 0);
    var s1 := Commit([b], [b], None, [], 0, [], 0);
    var s2 := Commit([b], [b], Some(Leading(1, ops, 0)), [], 0, [], 0);
    assert [b][..0] == [];
    assert Outcomes([b], false, 1, false) == [Outcome(b, false, 1, false, true, false)];
    var s3 := Commit([b], [], None, [Outcome(b, false, 1, false, true, false)], 1, [], 0);
    assert [b][..1] == [b] && Size([b]) == 24;
    assert Next(s0, Arrive(b), s1);
    assert Next(s1, Lead(1), s2);
    assert Next(s2, Finish(false), s3);
    states, steps := [s0, s1, s2, s3], [Arrive(b), Lead(1), Finish(false)];
  }
}

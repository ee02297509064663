/** The writer queue and group commit (kv/db/db_impl.cpp, Write and BuildBatchGroup). */
module GroupCommit {
  import opened Format
  import opened History

  /** A waiting call of Write.  A null batch asks for a memtable switch. */
  datatype Writer = Writer(id: nat, batch: Option<seq<Op>>, size: nat, sync: bool) {
    function Ops(): seq<Op> { if batch.Some? then batch.value else [] }
    function Bytes(): nat { if batch.Some? then size else 0 }
  }

  function Ops(ws: seq<Writer>): seq<Op> {
    if ws == [] then [] else Ops(ws[..|ws| - 1]) + ws[|ws| - 1].Ops()
  }

  function Size(ws: seq<Writer>): nat {
    if ws == [] then 0 else Size(ws[..|ws| - 1]) + ws[|ws| - 1].Bytes()
  }

  /** How large the first writer lets its group become. */
  function MaxSize(first: Writer): nat {
    if first.size <= 128 * 1024 then first.size + 128 * 1024 else 1024 * 1024
  }

  /** The first `n` writers may share a group: no sync writer behind a non-sync leader, and not too large. */
  ghost predicate MayShare(queue: seq<Writer>, n: nat) {
    && 1 <= n <= |queue|
    && (!queue[0].sync ==> forall i :: 0 <= i < n ==> !queue[i].sync)
    && (Size(queue[..n]) <= MaxSize(queue[0]) || forall i :: 1 <= i < n ==> queue[i].batch.None?)
  }

  /** The next writer stops the group. */
  ghost predicate Stops(queue: seq<Writer>, n: nat)
    requires n < |queue|
  {
    || (queue[n].sync && !queue[0].sync)
    || (queue[n].batch.Some? && Size(queue[..n + 1]) > MaxSize(queue[0]))
  }

  /** The first `n` writers form the group: they may, and no more can. */
  ghost predicate IsGroup(queue: seq<Writer>, n: nat) {
    MayShare(queue, n) && queue[0].batch.Some? && (n < |queue| ==> Stops(queue, n))
  }

  lemma OpsStep(ws: seq<Writer>, i: nat)
    requires i < |ws|
    ensures Ops(ws[..i + 1]) == Ops(ws[..i]) + ws[i].Ops() && Size(ws[..i + 1]) == Size(ws[..i]) + ws[i].Bytes()
  {
    assert ws[..i + 1][..i] == ws[..i];
  }

  lemma ShareMore(queue: seq<Writer>, n: nat)
    requires MayShare(queue, n) && n < |queue| && !Stops(queue, n)
    ensures MayShare(queue, n + 1)
  {
    OpsStep(queue, n);
  }

  method BuildBatchGroup(queue: seq<Writer>) returns (n: nat, result: seq<Op>)
    requires queue != [] && queue[0].batch.Some?
    ensures IsGroup(queue, n) && result == Ops(queue[..n])
  {
    var first := queue[0];
    var size := first.size;
    var max_size := 1024 * 1024;
    if size <= 128 * 1024 {
      max_size := size + 128 * 1024;
    }
    result := first.batch.value;
    n := 1;
    OpsStep(queue, 0);
    while n < |queue|
      invariant MayShare(queue, n) && result == Ops(queue[..n]) && size == Size(queue[..n])
    {
      var w := queue[n];
      OpsStep(queue, n);
      if w.sync && !first.sync {
        return;
      }
      if w.batch.Some? {
        size := size + w.size;
        if size > max_size {
          return;
        }
        result := result + w.batch.value;
      }
      ShareMore(queue, n);
      n := n + 1;
    }
  }

  // ---- The queue over time ----

  /** How a call of Write ended.  `first` is the sequence number its first operation was given if the call's group was
      `numbered`; `forced` says whether the call made MakeRoomForWrite switch the memtable. */
  datatype Outcome = Outcome(writer: Writer, ok: bool, first: nat, synced: bool, numbered: bool, forced: bool) {
    function Used(): nat { if numbered then |writer.Ops()| else 0 }
  }

  /** The group in flight: its first sequence number and how many operations are in the memtable. */
  datatype Leading = Leading(n: nat, ops: seq<Op>, applied: nat)

  /** `arrived` lists all calls so far; `memtable` what has been inserted, in order; `switches` counts forced switches. */
  datatype Commit = Commit(arrived: seq<Writer>, queue: seq<Writer>, leading: Option<Leading>, completed: seq<Outcome>,
                           last: nat, memtable: seq<Entry>, switches: nat)

  datatype Step = Arrive(w: Writer) | Lead(n: nat) | Apply | Finish(ok: bool) | Skip(ok: bool, switched: bool)

  /** The outcomes of the writers of a group that starts at sequence number `first`. */
  function Outcomes(ws: seq<Writer>, ok: bool, first: nat, synced: bool): seq<Outcome> {
    if ws == [] then []
    else
      var front := ws[..|ws| - 1];
      Outcomes(front, ok, first, synced) + [Outcome(ws[|ws| - 1], ok, first + |Ops(front)|, synced, true, false)]
  }

  ghost predicate Next(s: Commit, step: Step, s': Commit) {
    match step
    // Write: push_back
    case Arrive(w) => s' == s.(arrived := s.arrived + [w], queue := s.queue + [w])
    // the writer at the front, once MakeRoomForWrite is through: BuildBatchGroup
    case Lead(n) =>
      && s.leading.None? && IsGroup(s.queue, n)
      && s' == s.(leading := Some(Leading(n, Ops(s.queue[..n]), 0)))
    // one operation of InsertInto, with the mutex released
    case Apply =>
      && s.leading.Some? && s.leading.value.applied < |s.leading.value.ops|
      && var g := s.leading.value;
         s' == s.(memtable := s.memtable + [EntryOf(g.ops[g.applied], s.last + 1 + g.applied)],
                  leading := Some(g.(applied := g.applied + 1)))
    // SetLastSequence and the loop that wakes the group; a failed log write applies nothing but uses up its numbers
    case Finish(ok) =>
      && s.leading.Some? && s.leading.value.n <= |s.queue| && s.queue != []
      && var g := s.leading.value;
         && g.applied == (if ok then |g.ops| else 0)
         && s' == s.(queue := s.queue[g.n..], leading := None, last := s.last + |g.ops|,
                     completed := s.completed + Outcomes(s.queue[..g.n], ok, s.last + 1, s.queue[0].sync))
    // a null batch, for which MakeRoomForWrite is forced to switch, or MakeRoomForWrite failed: only the front writer
    // is done; a forced switch can be followed by an error
    case Skip(ok, switched) =>
      && s.leading.None? && s.queue != [] && (ok ==> switched) && (switched ==> s.queue[0].batch.None?)
      && s' == s.(queue := s.queue[1..], switches := s.switches + (if switched then 1 else 0),
                  completed := s.completed + [Outcome(s.queue[0], ok, s.last + 1, s.queue[0].sync, false, switched)])
  }

  ghost predicate Init(s: Commit) { s == Commit([], [], None, [], 0, [], 0) }

  function Writers(os: seq<Outcome>): seq<Writer> {
    if os == [] then [] else Writers(os[..|os| - 1]) + [os[|os| - 1].writer]
  }

  /** Entries for consecutive sequence numbers. */
  function Numbered(ops: seq<Op>, first: nat): seq<Entry> {
    seq(|ops|, i requires 0 <= i < |ops| => EntryOf(ops[i], first + i))
  }

  /** What the successful calls put into the memtable. */
  function Applied(os: seq<Outcome>): seq<Entry> {
    if os == [] then []
    else
      var o := os[|os| - 1];
      Applied(os[..|os| - 1]) + if o.ok then Numbered(o.writer.Ops(), o.first) else []
  }

  /** How many sequence numbers the calls have used up. */
  function Used(os: seq<Outcome>): nat {
    if os == [] then 0 else Used(os[..|os| - 1]) + os[|os| - 1].Used()
  }

  function Forced(os: seq<Outcome>): nat {
    if os == [] then 0 else Forced(os[..|os| - 1]) + if os[|os| - 1].forced then 1 else 0
  }

  /** Every call's numbers follow those of the call before it, and what is not numbered has nothing to apply. */
  ghost predicate Consecutive(os: seq<Outcome>) {
    forall p: nat :: p < |os| ==> Follows(os, p)
  }

  ghost predicate Follows(os: seq<Outcome>, p: nat)
    requires p < |os|
  {
    os[p].first == Used(os[..p]) + 1 && (os[p].ok && !os[p].numbered ==> os[p].writer.Ops() == [])
  }

  ghost predicate LeadingOk(s: Commit) {
    s.leading.Some? ==>
      var g := s.leading.value;
      && 1 <= g.n <= |s.queue| && g.ops == Ops(s.queue[..g.n]) && g.applied <= |g.ops|
      && s.queue[0].batch.Some? && (!s.queue[0].sync ==> forall i :: 0 <= i < g.n ==> !s.queue[i].sync)
  }

  ghost predicate Invariant(s: Commit) {
    && s.arrived == Writers(s.completed) + s.queue && LeadingOk(s)
    && s.memtable == Applied(s.completed) + InFlight(s)
    && (forall e :: e in Applied(s.completed) ==> 1 <= e.Seq() <= s.last)
    && (forall o :: o in s.completed && o.ok && o.writer.sync ==> o.synced)
    && s.last == Used(s.completed) && Consecutive(s.completed) && s.switches == Forced(s.completed)
  }

  /** The part of the group in flight that is in the memtable. */
  function InFlight(s: Commit): seq<Entry> {
    if s.leading.None? then []
    else
      var g := s.leading.value;
      Numbered(g.ops, s.last + 1)[..if g.applied <= |g.ops| then g.applied else |g.ops|]
  }

  lemma {:induction false} WritersConcat(a: seq<Outcome>, b: seq<Outcome>)
    ensures Writers(a + b) == Writers(a) + Writers(b)
  {
    if b == [] {
      assert a + b == a;
    } else {
      assert (a + b)[..|a + b| - 1] == a + b[..|b| - 1];
      WritersConcat(a, b[..|b| - 1]);
    }
  }

  lemma {:induction false} AppliedConcat(a: seq<Outcome>, b: seq<Outcome>)
    ensures Applied(a + b) == Applied(a) + Applied(b)
  {
    if b == [] {
      assert a + b == a;
    } else {
      assert (a + b)[..|a + b| - 1] == a + b[..|b| - 1];
      AppliedConcat(a, b[..|b| - 1]);
    }
  }

  lemma {:induction false} UsedConcat(a: seq<Outcome>, b: seq<Outcome>)
    ensures Used(a + b) == Used(a) + Used(b) && Forced(a + b) == Forced(a) + Forced(b)
  {
    if b == [] {
      assert a + b == a;
    } else {
      assert (a + b)[..|a + b| - 1] == a + b[..|b| - 1];
      UsedConcat(a, b[..|b| - 1]);
    }
  }

  lemma NumberedConcat(a: seq<Op>, b: seq<Op>, first: nat)
    ensures Numbered(a + b, first) == Numbered(a, first) + Numbered(b, first + |a|)
  {
  }

  lemma OutcomesFront(ws: seq<Writer>, ok: bool, first: nat, synced: bool)
    requires ws != []
    ensures var os := Outcomes(ws, ok, first, synced);
            var front := ws[..|ws| - 1];
            && os != [] && os[..|os| - 1] == Outcomes(front, ok, first, synced)
            && os[|os| - 1] == Outcome(ws[|ws| - 1], ok, first + |Ops(front)|, synced, true, false)
  {
  }

  lemma {:induction false} OutcomesWriters(ws: seq<Writer>, ok: bool, first: nat, synced: bool)
    ensures Writers(Outcomes(ws, ok, first, synced)) == ws && |Outcomes(ws, ok, first, synced)| == |ws|
  {
    if ws != [] {
      OutcomesFront(ws, ok, first, synced);
      OutcomesWriters(ws[..|ws| - 1], ok, first, synced);
      assert ws == ws[..|ws| - 1] + [ws[|ws| - 1]];
    }
  }

  lemma {:induction false} OutcomesAlike(ws: seq<Writer>, ok: bool, first: nat, synced: bool)
    ensures forall o :: o in Outcomes(ws, ok, first, synced) ==>
              o.writer in ws && o.ok == ok && o.synced == synced && o.numbered && !o.forced
  {
    if ws != [] {
      OutcomesAlike(ws[..|ws| - 1], ok, first, synced);
    }
  }

  lemma AppliedSnoc(os: seq<Outcome>, o: Outcome)
    ensures Applied(os + [o]) == Applied(os) + if o.ok then Numbered(o.writer.Ops(), o.first) else []
  {
    assert (os + [o])[..|os|] == os;
  }

  lemma {:induction false} FailedApplied(ws: seq<Writer>, first: nat, synced: bool)
    ensures Applied(Outcomes(ws, false, first, synced)) == []
  {
    if ws != [] {
      FailedApplied(ws[..|ws| - 1], first, synced);
    }
  }

  lemma ShareApplied(os: seq<Outcome>, o: Outcome, ops: seq<Op>, first: nat)
    requires Applied(os) == Numbered(ops, first) && o.ok && o.first == first + |ops|
    ensures Applied(os + [o]) == Numbered(ops + o.writer.Ops(), first)
  {
    AppliedSnoc(os, o);
    NumberedConcat(ops, o.writer.Ops(), first);
  }

  /** Each writer of a group has its share of the consecutive numbers. */
  lemma {:induction false} OutcomesApplied(ws: seq<Writer>, first: nat, synced: bool)
    ensures Applied(Outcomes(ws, true, first, synced)) == Numbered(Ops(ws), first)
  {
    if ws != [] {
      var front, w := ws[..|ws| - 1], ws[|ws| - 1];
      OutcomesApplied(front, first, synced);
      ShareApplied(Outcomes(front, true, first, synced), Outcome(w, true, first + |Ops(front)|, synced, true, false),
                   Ops(front), first);
    }
  }

  lemma {:induction false} OutcomesUsed(ws: seq<Writer>, ok: bool, first: nat, synced: bool)
    ensures Used(Outcomes(ws, ok, first, synced)) == |Ops(ws)| && Forced(Outcomes(ws, ok, first, synced)) == 0
  {
    if ws != [] {
      OutcomesFront(ws, ok, first, synced);
      OutcomesUsed(ws[..|ws| - 1], ok, first, synced);
    }
  }

  lemma ConsecutiveSnoc(os: seq<Outcome>, o: Outcome)
    requires Consecutive(os) && o.first == Used(os) + 1 && (o.ok && !o.numbered ==> o.writer.Ops() == [])
    ensures Consecutive(os + [o])
  {
    var os' := os + [o];
    forall p: nat | p < |os'| ensures Follows(os', p) {
      assert os'[..p] == os[..p];
      if p == |os| {
        assert os[..p] == os;
      } else {
        assert Follows(os, p);
      }
    }
  }

  lemma {:induction false} ConsecutiveGroup(done: seq<Outcome>, ws: seq<Writer>, ok: bool, synced: bool)
    requires Consecutive(done)
    ensures Consecutive(done + Outcomes(ws, ok, Used(done) + 1, synced))
  {
    var first := Used(done) + 1;
    if ws == [] {
      assert done + Outcomes(ws, ok, first, synced) == done;
    } else {
      var front := ws[..|ws| - 1];
      ConsecutiveGroup(done, front, ok, synced);
      OutcomesUsed(front, ok, first, synced);
      GroupSnoc(done, Outcomes(front, ok, first, synced),
                Outcome(ws[|ws| - 1], ok, first + |Ops(front)|, synced, true, false));
    }
  }

  lemma GroupSnoc(done: seq<Outcome>, os: seq<Outcome>, o: Outcome)
    requires Consecutive(done + os) && o.numbered && o.first == Used(done) + 1 + Used(os)
    ensures Consecutive(done + (os + [o]))
  {
    UsedConcat(done, os);
    ConsecutiveSnoc(done + os, o);
    assert done + (os + [o]) == done + os + [o];
  }

  lemma GroupNumbers(done: seq<Outcome>, ws: seq<Writer>, ok: bool, synced: bool)
    requires Consecutive(done)
    ensures var done' := done + Outcomes(ws, ok, Used(done) + 1, synced);
            Consecutive(done') && Used(done') == Used(done) + |Ops(ws)| && Forced(done') == Forced(done)
  {
    ConsecutiveGroup(done, ws, ok, synced);
    OutcomesUsed(ws, ok, Used(done) + 1, synced);
    UsedConcat(done, Outcomes(ws, ok, Used(done) + 1, synced));
  }

  lemma OneCompleted(done: seq<Outcome>, o: Outcome)
    requires Consecutive(done) && o.first == Used(done) + 1 && !o.numbered && (o.ok ==> o.writer.Ops() == [])
    ensures var done' := done + [o];
            && Writers(done') == Writers(done) + [o.writer] && Applied(done') == Applied(done)
            && Consecutive(done') && Used(done') == Used(done) && Forced(done') == Forced(done) + if o.forced then 1 else 0
  {
    assert (done + [o])[..|done|] == done;
    ConsecutiveSnoc(done, o);
  }

  lemma ArriveKeeps(s: Commit, w: Writer, s': Commit)
    requires Invariant(s) && Next(s, Arrive(w), s')
    ensures Invariant(s')
  {
    if s.leading.Some? {
      assert s'.queue[..s.leading.value.n] == s.queue[..s.leading.value.n];
    }
  }

  lemma ApplyKeeps(s: Commit, s': Commit)
    requires Invariant(s) && Next(s, Apply, s')
    ensures Invariant(s')
  {
    assert InFlight(s') == InFlight(s) + [s'.memtable[|s.memtable|]];
  }

  lemma NumberedRange(ops: seq<Op>, first: nat)
    ensures forall e :: e in Numbered(ops, first) ==> first <= e.Seq() < first + |ops|
  {
  }

  lemma CompletedBy(done: seq<Outcome>, ws: seq<Writer>, ok: bool, first: nat, synced: bool)
    ensures var done' := done + Outcomes(ws, ok, first, synced);
            && Writers(done') == Writers(done) + ws && |done'| == |done| + |ws|
            && Applied(done') == Applied(done) + if ok then Numbered(Ops(ws), first) else []
  {
    OutcomesWriters(ws, ok, first, synced);
    if ok {
      OutcomesApplied(ws, first, synced);
    } else {
      FailedApplied(ws, first, synced);
    }
    WritersConcat(done, Outcomes(ws, ok, first, synced));
    AppliedConcat(done, Outcomes(ws, ok, first, synced));
  }

  /** The group's calls complete together. */
  lemma FinishCompletes(s: Commit, ok: bool, s': Commit)
    requires LeadingOk(s) && Next(s, Finish(ok), s')
    ensures var g := s.leading.value;
            && s.queue == s.queue[..g.n] + s'.queue
            && Writers(s'.completed) == Writers(s.completed) + s.queue[..g.n] && |s'.completed| == |s.completed| + g.n
            && Applied(s'.completed) == Applied(s.completed) + if ok then Numbered(g.ops, s.last + 1) else []
  {
    CompletedBy(s.completed, s.queue[..s.leading.value.n], ok, s.last + 1, s.queue[0].sync);
  }

  lemma GroupSynced(done: seq<Outcome>, ws: seq<Writer>, ok: bool, first: nat, synced: bool)
    requires (forall o :: o in done && o.ok && o.writer.sync ==> o.synced) && (!synced ==> forall w :: w in ws ==> !w.sync)
    ensures forall o :: o in done + Outcomes(ws, ok, first, synced) && o.ok && o.writer.sync ==> o.synced
  {
    OutcomesAlike(ws, ok, first, synced);
  }

  lemma AppliedRange(es: seq<Entry>, last: nat, ok: bool, ops: seq<Op>)
    requires forall e :: e in es ==> 1 <= e.Seq() <= last
    ensures forall e :: e in es + (if ok then Numbered(ops, last + 1) else []) ==> 1 <= e.Seq() <= last + |ops|
  {
    NumberedRange(ops, last + 1);
  }

  /** What a finished group changes, part by part. */
  lemma FinishSynced(s: Commit, ok: bool, s': Commit)
    requires LeadingOk(s) && Next(s, Finish(ok), s')
    requires forall o :: o in s.completed && o.ok && o.writer.sync ==> o.synced
    ensures forall o :: o in s'.completed && o.ok && o.writer.sync ==> o.synced
  {
    GroupSynced(s.completed, s.queue[..s.leading.value.n], ok, s.last + 1, s.queue[0].sync);
  }

  lemma FinishNumbers(s: Commit, ok: bool, s': Commit)
    requires LeadingOk(s) && Next(s, Finish(ok), s') && s.last == Used(s.completed) && Consecutive(s.completed)
    ensures s'.last == Used(s'.completed) && Consecutive(s'.completed) && Forced(s'.completed) == Forced(s.completed)
  {
    GroupNumbers(s.completed, s.queue[..s.leading.value.n], ok, s.queue[0].sync);
  }

  lemma FinishApplies(s: Commit, ok: bool, s': Commit)
    requires LeadingOk(s) && Next(s, Finish(ok), s') && s.memtable == Applied(s.completed) + InFlight(s)
    requires forall e :: e in Applied(s.completed) ==> 1 <= e.Seq() <= s.last
    ensures s'.memtable == Applied(s'.completed) && forall e :: e in Applied(s'.completed) ==> 1 <= e.Seq() <= s'.last
  {
    FinishCompletes(s, ok, s');
    AppliedRange(Applied(s.completed), s.last, ok, s.leading.value.ops);
    assert InFlight(s) == if ok then Numbered(s.leading.value.ops, s.last + 1) else [];
  }

  lemma FinishKeeps(s: Commit, ok: bool, s': Commit)
    requires Invariant(s) && Next(s, Finish(ok), s')
    ensures Invariant(s')
  {
    FinishCompletes(s, ok, s');
    FinishApplies(s, ok, s');
    FinishSynced(s, ok, s');
    FinishNumbers(s, ok, s');
  }

  lemma OneKeeps(done: seq<Outcome>, o: Outcome, done': seq<Outcome>)
    requires done' == done + [o]
    requires Consecutive(done) && (forall o :: o in done && o.ok && o.writer.sync ==> o.synced)
    requires o.first == Used(done) + 1 && !o.numbered && (o.ok ==> o.writer.Ops() == []) && o.synced == o.writer.sync
    ensures Writers(done') == Writers(done) + [o.writer] && Applied(done') == Applied(done)
    ensures forall x :: x in done' && x.ok && x.writer.sync ==> x.synced
    ensures Consecutive(done') && Used(done') == Used(done) && Forced(done') == Forced(done) + if o.forced then 1 else 0
  {
    OneCompleted(done, o);
  }

  lemma SkipKeeps(s: Commit, ok: bool, switched: bool, s': Commit)
    requires Invariant(s) && Next(s, Skip(ok, switched), s')
    ensures Invariant(s')
  {
    OneKeeps(s.completed, Outcome(s.queue[0], ok, s.last + 1, s.queue[0].sync, false, switched), s'.completed);
    assert Writers(s.completed) + s.queue == Writers(s.completed) + [s.queue[0]] + s'.queue;
  }

  lemma StepKeeps(s: Commit, step: Step, s': Commit)
    requires Invariant(s) && Next(s, step, s')
    ensures Invariant(s')
  {
    match step
    case Arrive(w) => ArriveKeeps(s, w, s');
    case Lead(n) =>
    case Apply => ApplyKeeps(s, s');
    case Finish(ok) => FinishKeeps(s, ok, s');
    case Skip(ok, switched) => SkipKeeps(s, ok, switched, s');
  }

  ghost predicate IsRun(states: seq<Commit>, steps: seq<Step>) {
    && |states| == |steps| + 1 && Init(states[0])
    && forall i :: 0 <= i < |steps| ==> Next(states[i], steps[i], states[i + 1])
  }

  lemma {:induction false} RunInvariant(states: seq<Commit>, steps: seq<Step>, i: nat)
    requires IsRun(states, steps) && i < |states|
    ensures Invariant(states[i])
  {
    if i > 0 {
      RunInvariant(states, steps, i - 1);
      StepKeeps(states[i - 1], steps[i - 1], states[i]);
    }
  }

  /** In every interleaving: calls complete in the order in which they arrive, none twice and none lost; the memtable
      holds exactly the operations of the calls that returned OK, in that order, and the applied part of the group in
      flight; the numbers of each call follow those of the call before it; a reader at LastSequence sees nothing of the
      group in flight; and a sync call that returned OK was in a synced group. */
  lemma GroupCommitIsCorrect(states: seq<Commit>, steps: seq<Step>, i: nat)
    requires IsRun(states, steps) && i < |states|
    ensures var s := states[i];
            && s.arrived == Writers(s.completed) + s.queue
            && s.memtable == Applied(s.completed) + InFlight(s)
            && Consecutive(s.completed) && s.last == Used(s.completed)
            && (forall e :: e in s.memtable ==> (e.Seq() <= s.last <==> e in Applied(s.completed)))
            && (forall o :: o in s.completed && o.ok && o.writer.sync ==> o.synced)
  {
    RunInvariant(states, steps, i);
    var s := states[i];
    if s.leading.Some? {
      NumberedRange(s.leading.value.ops, s.last + 1);
    }
  }

  /** A group is the front of the queue whatever arrives while it is being written. */
  lemma GroupIsPrefix(states: seq<Commit>, steps: seq<Step>, i: nat)
    requires IsRun(states, steps) && i < |steps| && steps[i].Finish?
    ensures var s, s' := states[i], states[i + 1];
            && s.leading.Some? && s.leading.value.n <= |s.queue| && s.queue == s.queue[..s.leading.value.n] + s'.queue
            && s.leading.value.ops == Ops(s.queue[..s.leading.value.n])
            && Writers(s'.completed) == Writers(s.completed) + s.queue[..s.leading.value.n]
            && (steps[i].ok ==> s'.memtable == Applied(s.completed) + Numbered(s.leading.value.ops, s.last + 1))
  {
    RunInvariant(states, steps, i);
    assert Next(states[i], steps[i], states[i + 1]);
    FinishCompletes(states[i], steps[i].ok, states[i + 1]);
  }
}

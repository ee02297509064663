/** A version that gives the right answers, and the operations that keep it so. */
module Faithfulness {
  import opened Format
  import opened History
  import opened Versions
  import opened Compactions

  /** `v` is in shape, holds only entries of the first `bound` writes, and answers every read at a snapshot
      from `floor` on as those writes say. */
  ghost predicate Faithful(v: Version, hist: seq<Op>, bound: nat, floor: nat) {
    && bound <= |hist| && WellFormed(v) && Layered(v)
    && Sound(All(v), hist, bound) && Agrees(All(v), hist, bound, floor)
  }

  lemma SoundStable(S: set<Entry>, hist: seq<Op>, bound: nat, more: seq<Op>, floor: nat)
    requires bound <= |hist| && Sound(S, hist, bound) && Agrees(S, hist, bound, floor)
    ensures Sound(S, hist + more, bound) && Agrees(S, hist + more, bound, floor)
  {
    forall k, s | floor <= s ensures Yields(S, k, s, Read(hist + more, k, Min(s, bound))) {
      ReadStable(hist, more, k, Min(s, bound));
    }
  }

  /** Later writes do not matter. */
  lemma FaithfulStable(v: Version, hist: seq<Op>, bound: nat, floor: nat, more: seq<Op>)
    requires Faithful(v, hist, bound, floor)
    ensures Faithful(v, hist + more, bound, floor)
  {
    SoundStable(All(v), hist, bound, more, floor);
  }

  lemma FaithfulHigher(v: Version, hist: seq<Op>, bound: nat, floor: nat, floor': nat)
    requires Faithful(v, hist, bound, floor) && floor <= floor'
    ensures Faithful(v, hist, bound, floor')
  {
  }

  lemma SoundDistinct(S: set<Entry>, hist: seq<Op>, bound: nat)
    requires bound <= |hist| && Sound(S, hist, bound)
    ensures Distinct(S)
  {
  }

  /** A flushed table of writes bound+1 .. b, at a clear level, extends a faithful version to `b`. */
  lemma FaithfulFlush(v: Version, hist: seq<Op>, bound: nat, b: nat, floor: nat, p: nat, f: File, v': Version)
    requires Faithful(v, hist, bound, floor) && bound <= b <= |hist|
    requires ValidFile(f) && Entries([f]) == Slice(hist, bound, b)
    requires forall l, g :: 0 <= l < |v| && g in v[l] ==> g.number < f.number
    requires Added(v, p, f, v') && Clear(v, p, f)
    ensures Youngest(v, f)
    ensures Faithful(v', hist, b, floor)
  {
    FlushIsYoungest(v, hist, bound, b, f);
    FlushKeepsShape(v, p, f, v');
    ExtendAgrees(All(v), hist, bound, b, floor);
  }

  lemma FlushIsYoungest(v: Version, hist: seq<Op>, bound: nat, b: nat, f: File)
    requires bound <= b <= |hist| && Sound(All(v), hist, bound)
    requires ValidFile(f) && Entries([f]) == Slice(hist, bound, b)
    requires forall l, g :: 0 <= l < |v| && g in v[l] ==> g.number < f.number
    ensures Youngest(v, f)
  {
    forall e | e in f.entries ensures e.Seq() > bound {
      assert e in Entries([f]);
      SliceSplit(hist, bound, b, b);
    }
  }

  lemma DropAgrees(c: Compaction, R: set<Entry>, hist: seq<Op>, bound: nat, floor: nat)
    requires bound <= |hist| && floor <= c.horizon
    requires Sound(Entries(c.Inputs()) + R, hist, bound) && Agrees(Entries(c.Inputs()) + R, hist, bound, floor)
    requires forall k :: !Exposed(c, R, k)
    ensures Sound(Kept(c) + R, hist, bound) && Agrees(Kept(c) + R, hist, bound, c.horizon)
  {
    DropPreservesReads(c, R, hist, bound);
    forall k, s | c.horizon <= s ensures Yields(Kept(c) + R, k, s, Read(hist, k, Min(s, bound))) {
      assert Yields(Entries(c.Inputs()) + R, k, s, Read(hist, k, Min(s, bound)));
    }
  }

  lemma ExposedDisagrees(c: Compaction, R: set<Entry>, hist: seq<Op>, bound: nat, floor: nat, k: UserKey)
    requires bound <= |hist| && floor <= c.horizon && Exposed(c, R, k)
    requires Sound(Entries(c.Inputs()) + R, hist, bound) && Agrees(Entries(c.Inputs()) + R, hist, bound, floor)
    ensures !Agrees(Kept(c) + R, hist, bound, c.horizon)
  {
    ExposedChangesRead(c, R, hist, bound, k);
    var r := Read(hist, k, Min(c.horizon, bound));
    assert Yields(Entries(c.Inputs()) + R, k, c.horizon, r);
    var x := SearchHasOutcome(Entries(c.Inputs()) + R, k, c.horizon);
    assert r == None;
  }

  lemma DropAgreesIff(c: Compaction, R: set<Entry>, hist: seq<Op>, bound: nat, floor: nat)
    requires bound <= |hist| && floor <= c.horizon
    requires Sound(Entries(c.Inputs()) + R, hist, bound) && Agrees(Entries(c.Inputs()) + R, hist, bound, floor)
    ensures Sound(Kept(c) + R, hist, bound)
    ensures Agrees(Kept(c) + R, hist, bound, c.horizon) <==> forall k :: !Exposed(c, R, k)
  {
    if forall k :: !Exposed(c, R, k) {
      DropAgrees(c, R, hist, bound, floor);
    } else {
      var k :| Exposed(c, R, k);
      ExposedDisagrees(c, R, hist, bound, floor, k);
    }
  }

  /** Replacing the inputs of a compaction by what the drop rules keep is faithful from the horizon on
      exactly when no key is exposed. */
  lemma FaithfulInstall(v: Version, hist: seq<Op>, bound: nat, floor: nat, c: Compaction, outs: seq<File>, v': Version)
    requires Faithful(v, hist, bound, floor) && floor <= c.horizon && Installable(v, c, Kept(c))
    requires FreshOutputs(v, c, outs) && Entries(outs) == Kept(c) && Installed(v, c, outs, v')
    ensures Faithful(v', hist, bound, c.horizon) <==> forall k :: !Exposed(c, Rest(v, c), k)
  {
    InstallKeepsShape(v, c, outs, v');
    InstallEntries(v, c, outs, v');
    DropAgreesIff(c, Rest(v, c), hist, bound, floor);
  }

  /** A trivial move, or any re-cutting of the inputs that drops nothing, is faithful from the same floor. */
  lemma FaithfulMove(v: Version, hist: seq<Op>, bound: nat, floor: nat, c: Compaction, outs: seq<File>, v': Version)
    requires Faithful(v, hist, bound, floor) && Installable(v, c, Entries(outs))
    requires FreshOutputs(v, c, outs) && Entries(outs) == Entries(c.Inputs()) && Installed(v, c, outs, v')
    ensures Faithful(v', hist, bound, floor)
  {
    InstallKeepsShape(v, c, outs, v');
    InstallEntries(v, c, outs, v');
  }

  /** DBImpl::Get: memtable, then immutable memtable, then the version; the first hit decides. */
  ghost predicate ReadsAs(mem: set<Entry>, imm: set<Entry>, v: Version, k: UserKey, s: nat, r: Option<Bytes>) {
    forall a, b, c :: Finds(mem, k, s, a) && Finds(imm, k, s, b) && Finds(All(v), k, s, c) ==>
      Answer(if a.Some? then a else if b.Some? then b else c) == r
  }

  /** Reading through the three layers gives the newest write at or below the snapshot. */
  lemma LayersRead(mem: set<Entry>, imm: set<Entry>, v: Version, hist: seq<Op>, i: nat, m: nat, floor: nat, k: UserKey, s: nat)
    requires Faithful(v, hist, i, floor) && i <= m <= |hist| && floor <= s <= |hist|
    requires imm == Slice(hist, i, m)
    requires Slice(hist, m, |hist|) <= mem
    requires forall e :: e in mem && e.Seq() <= s ==> e in Slice(hist, m, |hist|)
    ensures ReadsAs(mem, imm, v, k, s, Read(hist, k, s))
  {
    ExtendAgrees(All(v), hist, i, m, floor);
    ExtendAgrees(All(v) + imm, hist, m, |hist|, floor);
    var visible := Slice(hist, m, |hist|);
    var S := All(v) + imm + visible;
    assert Yields(S, k, s, Read(hist, k, Min(s, |hist|)));
    SliceSplit(hist, i, m, |hist|);
    forall a, b, c | Finds(mem, k, s, a) && Finds(imm, k, s, b) && Finds(All(v), k, s, c)
      ensures Answer(if a.Some? then a else if b.Some? then b else c) == Read(hist, k, s)
    {
      assert Finds(visible, k, s, a);
      LayerSearch(imm, All(v), k, s, b, c);
      LayerSearch(visible, imm + All(v), k, s, a, if b.Some? then b else c);
      assert visible + (imm + All(v)) == S;
    }
  }
}

/** Applying version edits (kv/db/version_set.cpp, class VersionSet::Builder, LogAndApply, Recover). */
module VersionBuilder {
  import opened Format
  import opened Versions

  /** The file part of a VersionEdit: (level, number) pairs to delete and (level, file) pairs to add. */
  datatype Edit = Edit(deleted: seq<(nat, nat)>, added: seq<(nat, File)>)

  predicate LevelsOk(edit: Edit) {
    (forall d :: d in edit.deleted ==> d.0 < NUM_LEVELS) && (forall a :: a in edit.added ==> a.0 < NUM_LEVELS)
  }

  /** std::set::insert under BySmallestKey. */
  function InsertFile(fs: seq<File>, f: File): seq<File> {
    if fs == [] || BySmallest(f, fs[0]) then [f] + fs
    else if BySmallest(fs[0], f) then [fs[0]] + InsertFile(fs[1..], f)
    else fs
  }

  /** The builder's bookkeeping for one level. */
  datatype LevelState = LevelState(deleted: set<nat>, added: seq<File>)

  function DeleteOne(s: LevelState, level: nat, d: (nat, nat)): LevelState {
    if d.0 == level then s.(deleted := s.deleted + {d.1}) else s
  }

  function AddOne(s: LevelState, level: nat, a: (nat, File)): LevelState {
    if a.0 == level then LevelState(s.deleted - {a.1.number}, InsertFile(s.added, a.1)) else s
  }

  function DeleteAll(s: LevelState, level: nat, ds: seq<(nat, nat)>): LevelState {
    if ds == [] then s else DeleteOne(DeleteAll(s, level, ds[..|ds| - 1]), level, ds[|ds| - 1])
  }

  function AddAll(s: LevelState, level: nat, adds: seq<(nat, File)>): LevelState {
    if adds == [] then s else AddOne(AddAll(s, level, adds[..|adds| - 1]), level, adds[|adds| - 1])
  }

  function ApplyLevel(s: LevelState, level: nat, edit: Edit): LevelState {
    AddAll(DeleteAll(s, level, edit.deleted), level, edit.added)
  }

  class Builder {
    const base: Version
    var levels: seq<LevelState>

    constructor (v: Version)
      ensures base == v && levels == seq(NUM_LEVELS, _ => LevelState({}, []))
    {
      base := v;
      levels := seq(NUM_LEVELS, _ => LevelState({}, []));
    }

    method Apply(edit: Edit)
      requires |levels| == NUM_LEVELS && LevelsOk(edit)
      modifies this
      ensures |levels| == NUM_LEVELS
      ensures forall l :: 0 <= l < NUM_LEVELS ==> levels[l] == ApplyLevel(old(levels[l]), l, edit)
    {
      for i := 0 to |edit.deleted|
        invariant |levels| == NUM_LEVELS
        invariant forall l :: 0 <= l < NUM_LEVELS ==> levels[l] == DeleteAll(old(levels[l]), l, edit.deleted[..i])
      {
        var d := edit.deleted[i];
        assert d in edit.deleted;
        assert edit.deleted[..i + 1][..i] == edit.deleted[..i];
        levels := levels[d.0 := levels[d.0].(deleted := levels[d.0].deleted + {d.1})];
      }
      assert edit.deleted[..|edit.deleted|] == edit.deleted;
      ghost var mid := levels;
      for i := 0 to |edit.added|
        invariant |levels| == NUM_LEVELS == |mid|
        invariant forall l :: 0 <= l < NUM_LEVELS ==> levels[l] == AddAll(mid[l], l, edit.added[..i])
      {
        var a := edit.added[i];
        assert a in edit.added;
        assert edit.added[..i + 1][..i] == edit.added[..i];
        var s := levels[a.0];
        levels := levels[a.0 := LevelState(s.deleted - {a.1.number}, InsertFile(s.added, a.1))];
      }
      assert edit.added[..|edit.added|] == edit.added;
    }

    method SaveTo() returns (v: Version)
      requires |base| == |levels| == NUM_LEVELS
      requires forall l :: 0 <= l < NUM_LEVELS ==> Mergeable(base[l], levels[l])
      ensures |v| == NUM_LEVELS
      ensures forall l :: 0 <= l < NUM_LEVELS ==> Saved(base[l], levels[l], v[l])
    {
      v := [];
      for level := 0 to NUM_LEVELS
        invariant |v| == level
        invariant forall l :: 0 <= l < level ==> Saved(base[l], levels[l], v[l])
      {
        var files := SaveLevel(base[level], levels[level]);
        v := v + [files];
      }
    }
  }

  /** Existing and added files never tie in the order. */
  ghost predicate Mergeable(base: seq<File>, s: LevelState) {
    Listed(base) && Listed(s.added) && forall f, g :: f in base && g in s.added ==> f.number != g.number
  }

  /** The level SaveTo writes: all files that are not deleted, in order. */
  ghost predicate Saved(base: seq<File>, s: LevelState, out: seq<File>) {
    Listed(out) && forall f :: f in out <==> (f in base || f in s.added) && f.number !in s.deleted
  }

  /** SaveTo at one level: merge two ordered lists, leaving out deleted files. */
  method SaveLevel(base: seq<File>, s: LevelState) returns (out: seq<File>)
    requires Mergeable(base, s)
    ensures Saved(base, s, out)
  {
    out := [];
    var i := 0;
    for j := 0 to |s.added|
      invariant 0 <= i <= |base|
      invariant Merged(base, s, i, j, out)
    {
      while i < |base| && !BySmallest(s.added[j], base[i])
        invariant 0 <= i <= |base|
        invariant Merged(base, s, i, j, out)
      {
        MergeBase(base, s, i, j, out);
        out := MaybeAddFile(out, s.deleted, base[i]);
        i := i + 1;
      }
      MergeAdded(base, s, i, j, out);
      out := MaybeAddFile(out, s.deleted, s.added[j]);
    }
    while i < |base|
      invariant 0 <= i <= |base|
      invariant Merged(base, s, i, |s.added|, out)
    {
      MergeBase(base, s, i, |s.added|, out);
      out := MaybeAddFile(out, s.deleted, base[i]);
      i := i + 1;
    }
    assert base[..i] == base && s.added[..|s.added|] == s.added;
  }

  function MaybeAddFile(out: seq<File>, deleted: set<nat>, f: File): seq<File> {
    if f.number in deleted then out else out + [f]
  }

  ghost predicate Merged(base: seq<File>, s: LevelState, i: nat, j: nat, out: seq<File>)
    requires i <= |base| && j <= |s.added|
  {
    && Listed(out)
    && (forall f :: f in out <==> (f in base[..i] || f in s.added[..j]) && f.number !in s.deleted)
    && (forall f, n :: f in out && i <= n < |base| ==> BySmallest(f, base[n]))
    && (forall f, n :: f in out && j <= n < |s.added| ==> BySmallest(f, s.added[n]))
  }

  lemma MergeBase(base: seq<File>, s: LevelState, i: nat, j: nat, out: seq<File>)
    requires Mergeable(base, s) && i < |base| && j <= |s.added| && Merged(base, s, i, j, out)
    requires j < |s.added| ==> !BySmallest(s.added[j], base[i])
    ensures Merged(base, s, i + 1, j, MaybeAddFile(out, s.deleted, base[i]))
  {
    var f := base[i];
    assert base[..i + 1] == base[..i] + [f];
    assert f in base;
    forall n | j <= n < |s.added| ensures BySmallest(f, s.added[n]) {
      assert s.added[j] in s.added && s.added[n] in s.added;
      assert BySmallest(f, s.added[j]);
    }
  }

  lemma MergeAdded(base: seq<File>, s: LevelState, i: nat, j: nat, out: seq<File>)
    requires Mergeable(base, s) && i <= |base| && j < |s.added| && Merged(base, s, i, j, out)
    requires i < |base| ==> BySmallest(s.added[j], base[i])
    ensures Merged(base, s, i, j + 1, MaybeAddFile(out, s.deleted, s.added[j]))
  {
    var f := s.added[j];
    assert s.added[..j + 1] == s.added[..j] + [f];
    forall n | i <= n < |base| ensures BySmallest(f, base[n]) {
      assert n > i ==> BySmallest(base[i], base[n]);
    }
  }

  lemma {:induction false} InsertFileSpec(fs: seq<File>, f: File)
    requires Listed(fs) && forall g :: g in fs ==> g.number != f.number
    ensures Listed(InsertFile(fs, f))
    ensures forall g :: g in InsertFile(fs, f) <==> g in fs || g == f
  {
    if fs == [] || BySmallest(f, fs[0]) {
      forall j | 0 <= j < |fs| ensures BySmallest(f, fs[j]) {
      }
    } else {
      assert fs == [fs[0]] + fs[1..];
      assert fs[0] in fs;
      InsertFileSpec(fs[1..], f);
      var t := InsertFile(fs[1..], f);
      forall j | 0 <= j < |t| ensures BySmallest(fs[0], t[j]) {
        assert t[j] in t;
        if t[j] != f {
          var n :| 0 <= n < |fs[1..]| && fs[1..][n] == t[j];
          assert BySmallest(fs[0], fs[n + 1]);
        }
      }
    }
  }

  lemma {:induction false} DeleteAllSpec(s: LevelState, level: nat, ds: seq<(nat, nat)>)
    ensures DeleteAll(s, level, ds).added == s.added
    ensures forall n :: n in DeleteAll(s, level, ds).deleted <==> n in s.deleted || (level, n) in ds
  {
    if ds != [] {
      var front, last := ds[..|ds| - 1], ds[|ds| - 1];
      DeleteAllSpec(s, level, front);
      assert ds == front + [last];
    }
  }

  /** No file of `adds` reuses a number of `fs` or of an earlier one at the same level. */
  ghost predicate FreshAdds(fs: seq<File>, level: nat, adds: seq<(nat, File)>) {
    && (forall i, g :: 0 <= i < |adds| && adds[i].0 == level && g in fs ==> g.number != adds[i].1.number)
    && (forall i, j :: 0 <= i < j < |adds| && adds[i].0 == level == adds[j].0 ==> adds[i].1.number != adds[j].1.number)
  }

  ghost predicate Adds(adds: seq<(nat, File)>, level: nat, n: nat) {
    exists i :: 0 <= i < |adds| && adds[i].0 == level && adds[i].1.number == n
  }

  lemma {:induction false} AddAllSpec(s: LevelState, level: nat, adds: seq<(nat, File)>)
    requires Listed(s.added) && FreshAdds(s.added, level, adds)
    ensures Listed(AddAll(s, level, adds).added)
    ensures forall f :: f in AddAll(s, level, adds).added <==> f in s.added || (level, f) in adds
    ensures forall n :: n in AddAll(s, level, adds).deleted <==> n in s.deleted && !Adds(adds, level, n)
  {
    if adds != [] {
      var m := |adds| - 1;
      var front, last := adds[..m], adds[m];
      AddAllSpec(s, level, front);
      assert adds == front + [last];
      var t := AddAll(s, level, front);
      assert forall n :: Adds(adds, level, n) <==> Adds(front, level, n) || (last.0 == level && last.1.number == n);
      if last.0 == level {
        forall g | g in t.added ensures g.number != last.1.number {
          if g !in s.added {
            var i :| 0 <= i < m && front[i] == (level, g);
          }
        }
        InsertFileSpec(t.added, last.1);
      }
    }
  }

  /** What one edit, applied to a level by a builder of its own, leaves there. */
  lemma EditLevel(s: LevelState, level: nat, edit: Edit)
    requires Listed(s.added) && FreshAdds(s.added, level, edit.added)
    ensures Listed(ApplyLevel(s, level, edit).added)
    ensures forall f :: f in ApplyLevel(s, level, edit).added <==> f in s.added || (level, f) in edit.added
    ensures forall n :: n in ApplyLevel(s, level, edit).deleted <==>
              (n in s.deleted || (level, n) in edit.deleted) && !Adds(edit.added, level, n)
  {
    DeleteAllSpec(s, level, edit.deleted);
    AddAllSpec(DeleteAll(s, level, edit.deleted), level, edit.added);
  }

  function ApplyAll(s: LevelState, level: nat, edits: seq<Edit>): LevelState {
    if edits == [] then s else ApplyLevel(ApplyAll(s, level, edits[..|edits| - 1]), level, edits[|edits| - 1])
  }

  const NOTHING := LevelState({}, [])

  /** LogAndApply at one level: a fresh builder on the current version, one edit, SaveTo. */
  ghost predicate Applied(fs: seq<File>, level: nat, edit: Edit, fs': seq<File>) {
    Saved(fs, ApplyLevel(NOTHING, level, edit), fs')
  }

  /** `vs` is the list of versions that a run of LogAndApply calls installs at this level. */
  ghost predicate Trace(level: nat, edits: seq<Edit>, vs: seq<seq<File>>) {
    |vs| == |edits| + 1 && forall i :: 0 <= i < |edits| ==> Applied(vs[i], level, edits[i], vs[i + 1])
  }

  function AllAdds(edits: seq<Edit>): seq<(nat, File)> {
    if edits == [] then [] else AllAdds(edits[..|edits| - 1]) + edits[|edits| - 1].added
  }

  lemma FreshSplit(fs: seq<File>, level: nat, a: seq<(nat, File)>, b: seq<(nat, File)>)
    requires FreshAdds(fs, level, a + b)
    ensures FreshAdds(fs, level, a) && FreshAdds([], level, b)
    ensures forall f, j :: (level, f) in a && 0 <= j < |b| && b[j].0 == level ==> f.number != b[j].1.number
    ensures forall f, j :: f in fs && 0 <= j < |b| && b[j].0 == level ==> f.number != b[j].1.number
  {
    var c := a + b;
    assert forall i :: 0 <= i < |a| ==> c[i] == a[i];
    assert forall j :: 0 <= j < |b| ==> c[|a| + j] == b[j];
  }

  /** One builder over all edits holds what the last of the one-by-one versions holds. */
  lemma {:induction false} ReplayMembers(level: nat, edits: seq<Edit>, vs: seq<seq<File>>)
    requires Trace(level, edits, vs) && FreshAdds(vs[0], level, AllAdds(edits))
    ensures var b := ApplyAll(NOTHING, level, edits);
            && Listed(b.added)
            && (forall f :: f in b.added <==> (level, f) in AllAdds(edits))
            && forall f :: f in vs[|edits|] <==> (f in vs[0] || f in b.added) && f.number !in b.deleted
  {
    if edits != [] {
      var m := |edits| - 1;
      var front, e := edits[..m], edits[m];
      var b := ApplyAll(NOTHING, level, front);
      FreshSplit(vs[0], level, AllAdds(front), e.added);
      assert Trace(level, front, vs[..m + 1]);
      ReplayMembers(level, front, vs[..m + 1]);
      EditLevel(NOTHING, level, e);
      assert FreshAdds(b.added, level, e.added);
      EditLevel(b, level, e);
      assert Applied(vs[m], level, e, vs[m + 1]);
      ReplayStep(level, e, vs[0], vs[m], vs[m + 1], b);
    }
  }

  lemma ReplayStep(level: nat, e: Edit, first: seq<File>, fs: seq<File>, fs': seq<File>, b: LevelState)
    requires FreshAdds([], level, e.added) && FreshAdds(b.added, level, e.added) && FreshAdds(first, level, e.added)
    requires Listed(b.added) && Applied(fs, level, e, fs')
    requires forall f :: f in fs <==> (f in first || f in b.added) && f.number !in b.deleted
    ensures var b' := ApplyLevel(b, level, e);
            forall f :: f in fs' <==> (f in first || f in b'.added) && f.number !in b'.deleted
  {
    EditLevel(NOTHING, level, e);
    EditLevel(b, level, e);
    forall f ensures f in fs' <==> (f in first || f in ApplyLevel(b, level, e).added) && f.number !in ApplyLevel(b, level, e).deleted {
      if Adds(e.added, level, f.number) {
        if (level, f) in e.added {
        } else {
          assert f !in first && f !in b.added;
        }
      } else {
        assert (level, f) !in e.added;
      }
    }
  }

  /** An ordered list is determined by its members. */
  lemma {:induction false} ListedUnique(fs: seq<File>, gs: seq<File>)
    requires Listed(fs) && Listed(gs) && forall f :: f in fs <==> f in gs
    ensures fs == gs
  {
    assert gs != [] ==> gs[0] in gs;
    if fs != [] {
      assert fs[0] in fs && gs != [];
      assert gs[0] in fs && fs[0] in gs;
      ListedFirst(fs, gs[0]);
      ListedFirst(gs, fs[0]);
      assert fs[0] == gs[0];
      forall f ensures f in fs[1..] <==> f in gs[1..] {
        ListedTail(fs, f);
        ListedTail(gs, f);
      }
      ListedUnique(fs[1..], gs[1..]);
      assert fs == [fs[0]] + fs[1..] && gs == [gs[0]] + gs[1..];
    }
  }

  lemma ListedFirst(fs: seq<File>, f: File)
    requires Listed(fs) && f in fs
    ensures f == fs[0] || BySmallest(fs[0], f)
  {
    var i :| 0 <= i < |fs| && fs[i] == f;
  }

  lemma ListedTail(fs: seq<File>, f: File)
    requires Listed(fs) && fs != []
    ensures f in fs[1..] <==> f in fs && f != fs[0]
  {
    assert fs == [fs[0]] + fs[1..];
    if f in fs[1..] {
      var i :| 0 <= i < |fs[1..]| && fs[1..][i] == f;
      assert BySmallest(fs[0], fs[i + 1]);
    }
  }

  /** Recover's single builder over the whole manifest saves exactly the version that the one-by-one
      LogAndApply calls had installed, provided that no level is ever given a file number twice. */
  lemma ReplayRebuilds(level: nat, edits: seq<Edit>, vs: seq<seq<File>>, out: seq<File>)
    requires Trace(level, edits, vs) && FreshAdds(vs[0], level, AllAdds(edits)) && Listed(vs[0])
    requires Saved(vs[0], ApplyAll(NOTHING, level, edits), out)
    ensures out == vs[|edits|]
  {
    ReplayMembers(level, edits, vs);
    if edits != [] {
      assert Applied(vs[|edits| - 1], level, edits[|edits| - 1], vs[|edits|]);
    }
    ListedUnique(out, vs[|edits|]);
  }

  /** One builder over the manifest yields `v`, and no level was given a file number twice. */
  ghost predicate Replays(manifest: seq<Edit>, v: Version) {
    && |v| == NUM_LEVELS
    && forall l :: 0 <= l < NUM_LEVELS ==> ReplaysLevel(manifest, l, v[l])
  }

  ghost predicate ReplaysLevel(manifest: seq<Edit>, l: nat, fs: seq<File>) {
    && Saved([], ApplyAll(NOTHING, l, manifest), fs)
    && Listed(ApplyAll(NOTHING, l, manifest).added)
    && (forall f :: f in ApplyAll(NOTHING, l, manifest).added <==> (l, f) in AllAdds(manifest))
  }

  /** LogAndApply: every level saved from a fresh builder with the one edit. */
  ghost predicate AppliedEdit(v: Version, e: Edit, v': Version) {
    |v| == |v'| == NUM_LEVELS && forall l :: 0 <= l < NUM_LEVELS ==> Applied(v[l], l, e, v'[l])
  }

  /** No level is given a file number it ever had, nor one twice. */
  ghost predicate FreshFor(manifest: seq<Edit>, e: Edit) {
    && (forall l :: 0 <= l < NUM_LEVELS ==> FreshAdds([], l, e.added))
    && forall l, f, j :: (l, f) in AllAdds(manifest) && 0 <= j < |e.added| && e.added[j].0 == l ==> f.number != e.added[j].1.number
  }

  lemma AllAddsExtend(manifest: seq<Edit>, e: Edit)
    ensures AllAdds(manifest + [e]) == AllAdds(manifest) + e.added
    ensures forall l :: ApplyAll(NOTHING, l, manifest + [e]) == ApplyLevel(ApplyAll(NOTHING, l, manifest), l, e)
  {
    assert (manifest + [e])[..|manifest|] == manifest;
  }

  /** Appending an edit to the manifest and installing it keep the two in step. */
  lemma ReplaysExtend(manifest: seq<Edit>, v: Version, e: Edit, v': Version)
    requires Replays(manifest, v) && AppliedEdit(v, e, v') && FreshFor(manifest, e)
    ensures Replays(manifest + [e], v')
  {
    AllAddsExtend(manifest, e);
    forall l | 0 <= l < NUM_LEVELS ensures ReplaysLevel(manifest + [e], l, v'[l]) {
      var b := ApplyAll(NOTHING, l, manifest);
      assert ReplaysLevel(manifest, l, v[l]);
      assert Applied(v[l], l, e, v'[l]);
      assert FreshAdds(b.added, l, e.added) by {
        assert FreshAdds([], l, e.added);
      }
      EditLevel(b, l, e);
      ReplayStep(l, e, [], v[l], v'[l], b);
    }
  }

  function Deletes(level: nat, fs: seq<File>): seq<(nat, nat)> {
    seq(|fs|, i requires 0 <= i < |fs| => (level, fs[i].number))
  }

  function Additions(level: nat, fs: seq<File>): seq<(nat, File)> {
    seq(|fs|, i requires 0 <= i < |fs| => (level, fs[i]))
  }

  lemma DeletesMember(level: nat, fs: seq<File>)
    ensures forall l, n :: (l, n) in Deletes(level, fs) <==> l == level && exists f :: f in fs && f.number == n
  {
    var ds := Deletes(level, fs);
    forall l, n ensures (l, n) in ds <==> l == level && exists f :: f in fs && f.number == n {
      if (l, n) in ds {
        var i :| 0 <= i < |ds| && ds[i] == (l, n);
        assert fs[i] in fs;
      }
      if l == level && exists f :: f in fs && f.number == n {
        var f :| f in fs && f.number == n;
        var i :| 0 <= i < |fs| && fs[i] == f;
        assert ds[i] == (l, n);
      }
    }
  }

  lemma AdditionsMember(level: nat, fs: seq<File>)
    ensures forall l, f :: (l, f) in Additions(level, fs) <==> l == level && f in fs
    ensures forall l, n :: Adds(Additions(level, fs), l, n) <==> l == level && exists f :: f in fs && f.number == n
  {
    var adds := Additions(level, fs);
    forall l, f ensures (l, f) in adds <==> l == level && f in fs {
      if l == level && f in fs {
        var i :| 0 <= i < |fs| && fs[i] == f;
        assert adds[i] == (l, f);
      }
    }
    forall l, n ensures Adds(adds, l, n) <==> l == level && exists f :: f in fs && f.number == n {
      if l == level && exists f :: f in fs && f.number == n {
        var f :| f in fs && f.number == n;
        var i :| 0 <= i < |fs| && fs[i] == f;
        assert adds[i].0 == level && adds[i].1.number == n;
      }
      if Adds(adds, l, n) {
        var i :| 0 <= i < |adds| && adds[i].0 == l && adds[i].1.number == n;
        assert fs[i] in fs;
      }
    }
  }
}

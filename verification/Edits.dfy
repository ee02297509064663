/** The three kinds of edit the engine writes, and what LogAndApply makes of them
    (kv/db/db_impl.cpp WriteLevel0Table, BackgroundCompaction, InstallCompactionResults). */
module Edits {
  import opened Format
  import opened History
  import opened Versions
  import opened Compactions
  import opened VersionBuilder

  /** InstallCompactionResults: delete both levels' inputs, add the outputs one level down.
      A trivial move is the case where the output is the single input. */
  function CompactionEdit(c: Compaction, outs: seq<File>): Edit {
    Edit(Deletes(c.level, c.in0) + Deletes(c.level + 1, c.in1), Additions(c.level + 1, outs))
  }

  function FlushEdit(p: nat, f: File): Edit {
    Edit([], [(p, f)])
  }

  lemma UntouchedLevel(fs: seq<File>, l: nat, e: Edit, fs': seq<File>)
    requires Listed(fs) && Applied(fs, l, e, fs') && FreshAdds([], l, e.added)
    requires forall n :: (l, n) !in e.deleted
    requires forall f :: (l, f) !in e.added
    ensures fs' == fs
  {
    EditLevel(NOTHING, l, e);
    ListedUnique(fs', fs);
  }

  lemma CompactionEditLevels(c: Compaction, outs: seq<File>)
    requires forall i, j :: 0 <= i < j < |outs| ==> outs[i].number != outs[j].number
    ensures var e := CompactionEdit(c, outs);
            && (forall l :: FreshAdds([], l, e.added))
            && (forall l, n :: (l, n) in e.deleted <==>
                  (l == c.level && exists f :: f in c.in0 && f.number == n) ||
                  (l == c.level + 1 && exists f :: f in c.in1 && f.number == n))
            && (forall l, f :: (l, f) in e.added <==> l == c.level + 1 && f in outs)
            && (forall l, n :: Adds(e.added, l, n) <==> l == c.level + 1 && exists f :: f in outs && f.number == n)
  {
    DeletesMember(c.level, c.in0);
    DeletesMember(c.level + 1, c.in1);
    AdditionsMember(c.level + 1, outs);
  }

  lemma CompactionUpper(v: Version, c: Compaction, outs: seq<File>, fs': seq<File>)
    requires UniqueNumbers(v) && Holds(v, c)
    requires forall i, j :: 0 <= i < j < |outs| ==> outs[i].number != outs[j].number
    requires Applied(v[c.level], c.level, CompactionEdit(c, outs), fs')
    ensures Replaced(v[c.level], c.in0, [], fs')
  {
    CompactionEditLevels(c, outs);
    EditLevel(NOTHING, c.level, CompactionEdit(c, outs));
  }

  lemma CompactionLower(v: Version, c: Compaction, outs: seq<File>, fs': seq<File>)
    requires UniqueNumbers(v) && Holds(v, c)
    requires forall i, j :: 0 <= i < j < |outs| ==> outs[i].number != outs[j].number
    requires forall f, g :: f in v[c.level + 1] && g in outs ==> f.number != g.number
    requires Applied(v[c.level + 1], c.level + 1, CompactionEdit(c, outs), fs')
    ensures Replaced(v[c.level + 1], c.in1, outs, fs')
  {
    CompactionEditLevels(c, outs);
    EditLevel(NOTHING, c.level + 1, CompactionEdit(c, outs));
  }

  lemma CompactionEditInstalls(v: Version, c: Compaction, outs: seq<File>, v': Version)
    requires WellFormed(v) && Holds(v, c)
    requires forall i, j :: 0 <= i < j < |outs| ==> outs[i].number != outs[j].number
    requires forall f, g :: f in v[c.level + 1] && g in outs ==> f.number != g.number
    requires AppliedEdit(v, CompactionEdit(c, outs), v')
    ensures Installed(v, c, outs, v')
  {
    var e := CompactionEdit(c, outs);
    assert Applied(v[c.level], c.level, e, v'[c.level]);
    assert Applied(v[c.level + 1], c.level + 1, e, v'[c.level + 1]);
    CompactionUpper(v, c, outs, v'[c.level]);
    CompactionLower(v, c, outs, v'[c.level + 1]);
    CompactionEditLevels(c, outs);
    forall l | 0 <= l < |v| && l != c.level && l != c.level + 1 ensures v'[l] == v[l] {
      assert SoundLevel(l, v[l]) && Applied(v[l], l, e, v'[l]);
      UntouchedLevel(v[l], l, e, v'[l]);
    }
  }

  lemma FlushEditAdds(v: Version, p: nat, f: File, v': Version)
    requires WellFormed(v) && p < NUM_LEVELS
    requires AppliedEdit(v, FlushEdit(p, f), v')
    ensures Added(v, p, f, v')
  {
    var e := FlushEdit(p, f);
    forall l | 0 <= l < |v| ensures if l == p then Replaced(v[l], [], [f], v'[l]) else v'[l] == v[l] {
      assert SoundLevel(l, v[l]) && Applied(v[l], l, e, v'[l]);
      assert FreshAdds([], l, e.added);
      EditLevel(NOTHING, l, e);
      if l != p {
        UntouchedLevel(v[l], l, e, v'[l]);
      }
    }
  }

  lemma EmptyEditKeeps(v: Version, v': Version)
    requires WellFormed(v) && AppliedEdit(v, Edit([], []), v')
    ensures v' == v
  {
    forall l | 0 <= l < |v| ensures v'[l] == v[l] {
      assert SoundLevel(l, v[l]) && Applied(v[l], l, Edit([], []), v'[l]);
      UntouchedLevel(v[l], l, Edit([], []), v'[l]);
    }
  }
}

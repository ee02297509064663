/** The user-level iterator: one entry per live user key at a snapshot (kv/db/db_iter.cpp). */
module DbIter {
  import opened Format
  import opened History
  import opened Merger

  /** A snapshot at `s` can see entry `i`. */
  predicate Seen(all: seq<Entry>, s: nat, i: int)
  {
    0 <= i < |all| && all[i].Seq() <= s
  }

  /** Entry `i` is what the snapshot shows for its user key: the newest visible one, and no tombstone. */
  ghost predicate Live(all: seq<Entry>, s: nat, i: int) {
    && Seen(all, s, i) && !all[i].IsDeletion()
    && forall t :: 0 <= t < i && Seen(all, s, t) ==> all[t].User() != all[i].User()
  }

  lemma UsersInOrder(all: seq<Entry>, i: int, j: int)
    requires Sorted(all) && 0 <= i <= j < |all|
    ensures all[i].User() <= all[j].User()
  {
    assert i < j ==> Lt(all[i].ikey, all[j].ikey);
  }

  /** What the iterator shows is what a read at the same snapshot returns. */
  lemma LiveIsRead(all: seq<Entry>, s: nat, k: UserKey, v: Bytes)
    requires Sorted(all) && Distinct(Elements(all))
    ensures (exists i :: Live(all, s, i) && all[i].User() == k && all[i].value == v) <==>
            Yields(Elements(all), k, s, Some(v))
  {
    var S := Elements(all);
    if i :| Live(all, s, i) && all[i].User() == k && all[i].value == v {
      var e := all[i];
      assert e in S;
      forall d | d in S && Visible(d, k, s) ensures d.Seq() <= e.Seq() {
        var j :| 0 <= j < |all| && all[j] == d;
        assert Seen(all, s, j);
        assert j > i ==> Lt(e.ikey, all[j].ikey);
      }
      forall x | Finds(S, k, s, x) ensures Answer(x) == Some(v) {
        assert x == Some(e);
      }
    }
    if Yields(S, k, s, Some(v)) {
      var r := SearchHasOutcome(S, k, s);
      var e := r.value;
      var i :| 0 <= i < |all| && all[i] == e;
      forall t | 0 <= t < i && Seen(all, s, t) ensures all[t].User() != k {
        assert Lt(all[t].ikey, e.ikey);
        assert all[t] in S;
      }
      assert Live(all, s, i);
    }
  }

  class DBIter {
    const all: seq<Entry>
    const sequence: nat
    var pos: nat
    var direction: Direction
    var valid: bool
    var saved_key: Option<UserKey>
    var saved_value: Bytes

    constructor (entries: seq<Entry>, s: nat)
      requires Sorted(entries)
      ensures all == entries && sequence == s && Ok() && !valid
    {
      all, sequence := entries, s;
      pos, direction, valid, saved_key, saved_value := |entries|, Forward, false, None, [];
    }

    ghost predicate Ok()
      reads this
    {
      Sorted(all) && pos <= |all|
    }

    /** Moving backwards: the internal iterator is before the entries of `k`, past nothing visible. */
    ghost predicate Before(k: UserKey)
      requires Ok()
      reads this
    {
      && (pos < |all| ==> all[pos].User() < k)
      && forall t :: (if pos < |all| then pos < t else 0 <= t) && t < |all| && all[t].User() < k ==> !Seen(all, sequence, t)
    }

    /** The iterator shows live entry `i`. */
    ghost predicate At(i: nat)
      reads this
    {
      && Ok() && valid && Live(all, sequence, i)
      && (if direction.Forward? then pos == i
          else saved_key == Some(all[i].User()) && saved_value == all[i].value && Before(all[i].User()))
    }

    /** key() and value(): standing at a live entry, the iterator shows its user key and its value. */
    method Show(ghost i: nat) returns (key: UserKey, value: Bytes)
      requires At(i)
      ensures key == all[i].User() && value == all[i].value
    {
      if direction.Forward? {
        key, value := all[pos].User(), all[pos].value;
      } else {
        key, value := saved_key.value, saved_value;
      }
    }

    /** Stands at the first live entry that satisfies: index at least `from`, user key past `floor` if given. */
    ghost predicate FirstFrom(from: nat, floor: Option<UserKey>)
      requires Ok()
      reads this
    {
      if valid then
        && direction.Forward? && Live(all, sequence, pos) && from <= pos && (floor.Some? ==> all[pos].User() > floor.value)
        && forall t :: from <= t < pos && Live(all, sequence, t) ==> floor.Some? && all[t].User() <= floor.value
      else
        forall t :: from <= t && Live(all, sequence, t) ==> floor.Some? && all[t].User() <= floor.value
    }

    /** Scans forward, skipping what is invisible, deleted, or hidden by `skip0` or by a newer entry. */
    method FindNextUserEntry(skip0: Option<UserKey>)
      requires Ok() && pos < |all| && direction.Forward?
      requires ScanStart(all, sequence, pos, skip0)
      modifies this
      ensures Ok() && direction.Forward? && FirstFrom(old(pos), skip0)
    {
      ghost var from := pos;
      var skipping, skip := skip0.Some?, if skip0.Some? then skip0.value else 0.0;
      while pos < |all|
        invariant from <= pos <= |all| && Ok() && direction.Forward?
        invariant Scanned(all, sequence, from, pos, skip0, skipping, skip)
        decreases |all| - pos
      {
        var ikey := all[pos].ikey;
        if ikey.sequence <= sequence {
          if ikey.kind.Deletion? {
            ScanDeletion(all, sequence, from, pos, skip0, skipping, skip);
            skip := ikey.user;
            skipping := true;
          } else if skipping && ikey.user <= skip {
            ScanHidden(all, sequence, from, pos, skip0, skip);
          } else {
            ScanFound(all, sequence, from, pos, skip0, skipping, skip);
            valid := true;
            saved_key := None;
            return;
          }
        } else {
          ScanInvisible(all, sequence, from, pos, skip0, skipping, skip);
        }
        pos := pos + 1;
      }
      saved_key := None;
      valid := false;
    }

    /** A visible entry takes the place of what was kept: a value is kept, a deletion is not. */
    method KeepBack(kind: Kind, ghost i: int, ghost from: int) returns (value_type: Kind, ghost i': int)
      requires Ok() && pos < |all| && Seen(all, sequence, pos) && BackScanned(all, sequence, from, pos, kind, i)
      requires kind.Value? ==> all[pos].User() >= all[i].User()
      modifies this`saved_key, this`saved_value
      ensures BackScanned(all, sequence, from, pos - 1, value_type, i')
      ensures value_type.Value? ==> saved_key == Some(all[i'].User()) && saved_value == all[i'].value
    {
      BackSeen(all, sequence, from, pos, kind, i);
      value_type, i' := all[pos].ikey.kind, i;
      if value_type == Deletion {
        saved_key, saved_value := None, [];
      } else {
        saved_key, saved_value, i' := Some(all[pos].User()), all[pos].value, pos;
      }
    }

    /** The loop of FindPrevUserEntry: back over user keys, keeping the newest visible entry of each, until the one kept
        is a value and an earlier user key shows up, or nothing is left. */
    method ScanBack() returns (value_type: Kind, ghost i: int)
      requires Ok() && direction.Reverse?
      modifies this`pos, this`saved_key, this`saved_value
      ensures Ok() && BackScanned(all, sequence, Index(old(pos), |all|), Index(pos, |all|), value_type, i)
      ensures value_type.Value? ==> saved_key == Some(all[i].User()) && saved_value == all[i].value
      ensures pos < |all| ==> value_type.Value? && all[pos].User() < all[i].User()
    {
      value_type, i := Deletion, -1;
      ghost var from := Index(pos, |all|);
      while pos < |all|
        invariant Ok() && BackScanned(all, sequence, from, Index(pos, |all|), value_type, i)
        invariant value_type.Value? ==> saved_key == Some(all[i].User()) && saved_value == all[i].value
        decreases if pos < |all| then pos + 1 else 0
      {
        var ikey := all[pos].ikey;
        if ikey.sequence <= sequence {
          if value_type != Deletion && ikey.user < saved_key.value {
            break;
          }
          value_type, i := KeepBack(value_type, i, from);
        } else {
          BackInvisible(all, sequence, from, pos, value_type, i);
        }
        pos := StepBack(pos, |all|);
      }
    }

    /** Scans backward to the first user key that is not deleted. */
    method FindPrevUserEntry() returns (ghost i: int)
      requires Ok() && direction.Reverse?
      modifies this
      ensures Ok()
      ensures valid ==> 0 <= i && At(i) && direction.Reverse? && old(pos) < |all| && i <= old(pos)
                        && forall t :: i < t <= old(pos) ==> !Live(all, sequence, t)
      ensures !valid ==> direction.Forward? && (old(pos) < |all| ==> forall t :: 0 <= t <= old(pos) ==> !Live(all, sequence, t))
    {
      var value_type;
      value_type, i := ScanBack();
      BackDone(all, sequence, Index(old(pos), |all|), Index(pos, |all|), value_type, i);
      if value_type == Deletion {
        valid := false;
        saved_key, saved_value := None, [];
        direction := Forward;
      } else {
        valid := true;
      }
    }

    /** From any live entry, moving either way before, Next shows the next live one. */
    method Next(ghost i: nat)
      requires At(i)
      modifies this
      ensures Ok()
      ensures if valid then i < pos && At(pos) && forall t :: i < t < pos ==> !Live(all, sequence, t)
              else forall t :: i < t ==> !Live(all, sequence, t)
    {
      var skip: UserKey;
      if direction == Reverse {
        direction := Forward;
        if pos == |all| {
          pos := 0;
        } else {
          pos := pos + 1;
        }
        skip := saved_key.value;
      } else {
        skip := all[pos].User();
        pos := pos + 1;
      }
      if pos == |all| {
        valid := false;
        saved_key := None;
        return;
      }
      ghost var from := pos;
      NextStart(all, sequence, i, from);
      FindNextUserEntry(Some(skip));
      NextLands(all, sequence, i, from, if valid then pos else |all|);
    }

    /** From any live entry, moving either way before, Prev shows the previous live one. */
    method Prev(ghost i: nat) returns (ghost j: int)
      requires At(i)
      modifies this
      ensures Ok()
      ensures if valid then 0 <= j < i && At(j) && forall t :: j < t < i ==> !Live(all, sequence, t)
              else forall t :: 0 <= t < i ==> !Live(all, sequence, t)
    {
      j := -1;
      if direction == Forward {
        var key := all[pos].User();
        saved_key := Some(key);
        while true
          invariant Ok() && pos < |all| && pos <= i && valid && saved_key == Some(key) && key == all[i].User()
          invariant forall t :: pos <= t <= i ==> all[t].User() == key
          decreases pos
        {
          UsersInOrder(all, StepBack(pos, pos), i);
          pos := StepBack(pos, |all|);
          if pos == |all| {
            NoneBefore(all, sequence, i, 0);
            valid := false;
            saved_key, saved_value := None, [];
            return;
          }
          if all[pos].User() < saved_key.value {
            break;
          }
        }
        direction := Reverse;
        NoneBefore(all, sequence, i, pos + 1);
      } else {
        HiddenBefore(all, sequence, i, pos);
      }
      j := FindPrevUserEntry();
    }

    /** Seek shows the first live entry whose user key is at or after the target. */
    method Seek(target: UserKey)
      requires Ok()
      modifies this
      ensures Ok()
      ensures if valid then At(pos) && all[pos].User() >= target &&
                            forall t :: 0 <= t < pos && Live(all, sequence, t) ==> all[t].User() < target
              else forall t :: Live(all, sequence, t) ==> all[t].User() < target
    {
      direction := Forward;
      saved_value := [];
      var key := SeekKey(target, sequence);
      pos := LowerBound(all, key);
      SeekStart(all, sequence, target);
      saved_key := None;
      if pos < |all| {
        FindNextUserEntry(None);
      } else {
        valid := false;
      }
    }

    method SeekToFirst()
      requires Ok()
      modifies this
      ensures Ok()
      ensures if valid then At(pos) && forall t :: 0 <= t < pos ==> !Live(all, sequence, t)
              else forall t :: !Live(all, sequence, t)
    {
      direction := Forward;
      saved_value := [];
      pos := 0;
      if pos < |all| {
        FindNextUserEntry(None);
      } else {
        valid := false;
      }
    }

    method SeekToLast() returns (ghost j: int)
      requires Ok()
      modifies this
      ensures Ok()
      ensures if valid then 0 <= j && At(j) && forall t :: j < t ==> !Live(all, sequence, t)
              else forall t :: !Live(all, sequence, t)
    {
      direction := Reverse;
      saved_value := [];
      pos := StepBack(|all|, |all|);
      j := FindPrevUserEntry();
    }
  }

  /** Nothing visible before `from` matters beyond it except what `skip0` hides, and `skip0` is not ahead of the data. */
  ghost predicate ScanStart(all: seq<Entry>, s: nat, from: nat, skip0: Option<UserKey>) {
    && (forall t, j :: 0 <= t < from <= j < |all| && Seen(all, s, t) && all[t].User() == all[j].User() ==>
          skip0.Some? && all[j].User() <= skip0.value)
    && (skip0.Some? ==> forall j :: from <= j && Seen(all, s, j) ==> skip0.value <= all[j].User())
  }

  /** The forward scan has passed from .. p-1: `skip` is the last user key seen there, or skip0. */
  ghost predicate Scanned(all: seq<Entry>, s: nat, from: nat, p: nat, skip0: Option<UserKey>, skipping: bool, skip: UserKey) {
    && ScanStart(all, s, from, skip0)
    && (skip0.Some? ==> skipping && skip0.value <= skip)
    && (forall t :: from <= t < p && Seen(all, s, t) ==> skipping && all[t].User() <= skip)
    && (skipping && skip0 != Some(skip) ==> SeenBefore(all, s, p, skip))
    && (forall t :: from <= t < p && Live(all, s, t) ==> skip0.Some? && all[t].User() <= skip0.value)
  }

  lemma ScanInvisible(all: seq<Entry>, s: nat, from: nat, p: nat, skip0: Option<UserKey>, skipping: bool, skip: UserKey)
    requires from <= p < |all| && Scanned(all, s, from, p, skip0, skipping, skip) && !Seen(all, s, p)
    ensures Scanned(all, s, from, p + 1, skip0, skipping, skip)
  {
  }

  lemma ScanDeletion(all: seq<Entry>, s: nat, from: nat, p: nat, skip0: Option<UserKey>, skipping: bool, skip: UserKey)
    requires Sorted(all) && from <= p < |all| && Scanned(all, s, from, p, skip0, skipping, skip)
    requires Seen(all, s, p) && all[p].IsDeletion()
    ensures Scanned(all, s, from, p + 1, skip0, true, all[p].User())
  {
    forall t | from <= t < p + 1 && Seen(all, s, t) ensures all[t].User() <= all[p].User() {
      UsersInOrder(all, t, p);
    }
  }

  lemma ScanHidden(all: seq<Entry>, s: nat, from: nat, p: nat, skip0: Option<UserKey>, skip: UserKey)
    requires Sorted(all) && from <= p < |all| && Scanned(all, s, from, p, skip0, true, skip)
    requires Seen(all, s, p) && all[p].User() <= skip
    ensures Scanned(all, s, from, p + 1, skip0, true, skip)
  {
    if Live(all, s, p) && skip0 != Some(skip) {
      HiddenNotLive(all, s, p, skip);
    }
  }

  lemma ScanFound(all: seq<Entry>, s: nat, from: nat, p: nat, skip0: Option<UserKey>, skipping: bool, skip: UserKey)
    requires Sorted(all) && from <= p < |all| && Scanned(all, s, from, p, skip0, skipping, skip)
    requires Seen(all, s, p) && !all[p].IsDeletion() && !(skipping && all[p].User() <= skip)
    ensures Live(all, s, p)
  {
    forall t | 0 <= t < p && Seen(all, s, t) ensures all[t].User() != all[p].User() {
    }
  }

  ghost predicate SeenBefore(all: seq<Entry>, s: nat, j: nat, k: UserKey) {
    exists t :: 0 <= t < j && Seen(all, s, t) && all[t].User() == k
  }

  lemma HiddenNotLive(all: seq<Entry>, s: nat, j: nat, skip: UserKey)
    requires Sorted(all) && SeenBefore(all, s, j, skip) && j < |all| && all[j].User() <= skip
    ensures !Live(all, s, j)
  {
    var t :| 0 <= t < j && Seen(all, s, t) && all[t].User() == skip;
    UsersInOrder(all, t, j);
  }

  function Index(pos: nat, length: nat): int {
    if pos < length then pos else -1
  }

  ghost predicate SeenBetween(all: seq<Entry>, s: nat, j: int, t: int, k: UserKey) {
    exists u :: j < u < t && Seen(all, s, u) && all[u].User() == k
  }

  /** The backward scan has passed j+1 .. from; with `kind` a value, entry `i` is its candidate. */
  ghost predicate BackScanned(all: seq<Entry>, s: nat, from: int, j: int, kind: Kind, i: int) {
    && -1 <= j <= from < |all|
    && (kind.Value? ==> j < i <= from && Seen(all, s, i) && !all[i].IsDeletion() && forall t :: j < t < i ==> !Seen(all, s, t))
    && forall t :: j < t <= from && Seen(all, s, t) && !all[t].IsDeletion() && !(kind.Value? && t == i) ==>
         SeenBetween(all, s, j, t, all[t].User())
  }

  lemma BackInvisible(all: seq<Entry>, s: nat, from: int, j: int, kind: Kind, i: int)
    requires BackScanned(all, s, from, j, kind, i) && 0 <= j && !Seen(all, s, j)
    ensures BackScanned(all, s, from, j - 1, kind, i)
  {
    forall t | j - 1 < t <= from && Seen(all, s, t) && !all[t].IsDeletion() && !(kind.Value? && t == i)
      ensures SeenBetween(all, s, j - 1, t, all[t].User())
    {
      assert SeenBetween(all, s, j, t, all[t].User());
    }
  }

  lemma BackSeen(all: seq<Entry>, s: nat, from: int, j: int, kind: Kind, i: int)
    requires Sorted(all) && BackScanned(all, s, from, j, kind, i) && 0 <= j && Seen(all, s, j)
    requires kind.Value? ==> all[j].User() >= all[i].User()
    ensures BackScanned(all, s, from, j - 1, all[j].ikey.kind, if all[j].IsDeletion() then i else j)
  {
    forall t | j < t <= from && Seen(all, s, t) && !all[t].IsDeletion() ensures SeenBetween(all, s, j - 1, t, all[t].User()) {
      if kind.Value? && t == i {
        UsersInOrder(all, j, i);
        assert j - 1 < j < t && all[j].User() == all[t].User();
      } else {
        assert SeenBetween(all, s, j, t, all[t].User());
      }
    }
  }

  lemma BackDone(all: seq<Entry>, s: nat, from: int, j: int, kind: Kind, i: int)
    requires Sorted(all) && BackScanned(all, s, from, j, kind, i)
    requires kind.Deletion? ==> j == -1
    requires kind.Value? && j >= 0 ==> all[j].User() < all[i].User()
    ensures kind.Value? ==> Live(all, s, i) && forall t :: i < t <= from ==> !Live(all, s, t)
    ensures kind.Deletion? ==> forall t :: 0 <= t <= from ==> !Live(all, s, t)
  {
    forall t | j < t <= from && !(kind.Value? && t == i) ensures !Live(all, s, t) {
      if Seen(all, s, t) && !all[t].IsDeletion() {
        assert SeenBetween(all, s, j, t, all[t].User());
      }
    }
    if kind.Value? {
      forall t | 0 <= t < i && Seen(all, s, t) ensures all[t].User() != all[i].User() {
        assert t <= j;
        UsersInOrder(all, t, j);
      }
    }
  }

  lemma NextStart(all: seq<Entry>, s: nat, i: nat, from: nat)
    requires Sorted(all) && Live(all, s, i) && from <= |all| && from <= i + 1
    requires forall t :: from <= t < i && all[t].User() < all[i].User() ==> !Seen(all, s, t)
    requires from <= i ==> forall t :: 0 <= t < from ==> all[t].User() < all[i].User()
    ensures ScanStart(all, s, from, Some(all[i].User()))
  {
    var k := all[i].User();
    forall t, j | 0 <= t < from <= j < |all| && Seen(all, s, t) && all[t].User() == all[j].User() ensures all[j].User() <= k {
      UsersInOrder(all, t, i);
    }
    forall j | from <= j && Seen(all, s, j) ensures k <= all[j].User() {
      if j >= i {
        UsersInOrder(all, i, j);
      }
    }
  }

  lemma NextLands(all: seq<Entry>, s: nat, i: nat, from: nat, p: nat)
    requires Sorted(all) && Live(all, s, i) && from <= i + 1 && p <= |all|
    requires forall t :: from <= t < p && Live(all, s, t) ==> all[t].User() <= all[i].User()
    ensures forall t :: i < t < p ==> !Live(all, s, t)
  {
    forall t | i < t < p ensures !Live(all, s, t) {
      if Live(all, s, t) {
        UsersInOrder(all, i, t);
      }
    }
  }

  /** Entries from `p` up to a live one with the same user key are not live. */
  lemma NoneBefore(all: seq<Entry>, s: nat, i: nat, p: nat)
    requires Sorted(all) && Live(all, s, i) && p <= i && forall t :: p <= t <= i ==> all[t].User() == all[i].User()
    ensures forall t :: p <= t < i ==> !Live(all, s, t)
  {
  }

  lemma HiddenBefore(all: seq<Entry>, s: nat, i: nat, pos: nat)
    requires Sorted(all) && Live(all, s, i) && pos <= |all|
    requires forall t :: (if pos < |all| then pos < t else 0 <= t) && t < |all| && all[t].User() < all[i].User() ==> !Seen(all, s, t)
    ensures forall t :: (if pos < |all| then pos < t else 0 <= t) && t < i ==> !Live(all, s, t)
  {
    forall t | (if pos < |all| then pos < t else 0 <= t) && t < i ensures !Live(all, s, t) {
      if Live(all, s, t) {
        UsersInOrder(all, t, i);
      }
    }
  }

  lemma SeekStart(all: seq<Entry>, s: nat, target: UserKey)
    requires Sorted(all)
    ensures var p := LowerBound(all, SeekKey(target, s));
            && ScanStart(all, s, p, None)
            && (forall t :: 0 <= t < p && Live(all, s, t) ==> all[t].User() < target)
            && (forall t :: p <= t < |all| ==> all[t].User() >= target)
  {
    LowerBoundSplits(all, SeekKey(target, s));
  }
}

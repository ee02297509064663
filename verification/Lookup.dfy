/** Searching one level's file list (kv/db/version_set.cpp, FindFile to SomeFileOverlapsRange). */
module Lookup {
  import opened Format

  /** First file whose largest key is at or after `key`. */
  method FindFile(files: seq<File>, key: IKey) returns (index: nat)
    requires ValidFiles(files) && InOrder(files)
    ensures index <= |files|
    ensures forall i :: 0 <= i < index ==> Lt(files[i].largest, key)
    ensures forall i :: index <= i < |files| ==> Le(key, files[i].largest)
  {
    var left, right := 0, |files|;
    while left < right
      invariant 0 <= left <= right <= |files|
      invariant forall i :: 0 <= i < left ==> Lt(files[i].largest, key)
      invariant forall i :: right <= i < |files| ==> Le(key, files[i].largest)
    {
      var mid := (left + right) / 2;
      if Lt(files[mid].largest, key) {
        forall i | 0 <= i <= mid ensures Lt(files[i].largest, key) {
          LargestInOrder(files, i, mid);
        }
        left := mid + 1;
      } else {
        forall i | mid <= i < |files| ensures Le(key, files[i].largest) {
          LargestInOrder(files, mid, i);
        }
        right := mid;
      }
    }
    index := right;
  }

  lemma LargestInOrder(files: seq<File>, i: nat, j: nat)
    requires ValidFiles(files) && InOrder(files) && i <= j < |files|
    ensures Le(files[i].largest, files[j].largest)
  {
    if i < j {
      assert files[j] in files;
      FileBounds(files[j], files[j].entries[0]);
    }
  }

  /** `user_key` is strictly after every key of `f`; null is before all keys. */
  predicate AfterFile(user_key: Option<UserKey>, f: File) {
    user_key.Some? && user_key.value > f.Hi()
  }

  /** `user_key` is strictly before every key of `f`; null is after all keys. */
  predicate BeforeFile(user_key: Option<UserKey>, f: File) {
    user_key.Some? && user_key.value < f.Lo()
  }

  predicate InRange(f: File, lo: Option<UserKey>, hi: Option<UserKey>) {
    !AfterFile(lo, f) && !BeforeFile(hi, f)
  }

  /** The binary search of the disjoint case finds an overlap exactly when the linear scan would. */
  method SomeFileOverlapsRange(disjointSorted: bool, files: seq<File>, lo: Option<UserKey>, hi: Option<UserKey>)
    returns (r: bool)
    requires ValidFiles(files)
    requires disjointSorted ==> InOrder(files)
    ensures r <==> exists f :: f in files && InRange(f, lo, hi)
  {
    if !disjointSorted {
      var i := 0;
      while i < |files|
        invariant 0 <= i <= |files|
        invariant forall j :: 0 <= j < i ==> !InRange(files[j], lo, hi)
      {
        if !AfterFile(lo, files[i]) && !BeforeFile(hi, files[i]) {
          assert files[i] in files;
          return true;
        }
        i := i + 1;
      }
      return false;
    }
    var index := 0;
    if lo.Some? {
      index := FindFile(files, IKey(lo.value, MAX_SEQUENCE, Value));
      forall i | 0 <= i < index ensures AfterFile(lo, files[i]) {
        assert files[i] in files;
        assert files[i].entries[|files[i].entries| - 1] in files[i].entries;
      }
    }
    if index >= |files| {
      return false;
    }
    assert files[index] in files;
    if BeforeFile(hi, files[index]) {
      forall i | index <= i < |files| ensures BeforeFile(hi, files[i]) {
        SmallestInOrder(files, index, i);
      }
      return false;
    }
    return true;
  }

  lemma SmallestInOrder(files: seq<File>, i: nat, j: nat)
    requires ValidFiles(files) && InOrder(files) && i <= j < |files|
    ensures files[i].Lo() <= files[j].Lo()
  {
    if i < j {
      assert files[i] in files;
      FileBounds(files[i], files[i].entries[0]);
    }
  }
}

/** Internal keys, entries and table files (kv/db/dbformat.h, kv/db/dbformat.cpp, kv/db/version_edit.h). */
module Format {

  /** A user key. The engine only ever compares user keys through the user comparator, a total
      order; a real number stands for a key's place in that order.  `UserKeys.RankOrder` shows
      that the bytewise comparator's order on byte strings embeds into this one. */
  type UserKey = real

  type Byte = b: int | 0 <= b < 256

  type Bytes = seq<Byte>

  datatype Option<+T> = None | Some(value: T)

  datatype Kind = Deletion | Value

  /** kMaxSequenceNumber: sequence numbers take 56 bits. */
  const MAX_SEQUENCE: nat := 0xFF_FFFF_FFFF_FFFF

  datatype IKey = IKey(user: UserKey, sequence: nat, kind: Kind)

  /** PackSequenceAndType: the 64-bit trailer of an encoded internal key. */
  function Tag(k: IKey): nat {
    k.sequence * 256 + if k.kind.Value? then 1 else 0
  }

  /** InternalKeyComparator::Compare(a, b) < 0: user keys upwards, then trailers downwards. */
  predicate Lt(a: IKey, b: IKey) {
    a.user < b.user || (a.user == b.user && Tag(a) > Tag(b))
  }

  predicate Le(a: IKey, b: IKey) {
    !Lt(b, a)
  }

  datatype Entry = Entry(ikey: IKey, value: Bytes) {
    function User(): UserKey { ikey.user }
    function Seq(): nat { ikey.sequence }
    predicate IsDeletion() { ikey.kind.Deletion? }
  }

  predicate Sorted(es: seq<Entry>) {
    forall i, j :: 0 <= i < j < |es| ==> Lt(es[i].ikey, es[j].ikey)
  }

  ghost function Elements(es: seq<Entry>): set<Entry> {
    set e | e in es
  }

  /** The key a read at snapshot `s` seeks to (LookupKey, kValueTypeForSeek). */
  function SeekKey(k: UserKey, s: nat): IKey {
    IKey(k, s, Value)
  }

  /** FileMetaData together with the table's contents.  BuildTable and DoCompactionWork set
      `smallest` and `largest` to the first and the last key written. */
  datatype File = File(number: nat, size: nat, smallest: IKey, largest: IKey, entries: seq<Entry>) {
    function Lo(): UserKey { smallest.user }
    function Hi(): UserKey { largest.user }
  }

  ghost predicate ValidFile(f: File) {
    && |f.entries| > 0
    && Sorted(f.entries)
    && f.smallest == f.entries[0].ikey
    && f.largest == f.entries[|f.entries| - 1].ikey
    && forall e :: e in f.entries ==> e.Seq() <= MAX_SEQUENCE
  }

  ghost predicate ValidFiles(fs: seq<File>) {
    forall f :: f in fs ==> ValidFile(f)
  }

  lemma FileBounds(f: File, e: Entry)
    requires ValidFile(f) && e in f.entries
    ensures Le(f.smallest, e.ikey) && Le(e.ikey, f.largest)
    ensures f.Lo() <= e.User() <= f.Hi()
  {
    var i :| 0 <= i < |f.entries| && f.entries[i] == e;
    assert i > 0 ==> Lt(f.entries[0].ikey, f.entries[i].ikey);
    assert i < |f.entries| - 1 ==> Lt(f.entries[i].ikey, f.entries[|f.entries| - 1].ikey);
  }

  /** What SaveTo checks of every level above 0: internal-key ranges in order and disjoint.
      Neighbours may still share a user key. */
  ghost predicate InOrder(fs: seq<File>) {
    forall i, j :: 0 <= i < j < |fs| ==> Lt(fs[i].largest, fs[j].smallest)
  }

  ghost predicate Overlap(f: File, g: File) {
    f.Lo() <= g.Hi() && g.Lo() <= f.Hi()
  }
}

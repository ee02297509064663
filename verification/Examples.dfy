/** Entries and tables for concrete versions. */
module Examples {
  import opened Format

  const LOW: UserKey := 1.0
  const MID: UserKey := 3.0
  const HIGH: UserKey := 5.0

  function Stored(k: UserKey, n: nat): Entry { Entry(IKey(k, n, Value), []) }
  function Erased(k: UserKey, n: nat): Entry { Entry(IKey(k, n, Deletion), []) }

  function Table(n: nat, es: seq<Entry>): File
    requires es != []
  {
    File(n, 1, es[0].ikey, es[|es| - 1].ikey, es)
  }

  lemma TableOfOne(n: nat, e: Entry)
    requires e.Seq() <= MAX_SEQUENCE
    ensures ValidFile(Table(n, [e]))
  {
  }

  lemma TableOfTwo(n: nat, e: Entry, d: Entry)
    requires e.Seq() <= MAX_SEQUENCE && d.Seq() <= MAX_SEQUENCE && Lt(e.ikey, d.ikey)
    ensures ValidFile(Table(n, [e, d]))
  {
  }

  lemma TableOfThree(n: nat, e: Entry, d: Entry, b: Entry)
    requires e.Seq() <= MAX_SEQUENCE && d.Seq() <= MAX_SEQUENCE && b.Seq() <= MAX_SEQUENCE
    requires Lt(e.ikey, d.ikey) && Lt(d.ikey, b.ikey)
    ensures ValidFile(Table(n, [e, d, b]))
  {
  }
}

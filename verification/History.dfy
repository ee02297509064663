/** The reference meaning of the database: the list of writes in sequence order.
    Write number n carries sequence number n, so |hist| is LastSequence. */
module History {
  import opened Format

  datatype Op = Put(key: UserKey, value: Bytes) | Delete(key: UserKey)

  /** MemTableInserter: what operation `op` adds to a memtable under sequence number `n`. */
  function EntryOf(op: Op, n: nat): Entry {
    match op
    case Put(k, v) => Entry(IKey(k, n, Value), v)
    case Delete(k) => Entry(IKey(k, n, Deletion), [])
  }

  /** The newest of the first `s` writes to `k` decides. */
  function Read(hist: seq<Op>, k: UserKey, s: nat): Option<Bytes>
    requires s <= |hist|
  {
    if s == 0 then None
    else if hist[s - 1].key == k then
      match hist[s - 1] case Put(_, v) => Some(v) case Delete(_) => None
    else Read(hist, k, s - 1)
  }

  /** The entries of writes a+1 .. b. */
  ghost function Slice(hist: seq<Op>, a: nat, b: nat): set<Entry>
    requires a <= b <= |hist|
  {
    set i | a <= i < b :: EntryOf(hist[i], i + 1)
  }

  ghost predicate Sound(S: set<Entry>, hist: seq<Op>, bound: nat)
    requires bound <= |hist|
  {
    forall e :: e in S ==> 1 <= e.Seq() <= bound && e == EntryOf(hist[e.Seq() - 1], e.Seq())
  }

  /** A write is stored under one sequence number only. */
  ghost predicate Distinct(S: set<Entry>) {
    forall e, d :: e in S && d in S && e.Seq() == d.Seq() ==> e == d
  }

  ghost predicate Visible(e: Entry, k: UserKey, s: nat) {
    e.User() == k && e.Seq() <= s
  }

  /** `e` is the newest entry for `k` that a snapshot at `s` can see. */
  ghost predicate Newest(S: set<Entry>, k: UserKey, s: nat, e: Entry) {
    && e in S && Visible(e, k, s)
    && forall d :: d in S && Visible(d, k, s) ==> d.Seq() <= e.Seq()
  }

  /** Outcome of searching `S` for `k` at `s`. */
  ghost predicate Finds(S: set<Entry>, k: UserKey, s: nat, r: Option<Entry>) {
    match r
    case Some(e) => Newest(S, k, s, e)
    case None => forall d :: d in S ==> !Visible(d, k, s)
  }

  function Answer(r: Option<Entry>): Option<Bytes> {
    if r.Some? && !r.value.IsDeletion() then Some(r.value.value) else None
  }

  /** A read of `S` at (k, s) returns `r`. */
  ghost predicate Yields(S: set<Entry>, k: UserKey, s: nat, r: Option<Bytes>) {
    forall x :: Finds(S, k, s, x) ==> Answer(x) == r
  }

  function Min(a: nat, b: nat): nat { if a <= b then a else b }

  /** Reads of `S` at every snapshot from `floor` on give what the first `bound` writes say. */
  ghost predicate Agrees(S: set<Entry>, hist: seq<Op>, bound: nat, floor: nat)
    requires bound <= |hist|
  {
    forall k, s :: floor <= s ==> Yields(S, k, s, Read(hist, k, Min(s, bound)))
  }

  /** Every search has an outcome, so `Yields` is never vacuous. */
  lemma SearchHasOutcome(S: set<Entry>, k: UserKey, s: nat) returns (r: Option<Entry>)
    ensures Finds(S, k, s, r)
  {
    if forall d :: d in S ==> !Visible(d, k, s) {
      return None;
    }
    var d :| d in S && Visible(d, k, s);
    if Newest(S, k, s, d) {
      return Some(d);
    }
    var newer :| newer in S && Visible(newer, k, s) && newer.Seq() > d.Seq();
    assert S - {d} < S;
    r := SearchHasOutcome(S - {d}, k, s);
    assert newer in S - {d};
  }

  /** Searching an upper layer and, on a miss, a lower one is searching the union,
      provided that the upper layer is newer key by key. */
  lemma LayerSearch(A: set<Entry>, B: set<Entry>, k: UserKey, s: nat, a: Option<Entry>, b: Option<Entry>)
    requires forall e, d :: e in A && d in B && e.User() == d.User() ==> e.Seq() > d.Seq()
    requires Finds(A, k, s, a)
    requires a.None? ==> Finds(B, k, s, b)
    ensures Finds(A + B, k, s, if a.Some? then a else b)
  {
    if a.Some? {
      forall d | d in A + B && Visible(d, k, s) ensures d.Seq() <= a.value.Seq() {
      }
    }
  }

  /** Appending writes never changes what an earlier snapshot reads. */
  lemma {:induction false} ReadStable(hist: seq<Op>, more: seq<Op>, k: UserKey, s: nat)
    requires s <= |hist|
    ensures Read(hist + more, k, s) == Read(hist, k, s)
  {
    if s > 0 {
      ReadStable(hist, more, k, s - 1);
    }
  }

  /** The newest write to `k` among writes a+1 .. b decides; without one, the read falls through to `a`. */
  lemma {:induction false} ReadSlice(hist: seq<Op>, k: UserKey, a: nat, b: nat) returns (r: Option<Entry>)
    requires a <= b <= |hist|
    ensures Finds(Slice(hist, a, b), k, b, r)
    ensures r.Some? ==> Answer(r) == Read(hist, k, b)
    ensures r.None? ==> Read(hist, k, b) == Read(hist, k, a)
  {
    if a == b {
      return None;
    }
    var top := EntryOf(hist[b - 1], b);
    if hist[b - 1].key == k {
      r := Some(top);
      assert top in Slice(hist, a, b);
    } else {
      r := ReadSlice(hist, k, a, b - 1);
      assert Slice(hist, a, b) == Slice(hist, a, b - 1) + {top};
    }
  }

  /** Laying writes a+1 .. b over a store that agrees with the first `a` writes gives one that
      agrees with the first `b`: memtables over tables, and flushed tables over older ones. */
  lemma ExtendAgrees(S: set<Entry>, hist: seq<Op>, a: nat, b: nat, floor: nat)
    requires a <= b <= |hist|
    requires Sound(S, hist, a) && Agrees(S, hist, a, floor)
    ensures Sound(S + Slice(hist, a, b), hist, b)
    ensures Agrees(S + Slice(hist, a, b), hist, b, floor)
  {
    var T := S + Slice(hist, a, b);
    forall k, s | floor <= s ensures Yields(T, k, s, Read(hist, k, Min(s, b))) {
      ExtendYields(S, hist, a, b, k, s);
    }
  }

  lemma ExtendYields(S: set<Entry>, hist: seq<Op>, a: nat, b: nat, k: UserKey, s: nat)
    requires a <= b <= |hist|
    requires Sound(S, hist, a) && Yields(S, k, s, Read(hist, k, Min(s, a)))
    ensures Yields(S + Slice(hist, a, b), k, s, Read(hist, k, Min(s, b)))
  {
    var low := SearchHasOutcome(S, k, s);
    if s <= a {
      SearchUnique(S, S + Slice(hist, a, b), hist, b, k, s, low);
    } else {
      var m := Min(s, b);
      var r := ReadSlice(hist, k, a, m);
      ExtendSearch(S, hist, a, b, m, k, s, low, r);
    }
  }

  lemma SliceSplit(hist: seq<Op>, a: nat, m: nat, b: nat)
    requires a <= m <= b <= |hist|
    ensures Slice(hist, a, b) == Slice(hist, a, m) + Slice(hist, m, b)
    ensures forall d :: d in Slice(hist, a, m) ==> a < d.Seq() <= m
    ensures forall d :: d in Slice(hist, m, b) ==> m < d.Seq() <= b
    ensures Sound(Slice(hist, a, b), hist, b)
  {
  }

  lemma ExtendSearch(S: set<Entry>, hist: seq<Op>, a: nat, b: nat, m: nat, k: UserKey, s: nat,
                     low: Option<Entry>, r: Option<Entry>)
    requires a <= m <= b <= |hist| && m == Min(s, b)
    requires Sound(S, hist, a)
    requires Finds(S, k, s, low) && Finds(Slice(hist, a, m), k, m, r)
    ensures Yields(S + Slice(hist, a, b), k, s, Answer(if r.Some? then r else low))
  {
    var U, W := Slice(hist, a, m), Slice(hist, a, b);
    SliceSplit(hist, a, m, b);
    assert Finds(U, k, s, r);
    LayerSearch(U, S, k, s, r, low);
    SearchUnique(U + S, S + W, hist, b, k, s, if r.Some? then r else low);
  }

  /** Two stores that show the same entries to (k, s) give the same answer. */
  lemma SearchUnique(S: set<Entry>, T: set<Entry>, hist: seq<Op>, bound: nat, k: UserKey, s: nat, r: Option<Entry>)
    requires bound <= |hist| && S <= T && Sound(T, hist, bound)
    requires forall d :: d in T && Visible(d, k, s) ==> d in S
    requires Finds(S, k, s, r)
    ensures Yields(T, k, s, Answer(r))
  {
    forall x | Finds(T, k, s, x) ensures x == r {
    }
  }
}

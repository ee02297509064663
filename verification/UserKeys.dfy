/** The default user-key order, bytewise (kv/util/comparator.cpp, kv/include/slice.h), as a sub-order of the reals. */
module UserKeys {
  import opened Format

  /** Slice::compare < 0: the first differing byte decides; a proper prefix comes first. */
  predicate Less(a: Bytes, b: Bytes) {
    b != [] && (a == [] || a[0] < b[0] || (a[0] == b[0] && Less(a[1..], b[1..])))
  }

  /** A byte string read as a fraction in base 257, the digits shifted by one so that the end of the string sorts first. */
  function Rank(s: Bytes): (r: real)
    ensures 0.0 <= r < 1.0
  {
    if s == [] then 0.0 else (s[0] as int as real + 1.0 + Rank(s[1..])) / 257.0
  }

  lemma DigitOrder(d: int, e: int, x: real, y: real)
    requires 0.0 <= x < 1.0 && 0.0 <= y < 1.0
    ensures (d as real + 1.0 + x) / 257.0 < (e as real + 1.0 + y) / 257.0 <==> d < e || (d == e && x < y)
  {
    if d < e {
      assert d as real + 1.0 <= e as real;
    } else if d > e {
      assert e as real + 1.0 <= d as real;
    }
  }

  /** Comparing byte strings is comparing their ranks. */
  lemma {:induction false} RankOrder(a: Bytes, b: Bytes)
    ensures Less(a, b) <==> Rank(a) < Rank(b)
  {
    if a != [] && b != [] {
      DigitOrder(a[0], b[0], Rank(a[1..]), Rank(b[1..]));
      if a[0] == b[0] {
        RankOrder(a[1..], b[1..]);
      }
    }
  }

  lemma {:induction false} Trichotomy(a: Bytes, b: Bytes)
    ensures Less(a, b) || a == b || Less(b, a)
  {
    if a != [] && b != [] && a[0] == b[0] {
      Trichotomy(a[1..], b[1..]);
      assert a == [a[0]] + a[1..] && b == [b[0]] + b[1..];
    }
  }

  /** Different keys have different places. */
  lemma RankInjective(a: Bytes, b: Bytes)
    ensures Rank(a) == Rank(b) <==> a == b
  {
    Trichotomy(a, b);
    RankOrder(a, b);
    RankOrder(b, a);
  }
}

/** Shortened index keys (kv/util/comparator.cpp, kv/db/dbformat.cpp). */
module Separators {
  import opened Format
  import opened UserKeys

  /** An internal key over a byte string. */
  datatype ByteKey = ByteKey(user: Bytes, sequence: nat, kind: Kind)

  /** Its place in the order the engine uses. */
  function Embed(k: ByteKey): IKey { IKey(Rank(k.user), k.sequence, k.kind) }

  lemma {:induction false} LessAt(a: Bytes, b: Bytes, i: nat)
    requires i < |a| && i < |b| && a[..i] == b[..i] && a[i] < b[i]
    ensures Less(a, b)
  {
    if i > 0 {
      assert a[0] == a[..i][0] && b[0] == b[..i][0];
      assert a[1..][..i - 1] == a[..i][1..] && b[1..][..i - 1] == b[..i][1..];
      LessAt(a[1..], b[1..], i - 1);
    }
  }

  /** At the first difference the byte goes up by one and the rest is cut off, if that stays below the limit. */
  function Shorten(start: Bytes, limit: Bytes): Bytes {
    if start == [] || limit == [] then start
    else if start[0] == limit[0] then [start[0]] + Shorten(start[1..], limit[1..])
    else if start[0] < 0xFF && start[0] + 1 < limit[0] then [start[0] + 1]
    else start
  }

  /** The first byte that can go up does, and the rest is cut off. */
  function Raise(key: Bytes): Bytes {
    if key == [] then [] else if key[0] != 0xFF then [key[0] + 1] else [key[0]] + Raise(key[1..])
  }

  /** BytewiseComparatorImpl::FindShortestSeparator: unchanged, or a string strictly between that is no longer. */
  method FindShortestSeparator(start: Bytes, limit: Bytes) returns (r: Bytes)
    ensures r == Shorten(start, limit)
    ensures r == start || (Less(start, r) && Less(r, limit) && |r| <= |start|)
  {
    var min_length := if |start| < |limit| then |start| else |limit|;
    var diff_index := 0;
    while diff_index < min_length && start[diff_index] == limit[diff_index]
      invariant diff_index <= min_length && start[..diff_index] == limit[..diff_index]
      invariant Shorten(start, limit) == start[..diff_index] + Shorten(start[diff_index..], limit[diff_index..])
    {
      ShortenStep(start, limit, diff_index);
      diff_index := diff_index + 1;
    }
    r := start;
    assert start == start[..diff_index] + start[diff_index..];
    if diff_index < min_length {
      var diff_byte: int := start[diff_index];
      if diff_byte < 0xFF && diff_byte + 1 < limit[diff_index] {
        r := start[..diff_index] + [diff_byte + 1];
        assert r[..diff_index] == start[..diff_index];
        LessAt(start, r, diff_index);
        LessAt(r, limit, diff_index);
      }
    }
  }

  lemma ShortenStep(start: Bytes, limit: Bytes, i: nat)
    requires i < |start| && i < |limit| && start[i] == limit[i]
    ensures start[..i] + Shorten(start[i..], limit[i..]) == start[..i + 1] + Shorten(start[i + 1..], limit[i + 1..])
  {
    assert start[i..][1..] == start[i + 1..] && limit[i..][1..] == limit[i + 1..];
  }

  /** BytewiseComparatorImpl::FindShortSuccessor: unchanged, or a larger string that is no longer. */
  method FindShortSuccessor(key: Bytes) returns (r: Bytes)
    ensures r == Raise(key)
    ensures r == key || (Less(key, r) && |r| <= |key|)
  {
    for i := 0 to |key|
      invariant Raise(key) == key[..i] + Raise(key[i..])
    {
      assert key[i..][1..] == key[i + 1..];
      if key[i] != 0xFF {
        r := key[..i] + [key[i] + 1];
        assert r[..i] == key[..i];
        LessAt(key, r, i);
        return;
      }
      assert key[..i + 1] == key[..i] + [key[i]];
    }
    r := key;
  }

  function Shorter(key: ByteKey, tmp: Bytes): ByteKey {
    if |tmp| < |key.user| && Less(key.user, tmp) then ByteKey(tmp, MAX_SEQUENCE, Value) else key
  }

  function SeparatorOf(start: ByteKey, limit: ByteKey): ByteKey { Shorter(start, Shorten(start.user, limit.user)) }
  function SuccessorOf(key: ByteKey): ByteKey { Shorter(key, Raise(key.user)) }

  /** InternalKeyComparator::FindShortestSeparator: the key itself, or one with a user key strictly between the two. */
  method InternalSeparator(start: ByteKey, limit: ByteKey) returns (r: ByteKey)
    ensures r == SeparatorOf(start, limit)
    ensures r == start || (Less(start.user, r.user) && Less(r.user, limit.user))
    ensures Lt(Embed(start), Embed(limit)) ==>
              Le(Embed(start), Embed(r)) && Lt(Embed(r), Embed(limit)) &&
              (r == start || Embed(start).user < Embed(r).user < Embed(limit).user)
  {
    var tmp := FindShortestSeparator(start.user, limit.user);
    r := start;
    if |tmp| < |start.user| && Less(start.user, tmp) {
      r := ByteKey(tmp, MAX_SEQUENCE, Value);
      RankOrder(start.user, tmp);
      RankOrder(tmp, limit.user);
    }
  }

  /** InternalKeyComparator::FindShortSuccessor. */
  method InternalSuccessor(key: ByteKey) returns (r: ByteKey)
    ensures r == SuccessorOf(key)
    ensures Le(Embed(key), Embed(r)) && (r == key || Less(key.user, r.user))
  {
    var tmp := FindShortSuccessor(key.user);
    r := key;
    if |tmp| < |key.user| && Less(key.user, tmp) {
      r := ByteKey(tmp, MAX_SEQUENCE, Value);
      RankOrder(key.user, tmp);
    }
  }
}

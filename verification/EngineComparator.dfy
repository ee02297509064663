/** The engine's own separator and successor (kv/db/dbformat.cpp) meet what tables require of a comparator. */
module EngineComparator {
  import opened Format
  import opened UserKeys
  import opened Separators
  import opened Tables

  lemma {:induction false} ShortenBelow(start: Bytes, limit: Bytes)
    ensures Shorten(start, limit) == start || Less(Shorten(start, limit), limit)
  {
    if start != [] && limit != [] && start[0] == limit[0] {
      ShortenBelow(start[1..], limit[1..]);
      assert start == [start[0]] + start[1..];
      assert ([start[0]] + Shorten(start[1..], limit[1..]))[1..] == Shorten(start[1..], limit[1..]);
    }
  }

  lemma SeparatorEmbeds(a: ByteKey, b: ByteKey)
    ensures Lt(Embed(a), Embed(b)) ==>
              var r := Embed(SeparatorOf(a, b));
              Le(Embed(a), r) && Lt(r, Embed(b)) && (r == Embed(a) || Embed(a).user < r.user < Embed(b).user)
  {
    var tmp := Shorten(a.user, b.user);
    ShortenBelow(a.user, b.user);
    RankOrder(a.user, tmp);
    RankOrder(tmp, b.user);
  }

  lemma SuccessorEmbeds(a: ByteKey)
    ensures Le(Embed(a), Embed(SuccessorOf(a)))
  {
    RankOrder(a.user, Raise(a.user));
  }

  ghost predicate IsEmbedded(k: IKey) { exists b :: Embed(b) == k }

  /** The byte key at a place of the order. */
  ghost function Unembed(k: IKey): (b: ByteKey)
    requires IsEmbedded(k)
    ensures Embed(b) == k
  {
    var b :| Embed(b) == k; b
  }

  lemma UnembedEmbed(b: ByteKey)
    ensures IsEmbedded(Embed(b)) && Unembed(Embed(b)) == b
  {
    var c := Unembed(Embed(b));
    RankInjective(b.user, c.user);
  }

  /** The engine's functions on the places of byte keys; elsewhere nothing is shortened. */
  ghost function EngineSeparator(a: IKey, b: IKey): IKey {
    if IsEmbedded(a) && IsEmbedded(b) then Embed(SeparatorOf(Unembed(a), Unembed(b))) else a
  }

  ghost function EngineSuccessor(a: IKey): IKey {
    if IsEmbedded(a) then Embed(SuccessorOf(Unembed(a))) else a
  }

  ghost predicate IsEngine(sep: Separator, succ: Successor) {
    && (forall a: ByteKey, b: ByteKey :: sep(Embed(a), Embed(b)) == Embed(SeparatorOf(a, b)))
    && forall a: ByteKey :: succ(Embed(a)) == Embed(SuccessorOf(a))
  }

  /** What tables require holds of them. */
  lemma EngineIsComparator() returns (sep: Separator, succ: Successor)
    ensures Comparator(sep, succ) && IsEngine(sep, succ)
  {
    sep, succ := (a: IKey, b: IKey) => EngineSeparator(a, b), (a: IKey) => EngineSuccessor(a);
    forall a, b ensures SeparatorOk(sep, a, b) {
      if IsEmbedded(a) && IsEmbedded(b) {
        SeparatorEmbeds(Unembed(a), Unembed(b));
      }
    }
    forall a ensures Le(a, succ(a)) {
      if IsEmbedded(a) {
        SuccessorEmbeds(Unembed(a));
      }
    }
    forall a: ByteKey, b: ByteKey ensures sep(Embed(a), Embed(b)) == Embed(SeparatorOf(a, b)) {
      UnembedEmbed(a);
      UnembedEmbed(b);
    }
    forall a: ByteKey ensures succ(Embed(a)) == Embed(SuccessorOf(a)) {
      UnembedEmbed(a);
    }
  }
}

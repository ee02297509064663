/** The filter block (kv/table/filter_block.cpp): one filter for every 2 KiB of data block offsets. */
module FilterBlocks {
  import opened Format
  import opened Coding
  import opened FixedArrays
  import opened Concatenation
  import opened Bloom

  /** Keys grouped by filter; the last group, still waiting, is `pending`. */
  ghost predicate Grouped(groups: seq<seq<Bytes>>, pending: seq<Bytes>, index: nat, key: Bytes) {
    if index < |groups| then key in groups[index] else index == |groups| && key in pending
  }

  /** One filter for each group; a group without keys has an empty one. */
  ghost predicate FiltersFor(policy: Policy, groups: seq<seq<Bytes>>, filters: seq<Bytes>) {
    && |filters| == |groups|
    && forall i :: 0 <= i < |groups| ==> if groups[i] == [] then filters[i] == [] else FilterOf(policy, groups[i], filters[i])
  }

  /** Where each of the strings starts when they are laid end to end. */
  function Offsets(parts: seq<Bytes>): seq<nat> {
    seq(|parts|, i requires 0 <= i < |parts| => Start(parts, i))
  }

  /** Strings laid end to end, and where each starts. */
  ghost predicate Joined(parts: seq<Bytes>, all: Bytes, starts: seq<nat>) {
    all == Flat(parts) && starts == Offsets(parts)
  }

  lemma JoinedSnoc(parts: seq<Bytes>, all: Bytes, starts: seq<nat>, part: Bytes)
    requires Joined(parts, all, starts)
    ensures Joined(parts + [part], all + part, starts + [|all|])
  {
    var more := parts + [part];
    FlatSnoc(parts, part);
    assert forall i :: 0 <= i <= |parts| ==> more[..i] == parts[..i];
    assert parts[..|parts|] == parts;
  }

  lemma FiltersSnoc(policy: Policy, groups: seq<seq<Bytes>>, filters: seq<Bytes>, group: seq<Bytes>, filter: Bytes)
    requires FiltersFor(policy, groups, filters)
    requires if group == [] then filter == [] else FilterOf(policy, group, filter)
    ensures FiltersFor(policy, groups + [group], filters + [filter])
  {
  }

  function OffsetTable(filters: seq<Bytes>): (ns: seq<nat>)
    ensures |ns| == |filters| + 1
  {
    Offsets(filters) + [|Flat(filters)|]
  }

  /** The block: the filters, the offsets of the filters, the offset of these offsets, and kFilterBaseLg. */
  function Layout(filters: seq<Bytes>): Bytes {
    Flat(filters) + FixedAll(OffsetTable(filters)) + [11]
  }

  class FilterBlockBuilder {
    const policy: Policy
    /** Flattened keys of the next filter, and where each starts. */
    var keys: Bytes
    var start: seq<nat>
    /** The filters so far, and where each starts; PutFixed32 cuts the offsets to 32 bits. */
    var result: Bytes
    var filter_offsets: seq<nat>
    ghost var groups: seq<seq<Bytes>>
    ghost var pending: seq<Bytes>
    ghost var filters: seq<Bytes>

    ghost predicate Valid()
      reads this
    {
      && Joined(pending, keys, start) && Joined(filters, result, filter_offsets)
      && FiltersFor(policy, groups, filters)
    }

    constructor (policy: Policy)
      ensures Valid() && groups == [] && pending == [] && this.policy == policy
    {
      this.policy := policy;
      keys, start, result, filter_offsets := [], [], [], [];
      groups, pending, filters := [], [], [];
    }

    /** GenerateFilter closes the waiting group. */
    method GenerateFilter()
      requires Valid()
      modifies this
      ensures Valid() && groups == old(groups) + [old(pending)] && pending == []
    {
      ghost var filter: Bytes := [];
      var result' := result;
      if |start| > 0 {
        var tmp_keys := KeyList(keys, start, pending);
        result', filter := CreateFilter(policy, tmp_keys, result);
      }
      JoinedSnoc(filters, result, filter_offsets, filter);
      FiltersSnoc(policy, groups, filters, pending, filter);
      filter_offsets := filter_offsets + [|result|];
      result, keys, start := result', [], [];
      groups, pending, filters := groups + [pending], [], filters + [filter];
    }

    /** StartBlock: from here on, keys go to the filter of this block offset. */
    method StartBlock(block_offset: nat)
      requires Valid() && |groups| <= block_offset / 2048
      modifies this
      ensures Valid() && |groups| == block_offset / 2048
      ensures if |groups| == |old(groups)| then groups == old(groups) && pending == old(pending)
              else pending == [] && groups == old(groups) + [old(pending)] + Empties(|groups| - |old(groups)| - 1)
    {
      var filter_index := block_offset / 2048;
      while filter_index > |filter_offsets|
        invariant Valid() && |old(groups)| <= |groups| <= filter_index
        invariant if |groups| == |old(groups)| then groups == old(groups) && pending == old(pending)
                  else pending == [] && groups == old(groups) + [old(pending)] + Empties(|groups| - |old(groups)| - 1)
        decreases filter_index - |groups|
      {
        GenerateFilter();
      }
    }

    method AddKey(key: Bytes)
      requires Valid()
      modifies this
      ensures Valid() && groups == old(groups) && pending == old(pending) + [key]
    {
      JoinedSnoc(pending, keys, start, key);
      start := start + [|keys|];
      keys := keys + key;
      pending := pending + [key];
    }

    /** Finish: the block of one filter per group. */
    method Finish() returns (r: Bytes, ghost made: seq<Bytes>)
      requires Valid()
      modifies this
      ensures r == Layout(made)
      ensures FiltersFor(policy, if old(pending) == [] then old(groups) else old(groups) + [old(pending)], made)
    {
      if |start| > 0 {
        GenerateFilter();
      }
      made := filters;
      r := PutOffsets(result, filter_offsets, |result|);
      r := r + [11];
    }
  }

  function Empties(n: nat): seq<seq<Bytes>> { seq(n, _ => []) }

  /** The keys out of their flattened form. */
  method KeyList(keys: Bytes, start: seq<nat>, ghost pending: seq<Bytes>) returns (tmp_keys: seq<Bytes>)
    requires Joined(pending, keys, start)
    ensures tmp_keys == pending
  {
    var ends := start + [|keys|];
    tmp_keys := [];
    WholeStart(pending);
    for i := 0 to |start|
      invariant tmp_keys == pending[..i]
    {
      FlatSlice(pending, i);
      assert ends[i + 1] == Start(pending, i + 1);
      tmp_keys := tmp_keys + [keys[ends[i]..ends[i + 1]]];
    }
  }

  method PutOffsets(data: Bytes, offsets: seq<nat>, array_offset: nat) returns (r: Bytes)
    ensures r == data + FixedAll(offsets + [array_offset])
  {
    r := data;
    for i := 0 to |offsets|
      invariant r == data + FixedAll(offsets[..i])
    {
      FixedSnoc(offsets, i);
      r := r + Fixed(offsets[i], 4);
    }
    assert offsets[..|offsets|] == offsets;
    assert (offsets + [array_offset])[..|offsets|] == offsets;
    r := r + Fixed(array_offset, 4);
  }

  // ---- Reading ----

  /** base_lg_. */
  function BaseLg(contents: Bytes): nat {
    if |contents| < 5 then 0 else contents[|contents| - 1]
  }

  /** block_offset >> base_lg_. */
  function FilterNumber(contents: Bytes, block_offset: nat): nat {
    PowerPositive(2, BaseLg(contents));
    block_offset / Power(2, BaseLg(contents))
  }

  /** The filter that FilterBlockReader finds under a number, for any contents; None if it cannot tell. */
  function FilterAt(contents: Bytes, index: nat): Option<Bytes> {
    if |contents| < 5 then None
    else
      var n := |contents|;
      var offset := DecodeFixed32(contents[n - 5..n - 1]);
      if offset > n - 5 || index >= (n - 5 - offset) / 4 then None
      else
        var start := DecodeFixed32(contents[offset + 4 * index..offset + 4 * index + 4]);
        var limit := DecodeFixed32(contents[offset + 4 * index + 4..offset + 4 * index + 8]);
        if start <= limit <= offset then Some(contents[start..limit])
        else if start == limit then Some([])
        else None
  }

  /** What the block says of a key in the data block at an offset; no filter, no objection. */
  ghost predicate MayMatch(policy: Policy, contents: Bytes, block_offset: nat, key: Bytes) {
    var filter := FilterAt(contents, FilterNumber(contents, block_offset));
    filter.Some? ==> Matches(filter.value, policy.hash(key))
  }

  /** FilterBlockReader::KeyMayMatch. */
  method KeyMayMatch(policy: Policy, contents: Bytes, block_offset: nat, key: Bytes) returns (r: bool)
    ensures r <==> MayMatch(policy, contents, block_offset, key)
  {
    var n := |contents|;
    if n < 5 {
      return true;
    }
    var last_word := DecodeFixed32(contents[n - 5..n - 1]);
    if last_word > n - 5 {
      return true;
    }
    var num := (n - 5 - last_word) / 4;
    var index := FilterNumber(contents, block_offset);
    if index < num {
      var at := last_word + 4 * index;
      var start := DecodeFixed32(contents[at..at + 4]);
      var limit := DecodeFixed32(contents[at + 4..at + 8]);
      if start <= limit && limit <= last_word {
        r := Bloom.KeyMayMatch(policy, key, contents[start..limit]);
        return;
      } else if start == limit {
        return false;
      }
    }
    return true;
  }

  /** The reader's arithmetic. */
  lemma FilterAtHolds(c: Bytes, offset: nat, n: nat, index: nat, start: nat, limit: nat)
    requires |c| == offset + 4 * n + 5 && HoldsAt(c, offset + 4 * n, offset)
    requires index < n ==> HoldsAt(c, offset + 4 * index, start) && HoldsAt(c, offset + 4 * (index + 1), limit)
    requires start <= limit <= offset
    ensures FilterAt(c, index) == if index < n then Some(c[start..limit]) else None
  {
    assert |c| - 5 == offset + 4 * n;
  }

  /** ... on a block in three parts. */
  lemma FilterAtIn(data: Bytes, table: Bytes, z: Byte, n: nat, index: nat, start: nat, limit: nat)
    requires |table| == 4 * n + 4 && HoldsAt(table, 4 * n, |data|) && start <= limit <= |data|
    requires index < n ==> HoldsAt(table, 4 * index, start) && HoldsAt(table, 4 * (index + 1), limit)
    ensures FilterAt(data + table + [z], index) == if index < n then Some(data[start..limit]) else None
  {
    var c := data + table + [z];
    HoldsInside(data, table, [z], 4 * n, |data|);
    if index < n {
      HoldsInside(data, table, [z], 4 * index, start);
      HoldsInside(data, table, [z], 4 * (index + 1), limit);
    }
    FilterAtHolds(c, |data|, n, index, start, limit);
    assert c[start..limit] == data[start..limit];
  }

  lemma TableEntry(filters: seq<Bytes>, k: nat)
    requires k <= |filters|
    ensures OffsetTable(filters)[k] == Start(filters, k) <= |Flat(filters)|
  {
    WholeStart(filters);
    FlatPrefix(filters, k);
  }

  lemma TableHolds(filters: seq<Bytes>, k: nat)
    requires |Flat(filters)| < WORD && k <= |filters|
    ensures HoldsAt(FixedAll(OffsetTable(filters)), 4 * k, Start(filters, k))
  {
    forall i | 0 <= i < |OffsetTable(filters)| ensures OffsetTable(filters)[i] < WORD {
      TableEntry(filters, i);
    }
    TableEntry(filters, k);
    FixedAllHolds(OffsetTable(filters), k);
  }

  /** What Finish lays out is read back, filter by filter, as long as the offsets fit into 32 bits. */
  lemma ReadsBack(filters: seq<Bytes>, index: nat)
    requires |Flat(filters)| < WORD
    ensures FilterAt(Layout(filters), index) == if index < |filters| then Some(filters[index]) else None
    ensures BaseLg(Layout(filters)) == 11
  {
    var n := |filters|;
    TableHolds(filters, n);
    WholeStart(filters);
    var start, limit := 0, 0;
    if index < n {
      TableHolds(filters, index);
      TableHolds(filters, index + 1);
      FlatSlice(filters, index);
      start, limit := Start(filters, index), Start(filters, index + 1);
    }
    FilterAtIn(Flat(filters), FixedAll(OffsetTable(filters)), 11, n, index, start, limit);
  }

  /** The block as a whole: a key is turned away exactly if the filter of the block offset exists and turns it away. */
  lemma LayoutMatches(policy: Policy, filters: seq<Bytes>, block_offset: nat, key: Bytes)
    requires |Flat(filters)| < WORD
    ensures MayMatch(policy, Layout(filters), block_offset, key) <==>
            (block_offset / 2048 < |filters| ==> Matches(filters[block_offset / 2048], policy.hash(key)))
  {
    assert Power(2, 11) == 2048;
    ReadsBack(filters, block_offset / 2048);
  }

  /** No false negatives: a key added while the filter of a block offset was waiting is never turned away there. */
  lemma NeverRejected(policy: Policy, groups: seq<seq<Bytes>>, filters: seq<Bytes>, block_offset: nat, key: Bytes)
    requires FiltersFor(policy, groups, filters) && |Flat(filters)| < WORD
    requires Grouped(groups, [], block_offset / 2048, key)
    ensures MayMatch(policy, Layout(filters), block_offset, key)
  {
    var i := block_offset / 2048;
    FilterOfMatches(policy, groups[i], filters[i], key);
    LayoutMatches(policy, filters, block_offset, key);
  }
}

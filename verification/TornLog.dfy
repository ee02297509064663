/** Reading back a log, whole or cut off at any byte. */
module TornLog {
  import opened Format
  import opened Coding
  import opened FixedArrays
  import opened Checksum
  import opened Log
  import opened LogReader

  /** `s` and `t` agree as far as both go. */
  ghost predicate Agree(s: Bytes, t: Bytes) {
    forall i :: 0 <= i < |s| && i < |t| ==> s[i] == t[i]
  }

  lemma RecordBytes(seal: Seal, t: Byte, payload: Bytes)
    requires |payload| <= 0xFFFF
    ensures var r := Record(seal, t, payload);
            && r[4] as int + 256 * (r[5] as int) == |payload| && r[6] == t && r[HEADER_SIZE..] == payload
            && r[6..] == [t] + payload && r[..4] == Fixed(seal(t, payload), 4)
  {
  }

  /** A whole physical record parses; a cut one is taken for the end of the file. */
  ghost predicate Recognizes(parse: Parser, buffer: Bytes, full: bool, record: Bytes, t: Byte, payload: Bytes) {
    |buffer| >= HEADER_SIZE && Agree(buffer, record) ==>
      if |buffer| >= |record| then parse(buffer, full) == Some((Piece(t, payload), |record|))
      else full || parse(buffer, full) == None
  }

  ghost predicate ReadsBack(seal: Seal, parse: Parser) {
    forall t: Byte, payload: Bytes, buffer: Bytes, full: bool | t != ZERO && |payload| <= 0xFFFF ::
      Recognizes(parse, buffer, full, Record(seal, t, payload), t, payload)
  }

  lemma ParseRecord(buffer: Bytes, checksum: bool, full: bool, t: Byte, payload: Bytes)
    requires t != ZERO && |payload| <= 0xFFFF && |buffer| >= HEADER_SIZE && Agree(buffer, Record(CrcSeal, t, payload))
    ensures if |buffer| >= HEADER_SIZE + |payload|
            then Parse(buffer, checksum, full) == Some((Piece(t, payload), HEADER_SIZE + |payload|))
            else full || Parse(buffer, checksum, full) == None
  {
    RecordBytes(CrcSeal, t, payload);
    var r := Record(CrcSeal, t, payload);
    assert buffer[4] == r[4] && buffer[5] == r[5] && buffer[6] == r[6];
    if |buffer| >= |r| {
      assert buffer[..4] == r[..4];
      assert buffer[6..|r|] == r[6..];
      assert buffer[HEADER_SIZE..|r|] == r[HEADER_SIZE..];
      FixedBack(CrcSeal(t, payload));
      ExtendConcat(0, [t], payload);
      UnmaskMask(Crc([t] + payload));
    }
  }

  /** So it is with the checksums of the format, checked or not. */
  lemma CrcReadsBack(checksum: bool)
    ensures ReadsBack(CrcSeal, CrcParser(checksum))
  {
    forall t: Byte, payload: Bytes, buffer: Bytes, full: bool | t != ZERO && |payload| <= 0xFFFF
      ensures Recognizes(CrcParser(checksum), buffer, full, Record(CrcSeal, t, payload), t, payload)
    {
      if |buffer| >= HEADER_SIZE && Agree(buffer, Record(CrcSeal, t, payload)) {
        ParseRecord(buffer, checksum, full, t, payload);
      }
    }
  }

  /** The rest of the file begins like `w`. */
  ghost predicate Follows(file: Bytes, p: nat, w: Bytes) {
    p <= |file| && Agree(file[p..], w) && |file| - p <= |w|
  }

  lemma FollowsDrop(file: Bytes, p: nat, a: Bytes, b: Bytes)
    requires Follows(file, p, a + b) && p + |a| <= |file|
    ensures Follows(file, p + |a|, b)
  {
    forall i | 0 <= i < |file[p + |a|..]| && i < |b| ensures file[p + |a|..][i] == b[i] {
      assert file[p..][|a| + i] == (a + b)[|a| + i];
    }
  }

  lemma ReadFragment(seal: Seal, file: Bytes, parse: Parser, p: Place, data: Bytes, begin: bool, rest: Bytes)
    requires ReadsBack(seal, parse)
    requires p.off <= BLOCK_SIZE && Follows(file, p.at, Fragment(seal, p.off, data, begin) + rest)
    ensures var n := FragmentLength(p.off, data);
            var next := Place(p.at + |Fragment(seal, p.off, data, begin)|, Start(p.off) + HEADER_SIZE + n);
            ReadAt(file, parse, p) ==
            if next.at <= |file| then At(Piece(TypeOf(begin, n == |data|), data[..n]), next) else AtEnd
  {
    var n := FragmentLength(p.off, data);
    var q := HeaderAt(p);
    if q.at + HEADER_SIZE <= |file| {
      var end := Least(|file|, BlockEnd(q));
      FragmentAgrees(seal, file, p, data, begin, rest, end);
      var t := TypeOf(begin, n == |data|);
      assert Recognizes(parse, file[q.at..end], BlockEnd(q) <= |file|, Record(seal, t, data[..n]), t, data[..n]);
    }
  }

  lemma FragmentAgrees(seal: Seal, file: Bytes, p: Place, data: Bytes, begin: bool, rest: Bytes, end: nat)
    requires p.off <= BLOCK_SIZE && Follows(file, p.at, Fragment(seal, p.off, data, begin) + rest)
    requires p.at + Pad(p.off) <= end <= |file|
    ensures var n := FragmentLength(p.off, data);
            Agree(file[p.at + Pad(p.off)..end], Record(seal, TypeOf(begin, n == |data|), data[..n]))
  {
    var n := FragmentLength(p.off, data);
    var q := p.at + Pad(p.off);
    var r := Record(seal, TypeOf(begin, n == |data|), data[..n]);
    forall i | 0 <= i < end - q && i < |r| ensures file[q..end][i] == r[i] {
      assert file[p.at..][Pad(p.off) + i] == (Fragment(seal, p.off, data, begin) + rest)[Pad(p.off) + i];
    }
  }

  /** The physical records a record is cut into. */
  function Pieces(off: nat, data: Bytes, begin: bool): (es: seq<Event>)
    requires off <= BLOCK_SIZE
    ensures |es| > 0
    decreases |data|, if FragmentLength(off, data) == 0 then 1 else 0
  {
    var n := FragmentLength(off, data);
    [Piece(TypeOf(begin, n == |data|), data[..n])] +
    if n == |data| then [] else Pieces(Start(off) + HEADER_SIZE + n, data[n..], false)
  }

  /** A piece that is not the last one. */
  lemma JoinFirst(e: Event, more: seq<Event>, begin: bool, j: Joiner)
    requires e.Piece? && e.kind == TypeOf(begin, false) && if begin then j == FRESH else j.fragmented
    ensures ReadOne([e] + more, j) == ReadOne(more, Joiner(true, j.scratch + e.payload))
  {
    assert ([e] + more)[1..] == more;
    assert begin ==> j.scratch + e.payload == e.payload;
  }

  lemma JoinLast(e: Event, more: seq<Event>, begin: bool, j: Joiner)
    requires e.Piece? && e.kind == TypeOf(begin, true) && if begin then j == FRESH else j.fragmented
    ensures ReadOne([e] + more, j) == Found(j.scratch + e.payload, more, 0)
  {
    assert ([e] + more)[1..] == more;
    assert begin ==> j.scratch + e.payload == e.payload;
  }

  /** Joining all of them gives the record. */
  lemma {:induction false} JoinPieces(off: nat, data: Bytes, begin: bool, j: Joiner, rest: seq<Event>)
    requires off <= BLOCK_SIZE && if begin then j == FRESH else j.fragmented
    ensures ReadOne(Pieces(off, data, begin) + rest, j) == Found(j.scratch + data, rest, 0)
    decreases Effort(off, data)
  {
    var n := FragmentLength(off, data);
    var e := Piece(TypeOf(begin, n == |data|), data[..n]);
    if n == |data| {
      assert data[..n] == data;
      JoinLast(e, rest, begin, j);
    } else {
      var next := Start(off) + HEADER_SIZE + n;
      PiecesJoin(off, data, begin, rest);
      JoinFirst(e, Pieces(next, data[n..], false) + rest, begin, j);
      JoinPieces(next, data[n..], false, Joiner(true, j.scratch + data[..n]), rest);
      Rejoin(j.scratch, data, n);
    }
  }

  /** Joining only some of them gives nothing, and no report. */
  lemma {:induction false} JoinCut(off: nat, data: Bytes, begin: bool, j: Joiner, k: nat)
    requires off <= BLOCK_SIZE && k < |Pieces(off, data, begin)| && if begin then j == FRESH else j.fragmented
    ensures ReadOne(Pieces(off, data, begin)[..k], j) == NoMore(0)
    decreases k
  {
    var n := FragmentLength(off, data);
    if k > 0 {
      var next := Start(off) + HEADER_SIZE + n;
      PiecesCut(off, data, begin, k - 1);
      JoinFirst(Piece(TypeOf(begin, false), data[..n]), Pieces(next, data[n..], false)[..k - 1], begin, j);
      JoinCut(next, data[n..], false, Joiner(true, j.scratch + data[..n]), k - 1);
    }
  }

  lemma Rejoin(scratch: Bytes, data: Bytes, n: nat)
    requires n <= |data|
    ensures scratch + data[..n] + data[n..] == scratch + data
  {
    assert data[..n] + data[n..] == data;
  }

  /** What follows a fragment is the layout of the remaining data. */
  lemma AfterFragment(seal: Seal, file: Bytes, p: Place, data: Bytes, begin: bool, rest: Bytes, next: Place) returns (tail: Bytes)
    requires p.off <= BLOCK_SIZE && Follows(file, p.at, Layout(seal, p.off, data, begin) + rest)
    requires FragmentLength(p.off, data) < |data|
    requires next == Place(p.at + |Fragment(seal, p.off, data, begin)|, Start(p.off) + HEADER_SIZE + FragmentLength(p.off, data))
    ensures tail == Layout(seal, next.off, data[FragmentLength(p.off, data)..], false)
    ensures Follows(file, p.at, Fragment(seal, p.off, data, begin) + (tail + rest))
    ensures next.at <= |file| ==> Follows(file, next.at, tail + rest)
  {
    var n := FragmentLength(p.off, data);
    var fragment := Fragment(seal, p.off, data, begin);
    tail := Layout(seal, next.off, data[n..], false);
    assert Layout(seal, p.off, data, begin) + rest == fragment + (tail + rest);
    if next.at <= |file| {
      FollowsDrop(file, p.at, fragment, tail + rest);
    }
  }

  lemma ScanFragment(seal: Seal, file: Bytes, parse: Parser, p: Place, data: Bytes, begin: bool, rest: Bytes, next: Place)
    requires ReadsBack(seal, parse)
    requires p.off <= BLOCK_SIZE && Follows(file, p.at, Fragment(seal, p.off, data, begin) + rest)
    requires next == Place(p.at + |Fragment(seal, p.off, data, begin)|, Start(p.off) + HEADER_SIZE + FragmentLength(p.off, data))
    ensures var n := FragmentLength(p.off, data);
            Scan(file, parse, p) ==
            if next.at <= |file| then [Piece(TypeOf(begin, n == |data|), data[..n])] + Scan(file, parse, next) else []
  {
    ReadFragment(seal, file, parse, p, data, begin, rest);
  }

  /** The first of several fragments and what comes after it. */
  ghost predicate FirstOf(seal: Seal, file: Bytes, p: Place, data: Bytes, begin: bool, rest: Bytes, next: Place) {
    && p.off <= BLOCK_SIZE && Follows(file, p.at, Layout(seal, p.off, data, begin) + rest)
    && FragmentLength(p.off, data) < |data|
    && next == Place(p.at + |Fragment(seal, p.off, data, begin)|, Start(p.off) + HEADER_SIZE + FragmentLength(p.off, data))
  }

  lemma ScanTail(seal: Seal, file: Bytes, parse: Parser, p: Place, data: Bytes, begin: bool, rest: Bytes, next: Place)
    requires ReadsBack(seal, parse) && FirstOf(seal, file, p, data, begin, rest, next)
    ensures Scan(file, parse, p) ==
            if next.at <= |file| then [Piece(TypeOf(begin, false), data[..FragmentLength(p.off, data)])] + Scan(file, parse, next)
            else []
  {
    var tail := AfterFragment(seal, file, p, data, begin, rest, next);
    ScanFragment(seal, file, parse, p, data, begin, tail + rest, next);
  }

  lemma TailPlace(seal: Seal, file: Bytes, p: Place, data: Bytes, begin: bool, rest: Bytes, next: Place)
    requires FirstOf(seal, file, p, data, begin, rest, next)
    ensures var left := data[FragmentLength(p.off, data)..];
            && (next.at <= |file| ==> Follows(file, next.at, Layout(seal, next.off, left, false) + rest))
            && p.at + |Layout(seal, p.off, data, begin)| == next.at + |Layout(seal, next.off, left, false)|
            && EndOffset(p.off, data) == EndOffset(next.off, left)
            && Effort(next.off, left) < Effort(p.off, data)
  {
    var tail := AfterFragment(seal, file, p, data, begin, rest, next);
    LayoutStep(seal, p.off, data, begin, []);
  }

  lemma ScanWholeStep(seal: Seal, file: Bytes, parse: Parser, p: Place, data: Bytes, begin: bool, rest: Bytes, next: Place, last: Place)
    requires ReadsBack(seal, parse) && FirstOf(seal, file, p, data, begin, rest, next) && next.at <= |file| && last.off <= BLOCK_SIZE
    requires Scan(file, parse, next) == Pieces(next.off, data[FragmentLength(p.off, data)..], false) + Scan(file, parse, last)
    ensures Scan(file, parse, p) == Pieces(p.off, data, begin) + Scan(file, parse, last)
  {
    ScanTail(seal, file, parse, p, data, begin, rest, next);
    PiecesJoin(p.off, data, begin, Scan(file, parse, last));
  }

  lemma LastPiece(off: nat, data: Bytes, begin: bool)
    requires off <= BLOCK_SIZE && FragmentLength(off, data) == |data|
    ensures Pieces(off, data, begin) == [Piece(TypeOf(begin, true), data)]
  {
    assert data[..|data|] == data;
  }

  lemma ScanOnly(seal: Seal, file: Bytes, parse: Parser, p: Place, data: Bytes, begin: bool, rest: Bytes, last: Place)
    requires ReadsBack(seal, parse) && p.off <= BLOCK_SIZE && FragmentLength(p.off, data) == |data|
    requires Follows(file, p.at, Fragment(seal, p.off, data, begin) + rest)
    requires last == Place(p.at + |Fragment(seal, p.off, data, begin)|, Start(p.off) + HEADER_SIZE + |data|) && last.at <= |file|
    ensures Scan(file, parse, p) == [Piece(TypeOf(begin, true), data)] + Scan(file, parse, last)
  {
    ScanFragment(seal, file, parse, p, data, begin, rest, last);
    assert data[..|data|] == data;
  }

  lemma ScanLast(seal: Seal, file: Bytes, parse: Parser, p: Place, data: Bytes, begin: bool, rest: Bytes, last: Place)
    requires ReadsBack(seal, parse) && p.off <= BLOCK_SIZE && FragmentLength(p.off, data) == |data|
    requires Follows(file, p.at, Layout(seal, p.off, data, begin) + rest)
    requires last == Place(p.at + |Layout(seal, p.off, data, begin)|, EndOffset(p.off, data)) && last.at <= |file|
    ensures Scan(file, parse, p) == Pieces(p.off, data, begin) + Scan(file, parse, last)
  {
    LayoutStep(seal, p.off, data, begin, []);
    LastPiece(p.off, data, begin);
    ScanOnly(seal, file, parse, p, data, begin, rest, last);
  }

  /** Scanning a record that is there in full finds all its pieces. */
  lemma {:induction false} ScanWhole(seal: Seal, file: Bytes, parse: Parser, p: Place, data: Bytes, begin: bool, rest: Bytes,
                                     last: Place)
    requires ReadsBack(seal, parse)
    requires p.off <= BLOCK_SIZE && Follows(file, p.at, Layout(seal, p.off, data, begin) + rest)
    requires last == Place(p.at + |Layout(seal, p.off, data, begin)|, EndOffset(p.off, data)) && last.at <= |file|
    ensures Scan(file, parse, p) == Pieces(p.off, data, begin) + Scan(file, parse, last)
    decreases Effort(p.off, data)
  {
    var n := FragmentLength(p.off, data);
    if n == |data| {
      ScanLast(seal, file, parse, p, data, begin, rest, last);
    } else {
      var next := Place(p.at + |Fragment(seal, p.off, data, begin)|, Start(p.off) + HEADER_SIZE + n);
      TailPlace(seal, file, p, data, begin, rest, next);
      ScanWhole(seal, file, parse, next, data[n..], false, rest, last);
      ScanWholeStep(seal, file, parse, p, data, begin, rest, next, last);
    }
  }

  /** `events` are some, but not all, of the pieces of a record. */
  ghost predicate SomeOf(events: seq<Event>, off: nat, data: Bytes, begin: bool)
    requires off <= BLOCK_SIZE
  {
    exists k: nat :: k < |Pieces(off, data, begin)| && events == Pieces(off, data, begin)[..k]
  }

  lemma ScanCutStep(seal: Seal, file: Bytes, parse: Parser, p: Place, data: Bytes, begin: bool, rest: Bytes, next: Place)
    requires ReadsBack(seal, parse) && FirstOf(seal, file, p, data, begin, rest, next)
    requires next.at <= |file| ==> SomeOf(Scan(file, parse, next), next.off, data[FragmentLength(p.off, data)..], false)
    ensures SomeOf(Scan(file, parse, p), p.off, data, begin)
  {
    var pieces := Pieces(p.off, data, begin);
    ScanTail(seal, file, parse, p, data, begin, rest, next);
    if next.at <= |file| {
      var left := data[FragmentLength(p.off, data)..];
      var k: nat :| k < |Pieces(next.off, left, false)| && Scan(file, parse, next) == Pieces(next.off, left, false)[..k];
      PiecesCut(p.off, data, begin, k);
      assert Scan(file, parse, p) == pieces[..k + 1];
    } else {
      assert Scan(file, parse, p) == pieces[..0];
    }
  }

  /** Scanning a cut one finds some of them and stops. */
  lemma {:induction false} ScanCut(seal: Seal, file: Bytes, parse: Parser, p: Place, data: Bytes, begin: bool, rest: Bytes)
    requires ReadsBack(seal, parse)
    requires p.off <= BLOCK_SIZE && Follows(file, p.at, Layout(seal, p.off, data, begin) + rest)
    requires p.at + |Layout(seal, p.off, data, begin)| > |file|
    ensures SomeOf(Scan(file, parse, p), p.off, data, begin)
    decreases Effort(p.off, data)
  {
    var n := FragmentLength(p.off, data);
    var next := Place(p.at + |Fragment(seal, p.off, data, begin)|, Start(p.off) + HEADER_SIZE + n);
    if n == |data| {
      ScanFragment(seal, file, parse, p, data, begin, rest, next);
      assert Scan(file, parse, p) == Pieces(p.off, data, begin)[..0];
    } else {
      TailPlace(seal, file, p, data, begin, rest, next);
      if next.at <= |file| {
        ScanCut(seal, file, parse, next, data[n..], false, rest);
      }
      ScanCutStep(seal, file, parse, p, data, begin, rest, next);
    }
  }

  lemma PiecesJoin(off: nat, data: Bytes, begin: bool, s: seq<Event>)
    requires off <= BLOCK_SIZE && FragmentLength(off, data) < |data|
    ensures var n := FragmentLength(off, data);
            var more := Pieces(Start(off) + HEADER_SIZE + n, data[n..], false);
            Pieces(off, data, begin) + s == [Piece(TypeOf(begin, false), data[..n])] + (more + s)
  {
  }

  lemma PiecesCut(off: nat, data: Bytes, begin: bool, k: nat)
    requires off <= BLOCK_SIZE && FragmentLength(off, data) < |data|
    ensures var n := FragmentLength(off, data);
            var more := Pieces(Start(off) + HEADER_SIZE + n, data[n..], false);
            k < |more| ==> Pieces(off, data, begin)[..k + 1] == [Piece(TypeOf(begin, false), data[..n])] + more[..k]
  {
  }

  /** How many of the records `rs` lie within the first `n` bytes of their log. */
  function Complete(seal: Seal, rs: seq<Bytes>, off: nat, n: nat): (k: nat)
    requires off <= BLOCK_SIZE
    ensures k <= |rs|
  {
    if rs == [] || |Layout(seal, off, rs[0], true)| > n then 0
    else 1 + Complete(seal, rs[1..], EndOffset(off, rs[0]), n - |Layout(seal, off, rs[0], true)|)
  }

  /** It is the longest run of records whose log fits. */
  lemma {:induction false} CompleteIsLongest(seal: Seal, rs: seq<Bytes>, off: nat, n: nat, k: nat)
    requires off <= BLOCK_SIZE && k <= |rs|
    ensures |Contents(seal, rs[..k], off)| <= n <==> k <= Complete(seal, rs, off, n)
  {
    if k > 0 {
      assert rs[..k][0] == rs[0] && rs[..k][1..] == rs[1..][..k - 1];
      var l := |Layout(seal, off, rs[0], true)|;
      if l <= n {
        CompleteIsLongest(seal, rs[1..], EndOffset(off, rs[0]), n - l, k - 1);
      }
    }
  }

  /** Reading at the start of a record: it comes out and reading goes on after it, or it is cut and reading is over. */
  lemma ReadRecordAt(seal: Seal, file: Bytes, parse: Parser, p: Place, record: Bytes, rest: Bytes, next: Place)
    requires ReadsBack(seal, parse)
    requires p.off <= BLOCK_SIZE && Follows(file, p.at, Layout(seal, p.off, record, true) + rest)
    requires next == Place(p.at + |Layout(seal, p.off, record, true)|, EndOffset(p.off, record))
    ensures ReadOne(Scan(file, parse, p), FRESH) ==
            if next.at <= |file| then Found(record, Scan(file, parse, next), 0) else NoMore(0)
  {
    if next.at <= |file| {
      ScanWhole(seal, file, parse, p, record, true, rest, next);
      JoinPieces(p.off, record, true, FRESH, Scan(file, parse, next));
      assert FRESH.scratch + record == record;
    } else {
      ScanCut(seal, file, parse, p, record, true, rest);
      var k: nat :| k < |Pieces(p.off, record, true)| && Scan(file, parse, p) == Pieces(p.off, record, true)[..k];
      JoinCut(p.off, record, true, FRESH, k);
    }
  }

  lemma ReadFirst(seal: Seal, file: Bytes, parse: Parser, p: Place, rs: seq<Bytes>, next: Place)
    requires ReadsBack(seal, parse)
    requires p.off <= BLOCK_SIZE && Follows(file, p.at, Contents(seal, rs, p.off)) && rs != []
    requires next == Place(p.at + |Layout(seal, p.off, rs[0], true)|, EndOffset(p.off, rs[0]))
    ensures ReadOne(Scan(file, parse, p), FRESH) ==
            if next.at <= |file| then Found(rs[0], Scan(file, parse, next), 0) else NoMore(0)
    ensures next.at <= |file| ==> Follows(file, next.at, Contents(seal, rs[1..], next.off))
  {
    var rest := Contents(seal, rs[1..], next.off);
    ReadRecordAt(seal, file, parse, p, rs[0], rest, next);
    if next.at <= |file| {
      FollowsDrop(file, p.at, Layout(seal, p.off, rs[0], true), rest);
    }
  }

  /** From `p` on the file reads as those of `rs` that are complete. */
  ghost predicate ReadsAs(seal: Seal, file: Bytes, parse: Parser, p: Place, rs: seq<Bytes>)
    requires p.off <= BLOCK_SIZE && p.at <= |file|
  {
    && ReadAll(Scan(file, parse, p)) == rs[..Complete(seal, rs, p.off, |file| - p.at)]
    && AllReports(Scan(file, parse, p)) == 0
  }

  lemma ReadsOn(seal: Seal, events: seq<Event>, rest: seq<Event>, rs: seq<Bytes>, off: nat, n: nat)
    requires off <= BLOCK_SIZE && rs != []
    requires var l := |Layout(seal, off, rs[0], true)|;
             if l <= n
             then && ReadOne(events, FRESH) == Found(rs[0], rest, 0)
                  && ReadAll(rest) == rs[1..][..Complete(seal, rs[1..], EndOffset(off, rs[0]), n - l)] && AllReports(rest) == 0
             else ReadOne(events, FRESH) == NoMore(0)
    ensures ReadAll(events) == rs[..Complete(seal, rs, off, n)] && AllReports(events) == 0
  {
    var l := |Layout(seal, off, rs[0], true)|;
    if l <= n {
      ReadOnward(events, rest, rs, Complete(seal, rs[1..], EndOffset(off, rs[0]), n - l));
    }
  }

  lemma ReadNothing(seal: Seal, file: Bytes, parse: Parser, p: Place)
    requires p.off <= BLOCK_SIZE && Follows(file, p.at, [])
    ensures ReadsAs(seal, file, parse, p, [])
  {
    assert Scan(file, parse, p) == [];
  }

  lemma ReadMore(seal: Seal, file: Bytes, parse: Parser, p: Place, rs: seq<Bytes>, next: Place)
    requires p.off <= BLOCK_SIZE && p.at <= |file| && rs != []
    requires next == Place(p.at + |Layout(seal, p.off, rs[0], true)|, EndOffset(p.off, rs[0]))
    requires ReadOne(Scan(file, parse, p), FRESH) ==
             if next.at <= |file| then Found(rs[0], Scan(file, parse, next), 0) else NoMore(0)
    requires next.at <= |file| ==> ReadsAs(seal, file, parse, next, rs[1..])
    ensures ReadsAs(seal, file, parse, p, rs)
  {
    ReadsOn(seal, Scan(file, parse, p), Scan(file, parse, next), rs, p.off, |file| - p.at);
  }

  lemma {:induction false} ReadContents(seal: Seal, file: Bytes, parse: Parser, p: Place, rs: seq<Bytes>)
    requires ReadsBack(seal, parse)
    requires p.off <= BLOCK_SIZE && Follows(file, p.at, Contents(seal, rs, p.off))
    ensures ReadsAs(seal, file, parse, p, rs)
    decreases |rs|
  {
    if rs == [] {
      ReadNothing(seal, file, parse, p);
    } else {
      var next := Place(p.at + |Layout(seal, p.off, rs[0], true)|, EndOffset(p.off, rs[0]));
      ReadFirst(seal, file, parse, p, rs, next);
      if next.at <= |file| {
        ReadContents(seal, file, parse, next, rs[1..]);
      }
      ReadMore(seal, file, parse, p, rs, next);
    }
  }

  lemma ReadOnward(events: seq<Event>, rest: seq<Event>, rs: seq<Bytes>, k: nat)
    requires k < |rs| && ReadOne(events, FRESH) == Found(rs[0], rest, 0)
    requires ReadAll(rest) == rs[1..][..k] && AllReports(rest) == 0
    ensures ReadAll(events) == rs[..k + 1] && AllReports(events) == 0
  {
    assert rs[..k + 1] == [rs[0]] + rs[1..][..k];
  }

  /** A log cut off at byte `n`: exactly the records that were complete, in order, and no corruption reported. */
  lemma TruncatedLog(seal: Seal, rs: seq<Bytes>, parse: Parser, n: nat)
    requires ReadsBack(seal, parse)
    requires n <= |Contents(seal, rs, 0)|
    ensures var file := Contents(seal, rs, 0)[..n];
            && ReadAll(Scan(file, parse, Place(0, 0))) == rs[..Complete(seal, rs, 0, n)]
            && AllReports(Scan(file, parse, Place(0, 0))) == 0
  {
    var file := Contents(seal, rs, 0)[..n];
    assert file[0..] == file;
    ReadContents(seal, file, parse, Place(0, 0), rs);
  }

  /** An intact log gives back everything that was written. */
  lemma LogRoundTrip(seal: Seal, rs: seq<Bytes>, parse: Parser)
    requires ReadsBack(seal, parse)
    ensures ReadAll(Scan(Contents(seal, rs, 0), parse, Place(0, 0))) == rs && AllReports(Scan(Contents(seal, rs, 0), parse, Place(0, 0))) == 0
  {
    var n := |Contents(seal, rs, 0)|;
    assert Contents(seal, rs, 0)[..n] == Contents(seal, rs, 0);
    TruncatedLog(seal, rs, parse, n);
    assert rs[..|rs|] == rs;
    CompleteIsLongest(seal, rs, 0, n, |rs|);
  }

  lemma ContentsStep(seal: Seal, rs: seq<Bytes>, i: nat, off: nat, before: Bytes)
    requires i < |rs| && off <= BLOCK_SIZE
    ensures before + Contents(seal, rs[i..], off) ==
            before + Layout(seal, off, rs[i], true) + Contents(seal, rs[i + 1..], EndOffset(off, rs[i]))
  {
    assert rs[i..][0] == rs[i] && rs[i..][1..] == rs[i + 1..];
  }

  method WriteAll(seal: Seal, rs: seq<Bytes>) returns (file: Bytes)
    ensures file == Contents(seal, rs, 0)
  {
    var writer := new Writer(seal);
    for i := 0 to |rs|
      invariant writer.Valid() && fresh(writer) && writer.seal == seal
      invariant Contents(seal, rs, 0) == writer.dest + Contents(seal, rs[i..], writer.block_offset)
    {
      ContentsStep(seal, rs, i, writer.block_offset, writer.dest);
      writer.AddRecord(rs[i]);
    }
    file := writer.dest;
  }

  /** Writing the records, losing the file from byte `cut` on, and reading what is left, with checksums on or off. */
  method WriteCutRead(rs: seq<Bytes>, checksum: bool, cut: nat) returns (records: seq<Bytes>, reports: nat)
    ensures cut >= |Contents(CrcSeal, rs, 0)| ==> records == rs
    ensures cut <= |Contents(CrcSeal, rs, 0)| ==> records == rs[..Complete(CrcSeal, rs, 0, cut)]
    ensures reports == 0
  {
    var whole := WriteAll(CrcSeal, rs);
    var file := if cut < |whole| then whole[..cut] else whole;
    records, reports := ReadFile(file, CrcParser(checksum));
    CrcReadsBack(checksum);
    LogRoundTrip(CrcSeal, rs, CrcParser(checksum));
    if cut <= |whole| {
      assert file == whole[..cut];
      TruncatedLog(CrcSeal, rs, CrcParser(checksum), cut);
    }
  }

  method ReadFile(file: Bytes, parse: Parser) returns (records: seq<Bytes>, reports: nat)
    ensures records == ReadAll(Scan(file, parse, Place(0, 0))) && reports == AllReports(Scan(file, parse, Place(0, 0)))
  {
    var reader := new Reader(file, parse);
    records := reader.ReadRecords();
    reports := reader.reports;
  }
}

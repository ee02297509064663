/** The log file format (kv/db/log_format.h, kv/db/log_writer.cpp, kv/db/log_reader.cpp): records cut into
    fragments that never cross a 32 KiB block, and a reader that stops cleanly wherever the file is cut off. */
module Log {
  import opened Format
  import opened Coding
  import opened Checksum

  const BLOCK_SIZE: nat := 32768
  const HEADER_SIZE: nat := 7

  const ZERO: Byte := 0
  const FULL: Byte := 1
  const FIRST: Byte := 2
  const MIDDLE: Byte := 3
  const LAST: Byte := 4
  /** kEof and kBadRecord extend the type byte's range. */
  const EOF: Byte := 5
  const BAD: Byte := 6

  /** What EmitPhysicalRecord stores as the checksum of a type and a payload. */
  type Seal = (Byte, Bytes) -> Word

  function CrcSeal(t: Byte, payload: Bytes): Word { Mask(Extend(Crc([t]), payload)) }

  // ---- Layout ----

  function Zeros(n: nat): (bs: Bytes)
    ensures |bs| == n
  {
    if n == 0 then [] else [0] + Zeros(n - 1)
  }

  /** EmitPhysicalRecord: checksum of type and payload, length, type, payload. */
  function Record(seal: Seal, t: Byte, payload: Bytes): (bs: Bytes)
    requires |payload| <= 0xFFFF
    ensures |bs| == HEADER_SIZE + |payload|
  {
    Fixed(seal(t, payload), 4) + [|payload| % 256, |payload| / 256, t] + payload
  }

  function Pad(off: nat): nat
    requires off <= BLOCK_SIZE
  {
    if BLOCK_SIZE - off < HEADER_SIZE then BLOCK_SIZE - off else 0
  }

  /** Where in its block the next header goes. */
  function Start(off: nat): (s: nat)
    requires off <= BLOCK_SIZE
    ensures s + HEADER_SIZE <= BLOCK_SIZE
  {
    if BLOCK_SIZE - off < HEADER_SIZE then 0 else off
  }

  function FragmentLength(off: nat, data: Bytes): (n: nat)
    requires off <= BLOCK_SIZE
    ensures n <= |data| && Start(off) + HEADER_SIZE + n <= BLOCK_SIZE
  {
    var avail := BLOCK_SIZE - Start(off) - HEADER_SIZE;
    if |data| < avail then |data| else avail
  }

  function TypeOf(begin: bool, end: bool): Byte {
    if begin && end then FULL else if begin then FIRST else if end then LAST else MIDDLE
  }

  /** The trailer, if a header does not fit any more, and one fragment. */
  function Fragment(seal: Seal, off: nat, data: Bytes, begin: bool): (bs: Bytes)
    requires off <= BLOCK_SIZE
    ensures |bs| == Pad(off) + HEADER_SIZE + FragmentLength(off, data)
  {
    var n := FragmentLength(off, data);
    Zeros(Pad(off)) + Record(seal, TypeOf(begin, n == |data|), data[..n])
  }

  /** What a record looks like on disk when `off` bytes of the current block are taken. */
  function Layout(seal: Seal, off: nat, data: Bytes, begin: bool): Bytes
    requires off <= BLOCK_SIZE
    decreases |data|, if FragmentLength(off, data) == 0 then 1 else 0
  {
    var n := FragmentLength(off, data);
    if n == |data| then Fragment(seal, off, data, begin)
    else Fragment(seal, off, data, begin) + Layout(seal, Start(off) + HEADER_SIZE + n, data[n..], false)
  }

  function EndOffset(off: nat, data: Bytes): (r: nat)
    requires off <= BLOCK_SIZE
    ensures r <= BLOCK_SIZE
    decreases |data|, if FragmentLength(off, data) == 0 then 1 else 0
  {
    var n := FragmentLength(off, data);
    if n == |data| then Start(off) + HEADER_SIZE + n else EndOffset(Start(off) + HEADER_SIZE + n, data[n..])
  }

  /** A log file holding the records `rs`. */
  function Contents(seal: Seal, rs: seq<Bytes>, off: nat): Bytes
    requires off <= BLOCK_SIZE
  {
    if rs == [] then [] else Layout(seal, off, rs[0], true) + Contents(seal, rs[1..], EndOffset(off, rs[0]))
  }

  /** log::Writer. */
  class Writer {
    const seal: Seal
    var dest: Bytes
    var block_offset: nat

    ghost predicate Valid() reads this { block_offset <= BLOCK_SIZE }

    /** Start a new file. */
    constructor (seal: Seal)
      ensures Valid() && dest == [] && block_offset == 0 && this.seal == seal
    {
      this.seal := seal;
      dest := [];
      block_offset := 0;
    }

    method EmitPhysicalRecord(t: Byte, payload: Bytes)
      requires block_offset + HEADER_SIZE + |payload| <= BLOCK_SIZE
      modifies this
      ensures dest == old(dest) + Record(seal, t, payload) && block_offset == old(block_offset) + HEADER_SIZE + |payload|
    {
      var crc := seal(t, payload);
      var header := Fixed(crc, 4) + [|payload| % 256, |payload| / 256, t];
      dest := dest + header;
      dest := dest + payload;
      block_offset := block_offset + HEADER_SIZE + |payload|;
    }

    /** Switch to a new block if a header does not fit. */
    method FillTrailer()
      requires Valid()
      modifies this
      ensures dest == old(dest) + Zeros(Pad(old(block_offset))) && block_offset == Start(old(block_offset))
    {
      var leftover := BLOCK_SIZE - block_offset;
      if leftover < HEADER_SIZE {
        dest := dest + Zeros(leftover);
        block_offset := 0;
      }
    }

    /** One turn of AddRecord's loop: fill the trailer if need be, then emit what fits. */
    method EmitFragment(left: Bytes, begin: bool) returns (n: nat)
      requires Valid()
      modifies this
      ensures n == FragmentLength(old(block_offset), left)
      ensures dest == old(dest) + Fragment(seal, old(block_offset), left, begin)
      ensures block_offset == Start(old(block_offset)) + HEADER_SIZE + n
    {
      FillTrailer();
      var avail := BLOCK_SIZE - block_offset - HEADER_SIZE;
      n := if |left| < avail then |left| else avail;
      EmitPhysicalRecord(TypeOf(begin, |left| == n), left[..n]);
    }

    /** What is left to lay out after a turn. */
    method EmitNext(left: Bytes, begin: bool) returns (rest: Bytes)
      requires Valid()
      modifies this
      ensures Valid()
      ensures if rest == [] then dest == old(dest) + Layout(seal, old(block_offset), left, begin)
              else dest + Layout(seal, block_offset, rest, false) == old(dest) + Layout(seal, old(block_offset), left, begin)
      ensures EndOffset(old(block_offset), left) == if rest == [] then block_offset else EndOffset(block_offset, rest)
      ensures Effort(block_offset, rest) < Effort(old(block_offset), left) || rest == []
    {
      ghost var was, off := dest, block_offset;
      var n := EmitFragment(left, begin);
      rest := left[n..];
      LayoutStep(seal, off, left, begin, was);
    }

    /** One record, in as many fragments as it takes; at least one. */
    method AddRecord(data: Bytes)
      requires Valid()
      modifies this
      ensures Valid()
      ensures dest == old(dest) + Layout(seal, old(block_offset), data, true)
      ensures block_offset == EndOffset(old(block_offset), data)
    {
      var left := EmitNext(data, true);
      while left != []
        invariant Valid()
        invariant if left == [] then dest == old(dest) + Layout(seal, old(block_offset), data, true)
                  else dest + Layout(seal, block_offset, left, false) == old(dest) + Layout(seal, old(block_offset), data, true)
        invariant EndOffset(old(block_offset), data) == if left == [] then block_offset else EndOffset(block_offset, left)
        decreases if left == [] then 0 else 1 + Effort(block_offset, left)
      {
        left := EmitNext(left, false);
      }
    }
  }

  /** A header without payload makes no progress in the data, but the next fragment then starts a block. */
  function Effort(off: nat, data: Bytes): nat
    requires off <= BLOCK_SIZE
  {
    2 * |data| + if FragmentLength(off, data) == 0 then 1 else 0
  }

  lemma LayoutStep(seal: Seal, off: nat, left: Bytes, begin: bool, was: Bytes)
    requires off <= BLOCK_SIZE
    ensures var n := FragmentLength(off, left);
            var next := Start(off) + HEADER_SIZE + n;
            && (n == |left| ==> Layout(seal, off, left, begin) == Fragment(seal, off, left, begin) && EndOffset(off, left) == next)
            && (n < |left| ==>
                  && was + Layout(seal, off, left, begin) == was + Fragment(seal, off, left, begin) + Layout(seal, next, left[n..], false)
                  && EndOffset(off, left) == EndOffset(next, left[n..]) && Effort(next, left[n..]) < Effort(off, left))
  {
  }

  // ---- Reading ----

  /** What ReadPhysicalRecord makes of a piece of the file. */
  datatype Event = Piece(kind: Byte, payload: Bytes) | Broken(reports: nat)

  /** A position in the file and how much of its block lies before it. */
  datatype Place = Place(at: nat, off: nat)

  datatype Physical = AtEnd | At(event: Event, next: Place)

  /** The next header starts here: trailers are skipped. */
  function HeaderAt(p: Place): (q: Place)
    requires p.off <= BLOCK_SIZE
    ensures q == Place(p.at + Pad(p.off), Start(p.off))
  {
    if BLOCK_SIZE - p.off < HEADER_SIZE then Place(p.at + (BLOCK_SIZE - p.off), 0) else p
  }

  function BlockEnd(p: Place): nat
    requires p.off <= BLOCK_SIZE
  {
    p.at + (BLOCK_SIZE - p.off)
  }

  function Least(a: nat, b: nat): nat { if a <= b then a else b }

  function Advance(p: Place, n: nat): Place { Place(p.at + n, p.off + n) }

  /** The physical record at the start of `buffer`, the unread part of a block, and its size; `full` unless the file
      ends in the block. */
  function Parse(buffer: Bytes, checksum: bool, full: bool): (r: Option<(Event, nat)>)
    requires |buffer| >= HEADER_SIZE
    ensures r.Some? ==> 0 < r.value.1 <= |buffer|
  {
    var length := buffer[4] as int + 256 * (buffer[5] as int);
    var kind := buffer[6];
    if HEADER_SIZE + length > |buffer| then
      if full then Some((Broken(1), |buffer|)) else None
    else if kind == ZERO && length == 0 then Some((Broken(0), |buffer|))
    else if checksum && Unmask(DecodeFixed32(buffer[..4])) != Crc(buffer[6..HEADER_SIZE + length]) then
      Some((Broken(1), |buffer|))
    else Some((Piece(kind, buffer[HEADER_SIZE..HEADER_SIZE + length]), HEADER_SIZE + length))
  }

  /** How the buffer is parsed; the layers above need only that a parsed record lies within the buffer. */
  type Parser = p: (Bytes, bool) -> Option<(Event, nat)> | Bounded(p) witness (_, _) => None

  ghost predicate Bounded(p: (Bytes, bool) -> Option<(Event, nat)>) {
    forall b, full :: p(b, full).Some? ==> 0 < p(b, full).value.1 <= |b|
  }

  function CrcParser(checksum: bool): Parser {
    (b: Bytes, full: bool) => if |b| < HEADER_SIZE then None else Parse(b, checksum, full)
  }

  /** The physical record at or after `p`. */
  function ReadAt(file: Bytes, parse: Parser, p: Place): (r: Physical)
    requires p.off <= BLOCK_SIZE
    ensures r.At? ==> p.at < r.next.at <= |file| && r.next.off <= BLOCK_SIZE
  {
    var q := HeaderAt(p);
    if q.at + HEADER_SIZE > |file| then AtEnd
    else
      match parse(file[q.at..Least(|file|, BlockEnd(q))], BlockEnd(q) <= |file|)
      case None => AtEnd
      case Some((event, n)) => At(event, Advance(q, n))
  }

  /** Everything ReadPhysicalRecord will make of the file from `p` on. */
  function Scan(file: Bytes, parse: Parser, p: Place): seq<Event>
    requires p.off <= BLOCK_SIZE
    decreases |file| - p.at
  {
    match ReadAt(file, parse, p)
    case AtEnd => []
    case At(event, next) => [event] + Scan(file, parse, next)
  }

  /** in_fragmented_record and scratch. */
  datatype Joiner = Joiner(fragmented: bool, scratch: Bytes)

  const FRESH: Joiner := Joiner(false, [])

  /** Either a result for the caller or a new state; and the number of corruptions reported. */
  datatype Verdict = Done(record: Option<Bytes>, reports: nat) | Go(state: Joiner, reports: nat)

  /** The switch of ReadRecord. */
  function Join(j: Joiner, kind: Byte, payload: Bytes): Verdict {
    var torn := if j.fragmented && j.scratch != [] then 1 else 0;
    if kind == FULL then Done(Some(payload), torn)
    else if kind == FIRST then Go(Joiner(true, payload), torn)
    else if kind == MIDDLE then
      if !j.fragmented then Go(j, 1) else Go(Joiner(true, j.scratch + payload), 0)
    else if kind == LAST then
      if !j.fragmented then Go(j, 1) else Done(Some(j.scratch + payload), 0)
    else if kind == EOF then Done(None, 0)
    else if kind == BAD then
      if j.fragmented then Go(FRESH, 1) else Go(j, 0)
    else Go(FRESH, 1)
  }

  /** What ReadPhysicalRecord returns for an event. */
  function TypeReturned(e: Event): Byte { if e.Piece? then e.kind else BAD }
  function Payload(e: Event): Bytes { if e.Piece? then e.payload else [] }
  function Reports(e: Event): nat { if e.Broken? then e.reports else 0 }

  function Judged(j: Joiner, e: Event): Verdict { Join(j, TypeReturned(e), Payload(e)) }

  /** Outcome of ReadRecord: a record and what is left after it, or the end; and the number of corruptions reported. */
  datatype Logical = Found(record: Bytes, rest: seq<Event>, reports: nat) | NoMore(reports: nat)

  function Result(record: Option<Bytes>, rest: seq<Event>, n: nat): Logical {
    if record.Some? then Found(record.value, rest, n) else NoMore(n)
  }

  function Add(r: Logical, n: nat): Logical { r.(reports := r.reports + n) }

  function ReadOne(events: seq<Event>, j: Joiner): (r: Logical)
    ensures r.Found? ==> |r.rest| < |events|
  {
    if events == [] then NoMore(0)
    else
      var e := events[0];
      match Judged(j, e)
      case Done(record, n) =>
        Result(record, events[1..], n + Reports(e))
      case Go(j', n) => Add(ReadOne(events[1..], j'), n + Reports(e))
  }

  /** All records, as RecoverLogFile collects them. */
  function ReadAll(events: seq<Event>): seq<Bytes>
    decreases |events|
  {
    match ReadOne(events, FRESH)
    case NoMore(_) => []
    case Found(record, rest, _) => [record] + ReadAll(rest)
  }

  function AllReports(events: seq<Event>): nat
    decreases |events|
  {
    match ReadOne(events, FRESH)
    case NoMore(n) => n
    case Found(_, rest, n) => n + AllReports(rest)
  }
}

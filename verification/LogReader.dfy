/** log::Reader refines a scan of the whole file (kv/db/log_reader.cpp). */
module LogReader {
  import opened Format
  import opened Coding
  import opened Log

  lemma ScanStep(file: Bytes, parse: Parser, p: Place)
    requires p.off <= BLOCK_SIZE
    ensures var r, events := ReadAt(file, parse, p), Scan(file, parse, p);
            if r.AtEnd? then events == []
            else events != [] && events[0] == r.event && events[1..] == Scan(file, parse, r.next)
  {
  }

  class Reader {
    const file: Bytes
    const parse: Parser
    /** How much of the file has been read. */
    var offset: nat
    var buffer: Bytes
    var eof: bool
    /** Calls of the reporter so far. */
    var reports: nat
    /** Where the block last read from would end. */
    ghost var limit: nat

    /** The buffer is the unread end of what was last read, within one block; a short read means the end of the file. */
    ghost predicate Valid()
      reads this
    {
      && |buffer| <= offset <= |file| && (forall i :: 0 <= i < |buffer| ==> buffer[i] == file[offset - |buffer| + i])
      && offset <= limit <= offset - |buffer| + BLOCK_SIZE
      && (if eof then offset == |file| && offset < limit
          else offset == limit || (buffer == [] && limit == offset + BLOCK_SIZE))
    }

    ghost function Position(): Place
      requires Valid()
      reads this
    {
      Place(offset - |buffer|, BLOCK_SIZE - (limit - (offset - |buffer|)))
    }

    /** What is still to come. */
    ghost function Left(): seq<Event>
      requires Valid()
      reads this
    {
      Scan(file, parse, Position())
    }

    constructor (file: Bytes, parse: Parser)
      ensures Valid() && Position() == Place(0, 0)
      ensures this.file == file && this.parse == parse && reports == 0
    {
      this.file, this.parse := file, parse;
      offset, buffer, eof, reports := 0, [], false, 0;
      limit := BLOCK_SIZE;
    }

    /** SequentialFile::Read of a block: short only at the end of the file. */
    method ReadBlock()
      requires Valid() && !eof
      modifies this
      ensures Valid() && reports == old(reports)
      ensures Position() == Place(old(offset), 0)
      ensures eof || |buffer| == BLOCK_SIZE
    {
      var n := Least(BLOCK_SIZE, |file| - offset);
      buffer := file[offset..offset + n];
      limit := offset + BLOCK_SIZE;
      offset := offset + n;
      eof := n < BLOCK_SIZE;
    }

    /** Have a header in the buffer, or be at the end. */
    method Fill() returns (ok: bool)
      requires Valid()
      modifies this
      ensures Valid() && reports == old(reports)
      ensures ok <==> HeaderAt(old(Position())).at + HEADER_SIZE <= |file|
      ensures if ok then |buffer| >= HEADER_SIZE && Position() == HeaderAt(old(Position())) else buffer == []
    {
      while |buffer| < HEADER_SIZE
        invariant Valid() && reports == old(reports)
        invariant Position() == old(Position()) || (Position() == HeaderAt(old(Position())) && (eof || |buffer| >= HEADER_SIZE))
        decreases !eof, |buffer| < HEADER_SIZE
      {
        if !eof {
          ReadBlock();
        } else {
          buffer := [];
          return false;
        }
      }
      ok := true;
    }

    /** The buffer is all of the block, or of the file, from the position on. */
    lemma BufferIsRest()
      requires Valid() && |buffer| >= HEADER_SIZE
      ensures buffer == file[Position().at..Least(|file|, BlockEnd(Position()))] && eof == (|file| < BlockEnd(Position()))
    {
    }

    /** Consume the record at the start of the buffer. */
    method TakeRecord() returns (t: Byte, fragment: Bytes)
      requires Valid() && |buffer| >= HEADER_SIZE
      modifies this
      ensures Valid()
      ensures match parse(old(buffer), !old(eof))
              case None => t == EOF && fragment == [] && reports == old(reports) && buffer == []
              case Some((event, n)) => && t == TypeReturned(event) && fragment == Payload(event)
                                       && reports == old(reports) + Reports(event) && Position() == Advance(old(Position()), n)
    {
      var parsed := parse(buffer, !eof);
      if parsed.None? {
        buffer := [];
        return EOF, [];
      }
      var (event, n) := parsed.value;
      buffer := buffer[n..];
      reports := reports + Reports(event);
      return TypeReturned(event), Payload(event);
    }

    method ReadPhysicalRecord() returns (t: Byte, fragment: Bytes)
      requires Valid()
      modifies this
      ensures Valid()
      ensures match ReadAt(file, parse, old(Position()))
              case AtEnd => t == EOF && fragment == [] && reports == old(reports) && buffer == []
              case At(event, next) => && t == TypeReturned(event) && fragment == Payload(event)
                                      && reports == old(reports) + Reports(event) && Position() == next
    {
      var ok := Fill();
      if !ok {
        return EOF, [];
      }
      BufferIsRest();
      t, fragment := TakeRecord();
    }

    method ReadAndJoin(j: Joiner) returns (v: Verdict)
      requires Valid()
      modifies this
      ensures Valid()
      ensures match ReadAt(file, parse, old(Position()))
              case AtEnd => v == Done(None, 0) && reports == old(reports)
              case At(event, next) => && v == Join(j, TypeReturned(event), Payload(event)) && Position() == next
                                      && reports == old(reports) + v.reports + Reports(event)
    {
      var t, fragment := ReadPhysicalRecord();
      v := Join(j, t, fragment);
      reports := reports + v.reports;
    }

    /** One turn of ReadRecord's loop. */
    method Turn(j: Joiner) returns (v: Verdict)
      requires Valid()
      modifies this
      ensures Valid()
      ensures reports >= old(reports)
      ensures v.Done? ==> ReadOne(old(Left()), j) == Result(v.record, Left(), reports - old(reports))
      ensures v.Go? ==> |Left()| < |old(Left())|
      ensures v.Go? ==> ReadOne(old(Left()), j) == Add(ReadOne(Left(), v.state), reports - old(reports))
    {
      ScanStep(file, parse, Position());
      v := ReadAndJoin(j);
    }

    method ReadRecord() returns (record: Option<Bytes>)
      requires Valid()
      modifies this
      ensures Valid()
      ensures match ReadOne(old(Left()), FRESH)
              case Found(bytes, rest, n) => record == Some(bytes) && Left() == rest && reports == old(reports) + n
              case NoMore(n) => record == None && reports == old(reports) + n
    {
      var j := FRESH;
      ghost var goal := Add(ReadOne(Left(), FRESH), reports);
      while true
        invariant Valid()
        invariant goal == Add(ReadOne(Left(), j), reports)
        decreases |Left()|
      {
        var v := Turn(j);
        if v.Done? {
          return v.record;
        }
        j := v.state;
      }
    }

    /** The loop of RecoverLogFile and of VersionSet::Recover over a log. */
    method ReadRecords() returns (records: seq<Bytes>)
      requires Valid()
      modifies this
      ensures Valid()
      ensures records == ReadAll(old(Left()))
      ensures reports == old(reports) + AllReports(old(Left()))
    {
      records := [];
      ghost var left := Left();
      ghost var all, total := ReadAll(left), reports + AllReports(left);
      while true
        invariant Valid() && left == Left()
        invariant all == records + ReadAll(left) && total == reports + AllReports(left)
        decreases |left|
      {
        var record := ReadRecord();
        if record.None? {
          return;
        }
        records := records + [record.value];
        left := Left();
      }
    }
  }
}

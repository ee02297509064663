/** The database machine keeps its logs as lists of batches and its manifest as a list of edits; here are the bytes
    (kv/db/db_impl.cpp RecoverLogFile, kv/db/version_set.cpp Recover, over kv/db/log_reader.cpp, kv/db/write_batch.cpp
    and kv/db/version_edit.cpp). */
module DiskBytes {
  import opened Format
  import opened Coding
  import opened UserKeys
  import History
  import Wal
  import WriteBatches
  import opened Checksum
  import opened Log
  import opened LogReader
  import opened TornLog
  import ManifestRecords

  /** A group's record: its first sequence number and its updates, over byte strings. */
  datatype LogRecord = LogRecord(first: nat, updates: seq<WriteBatches.Update>)

  /** The operation the machine sees, with the key's place in the order. */
  function OpOf(u: WriteBatches.Update): History.Op {
    match u
    case Put(key, value) => History.Put(Rank(key), value)
    case Delete(key) => History.Delete(Rank(key))
  }

  function BatchOf(r: LogRecord): Wal.Batch {
    Wal.Batch(r.first, seq(|r.updates|, i requires 0 <= i < |r.updates| => OpOf(r.updates[i])))
  }

  function Batches(rs: seq<LogRecord>): seq<Wal.Batch> {
    seq(|rs|, i requires 0 <= i < |rs| => BatchOf(rs[i]))
  }

  function Reps(rs: seq<LogRecord>): seq<Bytes> {
    seq(|rs|, i requires 0 <= i < |rs| => WriteBatches.Rep(rs[i].first, rs[i].updates))
  }

  /** RecoverLogFile on one record. */
  function Decode(rep: Bytes): Option<LogRecord> {
    if |rep| < WriteBatches.HEADER then None
    else
      match WriteBatches.Replay(rep)
      case Ok(us) => Some(LogRecord(Unfix(rep[..8]), us))
      case Corruption => None
  }

  ghost predicate RecordOk(r: LogRecord) {
    r.first < LONG && |r.updates| < WORD && forall u :: u in r.updates ==> WriteBatches.Fits(u)
  }

  lemma DecodeRecord(r: LogRecord)
    requires RecordOk(r)
    ensures Decode(WriteBatches.Rep(r.first, r.updates)) == Some(r)
  {
    WriteBatches.ReplayRep(r.first, r.updates);
    WriteBatches.RepParts(r.first, r.updates);
    FixedRoundTrip(r.first, 8);
    assert Power(256, 8) == LONG;
  }

  /** What a file of records says, cut off at byte `n`. */
  ghost function Survivors(records: seq<Bytes>, checksum: bool, n: nat): seq<Bytes>
    requires n <= |Contents(CrcSeal, records, 0)|
  {
    ReadAll(Scan(Contents(CrcSeal, records, 0)[..n], CrcParser(checksum), Place(0, 0)))
  }

  lemma SurvivorsArePrefix(records: seq<Bytes>, checksum: bool, n: nat)
    requires n <= |Contents(CrcSeal, records, 0)|
    ensures Survivors(records, checksum, n) == records[..Complete(CrcSeal, records, 0, n)]
  {
    CrcReadsBack(checksum);
    TruncatedLog(CrcSeal, records, CrcParser(checksum), n);
  }

  /** A log whose records form a chain of writes, cut off at any byte, decodes to the records that were complete; they
      are a chain of the first of these writes, and replaying them inserts exactly those. */
  lemma CutLogIsChain(rs: seq<LogRecord>, a: nat, hist: seq<History.Op>, checksum: bool, n: nat) returns (m: nat)
    requires (forall r :: r in rs ==> RecordOk(r)) && Wal.Chain(Batches(rs), a, hist)
    requires n <= |Contents(CrcSeal, Reps(rs), 0)|
    ensures var read := Survivors(Reps(rs), checksum, n);
            && |read| <= |rs| && (forall i :: 0 <= i < |read| ==> Decode(read[i]) == Some(rs[i]))
            && a <= m <= |hist| && Wal.Chain(Batches(rs)[..|read|], a, hist[..m])
            && Wal.Replay(Batches(rs)[..|read|]) == History.Slice(hist[..m], a, m)
  {
    SurvivorsArePrefix(Reps(rs), checksum, n);
    var k := Complete(CrcSeal, Reps(rs), 0, n);
    forall i | 0 <= i < k ensures Decode(Reps(rs)[i]) == Some(rs[i]) {
      assert rs[i] in rs;
      DecodeRecord(rs[i]);
    }
    m := Wal.ChainSplit(Batches(rs), k, a, hist);
    Wal.ChainReplay(Batches(rs)[..k], a, hist[..m]);
  }

  function Encodings(es: seq<ManifestRecords.VersionEdit>): seq<Bytes> {
    seq(|es|, i requires 0 <= i < |es| => ManifestRecords.Encode(es[i]))
  }

  ghost predicate EditOk(e: ManifestRecords.VersionEdit) {
    ManifestRecords.Ascending(e.deleted) && forall f :: f in ManifestRecords.Fields(e) ==> ManifestRecords.FieldOk(ManifestRecords.Manifest(), f)
  }

  lemma DecodeEdit(e: ManifestRecords.VersionEdit)
    requires EditOk(e)
    ensures ManifestRecords.DecodeInto(ManifestRecords.FRESH, ManifestRecords.Encode(e)) == Some(e)
  {
    ManifestRecords.EditRoundTrip(ManifestRecords.FRESH, e);
  }

  ghost predicate DecodesTo(read: seq<Bytes>, es: seq<ManifestRecords.VersionEdit>) {
    && |read| <= |es|
    && forall i :: 0 <= i < |read| ==> ManifestRecords.DecodeInto(ManifestRecords.FRESH, read[i]) == Some(es[i])
  }

  lemma PrefixDecodes(es: seq<ManifestRecords.VersionEdit>, k: nat)
    requires (forall e :: e in es ==> EditOk(e)) && k <= |es|
    ensures DecodesTo(Encodings(es)[..k], es)
  {
    forall i | 0 <= i < k
      ensures ManifestRecords.DecodeInto(ManifestRecords.FRESH, Encodings(es)[..k][i]) == Some(es[i])
    {
      assert es[i] in es;
      DecodeEdit(es[i]);
    }
  }

  lemma NothingCut(records: seq<Bytes>)
    ensures Complete(CrcSeal, records, 0, |Contents(CrcSeal, records, 0)|) == |records|
  {
    CompleteIsLongest(CrcSeal, records, 0, |Contents(CrcSeal, records, 0)|, |records|);
    assert records[..|records|] == records;
  }

  /** A manifest, cut off at any byte, decodes to the edits whose records were complete; uncut, to all of them. */
  lemma CutManifestIsPrefix(es: seq<ManifestRecords.VersionEdit>, checksum: bool, n: nat)
    requires (forall e :: e in es ==> EditOk(e)) && n <= |Contents(CrcSeal, Encodings(es), 0)|
    ensures DecodesTo(Survivors(Encodings(es), checksum, n), es)
    ensures n == |Contents(CrcSeal, Encodings(es), 0)| ==> |Survivors(Encodings(es), checksum, n)| == |es|
  {
    SurvivorsArePrefix(Encodings(es), checksum, n);
    NothingCut(Encodings(es));
    PrefixDecodes(es, Complete(CrcSeal, Encodings(es), 0, n));
  }
}

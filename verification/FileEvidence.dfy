/** The durable evidence store: every new item is a line of a log, and opening the log
    checks each item against its recorded hash. */
module FileEvidence {
  import opened Prelude
  import opened Hashing
  import opened LogFile
  import opened EvidenceStore

  datatype Record = Record(hash: ContentHash, blob: Bytes)

  function ApplyRecord(s: Store, record: Record): Result<Store, string> {
    if ContentAddress(record.blob) != record.hash then Err("blob does not match hash") else Ok(Put(s, record.blob))
  }

  function OpenStore(raw: string, recover: bool, codec: Codec<Record>): Result<(Store, string), OpenError> {
    Open(raw, recover, EMPTY_STORE, codec, ApplyRecord)
  }

  function Emit(s: Store, item: Bytes): Option<Record> {
    var hash := ContentAddress(item);
    if hash in s.blobs then None else Some(Record(hash, item))
  }

  const STORE: Backend<Store, Bytes, Record> := Backend(Put, Emit, ApplyRecord)

  /** The records that a list of puts writes: one for each item not yet held. */
  function Journal(s: Store, items: seq<Bytes>): seq<Record> { Written(s, items, STORE) }

  class FileEvidenceStore {
    const inner: InMemoryEvidenceStore
    const codec: Codec<Record>
    var file: string

    constructor (inner: InMemoryEvidenceStore, codec: Codec<Record>, file: string)
      ensures this.inner == inner && this.codec == codec && this.file == file
    {
      this.inner, this.codec, this.file := inner, codec, file;
    }

    static method Reopen(raw: string, recover: bool, codec: Codec<Record>) returns (r: Result<FileEvidenceStore, OpenError>)
      ensures match OpenStore(raw, recover, codec)
        case Err(e) => r == Err(e)
        case Ok((s, text)) =>
          && r.Ok? && fresh(r.value) && fresh(r.value.inner) && r.value.codec == codec
          && r.value.inner.Valid() && r.value.inner.Value() == s && r.value.file == text
    {
      var completeLen := CompleteLen(raw);
      var torn := |raw| > completeLen;
      if torn && !recover { return Err(TornTail); }
      var inner := new InMemoryEvidenceStore();
      var lines := Lines(raw[..completeLen]);
      for i := 0 to |lines|
        invariant inner.Valid()
        invariant Replay(inner.Value(), lines, i, codec, ApplyRecord) == Replay(EMPTY_STORE, lines, 0, codec, ApplyRecord)
      {
        var record := codec.decode(lines[i]);
        if record.Err? { return Err(CorruptRecord(i, record.error)); }
        if ContentAddress(record.value.blob) != record.value.hash {
          return Err(CorruptRecord(i, "blob does not match hash"));
        }
        var stored := inner.PutBytes(record.value.blob);
      }
      var file := raw;
      if torn { file := raw[..completeLen]; }
      assert file == raw[..completeLen];
      var store := new FileEvidenceStore(inner, codec, file);
      r := Ok(store);
    }

    /** A new item adds one line to the log, a repeated one adds nothing. */
    method PutBytes(bytes: Bytes) returns (hash: ContentHash)
      requires inner.Valid()
      modifies this, inner
      ensures inner.Valid() && inner.Value() == Put(old(inner.Value()), bytes) && hash == ContentAddress(bytes)
      ensures file == old(file) + LogText(Journal(old(inner.Value()), [bytes]), codec)
    {
      WrittenByOne(inner.Value(), bytes, STORE, codec);
      var before := |inner.order|;
      hash := inner.PutBytes(bytes);
      if |inner.order| > before { file := file + LineText(Record(hash, bytes), codec); }
    }
  }

  // ------------------------------------------------------------------------------
  // Recovery after a crash.

  lemma StoreReplays()
    ensures Replayable(STORE)
  {
  }

  lemma {:induction false} PutAllIsRunAll(s: Store, items: seq<Bytes>)
    ensures PutAll(s, items) == RunAll(s, items, STORE)
    decreases |items|
  {
    if items != [] { PutAllIsRunAll(Put(s, items[0]), items[1..]); }
  }

  /** The log of any list of puts, cut anywhere, reopens to the store after the puts whose
      records are complete, and to their log; plain opening works exactly at a boundary. */
  lemma StoreSurvivesCrash(items: seq<Bytes>, cut: nat, codec: Codec<Record>) returns (m: nat)
    requires var records := Journal(EMPTY_STORE, items); AllFaithful(records, codec) && cut <= |LogText(records, codec)|
    ensures m <= |items|
    ensures var records := Journal(EMPTY_STORE, items);
      var raw, survivors := LogText(records, codec)[..cut], items[..m];
      && Journal(EMPTY_STORE, survivors) == records[..CompleteRecords(records, cut, codec)]
      && OpenStore(raw, true, codec)
         == Ok((PutAll(EMPTY_STORE, survivors), LogText(Journal(EMPTY_STORE, survivors), codec)))
      && OpenStore(raw, false, codec)
         == if AtBoundary(records, cut, codec) then OpenStore(raw, true, codec) else Err(TornTail)
  {
    StoreReplays();
    m := RunSurvivesCrash(EMPTY_STORE, items, STORE, cut, codec);
    PutAllIsRunAll(EMPTY_STORE, items[..m]);
  }

  /** Puts after recovery have the store, and write the log, of a run in which the torn put
      was never made. */
  lemma RecoveredStoreContinues(items: seq<Bytes>, cut: nat, codec: Codec<Record>, more: seq<Bytes>) returns (m: nat)
    requires var records := Journal(EMPTY_STORE, items); AllFaithful(records, codec) && cut <= |LogText(records, codec)|
    ensures m <= |items|
    ensures var recovered := OpenStore(LogText(Journal(EMPTY_STORE, items), codec)[..cut], true, codec);
      && recovered.Ok?
      && PutAll(recovered.value.0, more) == PutAll(EMPTY_STORE, items[..m] + more)
      && recovered.value.1 + LogText(Journal(recovered.value.0, more), codec)
         == LogText(Journal(EMPTY_STORE, items[..m] + more), codec)
  {
    m := StoreSurvivesCrash(items, cut, codec);
    Continues(EMPTY_STORE, items[..m], more, STORE, codec);
    PutAllIsRunAll(EMPTY_STORE, items[..m]);
    PutAllIsRunAll(EMPTY_STORE, items[..m] + more);
    PutAllIsRunAll(PutAll(EMPTY_STORE, items[..m]), more);
  }

  lemma {:induction false} ReplayKeepsInvariant(s: Store, lines: seq<string>, i: nat, codec: Codec<Record>)
    requires i <= |lines| && StoreInvariant(s) && Replay(s, lines, i, codec, ApplyRecord).Ok?
    ensures StoreInvariant(Replay(s, lines, i, codec, ApplyRecord).value)
    decreases |lines| - i
  {
    if i < |lines| {
      var blob := codec.decode(lines[i]).value.blob;
      PutKeepsInvariant(s, blob);
      ReplayKeepsInvariant(Put(s, blob), lines, i + 1, codec);
    }
  }

  /** Whatever text a file holds: if it opens at all, every item in the store passes its
      integrity check. */
  lemma OpenedStoreIsSound(raw: string, recover: bool, codec: Codec<Record>)
    requires OpenStore(raw, recover, codec).Ok?
    ensures var s := OpenStore(raw, recover, codec).value.0;
      StoreInvariant(s) && forall hash :: hash in s.order ==> Verify(s, hash).Ok?
  {
    ReplayKeepsInvariant(EMPTY_STORE, Lines(raw[..CompleteLen(raw)]), 0, codec);
  }

  ghost function BlobsOf(records: seq<Record>): seq<Bytes> {
    seq(|records|, i requires 0 <= i < |records| => records[i].blob)
  }

  lemma {:induction false} AppliedIsStored(s: Store, records: seq<Record>)
    requires ApplyAll(s, records, ApplyRecord).Ok?
    ensures ApplyAll(s, records, ApplyRecord).value == PutAll(s, BlobsOf(records))
    ensures forall i :: 0 <= i < |records| ==> records[i].hash == ContentAddress(records[i].blob)
    decreases |records|
  {
    if records != [] {
      assert BlobsOf(records)[0] == records[0].blob && BlobsOf(records)[1..] == BlobsOf(records[1..]);
      AppliedIsStored(ApplyRecord(s, records[0]).value, records[1..]);
      forall i | 0 < i < |records| ensures records[i].hash == ContentAddress(records[i].blob) {
        assert records[i] == records[1..][i - 1];
      }
    }
  }

  /** A file that opens holds what it records: every complete line is a record, every hash
      recorded is that of its item, and the store is what these items make. */
  lemma OpenedStoreHoldsRecords(raw: string, recover: bool, codec: Codec<Record>) returns (records: seq<Record>)
    requires OpenStore(raw, recover, codec).Ok?
    ensures var lines := Lines(raw[..CompleteLen(raw)]);
      |records| == |lines| && forall i :: 0 <= i < |lines| ==> codec.decode(lines[i]) == Ok(records[i])
    ensures forall i :: 0 <= i < |records| ==> records[i].hash == ContentAddress(records[i].blob)
    ensures OpenStore(raw, recover, codec).value.0 == PutAll(EMPTY_STORE, BlobsOf(records))
  {
    var lines := Lines(raw[..CompleteLen(raw)]);
    records := ReplayOutcome(EMPTY_STORE, lines, 0, codec, ApplyRecord);
    AppliedIsStored(EMPTY_STORE, records);
    forall i | 0 <= i < |lines| ensures codec.decode(lines[i]) == Ok(records[i]) { assert codec.decode(lines[0 + i]) == Ok(records[i]); }
  }

  /** A record whose hash is not that of its item makes opening fail at its line. */
  lemma ForgedItemRefused(raw: string, codec: Codec<Record>, records: seq<Record>, forged: Record)
    requires var lines := Lines(raw[..CompleteLen(raw)]);
      && |records| < |lines| && ReadAs(lines, 0, records, codec) && ApplyAll(EMPTY_STORE, records, ApplyRecord).Ok?
      && codec.decode(lines[|records|]) == Ok(forged)
    requires forged.hash != ContentAddress(forged.blob)
    ensures OpenStore(raw, true, codec).Err? && OpenStore(raw, false, codec).Err?
    ensures OpenStore(raw, true, codec).error.CorruptRecord? && OpenStore(raw, true, codec).error.line == |records|
  {
    var lines := Lines(raw[..CompleteLen(raw)]);
    var s := ApplyAll(EMPTY_STORE, records, ApplyRecord).value;
    ReplayFailsAt(EMPTY_STORE, lines, 0, records, codec, ApplyRecord, ApplyRecord(s, forged).error);
  }
}

/** The durable ledger: every accepted append is a line of a log, and opening the log
    appends every recorded event again. */
module FileLedgers {
  import opened Prelude
  import opened LogFile
  import opened Ledger
  import opened LedgerTheory
  import opened Json
  import JsonTheory
  import opened Filtering

  /** A recorded event, appended again: it must pass every check and get the same id. */
  function ApplyRecord(s: State, record: SealedEvent): Result<State, string> {
    match Append(s, record.draft, record.time)
    case (_, Err(_)) => Err("fails validation on replay")
    case (s', Ok(id)) => if id != record.id then Err("replayed id differs") else Ok(s')
  }

  function OpenLedger(raw: string, recover: bool, codec: Codec<SealedEvent>): Result<(State, string), OpenError> {
    Open(raw, recover, EMPTY, codec, ApplyRecord)
  }

  function Step(s: State, c: Command): State { Append(s, c.draft, c.time).0 }

  function Emit(s: State, c: Command): Option<SealedEvent> {
    if Check(s, c.draft, c.time).None? then Some(Sealed(s, c.draft, c.time)) else None
  }

  const LEDGER: Backend<State, Command, SealedEvent> := Backend(Step, Emit, ApplyRecord)

  /** The events that a list of appends seals. */
  function Journal(s: State, commands: seq<Command>): seq<SealedEvent> { Written(s, commands, LEDGER) }

  class FileLedger {
    const inner: InMemoryLedger
    const codec: Codec<SealedEvent>
    var file: string

    constructor (inner: InMemoryLedger, codec: Codec<SealedEvent>, file: string)
      ensures this.inner == inner && this.codec == codec && this.file == file
    {
      this.inner, this.codec, this.file := inner, codec, file;
    }

    static method Reopen(raw: string, recover: bool, codec: Codec<SealedEvent>) returns (r: Result<FileLedger, OpenError>)
      ensures match OpenLedger(raw, recover, codec)
        case Err(e) => r == Err(e)
        case Ok((s, text)) =>
          && r.Ok? && fresh(r.value) && fresh(r.value.inner) && r.value.codec == codec
          && r.value.inner.Value() == s && r.value.file == text
    {
      var completeLen := CompleteLen(raw);
      var torn := |raw| > completeLen;
      if torn && !recover { return Err(TornTail); }
      var inner := new InMemoryLedger();
      var lines := Lines(raw[..completeLen]);
      for i := 0 to |lines|
        invariant Replay(inner.Value(), lines, i, codec, ApplyRecord) == Replay(EMPTY, lines, 0, codec, ApplyRecord)
      {
        var record := codec.decode(lines[i]);
        if record.Err? { return Err(CorruptRecord(i, record.error)); }
        var replayed := inner.AppendEvent(record.value.draft, record.value.time);
        if replayed.Err? { return Err(CorruptRecord(i, "fails validation on replay")); }
        if replayed.value != record.value.id { return Err(CorruptRecord(i, "replayed id differs")); }
      }
      var file := raw;
      if torn { file := raw[..completeLen]; }
      assert file == raw[..completeLen];
      var ledger := new FileLedger(inner, codec, file);
      r := Ok(ledger);
    }

    /** An accepted append adds one line to the log, a refused one adds nothing. */
    method AppendEvent(draft: EventDraft, time: I64) returns (r: Result<EventId, LedgerError>)
      modifies this, inner
      ensures (inner.Value(), r) == Append(old(inner.Value()), draft, time)
      ensures file == old(file) + LogText(Journal(old(inner.Value()), [Command(draft, time)]), codec)
    {
      ghost var before := inner.Value();
      WrittenByOne(before, Command(draft, time), LEDGER, codec);
      r := inner.AppendEvent(draft, time);
      if r.Ok? {
        var stream := inner.StreamOf(draft.tenant);
        var line := codec.encode(stream[|stream| - 1]);
        assert (file + line) + "\n" == file + (line + "\n");
        file := file + line;
        file := file + "\n";
      }
    }
  }

  // ------------------------------------------------------------------------------
  // Recovery after a crash.

  lemma LedgerReplays()
    ensures Replayable(LEDGER)
  {
  }

  lemma {:induction false} RunIsRunAll(s: State, commands: seq<Command>)
    ensures Run(s, commands) == RunAll(s, commands, LEDGER)
    decreases |commands|
  {
    if commands != [] { RunIsRunAll(Step(s, commands[0]), commands[1..]); }
  }

  /** The log of any run, cut anywhere, reopens to the ledger after the commands whose
      records are complete, and to their log; plain opening works exactly at a boundary. */
  lemma LedgerSurvivesCrash(commands: seq<Command>, cut: nat, codec: Codec<SealedEvent>) returns (m: nat)
    requires var records := Journal(EMPTY, commands); AllFaithful(records, codec) && cut <= |LogText(records, codec)|
    ensures m <= |commands|
    ensures var records := Journal(EMPTY, commands);
      var raw, survivors := LogText(records, codec)[..cut], commands[..m];
      && Journal(EMPTY, survivors) == records[..CompleteRecords(records, cut, codec)]
      && OpenLedger(raw, true, codec) == Ok((Run(EMPTY, survivors), LogText(Journal(EMPTY, survivors), codec)))
      && OpenLedger(raw, false, codec)
         == if AtBoundary(records, cut, codec) then OpenLedger(raw, true, codec) else Err(TornTail)
  {
    LedgerReplays();
    m := RunSurvivesCrash(EMPTY, commands, LEDGER, cut, codec);
    RunIsRunAll(EMPTY, commands[..m]);
  }

  /** Appends after recovery have the ledger, and write the log, of a run in which the torn
      append was never made. */
  lemma RecoveredLedgerContinues(commands: seq<Command>, cut: nat, codec: Codec<SealedEvent>, more: seq<Command>) returns (m: nat)
    requires var records := Journal(EMPTY, commands); AllFaithful(records, codec) && cut <= |LogText(records, codec)|
    ensures m <= |commands|
    ensures var recovered := OpenLedger(LogText(Journal(EMPTY, commands), codec)[..cut], true, codec);
      && recovered.Ok?
      && Run(recovered.value.0, more) == Run(EMPTY, commands[..m] + more)
      && recovered.value.1 + LogText(Journal(recovered.value.0, more), codec)
         == LogText(Journal(EMPTY, commands[..m] + more), codec)
  {
    m := LedgerSurvivesCrash(commands, cut, codec);
    var survivors := commands[..m];
    Continues(EMPTY, survivors, more, LEDGER, codec);
    RunIsRunAll(EMPTY, survivors);
    RunIsRunAll(EMPTY, survivors + more);
    RunIsRunAll(Run(EMPTY, survivors), more);
  }

  // ------------------------------------------------------------------------------
  // A file that nobody vouches for.

  lemma {:induction false} ReplayedIsReachable(history: seq<Command>, lines: seq<string>, i: nat, codec: Codec<SealedEvent>) returns (commands: seq<Command>)
    requires i <= |lines| && Replay(Run(EMPTY, history), lines, i, codec, ApplyRecord).Ok?
    ensures Replay(Run(EMPTY, history), lines, i, codec, ApplyRecord).value == Run(EMPTY, commands)
    decreases |lines| - i
  {
    if i == |lines| {
      commands := history;
    } else {
      var record := codec.decode(lines[i]).value;
      var next := [Command(record.draft, record.time)];
      RunAppend(EMPTY, history, next, LEDGER);
      RunIsRunAll(EMPTY, history);
      RunIsRunAll(EMPTY, history + next);
      assert next[1..] == [];
      assert Run(Run(EMPTY, history), next) == Append(Run(EMPTY, history), record.draft, record.time).0;
      commands := ReplayedIsReachable(history + next, lines, i + 1, codec);
    }
  }

  // ------------------------------------------------------------------------------
  // What an opened ledger holds.

  /** The appends that these records stand for. */
  ghost function CommandsOf(records: seq<SealedEvent>): seq<Command> {
    seq(|records|, i requires 0 <= i < |records| => Command(records[i].draft, records[i].time))
  }

  /** The event was booked as recorded: under that id, at that time, with that content. */
  ghost predicate BookedAs(e: SealedEvent, record: SealedEvent) {
    e.id == record.id && e.time == record.time && e.draft == record.draft
  }

  ghost predicate AllBookedAs(events: seq<SealedEvent>, records: seq<SealedEvent>) {
    |events| == |records| && forall i :: 0 <= i < |events| ==> BookedAs(events[i], records[i])
  }

  /** Records that apply are the very events that are booked. */
  lemma {:induction false} AppliedIsBooked(s: State, records: seq<SealedEvent>)
    requires ApplyAll(s, records, ApplyRecord).Ok?
    ensures ApplyAll(s, records, ApplyRecord).value == Run(s, CommandsOf(records))
    ensures AllBookedAs(Journal(s, CommandsOf(records)), records)
    decreases |records|
  {
    if records != [] {
      var r, rest, commands := records[0], records[1..], CommandsOf(records);
      assert commands[0] == Command(r.draft, r.time) && commands[1..] == CommandsOf(rest);
      var s' := ApplyRecord(s, r).value;
      AppliedIsBooked(s', rest);
      assert Emit(s, commands[0]) == Some(Sealed(s, r.draft, r.time)) && Step(s, commands[0]) == s';
      var later := Journal(s', CommandsOf(rest));
      assert Journal(s, commands) == [Sealed(s, r.draft, r.time)] + later;
      forall i | 0 <= i < |records| ensures BookedAs(Journal(s, commands)[i], records[i]) {
        if i > 0 { assert records[i] == rest[i - 1] && BookedAs(later[i - 1], rest[i - 1]); }
      }
    }
  }

  ghost function OfTenant(events: seq<SealedEvent>, tenant: TenantId): seq<SealedEvent> {
    Filter(events, (e: SealedEvent) => e.draft.tenant == tenant)
  }

  lemma OfTenantAppend(before: seq<SealedEvent>, a: seq<SealedEvent>, b: seq<SealedEvent>, tenant: TenantId)
    ensures (before + OfTenant(a, tenant)) + OfTenant(b, tenant) == before + OfTenant(a + b, tenant)
  {
    FilterAppend(a, b, (e: SealedEvent) => e.draft.tenant == tenant);
  }

  /** A tenant's stream is what was booked for that tenant, in order. */
  lemma {:induction false} StreamIsJournal(s: State, commands: seq<Command>, tenant: TenantId)
    ensures Stream(Run(s, commands), tenant) == Stream(s, tenant) + OfTenant(Journal(s, commands), tenant)
    decreases |commands|
  {
    if commands != [] {
      var s' := Step(s, commands[0]);
      StreamIsJournal(s', commands[1..], tenant);
      StepBooks(s, commands[0], tenant);
      OfTenantAppend(Stream(s, tenant), First(Emit(s, commands[0])), Journal(s', commands[1..]), tenant);
    }
  }

  lemma StepBooks(s: State, c: Command, tenant: TenantId)
    ensures Stream(Step(s, c), tenant) == Stream(s, tenant) + OfTenant(First(Emit(s, c)), tenant)
  {
    if Emit(s, c).Some? {
      var e := Emit(s, c).value;
      assert First(Emit(s, c)) == [e] && [e][1..] == [];
      OfTenantOne(e, tenant);
      StreamAfter(s, e, tenant);
    } else {
      assert OfTenant([], tenant) == [] && Stream(s, tenant) + [] == Stream(s, tenant);
    }
  }

  lemma OfTenantOne(e: SealedEvent, tenant: TenantId)
    ensures OfTenant([e], tenant) == if e.draft.tenant == tenant then [e] else []
  {
    var rest: seq<SealedEvent> := [e][1..];
    assert rest == [] && OfTenant(rest, tenant) == [];
  }

  /** A file that opens holds what it records: every complete line is a record, and the
      events of the ledger are these records, in order, under the ids recorded. */
  lemma OpenedLedgerHoldsRecords(raw: string, recover: bool, codec: Codec<SealedEvent>) returns (records: seq<SealedEvent>)
    requires OpenLedger(raw, recover, codec).Ok?
    ensures var lines := Lines(raw[..CompleteLen(raw)]);
      |records| == |lines| && forall i :: 0 <= i < |lines| ==> codec.decode(lines[i]) == Ok(records[i])
    ensures OpenLedger(raw, recover, codec).value.0 == Run(EMPTY, CommandsOf(records))
    ensures AllBookedAs(Journal(EMPTY, CommandsOf(records)), records)
    ensures forall tenant :: AllBookedAs(Stream(OpenLedger(raw, recover, codec).value.0, tenant), OfTenant(records, tenant))
  {
    var lines := Lines(raw[..CompleteLen(raw)]);
    records := ReplayOutcome(EMPTY, lines, 0, codec, ApplyRecord);
    AppliedIsBooked(EMPTY, records);
    forall i | 0 <= i < |lines| ensures codec.decode(lines[i]) == Ok(records[i]) { assert codec.decode(lines[0 + i]) == Ok(records[i]); }
    forall tenant ensures AllBookedAs(Stream(Run(EMPTY, CommandsOf(records)), tenant), OfTenant(records, tenant)) {
      StreamIsJournal(EMPTY, CommandsOf(records), tenant);
      FilterBooked(Journal(EMPTY, CommandsOf(records)), records, tenant);
      var mine := OfTenant(Journal(EMPTY, CommandsOf(records)), tenant);
      assert [] + mine == mine;
    }
  }

  lemma {:induction false} FilterBooked(events: seq<SealedEvent>, records: seq<SealedEvent>, tenant: TenantId)
    requires AllBookedAs(events, records)
    ensures AllBookedAs(OfTenant(events, tenant), OfTenant(records, tenant))
    decreases |events|
  {
    if events != [] {
      forall i | 0 <= i < |events[1..]| ensures BookedAs(events[1..][i], records[1..][i]) {
        assert events[1..][i] == events[i + 1] && records[1..][i] == records[i + 1];
      }
      FilterBooked(events[1..], records[1..], tenant);
      assert BookedAs(events[0], records[0]);
    }
  }

  /** The id an event must have at its place in the chain. */
  ghost function RightId(s: State, record: SealedEvent): EventId {
    EventHash(LastId(record.draft.tenant, Stream(s, record.draft.tenant)), record.time, EnvelopeOf(record.draft))
  }

  /** Tampering is refused: a record whose id is not the hash of its content at its place in
      the chain makes opening fail at its line, whatever follows. */
  lemma ForgedRecordRefused(raw: string, codec: Codec<SealedEvent>, records: seq<SealedEvent>, forged: SealedEvent)
    requires var lines := Lines(raw[..CompleteLen(raw)]);
      && |records| < |lines| && ReadAs(lines, 0, records, codec) && ApplyAll(EMPTY, records, ApplyRecord).Ok?
      && codec.decode(lines[|records|]) == Ok(forged)
    requires forged.id != RightId(ApplyAll(EMPTY, records, ApplyRecord).value, forged)
    ensures OpenLedger(raw, true, codec).Err? && OpenLedger(raw, false, codec).Err?
    ensures OpenLedger(raw, true, codec).error.CorruptRecord? && OpenLedger(raw, true, codec).error.line == |records|
  {
    var lines := Lines(raw[..CompleteLen(raw)]);
    var s := ApplyAll(EMPTY, records, ApplyRecord).value;
    assert ApplyRecord(s, forged).Err?;
    ReplayFailsAt(EMPTY, lines, 0, records, codec, ApplyRecord, ApplyRecord(s, forged).error);
  }

  /** Two files that open and record the same ids hold the same events, but for the order of
      fields inside payloads. */
  lemma SameIdsSameEvents(a: seq<SealedEvent>, b: seq<SealedEvent>, x: seq<Command>, y: seq<Command>)
    requires a == Journal(EMPTY, x) && b == Journal(EMPTY, y) && |a| == |b|
    requires forall i :: 0 <= i < |a| ==> a[i].id == b[i].id
    requires WellFormedPayloads(a) && WellFormedPayloads(b)
    ensures forall i :: 0 <= i < |a| ==> SameEvent(a[i], b[i])
  {
    forall i | 0 <= i < |a| ensures SameEvent(a[i], b[i]) {
      JournalSealed(EMPTY, x, i);
      JournalSealed(EMPTY, y, i);
      JsonTheory.CanonicalTextIdentifies(a[i].draft.payload, b[i].draft.payload);
    }
  }

  lemma {:induction false} JournalSealed(s: State, commands: seq<Command>, i: nat)
    requires i < |Journal(s, commands)|
    ensures var e := Journal(s, commands)[i];
      e.id == EventHash(e.prev, e.time, EnvelopeOf(e.draft)) && Encodable(e.draft.payload)
    decreases |commands|
  {
    var now := First(Emit(s, commands[0]));
    if i >= |now| { JournalSealed(Step(s, commands[0]), commands[1..], i - |now|); }
  }

  /** Whatever text a file holds: if it opens at all, the ledger is one that appends can
      produce, so it satisfies the invariant and every chain verifies. */
  lemma OpenedLedgerIsSound(raw: string, recover: bool, codec: Codec<SealedEvent>)
    requires OpenLedger(raw, recover, codec).Ok?
    ensures var s := OpenLedger(raw, recover, codec).value.0;
      LedgerInv(s) && forall tenant :: VerifyStream(tenant, Stream(s, tenant)).Ok?
  {
    var commands := ReplayedIsReachable([], Lines(raw[..CompleteLen(raw)]), 0, codec);
    ReachableLedgersAreSound(commands);
    forall tenant ensures VerifyStream(tenant, Stream(Run(EMPTY, commands), tenant)).Ok? {
      ReachableChainsVerify(commands, tenant);
    }
  }
}

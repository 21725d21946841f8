/** The bitemporal ledger: per-tenant streams of events, each identified by a hash that
    commits to its predecessor. Hashes are ideal: an id is its own preimage. */
module Ledger {
  import opened Prelude
  import opened Json
  import opened Filtering

  type TenantId = string

  datatype ClaimLayer = Observation | DerivedFact | Judgment | PolicyOutput

  /** A genesis marker, the hash of an event envelope, or some other digest. The genesis
      tag and the schema tag keep the first two apart. */
  datatype EventId =
    | Genesis(tenant: TenantId)
    | EventHash(prev: EventId, time: I64, envelope: Envelope)
    | OtherHash(digest: nat)

  datatype Provenance =
    | Observed(source: string, evidence: EventId)
    | Derived(codeVersion: EventId, inputs: seq<EventId>)
    | Judged(policy: EventId, approvers: seq<string>, evidences: seq<EventId>)
    | Output(policyModule: EventId, consumed: seq<EventId>)

  /** What the hash commits to besides chain position; the payload by its canonical text. */
  datatype Envelope = Envelope(
    tenant: TenantId, layer: ClaimLayer, eventTime: I64, supersedes: Option<EventId>,
    provenance: Provenance, payload: string)

  datatype EventDraft = EventDraft(
    tenant: TenantId, layer: ClaimLayer, eventTime: I64, supersedes: Option<EventId>,
    provenance: Provenance, payload: Json)

  datatype SealedEvent = SealedEvent(id: EventId, prev: EventId, time: I64, draft: EventDraft)

  datatype LedgerError =
    | NonMonotonicKnowledgeTime(last: I64, proposed: I64)
    | LayerProvenanceMismatch(layer: ClaimLayer, provenanceLayer: ClaimLayer)
    | SupersedeTargetMissing(id: EventId)
    | SupersedeCrossTenant(id: EventId)
    | SupersedeCrossLayer(target: ClaimLayer, proposedLayer: ClaimLayer)
    | AlreadySuperseded(id: EventId)
    | ChainViolation(id: EventId)
    | Canon

  datatype State = State(
    streams: map<TenantId, seq<SealedEvent>>, byId: map<EventId, (TenantId, nat)>, superseded: set<EventId>)

  const EMPTY := State(map[], map[], {})

  function ProvenanceLayer(p: Provenance): ClaimLayer {
    match p
    case Observed(_, _) => Observation
    case Derived(_, _) => DerivedFact
    case Judged(_, _, _) => Judgment
    case Output(_, _) => PolicyOutput
  }

  /** The payload stands one level below the envelope. */
  predicate Encodable(payload: Json) { FloatFree(payload) && NestsWithin(payload, MAX_DEPTH - 1) }

  function EnvelopeOf(d: EventDraft): Envelope {
    Envelope(d.tenant, d.layer, d.eventTime, d.supersedes, d.provenance, CanonicalText(d.payload))
  }

  function ComputeId(prev: EventId, time: I64, draft: EventDraft): Option<EventId> {
    if Encodable(draft.payload) then Some(EventHash(prev, time, EnvelopeOf(draft))) else None
  }

  function Stream(s: State, tenant: TenantId): seq<SealedEvent> {
    if tenant in s.streams then s.streams[tenant] else []
  }

  function LastId(tenant: TenantId, stream: seq<SealedEvent>): EventId {
    if stream == [] then Genesis(tenant) else stream[|stream| - 1].id
  }

  // ------------------------------------------------------------------------------
  // Appending.

  function CheckTarget(s: State, draft: EventDraft, target: EventId): Option<LedgerError> {
    if target !in s.byId then Some(SupersedeTargetMissing(target))
    else
      var (tenant, index) := s.byId[target];
      if tenant != draft.tenant then Some(SupersedeCrossTenant(target))
      else if index >= |Stream(s, tenant)| then Some(SupersedeTargetMissing(target))
      else
        var layer := Stream(s, tenant)[index].draft.layer;
        if layer != draft.layer then Some(SupersedeCrossLayer(layer, draft.layer))
        else if target in s.superseded then Some(AlreadySuperseded(target))
        else None
  }

  /** The first rule an append would break, if any. */
  function Check(s: State, draft: EventDraft, time: I64): Option<LedgerError> {
    var stream := Stream(s, draft.tenant);
    if draft.layer != ProvenanceLayer(draft.provenance) then
      Some(LayerProvenanceMismatch(draft.layer, ProvenanceLayer(draft.provenance)))
    else if stream != [] && time <= stream[|stream| - 1].time then
      Some(NonMonotonicKnowledgeTime(stream[|stream| - 1].time, time))
    else if draft.supersedes.Some? && CheckTarget(s, draft, draft.supersedes.value).Some? then
      CheckTarget(s, draft, draft.supersedes.value)
    else if !Encodable(draft.payload) then Some(Canon)
    else None
  }

  /** The event an accepted append seals. */
  function Sealed(s: State, draft: EventDraft, time: I64): SealedEvent {
    var prev := LastId(draft.tenant, Stream(s, draft.tenant));
    SealedEvent(EventHash(prev, time, EnvelopeOf(draft)), prev, time, draft)
  }

  function Booked(s: State, e: SealedEvent): State {
    var tenant := e.draft.tenant;
    var stream := Stream(s, tenant);
    State(
      s.streams[tenant := stream + [e]],
      s.byId[e.id := (tenant, |stream|)],
      if e.draft.supersedes.Some? then s.superseded + {e.draft.supersedes.value} else s.superseded)
  }

  function Append(s: State, draft: EventDraft, time: I64): (State, Result<EventId, LedgerError>) {
    match Check(s, draft, time)
    case Some(e) => (s, Err(e))
    case None => var e := Sealed(s, draft, time); (Booked(s, e), Ok(e.id))
  }

  datatype Command = Command(draft: EventDraft, time: I64)

  /** The ledger after a list of appends, some of which may have been refused. */
  function Run(s: State, commands: seq<Command>): State
    decreases |commands|
  {
    if commands == [] then s else Run(Append(s, commands[0].draft, commands[0].time).0, commands[1..])
  }

  // ------------------------------------------------------------------------------
  // Queries.

  function SupersededBy(stream: seq<SealedEvent>, time: I64): set<EventId> {
    set e | e in stream && e.time <= time && e.draft.supersedes.Some? :: e.draft.supersedes.value
  }

  /** The events of a stream that were active at a knowledge time. */
  function AsOf(stream: seq<SealedEvent>, time: I64): seq<SealedEvent> {
    var gone := SupersededBy(stream, time);
    Filter(stream, (e: SealedEvent) => e.time <= time && e.id !in gone)
  }

  /** The check of the stream from `i` on. */
  function CheckChain(stream: seq<SealedEvent>, i: nat, expected: EventId): Result<(), LedgerError>
    requires i <= |stream|
    decreases |stream| - i
  {
    if i == |stream| then Ok(())
    else if stream[i].prev != expected then Err(ChainViolation(stream[i].id))
    else match ComputeId(stream[i].prev, stream[i].time, stream[i].draft)
      case None => Err(Canon)
      case Some(id) =>
        if id != stream[i].id then Err(ChainViolation(stream[i].id)) else CheckChain(stream, i + 1, id)
  }

  function VerifyStream(tenant: TenantId, stream: seq<SealedEvent>): Result<(), LedgerError> {
    CheckChain(stream, 0, Genesis(tenant))
  }

  class InMemoryLedger {
    var streams: map<TenantId, seq<SealedEvent>>
    var byId: map<EventId, (TenantId, nat)>
    var superseded: set<EventId>

    ghost function Value(): State reads this { State(streams, byId, superseded) }

    constructor ()
      ensures Value() == EMPTY
    {
      streams, byId, superseded := map[], map[], {};
    }

    method StreamOf(tenant: TenantId) returns (r: seq<SealedEvent>)
      ensures r == Stream(Value(), tenant)
    {
      if tenant in streams { r := streams[tenant]; } else { r := []; }
    }

    /** The supersession rules: the target exists, in the same stream and layer, and has
        not been superseded. */
    method CheckSupersession(draft: EventDraft) returns (r: Option<LedgerError>)
      ensures r == if draft.supersedes.Some? then CheckTarget(Value(), draft, draft.supersedes.value) else None
    {
      if draft.supersedes.None? { return None; }
      var target := draft.supersedes.value;
      if target !in byId { return Some(SupersedeTargetMissing(target)); }
      var (tenant, index) := byId[target];
      if tenant != draft.tenant { return Some(SupersedeCrossTenant(target)); }
      var stream := StreamOf(tenant);
      if index >= |stream| { return Some(SupersedeTargetMissing(target)); }
      var layer := stream[index].draft.layer;
      if layer != draft.layer { return Some(SupersedeCrossLayer(layer, draft.layer)); }
      if target in superseded { return Some(AlreadySuperseded(target)); }
      r := None;
    }

    /** A refused append leaves the ledger as it was. */
    method AppendEvent(draft: EventDraft, time: I64) returns (r: Result<EventId, LedgerError>)
      modifies this
      ensures (Value(), r) == Append(old(Value()), draft, time)
      ensures r.Err? ==> Value() == old(Value())
    {
      var layer := ProvenanceLayer(draft.provenance);
      if draft.layer != layer { return Err(LayerProvenanceMismatch(draft.layer, layer)); }
      var stream := StreamOf(draft.tenant);
      if stream != [] && time <= stream[|stream| - 1].time {
        return Err(NonMonotonicKnowledgeTime(stream[|stream| - 1].time, time));
      }
      var refusal := CheckSupersession(draft);
      if refusal.Some? { return Err(refusal.value); }
      var prev := LastId(draft.tenant, stream);
      var id := ComputeId(prev, time, draft);
      if id.None? { return Err(Canon); }
      streams := streams[draft.tenant := stream + [SealedEvent(id.value, prev, time, draft)]];
      byId := byId[id.value := (draft.tenant, |stream|)];
      if draft.supersedes.Some? { superseded := superseded + {draft.supersedes.value}; }
      r := Ok(id.value);
    }

    method ActiveAsOf(tenant: TenantId, time: I64) returns (r: seq<SealedEvent>)
      ensures r == AsOf(Stream(Value(), tenant), time)
    {
      var stream := StreamOf(tenant);
      var gone := SupersededBy(stream, time);
      r := Filter(stream, (e: SealedEvent) => e.time <= time && e.id !in gone);
    }

    method VerifyChain(tenant: TenantId) returns (r: Result<(), LedgerError>)
      ensures r == VerifyStream(tenant, Stream(Value(), tenant))
    {
      var stream := StreamOf(tenant);
      var expected := Genesis(tenant);
      for i := 0 to |stream|
        invariant CheckChain(stream, i, expected) == VerifyStream(tenant, stream)
      {
        var event := stream[i];
        if event.prev != expected { return Err(ChainViolation(event.id)); }
        var recomputed := ComputeId(event.prev, event.time, event.draft);
        if recomputed.None? { return Err(Canon); }
        if recomputed.value != event.id { return Err(ChainViolation(event.id)); }
        expected := event.id;
      }
      r := Ok(());
    }
  }
}

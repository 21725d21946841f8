/** Items that one actor proposes and a different actor confirms. */
module DualControl {
  import opened Prelude

  type ActorId = string

  datatype Approval =
    | Asserted(preparer: ActorId)
    | Confirmed(confirmedFor: ActorId, approver: ActorId)
    | Rejected(actor: ActorId, reason: string)

  datatype DualControlError<+K> = UnknownItem(id: K) | NotAsserted | SameActor

  predicate Terminal(a: Approval) { !a.Asserted? }

  type Items<K, P> = map<K, (P, Approval)>

  function Propose<K, P>(items: Items<K, P>, id: K, payload: P, preparer: ActorId): Items<K, P> {
    if id in items then items else items[id := (payload, Asserted(preparer))]
  }

  function ConfirmError<K, P>(items: Items<K, P>, id: K, approver: ActorId): Option<DualControlError<K>> {
    if id !in items then Some(UnknownItem(id))
    else if !items[id].1.Asserted? then Some(NotAsserted)
    else if items[id].1.preparer == approver then Some(SameActor)
    else None
  }

  function Confirm<K, P>(items: Items<K, P>, id: K, approver: ActorId): Items<K, P> {
    if ConfirmError(items, id, approver).Some? then items
    else items[id := (items[id].0, Confirmed(items[id].1.preparer, approver))]
  }

  function RejectError<K, P>(items: Items<K, P>, id: K): Option<DualControlError<K>> {
    if id !in items then Some(UnknownItem(id)) else if Terminal(items[id].1) then Some(NotAsserted) else None
  }

  function Reject<K, P>(items: Items<K, P>, id: K, actor: ActorId, reason: string): Items<K, P> {
    if RejectError(items, id).Some? then items else items[id := (items[id].0, Rejected(actor, reason))]
  }

  datatype Op<K, P> =
    | ProposeOp(id: K, payload: P, preparer: ActorId)
    | ConfirmOp(id: K, approver: ActorId)
    | RejectOp(id: K, actor: ActorId, reason: string)

  function Do<K, P>(items: Items<K, P>, op: Op<K, P>): Items<K, P> {
    match op
    case ProposeOp(id, payload, preparer) => Propose(items, id, payload, preparer)
    case ConfirmOp(id, approver) => Confirm(items, id, approver)
    case RejectOp(id, actor, reason) => Reject(items, id, actor, reason)
  }

  function DoAll<K, P>(items: Items<K, P>, ops: seq<Op<K, P>>): Items<K, P>
    decreases |ops|
  {
    if ops == [] then items else DoAll(Do(items, ops[0]), ops[1..])
  }

  ghost predicate TwoActors(a: Approval) { a.Confirmed? ==> a.confirmedFor != a.approver }

  /** Whatever is asked of a queue: an item keeps its payload and its preparer, a decided
      item keeps its decision, and no item is confirmed by the one who proposed it. */
  lemma {:induction false} DecisionsAreFinal<K, P>(items: Items<K, P>, ops: seq<Op<K, P>>, id: K)
    requires id in items && TwoActors(items[id].1)
    ensures var later := DoAll(items, ops);
      && id in later && later[id].0 == items[id].0 && TwoActors(later[id].1)
      && (Terminal(items[id].1) ==> later[id] == items[id])
      && (items[id].1.Asserted? && later[id].1.Confirmed? ==> later[id].1.confirmedFor == items[id].1.preparer)
    decreases |ops|
  {
    if ops != [] { DecisionsAreFinal(Do(items, ops[0]), ops[1..], id); }
  }

  /** What the three operations do to an item. A proposal waits for a decision under its
      preparer and is never replaced; a decision is taken on a waiting item only, and a
      confirmation only by another actor than the preparer. Other items are not touched. */
  lemma OperationsMean<K, P>(items: Items<K, P>, id: K, payload: P, actor: ActorId, reason: string)
    ensures var later := Propose(items, id, payload, actor);
      later == if id in items then items else items[id := (payload, Asserted(actor))]
    ensures ConfirmError(items, id, actor).None? <==> Waiting(items, id) && items[id].1.preparer != actor
    ensures RejectError(items, id).None? <==> Waiting(items, id)
    ensures ConfirmError(items, id, actor).Some? ==> Confirm(items, id, actor) == items
    ensures RejectError(items, id).Some? ==> Reject(items, id, actor, reason) == items
    ensures Waiting(items, id) ==>
      && Reject(items, id, actor, reason) == items[id := (items[id].0, Rejected(actor, reason))]
      && (items[id].1.preparer != actor ==>
            Confirm(items, id, actor) == items[id := (items[id].0, Confirmed(items[id].1.preparer, actor))])
  {
  }

  ghost predicate Waiting<K, P>(items: Items<K, P>, id: K) { id in items && items[id].1.Asserted? }

  /** A rejection stands: whatever is asked of the queue afterwards, the item keeps the
      rejection with its actor and reason, and whoever tries to confirm it is refused. */
  lemma RejectionStands<K, P>(items: Items<K, P>, id: K, actor: ActorId, reason: string, ops: seq<Op<K, P>>, approver: ActorId)
    requires Waiting(items, id)
    ensures var later := DoAll(Reject(items, id, actor, reason), ops);
      && id in later && later[id] == (items[id].0, Rejected(actor, reason))
      && ConfirmError(later, id, approver) == Some(NotAsserted) && Confirm(later, id, approver) == later
  {
    DecisionsAreFinal(Reject(items, id, actor, reason), ops, id);
  }

  class DualControlQueue<K(==), P> {
    var items: Items<K, P>

    constructor ()
      ensures items == map[]
    {
      items := map[];
    }

    method ProposeItem(id: K, payload: P, preparer: ActorId)
      modifies this
      ensures items == Propose(old(items), id, payload, preparer)
    {
      if id !in items { items := items[id := (payload, Asserted(preparer))]; }
    }

    method ConfirmItem(id: K, approver: ActorId) returns (e: Option<DualControlError<K>>)
      modifies this
      ensures e == ConfirmError(old(items), id, approver) && items == Confirm(old(items), id, approver)
    {
      if id !in items { return Some(UnknownItem(id)); }
      var (payload, state) := items[id];
      if !state.Asserted? { return Some(NotAsserted); }
      if state.preparer == approver { return Some(SameActor); }
      items := items[id := (payload, Confirmed(state.preparer, approver))];
      e := None;
    }

    method RejectItem(id: K, actor: ActorId, reason: string) returns (e: Option<DualControlError<K>>)
      modifies this
      ensures e == RejectError(old(items), id) && items == Reject(old(items), id, actor, reason)
    {
      if id !in items { return Some(UnknownItem(id)); }
      var (payload, state) := items[id];
      if Terminal(state) { return Some(NotAsserted); }
      items := items[id := (payload, Rejected(actor, reason))];
      e := None;
    }
  }
}

/** Batches of journal entries and the protocol that posts them. */
module Posting {
  import opened Prelude
  import opened Sorting
  import opened Filtering
  import opened DualControl

  /** The hash of a journal entry, of which only equality and order matter here. */
  type EntryHash = nat

  datatype Batch = Batch(tenant: string, targetGl: string, period: string, entries: seq<EntryHash>)

  /** A batch id is the hash of the batch; other digests are ids of nothing. */
  datatype BatchId = IdOf(batch: Batch) | Stray(digest: nat)

  /** The hash of a raw response or read-back. */
  datatype Evidence = Digest(payload: string)

  type GlRef = nat

  datatype PostingState =
    | AwaitingApproval
    | ReadyToSubmit
    | Submitting
    | Posted(glRef: GlRef, response: Evidence)
    | Unknown
    | Verified(verifiedRef: GlRef, readback: Evidence)
    | VerificationFailed(missing: seq<EntryHash>, unexpected: seq<EntryHash>, readback: Evidence)

  datatype PostingError = UnknownBatch(id: BatchId) | InvalidTransition | Approvals(e: DualControlError<BatchId>)

  datatype Protocol = Protocol(approvals: Items<BatchId, Batch>, states: map<BatchId, PostingState>)

  // ------------------------------------------------------------------------------
  // Sets of entries as sorted lists without repetitions.

  predicate HashLeq(a: EntryHash, b: EntryHash) { a <= b }

  /** `dedup`: drops every element equal to the one before it. */
  function Dedup(xs: seq<EntryHash>): seq<EntryHash> {
    if |xs| <= 1 then xs else if xs[0] == xs[1] then Dedup(xs[1..]) else [xs[0]] + Dedup(xs[1..])
  }

  function SortedSet(xs: seq<EntryHash>): seq<EntryHash> { Dedup(SortBy(xs, HashLeq)) }

  function Fingerprint(batch: Batch): seq<EntryHash> { SortedSet(batch.entries) }

  function Without(xs: seq<EntryHash>, ys: seq<EntryHash>): seq<EntryHash> {
    Filter(SortedSet(xs), (x: EntryHash) => x !in ys)
  }

  // ------------------------------------------------------------------------------
  // Transitions.

  function Register(p: Protocol, batch: Batch, preparer: ActorId): Protocol {
    var id := IdOf(batch);
    Protocol(
      Propose(p.approvals, id, batch, preparer),
      if id in p.states then p.states else p.states[id := AwaitingApproval])
  }

  /** The approval is confirmed first, whatever the posting state then says. */
  function Release(p: Protocol, id: BatchId, approver: ActorId): (Protocol, Option<PostingError>) {
    match ConfirmError(p.approvals, id, approver)
    case Some(e) => (p, Some(Approvals(e)))
    case None =>
      var p' := p.(approvals := Confirm(p.approvals, id, approver));
      if id !in p.states then (p', Some(UnknownBatch(id)))
      else if p.states[id] != AwaitingApproval then (p', Some(InvalidTransition))
      else (p'.(states := p.states[id := ReadyToSubmit]), None)
  }

  /** Moves a batch from one state to another. */
  function Move(p: Protocol, id: BatchId, from: PostingState, to: PostingState): (Protocol, Option<PostingError>) {
    if id !in p.states then (p, Some(UnknownBatch(id)))
    else if p.states[id] != from then (p, Some(InvalidTransition))
    else (p.(states := p.states[id := to]), None)
  }

  function BeginSubmit(p: Protocol, id: BatchId): (Protocol, Option<PostingError>) {
    Move(p, id, ReadyToSubmit, Submitting)
  }

  function ConfirmPosted(p: Protocol, id: BatchId, glRef: GlRef, response: Evidence): (Protocol, Option<PostingError>) {
    Move(p, id, Submitting, Posted(glRef, response))
  }

  function ReportUnknown(p: Protocol, id: BatchId): (Protocol, Option<PostingError>) {
    Move(p, id, Submitting, Unknown)
  }

  function ResolveUnknown(p: Protocol, id: BatchId, found: Option<(GlRef, Evidence)>): (Protocol, Option<PostingError>) {
    Move(p, id, Unknown, match found case Some(f) => Posted(f.0, f.1) case None => ReadyToSubmit)
  }

  /** The verdict of a two-way comparison. */
  function Verdict(glRef: GlRef, expected: seq<EntryHash>, seen: seq<EntryHash>, readback: Evidence): PostingState {
    var missing, unexpected := Without(expected, seen), Without(seen, expected);
    if missing == [] && unexpected == [] then Verified(glRef, readback)
    else VerificationFailed(missing, unexpected, readback)
  }

  function Verify(p: Protocol, id: BatchId, seen: seq<EntryHash>, readback: Evidence): (Protocol, Option<PostingError>) {
    if id !in p.approvals then (p, Some(UnknownBatch(id)))
    else if id !in p.states then (p, Some(UnknownBatch(id)))
    else if !p.states[id].Posted? then (p, Some(InvalidTransition))
    else (p.(states := p.states[id := Verdict(p.states[id].glRef, Fingerprint(p.approvals[id].0), seen, readback)]), None)
  }

  class PostingProtocol {
    const approvals: DualControlQueue<BatchId, Batch>
    var states: map<BatchId, PostingState>

    ghost function Value(): Protocol reads this, approvals { Protocol(approvals.items, states) }

    constructor ()
      ensures Value() == Protocol(map[], map[]) && fresh(approvals)
    {
      approvals := new DualControlQueue<BatchId, Batch>();
      states := map[];
    }

    method RegisterBatch(batch: Batch, preparer: ActorId) returns (id: BatchId)
      modifies this, approvals
      ensures id == IdOf(batch) && Value() == Register(old(Value()), batch, preparer)
    {
      id := IdOf(batch);
      approvals.ProposeItem(id, batch, preparer);
      if id !in states { states := states[id := AwaitingApproval]; }
    }

    method ReleaseBatch(id: BatchId, approver: ActorId) returns (e: Option<PostingError>)
      modifies this, approvals
      ensures (Value(), e) == Release(old(Value()), id, approver)
    {
      var refused := approvals.ConfirmItem(id, approver);
      if refused.Some? { return Some(Approvals(refused.value)); }
      e := MoveBatch(id, AwaitingApproval, ReadyToSubmit);
    }

    method MoveBatch(id: BatchId, from: PostingState, to: PostingState) returns (e: Option<PostingError>)
      modifies this
      ensures (Value(), e) == Move(old(Value()), id, from, to)
    {
      if id !in states { return Some(UnknownBatch(id)); }
      if states[id] != from { return Some(InvalidTransition); }
      states := states[id := to];
      e := None;
    }

    method Begin(id: BatchId) returns (e: Option<PostingError>)
      modifies this
      ensures (Value(), e) == BeginSubmit(old(Value()), id)
    {
      e := MoveBatch(id, ReadyToSubmit, Submitting);
    }

    method Acknowledged(id: BatchId, glRef: GlRef, response: Evidence) returns (e: Option<PostingError>)
      modifies this
      ensures (Value(), e) == ConfirmPosted(old(Value()), id, glRef, response)
    {
      e := MoveBatch(id, Submitting, Posted(glRef, response));
    }

    method OutcomeUnknown(id: BatchId) returns (e: Option<PostingError>)
      modifies this
      ensures (Value(), e) == ReportUnknown(old(Value()), id)
    {
      e := MoveBatch(id, Submitting, Unknown);
    }

    method Resolve(id: BatchId, found: Option<(GlRef, Evidence)>) returns (e: Option<PostingError>)
      modifies this
      ensures (Value(), e) == ResolveUnknown(old(Value()), id, found)
    {
      var to := match found case Some(f) => Posted(f.0, f.1) case None => ReadyToSubmit;
      e := MoveBatch(id, Unknown, to);
    }

    method VerifyBatch(id: BatchId, seen: seq<EntryHash>, readback: Evidence) returns (e: Option<PostingError>)
      modifies this
      ensures (Value(), e) == Verify(old(Value()), id, seen, readback)
    {
      if id !in approvals.items { return Some(UnknownBatch(id)); }
      var expected := Fingerprint(approvals.items[id].0);
      if id !in states { return Some(UnknownBatch(id)); }
      if !states[id].Posted? { return Some(InvalidTransition); }
      var missing := Without(expected, seen);
      var unexpected := Without(seen, expected);
      if missing == [] && unexpected == [] {
        states := states[id := Verified(states[id].glRef, readback)];
      } else {
        states := states[id := VerificationFailed(missing, unexpected, readback)];
      }
      e := None;
    }
  }
}

/** The ledger posted to: idempotent on the batch id, with faults injected on demand. */
module GeneralLedger {
  import opened Prelude
  import opened Posting

  datatype Fault =
    | AckLostButPosted
    | AckLostNotPosted
    | DropOneEntryOnReadback
    | ExtraEntryOnReadback(entry: EntryHash)
    | Transport

  datatype PostedRecord = PostedRecord(glRef: GlRef, entries: seq<EntryHash>, dropOne: bool, extra: Option<EntryHash>)

  datatype SubmitOutcome = Acknowledged(glRef: GlRef, rawResponse: string) | AckLost
  datatype GlError = TransportError
  datatype Readback = Readback(glRef: Option<GlRef>, entries: seq<EntryHash>, rawPayload: string)

  datatype Gl = Gl(posted: map<BatchId, PostedRecord>, nextFault: Option<Fault>, sequence: U64)

  const ACK := "fixture-ack"
  const READBACK := "fixture-readback"
  const READBACK_ABSENT := "fixture-readback-absent"

  function NextRef(sequence: U64): U64 { if sequence == U64_MAX then U64_MAX else sequence + 1 }

  function MakeRecord(gl: Gl, batch: Batch): PostedRecord {
    PostedRecord(
      NextRef(gl.sequence), Fingerprint(batch), gl.nextFault == Some(DropOneEntryOnReadback),
      if gl.nextFault.Some? && gl.nextFault.value.ExtraEntryOnReadback? then Some(gl.nextFault.value.entry) else None)
  }

  /** One record per id: a repeated submission changes nothing. */
  function Hold(gl: Gl, id: BatchId, batch: Batch): Gl {
    if id in gl.posted then gl
    else gl.(posted := gl.posted[id := MakeRecord(gl, batch)], sequence := NextRef(gl.sequence))
  }

  function Submit(gl: Gl, batch: Batch, id: BatchId): (Gl, Result<SubmitOutcome, GlError>) {
    var calm := gl.(nextFault := None);
    match gl.nextFault
    case Some(Transport) => (calm, Err(TransportError))
    case Some(AckLostNotPosted) => (calm, Ok(AckLost))
    case Some(AckLostButPosted) => (Hold(calm, id, batch), Ok(AckLost))
    case _ =>
      var held := Hold(gl, id, batch);
      (held.(nextFault := None), Ok(Acknowledged(held.posted[id].glRef, ACK)))
  }

  /** The entries the ledger shows for a record. */
  function Shown(r: PostedRecord): seq<EntryHash> {
    (if r.dropOne && r.entries != [] then r.entries[..|r.entries| - 1] else r.entries)
    + (if r.extra.Some? then [r.extra.value] else [])
  }

  function ReadBack(gl: Gl, id: BatchId): Readback {
    if id !in gl.posted then Readback(None, [], READBACK_ABSENT)
    else Readback(Some(gl.posted[id].glRef), Shown(gl.posted[id]), READBACK)
  }

  class FixtureGl {
    var posted: map<BatchId, PostedRecord>
    var nextFault: Option<Fault>
    var sequence: U64

    ghost function Value(): Gl reads this { Gl(posted, nextFault, sequence) }

    constructor ()
      ensures Value() == Gl(map[], None, 0)
    {
      posted, nextFault, sequence := map[], None, 0;
    }

    method Inject(fault: Fault)
      modifies this
      ensures Value() == old(Value()).(nextFault := Some(fault))
    {
      nextFault := Some(fault);
    }

    method RecordBatch(id: BatchId, batch: Batch) returns (glRef: GlRef)
      modifies this
      ensures Value() == Hold(old(Value()), id, batch) && glRef == Value().posted[id].glRef
    {
      if id in posted { return posted[id].glRef; }
      var entries := Fingerprint(batch);
      if sequence < U64_MAX { sequence := sequence + 1; }
      glRef := sequence;
      var dropOne, extra := false, None;
      if nextFault == Some(DropOneEntryOnReadback) {
        dropOne := true;
      } else if nextFault.Some? && nextFault.value.ExtraEntryOnReadback? {
        extra := Some(nextFault.value.entry);
      }
      posted := posted[id := PostedRecord(glRef, entries, dropOne, extra)];
    }

    method SubmitBatch(batch: Batch, id: BatchId) returns (r: Result<SubmitOutcome, GlError>)
      modifies this
      ensures (Value(), r) == Submit(old(Value()), batch, id)
    {
      var fault := nextFault;
      nextFault := None;
      match fault {
        case Some(Transport) => return Err(TransportError);
        case Some(AckLostNotPosted) => return Ok(AckLost);
        case Some(AckLostButPosted) =>
          var glRef := RecordBatch(id, batch);
          return Ok(AckLost);
        case _ =>
          nextFault := fault;
          var glRef := RecordBatch(id, batch);
          nextFault := None;
          return Ok(Acknowledged(glRef, ACK));
      }
    }

    method Read(id: BatchId) returns (r: Readback)
      ensures r == ReadBack(Value(), id)
    {
      if id !in posted { return Readback(None, [], READBACK_ABSENT); }
      var record := posted[id];
      var hashes := record.entries;
      if record.dropOne && hashes != [] { hashes := hashes[..|hashes| - 1]; }
      if record.extra.Some? { hashes := hashes + [record.extra.value]; }
      r := Readback(Some(record.glRef), hashes, READBACK);
    }
  }
}

/** Driving one batch through the protocol against the ledger. */
module Drive {
  import opened Prelude
  import opened DualControl
  import opened Posting
  import opened GeneralLedger

  datatype DriveOutcome =
    | DroveVerified(glRef: GlRef)
    | DroveFailed(missing: seq<EntryHash>, unexpected: seq<EntryHash>)
    | RetryableNotPosted

  datatype DriveError = ProtocolError(p: PostingError) | LedgerError(g: GlError) | Unexpected

  datatype Driven = Driven(protocol: Protocol, gl: Gl, result: Result<DriveOutcome, DriveError>)

  /** The state a posted batch is left in, as an outcome. */
  function OutcomeOf(p: Protocol, id: BatchId): Result<DriveOutcome, DriveError> {
    if id !in p.states then Err(Unexpected)
    else match p.states[id]
      case Verified(glRef, _) => Ok(DroveVerified(glRef))
      case VerificationFailed(missing, unexpected, _) => Ok(DroveFailed(missing, unexpected))
      case _ => Err(Unexpected)
  }

  function DriveVerify(p: Protocol, gl: Gl, id: BatchId): Driven {
    var back := ReadBack(gl, id);
    match Verify(p, id, back.entries, Digest(back.rawPayload))
    case (p', Some(e)) => Driven(p', gl, Err(ProtocolError(e)))
    case (p', None) => Driven(p', gl, OutcomeOf(p', id))
  }

  /** After a lost acknowledgement: only what the ledger shows decides. */
  function DriveUnknown(p: Protocol, gl: Gl, id: BatchId): Driven {
    match ReportUnknown(p, id)
    case (p1, Some(e)) => Driven(p1, gl, Err(ProtocolError(e)))
    case (p1, None) =>
      var back := ReadBack(gl, id);
      var found := match back.glRef case Some(r) => Some((r, Digest(back.rawPayload))) case None => None;
      match ResolveUnknown(p1, id, found)
      case (p2, Some(e)) => Driven(p2, gl, Err(ProtocolError(e)))
      case (p2, None) => if found.None? then Driven(p2, gl, Ok(RetryableNotPosted)) else DriveVerify(p2, gl, id)
  }

  /** From the release on. */
  function DriveSubmit(p: Protocol, gl: Gl, batch: Batch): Driven {
    match BeginSubmit(p, IdOf(batch))
    case (p1, Some(e)) => Driven(p1, gl, Err(ProtocolError(e)))
    case (p1, None) => DriveSubmitting(p1, gl, batch)
  }

  /** The submission itself and what follows from its outcome. */
  function DriveSubmitting(p: Protocol, gl: Gl, batch: Batch): Driven {
    var id := IdOf(batch);
    match Submit(gl, batch, id)
    case (gl', Err(e)) => Driven(p, gl', Err(LedgerError(e)))
    case (gl', Ok(AckLost)) => DriveUnknown(p, gl', id)
    case (gl', Ok(Acknowledged(glRef, raw))) =>
      match ConfirmPosted(p, id, glRef, Digest(raw))
      case (p', Some(e)) => Driven(p', gl', Err(ProtocolError(e)))
      case (p', None) => DriveVerify(p', gl', id)
  }

  function DriveBatch(p: Protocol, gl: Gl, batch: Batch, preparer: ActorId, approver: ActorId): Driven {
    match Release(Register(p, batch, preparer), IdOf(batch), approver)
    case (p1, Some(e)) => Driven(p1, gl, Err(ProtocolError(e)))
    case (p1, None) => DriveSubmit(p1, gl, batch)
  }

  method VerifyPosted(protocol: PostingProtocol, gl: FixtureGl, id: BatchId) returns (r: Result<DriveOutcome, DriveError>)
    modifies protocol
    ensures Driven(protocol.Value(), gl.Value(), r) == DriveVerify(old(protocol.Value()), old(gl.Value()), id)
  {
    var back := gl.Read(id);
    var e := protocol.VerifyBatch(id, back.entries, Digest(back.rawPayload));
    if e.Some? { return Err(ProtocolError(e.value)); }
    r := OutcomeOf(Protocol(protocol.approvals.items, protocol.states), id);
  }

  method RecoverUnknown(protocol: PostingProtocol, gl: FixtureGl, id: BatchId) returns (r: Result<DriveOutcome, DriveError>)
    modifies protocol
    ensures Driven(protocol.Value(), gl.Value(), r) == DriveUnknown(old(protocol.Value()), old(gl.Value()), id)
  {
    var e := protocol.OutcomeUnknown(id);
    if e.Some? { return Err(ProtocolError(e.value)); }
    var back := gl.Read(id);
    var found := match back.glRef case Some(f) => Some((f, Digest(back.rawPayload))) case None => None;
    e := protocol.Resolve(id, found);
    if e.Some? { return Err(ProtocolError(e.value)); }
    if found.None? { return Ok(RetryableNotPosted); }
    r := VerifyPosted(protocol, gl, id);
  }

  method SubmitReleased(protocol: PostingProtocol, gl: FixtureGl, batch: Batch) returns (r: Result<DriveOutcome, DriveError>)
    modifies protocol, gl
    ensures Driven(protocol.Value(), gl.Value(), r) == DriveSubmit(old(protocol.Value()), old(gl.Value()), batch)
  {
    var id := IdOf(batch);
    var e := protocol.Begin(id);
    if e.Some? { return Err(ProtocolError(e.value)); }
    var submitted := gl.SubmitBatch(batch, id);
    if submitted.Err? { return Err(LedgerError(submitted.error)); }
    if submitted.value.AckLost? {
      r := RecoverUnknown(protocol, gl, id);
    } else {
      e := protocol.Acknowledged(id, submitted.value.glRef, Digest(submitted.value.rawResponse));
      if e.Some? { return Err(ProtocolError(e.value)); }
      r := VerifyPosted(protocol, gl, id);
    }
  }

  /** The whole lifecycle of one batch. */
  method PostBatch(protocol: PostingProtocol, gl: FixtureGl, batch: Batch, preparer: ActorId, approver: ActorId)
    returns (r: Result<DriveOutcome, DriveError>)
    modifies protocol, protocol.approvals, gl
    ensures Driven(protocol.Value(), gl.Value(), r)
         == DriveBatch(old(protocol.Value()), old(gl.Value()), batch, preparer, approver)
  {
    var id := protocol.RegisterBatch(batch, preparer);
    var e := protocol.ReleaseBatch(id, approver);
    if e.Some? { return Err(ProtocolError(e.value)); }
    r := SubmitReleased(protocol, gl, batch);
  }
}

/** Driving batches against the fixture ledger is a run of the posting protocol, so every
    session inherits the guarantees of runs; and what one drive ends in, fault by fault. */
module PostingDrive {
  import opened Prelude
  import opened DualControl
  import opened Posting
  import opened GeneralLedger
  import opened Drive
  import opened PostingTheory

  function RecordOf(id: BatchId, r: PostedRecord): Record { Record(id, r.glRef, Shown(r)) }

  /** The journal lists what the fixture holds. */
  ghost predicate Abstracts(journal: seq<Record>, gl: Gl) {
    forall id :: Lookup(journal, id) == if id in gl.posted then Some(RecordOf(id, gl.posted[id])) else None
  }

  lemma HoldIsLanding(journal: seq<Record>, gl: Gl, batch: Batch)
    requires Abstracts(journal, gl)
    ensures Abstracts(Land(journal, RecordOf(IdOf(batch), MakeRecord(gl, batch))), Hold(gl, IdOf(batch), batch))
  {
    var r := RecordOf(IdOf(batch), MakeRecord(gl, batch));
    var gl' := Hold(gl, IdOf(batch), batch);
    forall id
      ensures Lookup(Land(journal, r), id) == if id in gl'.posted then Some(RecordOf(id, gl'.posted[id])) else None
    {
      LookupAfter(journal, r, id);
    }
  }

  /** The steps lead from `w` to the protocol and ledger that a drive ends with. */
  ghost predicate Leads(w: World, steps: seq<Step>, d: Driven) {
    var w' := Run(w, steps);
    w'.protocol == d.protocol && Abstracts(w'.journal, d.gl)
  }

  lemma LeadsThrough(w: World, first: seq<Step>, rest: seq<Step>, d: Driven)
    requires Leads(Run(w, first), rest, d)
    ensures Leads(w, first + rest, d)
  {
    RunAppend(w, first, rest);
  }

  lemma VerifyIsARun(w: World, gl: Gl, id: BatchId) returns (steps: seq<Step>)
    requires Abstracts(w.journal, gl)
    ensures Leads(w, steps, DriveVerify(w.protocol, gl, id))
  {
    var step := Verifies(id, ReadBack(gl, id).rawPayload);
    assert ReadBack(gl, id).entries == ShownFor(w.journal, id);
    RunOne(w, step);
    steps := [step];
  }

  lemma UnknownIsARun(w: World, gl: Gl, id: BatchId) returns (steps: seq<Step>)
    requires Abstracts(w.journal, gl)
    ensures Leads(w, steps, DriveUnknown(w.protocol, gl, id))
  {
    var lost := LosesAck(id);
    var w1 := Take(w, lost);
    RunOne(w, lost);
    if ReportUnknown(w.protocol, id).1.Some? {
      steps := [lost];
    } else {
      var raw := ReadBack(gl, id).rawPayload;
      var w2 := Take(w1, ReadsBack(id, raw));
      RunOne(w1, ReadsBack(id, raw));
      RunAppend(w, [lost], [ReadsBack(id, raw)]);
      var both := [lost] + [ReadsBack(id, raw)];
      assert Run(w, both) == w2;
      if id in gl.posted {
        var more := VerifyIsARun(w2, gl, id);
        LeadsThrough(w, both, more, DriveUnknown(w.protocol, gl, id));
        steps := both + more;
      } else {
        steps := both;
      }
    }
  }

  lemma AckIsARun(w: World, gl: Gl, id: BatchId) returns (steps: seq<Step>)
    requires Abstracts(w.journal, gl) && id in gl.posted
    requires id in w.protocol.states && w.protocol.states[id].Submitting?
    ensures Leads(w, steps, DriveVerify(ConfirmPosted(w.protocol, id, gl.posted[id].glRef, Digest(ACK)).0, gl, id))
  {
    var ack := Acks(id, ACK);
    RunOne(w, ack);
    var w1 := Take(w, ack);
    var more := VerifyIsARun(w1, gl, id);
    LeadsThrough(w, [ack], more, DriveVerify(w1.protocol, gl, id));
    steps := [ack] + more;
  }

  /** Whether the fault that is armed keeps a submission from arriving. */
  ghost predicate Blocked(gl: Gl) { gl.nextFault == Some(Transport) || gl.nextFault == Some(AckLostNotPosted) }

  lemma SubmitHolds(gl: Gl, batch: Batch) returns (at: Gl)
    requires !Blocked(gl)
    ensures at.posted == gl.posted
    ensures Submit(gl, batch, IdOf(batch)).0.posted == Hold(at, IdOf(batch), batch).posted
  {
    if gl.nextFault == Some(AckLostButPosted) {
      at := gl.(nextFault := None);
      assert Submit(gl, batch, IdOf(batch)).0 == Hold(at, IdOf(batch), batch);
    } else {
      at := gl;
      assert Submit(gl, batch, IdOf(batch)).0 == Hold(gl, IdOf(batch), batch).(nextFault := None);
    }
  }

  /** What the fixture does with a batch in flight. */
  lemma LandingIsARun(w: World, gl: Gl, batch: Batch) returns (steps: seq<Step>)
    requires Abstracts(w.journal, gl) && batch in w.flight
    ensures Run(w, steps).protocol == w.protocol
    ensures Abstracts(Run(w, steps).journal, Submit(gl, batch, IdOf(batch)).0)
  {
    if Blocked(gl) {
      steps := [];
    } else {
      var at := SubmitHolds(gl, batch);
      HoldIsLanding(w.journal, at, batch);
      var r := RecordOf(IdOf(batch), MakeRecord(at, batch));
      steps := [Lands(batch, r.glRef, r.shown)];
      RunOne(w, steps[0]);
    }
  }

  lemma AfterSubmit(w: World, gl: Gl, batch: Batch) returns (steps: seq<Step>)
    requires Abstracts(w.journal, Submit(gl, batch, IdOf(batch)).0)
    requires IdOf(batch) in w.protocol.states && w.protocol.states[IdOf(batch)].Submitting?
    ensures var id, (gl', r) := IdOf(batch), Submit(gl, batch, IdOf(batch));
      && (r.Err? ==> steps == [])
      && (r.Ok? && r.value.AckLost? ==> Leads(w, steps, DriveUnknown(w.protocol, gl', id)))
      && (r.Ok? && r.value.Acknowledged? ==>
        Leads(w, steps, DriveVerify(ConfirmPosted(w.protocol, id, r.value.glRef, Digest(r.value.rawResponse)).0, gl', id)))
  {
    var (gl', r) := Submit(gl, batch, IdOf(batch));
    if r.Err? {
      steps := [];
    } else if r.value.AckLost? {
      steps := UnknownIsARun(w, gl', IdOf(batch));
    } else {
      steps := AckIsARun(w, gl', IdOf(batch));
    }
  }

  lemma SubmitIsARun(w: World, gl: Gl, batch: Batch) returns (steps: seq<Step>)
    requires Abstracts(w.journal, gl)
    ensures Leads(w, steps, DriveSubmit(w.protocol, gl, batch))
  {
    var d, w1 := DriveSubmit(w.protocol, gl, batch), Take(w, Sends(batch));
    RunOne(w, Sends(batch));
    if BeginSubmit(w.protocol, IdOf(batch)).1.Some? {
      steps := [Sends(batch)];
    } else {
      var landing := LandingIsARun(w1, gl, batch);
      var w2 := Run(w1, landing);
      var more := AfterSubmit(w2, gl, batch);
      assert Leads(w2, more, d);
      LeadsThrough(w1, landing, more, d);
      LeadsThrough(w, [Sends(batch)], landing + more, d);
      steps := [Sends(batch)] + (landing + more);
    }
  }

  /** One drive of a batch is a run of the protocol. */
  lemma DriveIsARun(w: World, gl: Gl, batch: Batch, preparer: ActorId, approver: ActorId) returns (steps: seq<Step>)
    requires Abstracts(w.journal, gl)
    ensures Leads(w, steps, DriveBatch(w.protocol, gl, batch, preparer, approver))
  {
    var d := DriveBatch(w.protocol, gl, batch, preparer, approver);
    var registers, releases := Registers(batch, preparer), Releases(IdOf(batch), approver);
    var w1 := Take(w, registers);
    var w2 := Take(w1, releases);
    RunOne(w, registers);
    RunOne(w1, releases);
    RunAppend(w, [registers], [releases]);
    var both := [registers] + [releases];
    if Release(w1.protocol, IdOf(batch), approver).1.Some? {
      steps := both;
    } else {
      var more := SubmitIsARun(w2, gl, batch);
      LeadsThrough(w, both, more, d);
      steps := both + more;
    }
  }

  // ------------------------------------------------------------------------------
  // Sessions.

  datatype Call = Injects(fault: Fault) | Drives(batch: Batch, preparer: ActorId, approver: ActorId)

  function Session(p: Protocol, gl: Gl, calls: seq<Call>): (Protocol, Gl)
    decreases |calls|
  {
    if calls == [] then (p, gl)
    else match calls[0]
      case Injects(fault) => Session(p, gl.(nextFault := Some(fault)), calls[1..])
      case Drives(batch, preparer, approver) =>
        var d := DriveBatch(p, gl, batch, preparer, approver);
        Session(d.protocol, d.gl, calls[1..])
  }

  lemma {:induction false} SessionIsARun(w: World, gl: Gl, calls: seq<Call>) returns (steps: seq<Step>)
    requires Abstracts(w.journal, gl)
    ensures var (p', gl') := Session(w.protocol, gl, calls);
      Run(w, steps).protocol == p' && Abstracts(Run(w, steps).journal, gl')
    decreases |calls|
  {
    if calls == [] {
      steps := [];
    } else {
      match calls[0]
      case Injects(fault) =>
        steps := SessionIsARun(w, gl.(nextFault := Some(fault)), calls[1..]);
      case Drives(batch, preparer, approver) =>
        var d := DriveBatch(w.protocol, gl, batch, preparer, approver);
        var first := DriveIsARun(w, gl, batch, preparer, approver);
        var rest := SessionIsARun(Run(w, first), d.gl, calls[1..]);
        RunAppend(w, first, rest);
        steps := first + rest;
    }
  }

  /** After any session of drives and injected faults, for every batch id: beyond approval
      there are two different actors; posted or verified means held under that reference;
      verified means the ledger shows exactly the entries of the batch. */
  lemma SessionsAreSafe(calls: seq<Call>, id: BatchId)
    ensures var (p, gl) := Session(Protocol(map[], map[]), Gl(map[], None, 0), calls);
      && (id in gl.posted ==> id in p.states)
      && (id in p.states ==>
        && id in p.approvals && id == IdOf(p.approvals[id].0)
        && (p.states[id].AwaitingApproval? <==> p.approvals[id].1.Asserted?)
        && (!p.states[id].AwaitingApproval? ==>
          p.approvals[id].1.Confirmed? && p.approvals[id].1.confirmedFor != p.approvals[id].1.approver)
        && (p.states[id].Posted? ==> id in gl.posted && gl.posted[id].glRef == p.states[id].glRef)
        && (p.states[id].Verified? ==>
          && id in gl.posted && gl.posted[id].glRef == p.states[id].verifiedRef
          && SameSet(id.batch.entries, Shown(gl.posted[id]))))
  {
    var empty := Gl(map[], None, 0);
    var steps := SessionIsARun(START, empty, calls);
    PostingIsSafe(steps);
    var w := Run(START, steps);
    assert BatchOk(w, id, steps);
    if Lookup(w.journal, id).Some? { HeldIsKnown(w, steps, id); }
  }

  lemma {:induction false} LookupHit(journal: seq<Record>, id: BatchId) returns (i: nat)
    requires Lookup(journal, id).Some?
    ensures i < |journal| && journal[i].id == id
  {
    if journal[|journal| - 1].id == id { i := |journal| - 1; } else { i := LookupHit(journal[..|journal| - 1], id); }
  }

  lemma HeldIsKnown(w: World, history: seq<Step>, id: BatchId)
    requires Inv(w, history) && Lookup(w.journal, id).Some?
    ensures id in w.protocol.states
  {
    var i := LookupHit(w.journal, id);
    assert Approved(w, IdOf(w.journal[i].id.batch));
  }

  // ------------------------------------------------------------------------------
  // What one drive ends in.

  ghost predicate Fresh(p: Protocol, gl: Gl, batch: Batch) {
    IdOf(batch) !in p.approvals && IdOf(batch) !in p.states && IdOf(batch) !in gl.posted
  }

  lemma DroppedShows(batch: Batch)
    ensures var fp := Fingerprint(batch);
      SameSet(batch.entries, if fp != [] then fp[..|fp| - 1] else fp) <==> batch.entries == []
  {
    var fp := Fingerprint(batch);
    SortedSetExact(batch.entries);
    if batch.entries != [] { assert batch.entries[0] in fp; }
    if fp != [] {
      var last := fp[|fp| - 1];
      assert last in fp && last in batch.entries;
      assert last !in fp[..|fp| - 1];
    }
  }

  lemma ExtraShows(batch: Batch, extra: EntryHash)
    ensures SameSet(batch.entries, Fingerprint(batch) + [extra]) <==> extra in batch.entries
  {
    SortedSetExact(batch.entries);
    assert extra in Fingerprint(batch) + [extra];
  }

  lemma ShownExact(gl: Gl, batch: Batch)
    ensures var r := MakeRecord(gl, batch);
      SameSet(batch.entries, Shown(r)) <==>
        && (gl.nextFault == Some(DropOneEntryOnReadback) ==> batch.entries == [])
        && (gl.nextFault.Some? && gl.nextFault.value.ExtraEntryOnReadback? ==> gl.nextFault.value.entry in batch.entries)
  {
    var r := MakeRecord(gl, batch);
    SortedSetExact(batch.entries);
    if r.dropOne {
      DroppedShows(batch);
      assert Shown(r) == if r.entries != [] then r.entries[..|r.entries| - 1] else r.entries;
    } else if r.extra.Some? {
      ExtraShows(batch, r.extra.value);
    } else {
      assert Shown(r) == Fingerprint(batch);
    }
  }

  lemma HonestVerdict(p: Protocol, gl: Gl, batch: Batch)
    requires IdOf(batch) in p.states && p.states[IdOf(batch)].Posted?
    requires IdOf(batch) in p.approvals && p.approvals[IdOf(batch)].0 == batch && IdOf(batch) in gl.posted
    ensures var d := DriveVerify(p, gl, IdOf(batch));
      && d.gl == gl && d.result.Ok?
      && IdOf(batch) in d.protocol.states
      && var shown, r := Shown(gl.posted[IdOf(batch)]), d.result.value;
      && (SameSet(batch.entries, shown) ==> r == DroveVerified(p.states[IdOf(batch)].glRef))
      && (!SameSet(batch.entries, shown) ==>
        r.DroveFailed? && Differences(r.missing, r.unexpected, batch.entries, shown))
  {
    VerdictExact(p.states[IdOf(batch)].glRef, batch, Shown(gl.posted[IdOf(batch)]), Digest(READBACK));
  }

  /** The conditions under which a first drive of a batch ends verified. */
  predicate ShowsTruly(fault: Option<Fault>, batch: Batch) {
    match fault
    case None => true
    case Some(AckLostButPosted) => true
    case Some(AckLostNotPosted) => false
    case Some(Transport) => false
    case Some(DropOneEntryOnReadback) => batch.entries == []
    case Some(ExtraEntryOnReadback(entry)) => entry in batch.entries
  }

  ghost predicate InFlight(p: Protocol, gl: Gl, batch: Batch) {
    var id := IdOf(batch);
    && id in p.approvals && p.approvals[id].0 == batch && id in p.states && p.states[id].Submitting?
    && id !in gl.posted
  }

  /** What a drive `d` must have ended in, given the ledger `gl` before it. */
  ghost predicate EndsWell(d: Driven, gl: Gl, batch: Batch) {
    var id := IdOf(batch);
    && id in d.protocol.states && d.gl.nextFault.None?
    && (gl.nextFault == Some(Transport) <==> d.result == Err(LedgerError(TransportError)))
    && (gl.nextFault == Some(Transport) ==> d.protocol.states[id].Submitting? && d.gl.posted == gl.posted)
    && (gl.nextFault == Some(AckLostNotPosted) <==> d.result == Ok(RetryableNotPosted))
    && (gl.nextFault == Some(AckLostNotPosted) ==> d.protocol.states[id].ReadyToSubmit? && d.gl.posted == gl.posted)
    && (ShowsTruly(gl.nextFault, batch) <==> d.result == Ok(DroveVerified(NextRef(gl.sequence))))
    && (gl.nextFault != Some(Transport) ==> d.result.Ok?)
    && (d.result.Ok? && d.result.value.DroveFailed? ==>
      && id in d.gl.posted
      && Differences(d.result.value.missing, d.result.value.unexpected, batch.entries, Shown(d.gl.posted[id])))
  }

  lemma BlockedDrive(p: Protocol, gl: Gl, batch: Batch)
    requires InFlight(p, gl, batch) && Blocked(gl)
    ensures EndsWell(DriveSubmitting(p, gl, batch), gl, batch)
  {
  }

  /** The batch is posted in `p` and `gl` holds it as the armed fault shapes it. */
  ghost predicate JustPosted(p: Protocol, gl: Gl, armed: Gl, batch: Batch) {
    var id := IdOf(batch);
    && id in p.approvals && p.approvals[id].0 == batch
    && id in p.states && p.states[id].Posted? && p.states[id].glRef == NextRef(armed.sequence)
    && id in gl.posted && gl.posted[id] == MakeRecord(armed, batch) && gl.nextFault.None?
  }

  lemma LostAckDrive(p: Protocol, gl: Gl, batch: Batch) returns (p': Protocol, gl': Gl)
    requires InFlight(p, gl, batch) && gl.nextFault == Some(AckLostButPosted)
    ensures JustPosted(p', gl', gl, batch)
    ensures DriveSubmitting(p, gl, batch) == DriveVerify(p', gl', IdOf(batch))
  {
    var id := IdOf(batch);
    gl' := Submit(gl, batch, id).0;
    p' := ResolveUnknown(ReportUnknown(p, id).0, id, Some((gl'.posted[id].glRef, Digest(READBACK)))).0;
  }

  lemma AckedDrive(p: Protocol, gl: Gl, batch: Batch) returns (p': Protocol, gl': Gl)
    requires InFlight(p, gl, batch) && !Blocked(gl) && gl.nextFault != Some(AckLostButPosted)
    ensures JustPosted(p', gl', gl, batch)
    ensures DriveSubmitting(p, gl, batch) == DriveVerify(p', gl', IdOf(batch))
  {
    var id := IdOf(batch);
    gl' := Submit(gl, batch, id).0;
    p' := ConfirmPosted(p, id, gl'.posted[id].glRef, Digest(ACK)).0;
  }

  lemma TruthIsShown(gl: Gl, batch: Batch)
    requires !Blocked(gl)
    ensures SameSet(batch.entries, Shown(MakeRecord(gl, batch))) <==> ShowsTruly(gl.nextFault, batch)
  {
    ShownExact(gl, batch);
  }

  lemma PostedDrive(p: Protocol, gl: Gl, armed: Gl, batch: Batch)
    requires JustPosted(p, gl, armed, batch) && !Blocked(armed)
    ensures EndsWell(DriveVerify(p, gl, IdOf(batch)), armed, batch)
  {
    TruthIsShown(armed, batch);
    HonestVerdict(p, gl, batch);
  }

  lemma FreshIsSubmitted(p: Protocol, gl: Gl, batch: Batch, preparer: ActorId, approver: ActorId) returns (p': Protocol)
    requires Fresh(p, gl, batch) && preparer != approver
    ensures InFlight(p', gl, batch)
    ensures DriveBatch(p, gl, batch, preparer, approver) == DriveSubmitting(p', gl, batch)
  {
    p' := BeginSubmit(Release(Register(p, batch, preparer), IdOf(batch), approver).0, IdOf(batch)).0;
  }

  /** A first drive, fault by fault. It never ends in an unexpected state; it reports a
      retry only when nothing was posted and the batch is ready again; it reports verified
      exactly when the ledger shows the entries of the batch, and otherwise names exactly
      the differences. */
  lemma FirstDriveOutcome(p: Protocol, gl: Gl, batch: Batch, preparer: ActorId, approver: ActorId)
    requires Fresh(p, gl, batch) && preparer != approver
    ensures EndsWell(DriveBatch(p, gl, batch, preparer, approver), gl, batch)
  {
    var p' := FreshIsSubmitted(p, gl, batch, preparer, approver);
    if Blocked(gl) {
      BlockedDrive(p', gl, batch);
    } else if gl.nextFault == Some(AckLostButPosted) {
      var p2, gl2 := LostAckDrive(p', gl, batch);
      PostedDrive(p2, gl2, gl, batch);
    } else {
      var p2, gl2 := AckedDrive(p', gl, batch);
      PostedDrive(p2, gl2, gl, batch);
    }
  }

  /** Exactly when a drive gets past the release: the batch is new to both the approvals and
      the states or still awaits approval in both, and the one who proposed it is not the
      one who releases it. */
  lemma ReleasePassesIff(p: Protocol, batch: Batch, preparer: ActorId, approver: ActorId)
    ensures var id := IdOf(batch);
      Release(Register(p, batch, preparer), id, approver).1.None? <==>
        && (id in p.states ==> p.states[id].AwaitingApproval?)
        && (id in p.approvals ==> p.approvals[id].1.Asserted? && p.approvals[id].1.preparer != approver)
        && (id !in p.approvals ==> preparer != approver)
  {
  }

  /** A batch that has left approval cannot be driven again: the second release is refused
      and nothing changes, also after an outcome that was reported as safe to retry. */
  lemma SecondDriveRefused(p: Protocol, gl: Gl, batch: Batch, preparer: ActorId, approver: ActorId)
    requires IdOf(batch) in p.approvals && Terminal(p.approvals[IdOf(batch)].1) && IdOf(batch) in p.states
    ensures DriveBatch(p, gl, batch, preparer, approver) == Driven(p, gl, Err(ProtocolError(Approvals(NotAsserted))))
  {
  }

  /** What a drive did to the approval of its batch, if it got past the release. */
  lemma DrivenIsConfirmed(p: Protocol, gl: Gl, batch: Batch, preparer: ActorId, approver: ActorId)
    requires Release(Register(p, batch, preparer), IdOf(batch), approver).1.None?
    ensures var d, id := DriveBatch(p, gl, batch, preparer, approver), IdOf(batch);
      id in d.protocol.approvals && d.protocol.approvals[id].1.Confirmed? && id in d.protocol.states
  {
    var p1 := Release(Register(p, batch, preparer), IdOf(batch), approver).0;
    SubmitKeepsApprovals(p1, gl, batch);
  }

  /** The two protocols have the same approvals and know the same batches. */
  ghost predicate SameApprovals(p: Protocol, p': Protocol) {
    p'.approvals == p.approvals && p'.states.Keys == p.states.Keys
  }

  lemma VerifyKeepsApprovals(p: Protocol, gl: Gl, id: BatchId)
    ensures SameApprovals(p, DriveVerify(p, gl, id).protocol)
  {
  }

  lemma MoveKeepsApprovals(p: Protocol, id: BatchId, from: PostingState, to: PostingState)
    ensures SameApprovals(p, Move(p, id, from, to).0)
  {
  }

  lemma UnknownKeepsApprovals(p: Protocol, gl: Gl, id: BatchId)
    ensures SameApprovals(p, DriveUnknown(p, gl, id).protocol)
  {
    var p1 := ReportUnknown(p, id).0;
    var back := ReadBack(gl, id);
    var found := match back.glRef case Some(r) => Some((r, Digest(back.rawPayload))) case None => None;
    var p2 := ResolveUnknown(p1, id, found).0;
    VerifyKeepsApprovals(p2, gl, id);
  }

  lemma SubmittingKeepsApprovals(p: Protocol, gl: Gl, batch: Batch)
    ensures SameApprovals(p, DriveSubmitting(p, gl, batch).protocol)
  {
    var id := IdOf(batch);
    var (gl', r) := Submit(gl, batch, id);
    if r.Ok? && r.value.AckLost? {
      UnknownKeepsApprovals(p, gl', id);
    } else if r.Ok? {
      VerifyKeepsApprovals(ConfirmPosted(p, id, r.value.glRef, Digest(r.value.rawResponse)).0, gl', id);
      MoveKeepsApprovals(p, id, Submitting, Posted(r.value.glRef, Digest(r.value.rawResponse)));
    }
  }

  lemma SubmitKeepsApprovals(p: Protocol, gl: Gl, batch: Batch)
    ensures SameApprovals(p, DriveSubmit(p, gl, batch).protocol)
  {
    MoveKeepsApprovals(p, IdOf(batch), ReadyToSubmit, Submitting);
    SubmittingKeepsApprovals(BeginSubmit(p, IdOf(batch)).0, gl, batch);
  }

  lemma RetryWasReleased(p: Protocol, gl: Gl, batch: Batch, preparer: ActorId, approver: ActorId)
    requires DriveBatch(p, gl, batch, preparer, approver).result == Ok(RetryableNotPosted)
    ensures Release(Register(p, batch, preparer), IdOf(batch), approver).1.None?
  {
  }

  /** The outcome that is reported as safe to retry cannot be retried by driving again: from
      any state, after a drive that ended so, every further drive of the batch, by whatever
      actors and against whatever ledger, is refused at the release and changes nothing. */
  lemma RetryableIsNeverDrivenAgain(p: Protocol, gl: Gl, batch: Batch, preparer: ActorId, approver: ActorId,
                                    gl': Gl, preparer': ActorId, approver': ActorId)
    requires DriveBatch(p, gl, batch, preparer, approver).result == Ok(RetryableNotPosted)
    ensures var after := DriveBatch(p, gl, batch, preparer, approver).protocol;
      DriveBatch(after, gl', batch, preparer', approver') == Driven(after, gl', Err(ProtocolError(Approvals(NotAsserted))))
  {
    RetryWasReleased(p, gl, batch, preparer, approver);
    DrivenIsConfirmed(p, gl, batch, preparer, approver);
    SecondDriveRefused(DriveBatch(p, gl, batch, preparer, approver).protocol, gl', batch, preparer', approver');
  }

  /** One actor alone cannot drive a new batch: nothing reaches the ledger. */
  lemma LoneActorRefused(p: Protocol, gl: Gl, batch: Batch, actor: ActorId)
    requires Fresh(p, gl, batch)
    ensures var d := DriveBatch(p, gl, batch, actor, actor);
      && d.result == Err(ProtocolError(Approvals(SameActor))) && d.gl == gl
      && IdOf(batch) in d.protocol.states && d.protocol.states[IdOf(batch)].AwaitingApproval?
  {
  }
}

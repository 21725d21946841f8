/** What each transition of the protocol and each answer of the fixture ledger is, and why
    the references of the ledger stay apart. */
module PostingMeaning {
  import opened Prelude
  import opened DualControl
  import opened Posting
  import opened GeneralLedger
  import opened Drive
  import opened PostingTheory
  import opened PostingDrive

  // ------------------------------------------------------------------------------
  // The protocol.

  ghost predicate InState(p: Protocol, id: BatchId, state: PostingState) { id in p.states && p.states[id] == state }

  /** The transition leads the batch from one state to the other and touches nothing else;
      from any other state it is refused and changes nothing. */
  ghost predicate Transition(p: Protocol, id: BatchId, from: PostingState, to: PostingState, r: (Protocol, Option<PostingError>)) {
    && (InState(p, id, from) ==> r == (Protocol(p.approvals, p.states[id := to]), None))
    && (!InState(p, id, from) ==> r == (p, Some(if id in p.states then InvalidTransition else UnknownBatch(id))))
  }

  lemma TransitionsMean(p: Protocol, id: BatchId, glRef: GlRef, evidence: Evidence)
    ensures Transition(p, id, ReadyToSubmit, Submitting, BeginSubmit(p, id))
    ensures Transition(p, id, Submitting, Posted(glRef, evidence), ConfirmPosted(p, id, glRef, evidence))
    ensures Transition(p, id, Submitting, Unknown, ReportUnknown(p, id))
    ensures Transition(p, id, Unknown, Posted(glRef, evidence), ResolveUnknown(p, id, Some((glRef, evidence))))
    ensures Transition(p, id, Unknown, ReadyToSubmit, ResolveUnknown(p, id, None))
  {
  }

  // ------------------------------------------------------------------------------
  // The fixture ledger.

  /** `r` lists the entries of the batch in increasing order, each once. */
  ghost predicate Lists(r: seq<EntryHash>, batch: Batch) { Increasing(r) && SameSet(r, batch.entries) }

  /** What is read back for a batch whose first submission met this fault. */
  ghost predicate ReadsAs(fault: Option<Fault>, shown: seq<EntryHash>, batch: Batch) {
    match fault
    case Some(DropOneEntryOnReadback) =>
      if batch.entries == [] then shown == [] else exists last :: Lists(shown + [last], batch)
    case Some(ExtraEntryOnReadback(entry)) => shown != [] && shown[|shown| - 1] == entry && Lists(shown[..|shown| - 1], batch)
    case _ => Lists(shown, batch)
  }

  lemma FingerprintLists(batch: Batch)
    ensures Lists(Fingerprint(batch), batch) && (Fingerprint(batch) == [] <==> batch.entries == [])
  {
    var fp := Fingerprint(batch);
    SortedSetExact(batch.entries);
    if batch.entries != [] { assert batch.entries[0] in fp; }
    if fp != [] { assert fp[0] in fp; }
  }

  lemma DroppedReadsAs(fp: seq<EntryHash>, batch: Batch)
    requires Lists(fp, batch) && (fp == [] <==> batch.entries == [])
    ensures ReadsAs(Some(DropOneEntryOnReadback), if fp != [] then fp[..|fp| - 1] else fp, batch)
  {
    if fp != [] { assert fp[..|fp| - 1] + [fp[|fp| - 1]] == fp; }
  }

  lemma ExtraReadsAs(fp: seq<EntryHash>, batch: Batch, entry: EntryHash)
    requires Lists(fp, batch)
    ensures ReadsAs(Some(ExtraEntryOnReadback(entry)), fp + [entry], batch)
  {
    assert (fp + [entry])[..|fp|] == fp;
  }

  lemma ShownMeans(gl: Gl, batch: Batch)
    ensures ReadsAs(gl.nextFault, Shown(MakeRecord(gl, batch)), batch)
  {
    var fp, r := Fingerprint(batch), MakeRecord(gl, batch);
    FingerprintLists(batch);
    if r.dropOne {
      DroppedReadsAs(fp, batch);
      assert Shown(r) == if fp != [] then fp[..|fp| - 1] else fp;
    } else if r.extra.Some? {
      ExtraReadsAs(fp, batch, r.extra.value);
    } else {
      assert Shown(r) == fp;
    }
  }

  /** A first submission, fault by fault: what is answered, whether a record is kept, what is
      read back for it; and the fault is spent. */
  lemma FirstSubmission(gl: Gl, batch: Batch, id: BatchId)
    requires id !in gl.posted
    ensures var (gl', r) := Submit(gl, batch, id);
      var kept := gl.nextFault != Some(Transport) && gl.nextFault != Some(AckLostNotPosted);
      && gl'.nextFault == None && (id in gl'.posted <==> kept)
      && gl'.posted == (if kept then gl.posted[id := gl'.posted[id]] else gl.posted)
      && gl'.sequence == (if kept && gl.sequence < U64_MAX then gl.sequence + 1 else gl.sequence)
      && (kept ==>
            && gl'.posted[id].glRef == gl'.sequence
            && ReadBack(gl', id).glRef == Some(gl'.sequence) && ReadBack(gl', id).rawPayload == "fixture-readback"
            && ReadsAs(gl.nextFault, ReadBack(gl', id).entries, batch))
      && (!kept ==> ReadBack(gl', id) == Readback(None, [], "fixture-readback-absent"))
      && r == match gl.nextFault
              case Some(Transport) => Err(TransportError)
              case Some(AckLostNotPosted) => Ok(AckLost)
              case Some(AckLostButPosted) => Ok(AckLost)
              case _ => Ok(SubmitOutcome.Acknowledged(gl'.sequence, "fixture-ack"))
  {
    ShownMeans(gl, batch);
    ShownMeans(gl.(nextFault := None), batch);
  }

  /** A repeated submission keeps the record and answers with its reference, however often
      and under whatever fault. */
  lemma RepeatedSubmission(gl: Gl, batch: Batch, id: BatchId)
    requires id in gl.posted
    ensures var (gl', r) := Submit(gl, batch, id);
      && gl' == gl.(nextFault := None)
      && (r.Ok? && r.value.Acknowledged? ==> r.value.glRef == gl.posted[id].glRef)
      && (r.Ok? && r.value.AckLost? <==> gl.nextFault == Some(AckLostButPosted) || gl.nextFault == Some(AckLostNotPosted))
      && (r.Err? <==> gl.nextFault == Some(Transport))
  {
  }

  /** Every record has its own reference, and none a reference still to come. */
  ghost predicate RefsApart(gl: Gl) {
    && (forall id :: id in gl.posted ==> 0 < gl.posted[id].glRef <= gl.sequence)
    && (forall a, b :: a in gl.posted && b in gl.posted && a != b ==> gl.posted[a].glRef != gl.posted[b].glRef)
  }

  lemma NewRefApartIff(gl: Gl, gl': Gl, id: BatchId)
    requires RefsApart(gl) && id !in gl.posted && id in gl'.posted && gl'.posted == gl.posted[id := gl'.posted[id]]
    requires gl'.posted[id].glRef == gl'.sequence > 0 && gl.sequence <= gl'.sequence
    ensures RefsApart(gl') <==> forall b :: b in gl.posted ==> gl.posted[b].glRef != gl'.sequence
  {
    if RefsApart(gl') {
      forall b | b in gl.posted ensures gl.posted[b].glRef != gl'.sequence {
        assert b in gl'.posted && b != id && gl'.posted[b] == gl.posted[b];
      }
    }
  }

  /** A submission keeps references apart exactly unless it makes a new record when the
      counter is exhausted and its last value already given out. */
  lemma SubmissionKeepsRefsApartIff(gl: Gl, batch: Batch, id: BatchId)
    requires RefsApart(gl)
    ensures var gl' := Submit(gl, batch, id).0;
      RefsApart(gl') <==>
        || gl'.posted == gl.posted || gl.sequence < U64_MAX
        || forall b :: b in gl.posted ==> gl.posted[b].glRef != U64_MAX
  {
    var gl' := Submit(gl, batch, id).0;
    if id in gl.posted {
      RepeatedSubmission(gl, batch, id);
    } else {
      assert gl'.sequence >= gl.sequence && (id in gl'.posted ==>
        && gl'.posted == gl.posted[id := gl'.posted[id]] && gl'.posted[id].glRef == gl'.sequence
        && gl'.sequence == if gl.sequence < U64_MAX then gl.sequence + 1 else U64_MAX) by { FirstSubmission(gl, batch, id); }
      assert id !in gl'.posted ==> gl'.posted == gl.posted && gl'.sequence == gl.sequence by { FirstSubmission(gl, batch, id); }
      if id in gl'.posted { NewRefApartIff(gl, gl', id); }
    }
  }

  /** A drive submits at most once, so it leaves the ledger as it was or as that submission
      leaves it. */
  lemma DriveSubmitsOnce(p: Protocol, gl: Gl, batch: Batch, preparer: ActorId, approver: ActorId)
    ensures var d := DriveBatch(p, gl, batch, preparer, approver);
      d.gl == gl || d.gl == Submit(gl, batch, IdOf(batch)).0
  {
    var id := IdOf(batch);
    match Release(Register(p, batch, preparer), id, approver) {
      case (p1, Some(_)) =>
      case (p1, None) =>
        match BeginSubmit(p1, id) {
          case (p2, Some(_)) =>
          case (p2, None) => SubmittingSubmits(p2, gl, batch);
        }
    }
  }

  lemma SubmittingSubmits(p: Protocol, gl: Gl, batch: Batch)
    ensures DriveSubmitting(p, gl, batch).gl == Submit(gl, batch, IdOf(batch)).0
  {
    var id := IdOf(batch);
    var (gl', r) := Submit(gl, batch, id);
    if r.Ok? && r.value.AckLost? { UnknownOnlyReads(p, gl', id); }
  }

  lemma UnknownOnlyReads(p: Protocol, gl: Gl, id: BatchId)
    ensures DriveUnknown(p, gl, id).gl == gl
  {
  }

  lemma DriveKeepsRefsApart(p: Protocol, gl: Gl, batch: Batch, preparer: ActorId, approver: ActorId)
    requires RefsApart(gl) && gl.sequence < U64_MAX
    ensures var gl' := DriveBatch(p, gl, batch, preparer, approver).gl;
      RefsApart(gl') && gl'.sequence <= gl.sequence + 1
  {
    DriveSubmitsOnce(p, gl, batch, preparer, approver);
    SubmissionKeepsRefsApartIff(gl, batch, IdOf(batch));
    if IdOf(batch) in gl.posted { RepeatedSubmission(gl, batch, IdOf(batch)); } else { FirstSubmission(gl, batch, IdOf(batch)); }
  }

  /** In every session of fewer calls than the counter has values, no two batches ever share
      a reference. */
  lemma {:induction false} SessionsKeepRefsApart(p: Protocol, gl: Gl, calls: seq<Call>)
    requires RefsApart(gl) && gl.sequence + |calls| <= U64_MAX
    ensures RefsApart(Session(p, gl, calls).1)
    decreases |calls|
  {
    if calls != [] {
      match calls[0]
      case Injects(fault) => SessionsKeepRefsApart(p, gl.(nextFault := Some(fault)), calls[1..]);
      case Drives(batch, preparer, approver) =>
        var d := DriveBatch(p, gl, batch, preparer, approver);
        DriveKeepsRefsApart(p, gl, batch, preparer, approver);
        SessionsKeepRefsApart(d.protocol, d.gl, calls[1..]);
    }
  }
}

/** What posting guarantees in every run against a ledger that keeps one record per batch
    id, however messages are lost, repeated or delayed. */
module PostingTheory {
  import opened Prelude
  import opened Sorting
  import opened Filtering
  import opened DualControl
  import opened Posting

  // ------------------------------------------------------------------------------
  // Comparing sets of entries.

  ghost predicate SameSet(xs: seq<EntryHash>, ys: seq<EntryHash>) { forall x :: x in xs <==> x in ys }

  ghost predicate Increasing(xs: seq<EntryHash>) { forall i, j :: 0 <= i < j < |xs| ==> xs[i] < xs[j] }

  lemma {:induction false} DedupSorted(xs: seq<EntryHash>)
    requires Sorted(xs, HashLeq)
    ensures SameSet(Dedup(xs), xs) && Increasing(Dedup(xs))
  {
    if |xs| > 1 {
      var rest := xs[1..];
      assert forall i :: 0 <= i < |rest| ==> rest[i] == xs[i + 1];
      DedupSorted(rest);
      assert xs == [xs[0]] + rest;
      if xs[0] != xs[1] {
        forall j | 0 <= j < |Dedup(rest)| ensures xs[0] < Dedup(rest)[j] {
          assert Dedup(rest)[j] in rest;
          assert HashLeq(xs[0], xs[1]);
        }
      } else {
        assert xs[0] in rest;
      }
    }
  }

  /** Sorting and dropping repetitions keeps the set and leaves no repetition. */
  lemma SortedSetExact(xs: seq<EntryHash>)
    ensures SameSet(SortedSet(xs), xs) && Increasing(SortedSet(xs))
  {
    SortMembers(xs, HashLeq);
    SortBySorted(xs, HashLeq);
    DedupSorted(SortBy(xs, HashLeq));
  }

  lemma {:induction false} IncreasingUnique(xs: seq<EntryHash>, ys: seq<EntryHash>)
    requires Increasing(xs) && Increasing(ys) && SameSet(xs, ys)
    ensures xs == ys
  {
    if xs != [] { assert xs[0] in ys; }
    if ys != [] { assert ys[0] in xs; }
    if xs != [] {
      assert xs[0] == ys[0];
      forall x ensures x in xs[1..] <==> x in ys[1..] {
        assert x in xs[1..] <==> x in xs && x != xs[0];
        assert x in ys[1..] <==> x in ys && x != ys[0];
      }
      IncreasingUnique(xs[1..], ys[1..]);
    }
  }

  /** The fingerprint of a batch identifies the set of its entries and nothing more. */
  lemma FingerprintIdentifiesSet(a: Batch, b: Batch)
    ensures Fingerprint(a) == Fingerprint(b) <==> SameSet(a.entries, b.entries)
  {
    SortedSetExact(a.entries);
    SortedSetExact(b.entries);
    if SameSet(a.entries, b.entries) { IncreasingUnique(Fingerprint(a), Fingerprint(b)); }
    if Fingerprint(a) == Fingerprint(b) {
      forall x ensures x in a.entries <==> x in b.entries { assert x in a.entries <==> x in Fingerprint(a); }
    }
  }

  lemma WithoutMembers(xs: seq<EntryHash>, ys: seq<EntryHash>)
    ensures (forall x :: x in Without(xs, ys) <==> x in xs && x !in ys) && Increasing(Without(xs, ys))
  {
    SortedSetExact(xs);
    FilterMembers(SortedSet(xs), (x: EntryHash) => x !in ys);
    FilterIncreasing(SortedSet(xs), (x: EntryHash) => x !in ys);
  }

  lemma {:induction false} FilterIncreasing(xs: seq<EntryHash>, p: EntryHash -> bool)
    requires Increasing(xs)
    ensures Increasing(Filter(xs, p))
  {
    if xs != [] {
      FilterIncreasing(xs[1..], p);
      FilterMembers(xs[1..], p);
      var rest := Filter(xs[1..], p);
      forall j | 0 <= j < |rest| ensures xs[0] < rest[j] { assert rest[j] in xs[1..]; }
    }
  }

  /** The differences a failed comparison names, in order, are all there are, and there are
      some. */
  ghost predicate Differences(missing: seq<EntryHash>, unexpected: seq<EntryHash>, expected: seq<EntryHash>, seen: seq<EntryHash>) {
    && (forall x :: x in missing <==> x in expected && x !in seen)
    && (forall x :: x in unexpected <==> x in seen && x !in expected)
    && Increasing(missing) && Increasing(unexpected) && !SameSet(expected, seen)
  }

  lemma VerdictExact(glRef: GlRef, batch: Batch, seen: seq<EntryHash>, readback: Evidence)
    ensures var v := Verdict(glRef, Fingerprint(batch), seen, readback);
      if SameSet(batch.entries, seen) then v == Verified(glRef, readback)
      else v.VerificationFailed? && v.readback == readback && Differences(v.missing, v.unexpected, batch.entries, seen)
  {
    var expected := Fingerprint(batch);
    var missing, unexpected := Without(expected, seen), Without(seen, expected);
    SortedSetExact(batch.entries);
    WithoutMembers(expected, seen);
    WithoutMembers(seen, expected);
    if missing == [] && unexpected == [] {
      forall x ensures x in batch.entries <==> x in seen {
        assert x !in missing && x !in unexpected;
      }
    } else if missing != [] {
      assert missing[0] in missing;
    } else {
      assert unexpected[0] in unexpected;
    }
  }

  // ------------------------------------------------------------------------------
  // Runs.

  /** A record of the ledger: what it shows for a batch is up to the ledger. */
  datatype Record = Record(id: BatchId, glRef: GlRef, shown: seq<EntryHash>)

  /** `flight` holds the batches that have been sent: each may arrive late, repeatedly or
      never. */
  datatype World = World(protocol: Protocol, journal: seq<Record>, flight: set<Batch>)

  const START := World(Protocol(map[], map[]), [], {})

  function Lookup(journal: seq<Record>, id: BatchId): Option<Record> {
    if journal == [] then None
    else if journal[|journal| - 1].id == id then Some(journal[|journal| - 1])
    else Lookup(journal[..|journal| - 1], id)
  }

  datatype Step =
    | Registers(batch: Batch, preparer: ActorId)
    | Releases(id: BatchId, approver: ActorId)
    | Sends(batch: Batch)
    | Lands(batch: Batch, glRef: GlRef, shown: seq<EntryHash>)
    | Acks(id: BatchId, raw: string)
    | LosesAck(id: BatchId)
    | ReadsBack(id: BatchId, raw: string)
    | Verifies(id: BatchId, raw: string)

  /** The ledger keeps the first record for an id and ignores the rest. */
  function Land(journal: seq<Record>, r: Record): seq<Record> {
    if Lookup(journal, r.id).Some? then journal else journal + [r]
  }

  /** Acknowledgements and read-backs come from the ledger, so they speak of its records. */
  function Take(w: World, step: Step): World {
    match step
    case Registers(batch, preparer) => w.(protocol := Register(w.protocol, batch, preparer))
    case Releases(id, approver) => w.(protocol := Release(w.protocol, id, approver).0)
    case Sends(batch) =>
      var (p, e) := BeginSubmit(w.protocol, IdOf(batch));
      if e.Some? then w.(protocol := p) else w.(protocol := p, flight := w.flight + {batch})
    case Lands(batch, glRef, shown) =>
      if batch in w.flight then w.(journal := Land(w.journal, Record(IdOf(batch), glRef, shown))) else w
    case Acks(id, raw) =>
      (match Lookup(w.journal, id)
       case None => w
       case Some(r) => w.(protocol := ConfirmPosted(w.protocol, id, r.glRef, Digest(raw)).0))
    case LosesAck(id) => w.(protocol := ReportUnknown(w.protocol, id).0)
    case ReadsBack(id, raw) => w.(protocol := ResolveUnknown(w.protocol, id, Found(w.journal, id, raw)).0)
    case Verifies(id, raw) => w.(protocol := Verify(w.protocol, id, ShownFor(w.journal, id), Digest(raw)).0)
  }

  function Found(journal: seq<Record>, id: BatchId, raw: string): Option<(GlRef, Evidence)> {
    match Lookup(journal, id) case None => None case Some(r) => Some((r.glRef, Digest(raw)))
  }

  function ShownFor(journal: seq<Record>, id: BatchId): seq<EntryHash> {
    match Lookup(journal, id) case None => [] case Some(r) => r.shown
  }

  function Run(w: World, steps: seq<Step>): World
    decreases |steps|
  {
    if steps == [] then w else Run(Take(w, steps[0]), steps[1..])
  }

  // ------------------------------------------------------------------------------
  // The invariant.

  ghost predicate OneRecordPerId(journal: seq<Record>) {
    forall i, j :: 0 <= i < j < |journal| ==> journal[i].id != journal[j].id
  }

  /** Who has approved a batch, and that they did so in this history. */
  ghost predicate ApprovalOk(batch: Batch, a: Approval, state: PostingState, history: seq<Step>) {
    match a
    case Asserted(preparer) => state.AwaitingApproval? && Registers(batch, preparer) in history
    case Confirmed(preparer, approver) =>
      && !state.AwaitingApproval? && preparer != approver
      && Registers(batch, preparer) in history && Releases(IdOf(batch), approver) in history
    case Rejected(_, _) => false
  }

  /** What a posting state says about the ledger. */
  ghost predicate EvidenceOk(batch: Batch, state: PostingState, held: Option<Record>) {
    match state
    case Posted(glRef, _) => held.Some? && held.value.glRef == glRef
    case Verified(glRef, _) => held.Some? && held.value.glRef == glRef && SameSet(batch.entries, held.value.shown)
    case VerificationFailed(missing, unexpected, _) =>
      held.Some? && Differences(missing, unexpected, batch.entries, held.value.shown)
    case _ => true
  }

  ghost predicate BatchOk(w: World, id: BatchId, history: seq<Step>) {
    && (id in w.protocol.states <==> id in w.protocol.approvals)
    && (id in w.protocol.states ==>
      var (batch, a) := w.protocol.approvals[id];
      && id == IdOf(batch) && ApprovalOk(batch, a, w.protocol.states[id], history)
      && EvidenceOk(batch, w.protocol.states[id], Lookup(w.journal, id)))
  }

  ghost predicate Approved(w: World, id: BatchId) {
    id in w.protocol.states && !w.protocol.states[id].AwaitingApproval?
  }

  ghost predicate Inv(w: World, history: seq<Step>) {
    && (forall id :: BatchOk(w, id, history))
    && OneRecordPerId(w.journal)
    && (forall i :: 0 <= i < |w.journal| ==> w.journal[i].id.IdOf? && w.journal[i].id.batch in w.flight)
    && (forall batch :: batch in w.flight ==> Approved(w, IdOf(batch)))
  }

  lemma {:induction false} LookupMiss(journal: seq<Record>, id: BatchId)
    requires Lookup(journal, id).None?
    ensures forall i :: 0 <= i < |journal| ==> journal[i].id != id
  {
    if journal != [] {
      var last := |journal| - 1;
      LookupMiss(journal[..last], id);
      assert forall i :: 0 <= i < last ==> journal[..last][i] == journal[i];
    }
  }

  lemma LookupAfter(journal: seq<Record>, r: Record, id: BatchId)
    ensures Lookup(Land(journal, r), id) == if r.id == id && Lookup(journal, id).None? then Some(r) else Lookup(journal, id)
  {
    assert (journal + [r])[..|journal|] == journal;
  }

  lemma LandKeepsOneRecord(journal: seq<Record>, r: Record)
    requires OneRecordPerId(journal)
    ensures OneRecordPerId(Land(journal, r)) && journal <= Land(journal, r)
  {
    if Lookup(journal, r.id).None? { LookupMiss(journal, r.id); }
  }

  lemma HistoryGrows(batch: Batch, a: Approval, state: PostingState, history: seq<Step>, step: Step)
    requires ApprovalOk(batch, a, state, history)
    ensures ApprovalOk(batch, a, state, history + [step])
  {
  }

  lemma RegisterKeepsBatch(w: World, batch: Batch, preparer: ActorId, id: BatchId, history: seq<Step>)
    requires BatchOk(w, id, history)
    ensures BatchOk(Take(w, Registers(batch, preparer)), id, history + [Registers(batch, preparer)])
  {
    var step := Registers(batch, preparer);
    assert step in history + [step];
    if id in w.protocol.states {
      HistoryGrows(w.protocol.approvals[id].0, w.protocol.approvals[id].1, w.protocol.states[id], history, step);
    }
  }

  lemma ReleaseKeepsBatch(w: World, released: BatchId, approver: ActorId, id: BatchId, history: seq<Step>)
    requires BatchOk(w, id, history) && BatchOk(w, released, history)
    ensures BatchOk(Take(w, Releases(released, approver)), id, history + [Releases(released, approver)])
  {
    var step := Releases(released, approver);
    assert step in history + [step];
    if id in w.protocol.states {
      HistoryGrows(w.protocol.approvals[id].0, w.protocol.approvals[id].1, w.protocol.states[id], history, step);
    }
  }

  /** A move between two states after approval. */
  lemma MoveKeepsBatch(w: World, moved: BatchId, from: PostingState, to: PostingState, id: BatchId, history: seq<Step>, step: Step)
    requires BatchOk(w, id, history) && BatchOk(w, moved, history)
    requires !from.AwaitingApproval? && !to.AwaitingApproval?
    requires moved in w.protocol.approvals && w.protocol.states[moved] == from ==>
      EvidenceOk(w.protocol.approvals[moved].0, to, Lookup(w.journal, moved))
    ensures BatchOk(w.(protocol := Move(w.protocol, moved, from, to).0), id, history + [step])
  {
    if id in w.protocol.states {
      HistoryGrows(w.protocol.approvals[id].0, w.protocol.approvals[id].1, w.protocol.states[id], history, step);
    }
  }

  lemma VerifyKeepsBatch(w: World, verified: BatchId, raw: string, id: BatchId, history: seq<Step>)
    requires BatchOk(w, id, history) && BatchOk(w, verified, history)
    ensures BatchOk(Take(w, Verifies(verified, raw)), id, history + [Verifies(verified, raw)])
  {
    if id in w.protocol.states {
      HistoryGrows(w.protocol.approvals[id].0, w.protocol.approvals[id].1, w.protocol.states[id], history, Verifies(verified, raw));
    }
    if verified in w.protocol.approvals && w.protocol.states[verified].Posted? {
      VerdictExact(
        w.protocol.states[verified].glRef, w.protocol.approvals[verified].0, ShownFor(w.journal, verified), Digest(raw));
    }
  }

  lemma EvidenceStays(batch: Batch, state: PostingState, held: Option<Record>, later: Option<Record>)
    requires EvidenceOk(batch, state, held) && (held.Some? ==> later == held)
    ensures EvidenceOk(batch, state, later)
  {
  }

  lemma RecordStays(w: World, step: Step, id: BatchId)
    ensures Lookup(w.journal, id).Some? ==> Lookup(Take(w, step).journal, id) == Lookup(w.journal, id)
  {
    if step.Lands? { LookupAfter(w.journal, Record(IdOf(step.batch), step.glRef, step.shown), id); }
  }

  lemma LandKeepsBatch(w: World, step: Step, id: BatchId, history: seq<Step>)
    requires BatchOk(w, id, history) && step.Lands?
    ensures BatchOk(Take(w, step), id, history + [step])
  {
    var w' := Take(w, step);
    RecordStays(w, step, id);
    assert w'.protocol == w.protocol;
    if id in w.protocol.states {
      var (batch, a) := w.protocol.approvals[id];
      var state := w.protocol.states[id];
      HistoryGrows(batch, a, state, history, step);
      EvidenceStays(batch, state, Lookup(w.journal, id), Lookup(w'.journal, id));
    }
  }

  lemma StepKeepsBatch(w: World, step: Step, id: BatchId, history: seq<Step>)
    requires Inv(w, history)
    ensures BatchOk(Take(w, step), id, history + [step])
  {
    match step
    case Registers(batch, preparer) => RegisterKeepsBatch(w, batch, preparer, id, history);
    case Releases(released, approver) => ReleaseKeepsBatch(w, released, approver, id, history);
    case Sends(batch) => MoveKeepsBatch(w, IdOf(batch), ReadyToSubmit, Submitting, id, history, step);
    case Lands(batch, glRef, shown) => LandKeepsBatch(w, step, id, history);
    case Acks(acked, raw) =>
      var r := Lookup(w.journal, acked);
      if r.Some? {
        MoveKeepsBatch(w, acked, Submitting, Posted(r.value.glRef, Digest(raw)), id, history, step);
      } else {
        MoveKeepsBatch(w, acked, Submitting, Submitting, id, history, step);
      }
    case LosesAck(lost) => MoveKeepsBatch(w, lost, Submitting, Unknown, id, history, step);
    case ReadsBack(read, raw) =>
      var found := Found(w.journal, read, raw);
      var to := match found case Some(f) => Posted(f.0, f.1) case None => ReadyToSubmit;
      MoveKeepsBatch(w, read, Unknown, to, id, history, step);
    case Verifies(verified, raw) => VerifyKeepsBatch(w, verified, raw, id, history);
  }

  /** Approval is never taken back. */
  lemma ApprovalStays(w: World, step: Step, id: BatchId)
    requires Approved(w, id)
    ensures Approved(Take(w, step), id)
  {
  }

  lemma StepKeepsInv(w: World, step: Step, history: seq<Step>)
    requires Inv(w, history)
    ensures Inv(Take(w, step), history + [step])
  {
    forall id ensures BatchOk(Take(w, step), id, history + [step]) { StepKeepsBatch(w, step, id, history); }
    forall batch | batch in w.flight ensures Approved(Take(w, step), IdOf(batch)) { ApprovalStays(w, step, IdOf(batch)); }
    if step.Lands? { LandKeepsOneRecord(w.journal, Record(IdOf(step.batch), step.glRef, step.shown)); }
  }

  lemma {:induction false} RunKeepsInv(w: World, history: seq<Step>, steps: seq<Step>)
    requires Inv(w, history)
    ensures Inv(Run(w, steps), history + steps)
    decreases |steps|
  {
    if steps == [] {
      assert history + steps == history;
    } else {
      StepKeepsInv(w, steps[0], history);
      RunKeepsInv(Take(w, steps[0]), history + [steps[0]], steps[1..]);
      assert (history + [steps[0]]) + steps[1..] == history + steps;
    }
  }

  /** Safety of every run, whatever is lost, repeated, delayed or retried: a batch beyond
      approval was registered and released by two different actors in that run; the ledger
      holds at most one record for an id, and only of approved batches; a posted batch is
      held under the reference reported; a verified batch is shown entry set for entry set,
      and a failed verification names exactly the differences. */
  lemma PostingIsSafe(steps: seq<Step>)
    ensures Inv(Run(START, steps), steps)
  {
    assert [] + steps == steps;
    RunKeepsInv(START, [], steps);
  }

  /** Nothing is in the ledger that two different actors have not approved. */
  lemma NothingPostedUnapproved(steps: seq<Step>, i: nat) returns (preparer: ActorId, approver: ActorId)
    requires i < |Run(START, steps).journal|
    ensures preparer != approver
    ensures var id := Run(START, steps).journal[i].id;
      id.IdOf? && Registers(id.batch, preparer) in steps && Releases(id, approver) in steps
  {
    PostingIsSafe(steps);
    var w := Run(START, steps);
    var id := w.journal[i].id;
    assert BatchOk(w, id, steps) && Approved(w, IdOf(id.batch));
    preparer, approver := w.protocol.approvals[id].1.confirmedFor, w.protocol.approvals[id].1.approver;
  }

  ghost predicate Settled(p: Protocol, id: BatchId) {
    id in p.states && (p.states[id].Verified? || p.states[id].VerificationFailed?)
  }

  lemma VerdictStays(w: World, step: Step, id: BatchId)
    requires Settled(w.protocol, id)
    ensures var p := Take(w, step).protocol; id in p.states && p.states[id] == w.protocol.states[id]
  {
  }

  lemma RecordsStay(w: World, step: Step)
    requires OneRecordPerId(w.journal)
    ensures w.journal <= Take(w, step).journal && OneRecordPerId(Take(w, step).journal)
  {
    if step.Lands? { LandKeepsOneRecord(w.journal, Record(IdOf(step.batch), step.glRef, step.shown)); }
  }

  /** A verdict is final, and so is every record of the ledger. */
  lemma {:induction false} VerdictsAreFinal(w: World, steps: seq<Step>, id: BatchId)
    requires OneRecordPerId(w.journal) && Settled(w.protocol, id)
    ensures id in Run(w, steps).protocol.states && Run(w, steps).protocol.states[id] == w.protocol.states[id]
    ensures w.journal <= Run(w, steps).journal
    decreases |steps|
  {
    if steps != [] {
      VerdictStays(w, steps[0], id);
      RecordsStay(w, steps[0]);
      VerdictsAreFinal(Take(w, steps[0]), steps[1..], id);
    }
  }

  lemma RunOne(w: World, step: Step)
    ensures Run(w, [step]) == Take(w, step)
  {
    assert [step][1..] == [];
  }

  lemma {:induction false} RunAppend(w: World, a: seq<Step>, b: seq<Step>)
    ensures Run(w, a + b) == Run(Run(w, a), b)
    decreases |a|
  {
    if a == [] {
      assert a + b == b;
    } else {
      assert (a + b)[0] == a[0] && (a + b)[1..] == a[1..] + b;
      RunAppend(Take(w, a[0]), a[1..], b);
    }
  }

  /** An attempt whose message arrives leaves a record with the ledger. */
  lemma SentAndLanded(w: World, history: seq<Step>, batch: Batch, glRef: GlRef) returns (w': World)
    requires Inv(w, history) && IdOf(batch) in w.protocol.states && w.protocol.states[IdOf(batch)].ReadyToSubmit?
    ensures w' == Take(Take(w, Sends(batch)), Lands(batch, glRef, Fingerprint(batch)))
    ensures var id, r := IdOf(batch), Record(IdOf(batch), glRef, Fingerprint(batch));
      && id in w'.protocol.approvals && w'.protocol.approvals[id].0 == batch
      && id in w'.protocol.states && w'.protocol.states[id].Submitting?
      && w'.journal == Land(w.journal, r) && OneRecordPerId(w'.journal)
  {
    var id := IdOf(batch);
    assert BatchOk(w, id, history);
    w' := Take(Take(w, Sends(batch)), Lands(batch, glRef, Fingerprint(batch)));
    LandKeepsOneRecord(w.journal, Record(id, glRef, Fingerprint(batch)));
  }

  lemma AckedAndVerified(w: World, batch: Batch, ack: string, raw: string)
    requires var id := IdOf(batch);
      && id in w.protocol.approvals && w.protocol.approvals[id].0 == batch
      && id in w.protocol.states && w.protocol.states[id].Submitting?
    requires var held := Lookup(w.journal, IdOf(batch)); held.Some? && SameSet(batch.entries, held.value.shown)
    ensures var id := IdOf(batch);
      var w' := Take(Take(w, Acks(id, ack)), Verifies(id, raw));
      w'.journal == w.journal && id in w'.protocol.states && w'.protocol.states[id].Verified?
  {
    var held := Lookup(w.journal, IdOf(batch)).value;
    VerdictExact(held.glRef, batch, held.shown, Digest(raw));
  }

  /** A retry is safe and useful: from the ready state, one more attempt that arrives at an
      honest ledger ends verified, whether or not an earlier attempt had landed. */
  lemma HonestRetryVerifies(w: World, history: seq<Step>, batch: Batch, glRef: GlRef, ack: string, raw: string)
    requires Inv(w, history) && IdOf(batch) in w.protocol.states && w.protocol.states[IdOf(batch)].ReadyToSubmit?
    requires var held := Lookup(w.journal, IdOf(batch)); held.Some? ==> SameSet(batch.entries, held.value.shown)
    ensures var id := IdOf(batch);
      var w1 := Take(Take(w, Sends(batch)), Lands(batch, glRef, Fingerprint(batch)));
      var w2 := Take(Take(w1, Acks(id, ack)), Verifies(id, raw));
      id in w2.protocol.states && w2.protocol.states[id].Verified? && OneRecordPerId(w2.journal)
  {
    var w1 := SentAndLanded(w, history, batch, glRef);
    LookupAfter(w.journal, Record(IdOf(batch), glRef, Fingerprint(batch)), IdOf(batch));
    SortedSetExact(batch.entries);
    AckedAndVerified(w1, batch, ack, raw);
  }
}

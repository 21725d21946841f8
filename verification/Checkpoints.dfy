/** The checkpoint lineages of a close: local checks on sealing that force every lineage to
    be one linear chain. */
module Checkpoints {
  import opened Prelude

  type TenantId = string
  type PeriodId = string
  type Digest = nat

  /** The hash of a sealed checkpoint, or some other digest. */
  datatype CheckpointId = CheckpointHash(sealedAt: I64, draft: CheckpointDraft) | OtherHash(digest: Digest)

  datatype Reason = LateData | ProviderRevision | ChainReorg | PolicyCorrection | JudgmentRevision

  datatype CheckpointDraft = CheckpointDraft(
    tenant: TenantId, period: PeriodId, asOf: I64, stateRoot: Digest,
    supersedes: Option<CheckpointId>, reason: Option<Reason>, memo: Option<Digest>)

  datatype Checkpoint = Checkpoint(id: CheckpointId, sealedAt: I64, draft: CheckpointDraft)

  datatype CloseError =
    | NonMonotonicSealTime(last: I64, proposed: I64)
    | InitialWithCorrectionFields
    | ParallelInitialCheckpoint
    | SupersessionWithoutJustification
    | SupersedeTargetMissing(target: CheckpointId)
    | SupersedeAcrossLineage(target: CheckpointId)
    | AlreadySuperseded(target: CheckpointId)

  type Key = (TenantId, PeriodId)

  datatype Dag = Dag(
    lineages: map<Key, seq<Checkpoint>>, byId: map<CheckpointId, (TenantId, PeriodId, nat)>, superseded: set<CheckpointId>)

  const EMPTY := Dag(map[], map[], {})

  function Lineage(d: Dag, key: Key): seq<Checkpoint> { if key in d.lineages then d.lineages[key] else [] }

  function KeyOf(draft: CheckpointDraft): Key { (draft.tenant, draft.period) }

  function CheckLink(d: Dag, draft: CheckpointDraft): Option<CloseError> {
    match draft.supersedes
    case None =>
      if draft.reason.Some? || draft.memo.Some? then Some(InitialWithCorrectionFields)
      else if Lineage(d, KeyOf(draft)) != [] then Some(ParallelInitialCheckpoint)
      else None
    case Some(target) =>
      if draft.reason.None? || draft.memo.None? then Some(SupersessionWithoutJustification)
      else if target !in d.byId then Some(SupersedeTargetMissing(target))
      else if d.byId[target].0 != draft.tenant || d.byId[target].1 != draft.period then Some(SupersedeAcrossLineage(target))
      else if target in d.superseded then Some(AlreadySuperseded(target))
      else None
  }

  function Check(d: Dag, draft: CheckpointDraft, sealedAt: I64): Option<CloseError> {
    var lineage := Lineage(d, KeyOf(draft));
    if lineage != [] && sealedAt <= lineage[|lineage| - 1].sealedAt then
      Some(NonMonotonicSealTime(lineage[|lineage| - 1].sealedAt, sealedAt))
    else CheckLink(d, draft)
  }

  function Sealed(draft: CheckpointDraft, sealedAt: I64): Checkpoint {
    Checkpoint(CheckpointHash(sealedAt, draft), sealedAt, draft)
  }

  function Extend(d: Dag, c: Checkpoint): Dag {
    var key := KeyOf(c.draft);
    Dag(
      d.lineages[key := Lineage(d, key) + [c]],
      d.byId[c.id := (key.0, key.1, |Lineage(d, key)|)],
      if c.draft.supersedes.Some? then d.superseded + {c.draft.supersedes.value} else d.superseded)
  }

  function Seal(d: Dag, draft: CheckpointDraft, sealedAt: I64): (Dag, Result<CheckpointId, CloseError>) {
    match Check(d, draft, sealedAt)
    case Some(e) => (d, Err(e))
    case None => var c := Sealed(draft, sealedAt); (Extend(d, c), Ok(c.id))
  }

  datatype Command = Command(draft: CheckpointDraft, sealedAt: I64)

  function Run(d: Dag, commands: seq<Command>): Dag
    decreases |commands|
  {
    if commands == [] then d else Run(Seal(d, commands[0].draft, commands[0].sealedAt).0, commands[1..])
  }

  function AsFiled(d: Dag, key: Key): Option<Checkpoint> {
    if Lineage(d, key) == [] then None else Some(Lineage(d, key)[0])
  }

  /** The last of the first `n` checkpoints that has not been superseded. */
  function LastFree(lineage: seq<Checkpoint>, n: nat, superseded: set<CheckpointId>): Option<Checkpoint>
    requires n <= |lineage|
  {
    if n == 0 then None
    else if lineage[n - 1].id !in superseded then Some(lineage[n - 1])
    else LastFree(lineage, n - 1, superseded)
  }

  function Head(d: Dag, key: Key): Option<Checkpoint> {
    LastFree(Lineage(d, key), |Lineage(d, key)|, d.superseded)
  }

  class CheckpointDag {
    var lineages: map<Key, seq<Checkpoint>>
    var byId: map<CheckpointId, (TenantId, PeriodId, nat)>
    var superseded: set<CheckpointId>

    ghost function Value(): Dag reads this { Dag(lineages, byId, superseded) }

    constructor ()
      ensures Value() == EMPTY
    {
      lineages, byId, superseded := map[], map[], {};
    }

    method LineageOf(key: Key) returns (r: seq<Checkpoint>)
      ensures r == Lineage(Value(), key)
    {
      if key in lineages { r := lineages[key]; } else { r := []; }
    }

    /** A refused checkpoint leaves the lineages as they were. */
    method SealCheckpoint(draft: CheckpointDraft, sealedAt: I64) returns (r: Result<CheckpointId, CloseError>)
      modifies this
      ensures (Value(), r) == Seal(old(Value()), draft, sealedAt)
      ensures r.Err? ==> Value() == old(Value())
    {
      var key := (draft.tenant, draft.period);
      var lineage := LineageOf(key);
      if lineage != [] && sealedAt <= lineage[|lineage| - 1].sealedAt {
        return Err(NonMonotonicSealTime(lineage[|lineage| - 1].sealedAt, sealedAt));
      }
      match draft.supersedes {
        case None =>
          if draft.reason.Some? || draft.memo.Some? { return Err(InitialWithCorrectionFields); }
          if lineage != [] { return Err(ParallelInitialCheckpoint); }
        case Some(target) =>
          if draft.reason.None? || draft.memo.None? { return Err(SupersessionWithoutJustification); }
          if target !in byId { return Err(SupersedeTargetMissing(target)); }
          var (tenant, period, _) := byId[target];
          if tenant != draft.tenant || period != draft.period { return Err(SupersedeAcrossLineage(target)); }
          if target in superseded { return Err(AlreadySuperseded(target)); }
      }
      var id := CheckpointHash(sealedAt, draft);
      lineages := lineages[key := lineage + [Checkpoint(id, sealedAt, draft)]];
      byId := byId[id := (draft.tenant, draft.period, |lineage|)];
      if draft.supersedes.Some? { superseded := superseded + {draft.supersedes.value}; }
      r := Ok(id);
    }

    method HeadOf(key: Key) returns (r: Option<Checkpoint>)
      ensures r == Head(Value(), key)
    {
      var lineage := LineageOf(key);
      var n: nat := |lineage|;
      while n > 0
        invariant n <= |lineage| && LastFree(lineage, n, superseded) == Head(Value(), key)
      {
        if lineage[n - 1].id !in superseded { return Some(lineage[n - 1]); }
        n := n - 1;
      }
      r := None;
    }
  }

  // ------------------------------------------------------------------------------
  // The invariant.

  /** The checkpoint at `i` extends the one before it. */
  ghost predicate LinkOk(key: Key, lineage: seq<Checkpoint>, i: nat)
    requires i < |lineage|
  {
    var c := lineage[i];
    && c.id == CheckpointHash(c.sealedAt, c.draft) && KeyOf(c.draft) == key
    && (i == 0 ==> c.draft.supersedes.None? && c.draft.reason.None? && c.draft.memo.None?)
    && (i > 0 ==>
      && c.draft.supersedes == Some(lineage[i - 1].id) && c.draft.reason.Some? && c.draft.memo.Some?
      && lineage[i - 1].sealedAt < c.sealedAt)
  }

  /** One linear chain: every checkpoint after the first supersedes its predecessor. */
  ghost predicate Linear(key: Key, lineage: seq<Checkpoint>) {
    forall i :: 0 <= i < |lineage| ==> LinkOk(key, lineage, i)
  }

  ghost predicate Indexed(d: Dag, id: CheckpointId) {
    && id in d.byId
    && var (t, p, i) := d.byId[id]; i < |Lineage(d, (t, p))| && Lineage(d, (t, p))[i].id == id
  }

  /** Whether a checkpoint stands before the last of its lineage. */
  ghost predicate Overtaken(d: Dag, id: CheckpointId) {
    id in d.byId && var (t, p, i) := d.byId[id]; i + 1 < |Lineage(d, (t, p))|
  }

  ghost predicate InIndex(d: Dag, key: Key, i: nat)
    requires i < |Lineage(d, key)|
  {
    var id := Lineage(d, key)[i].id;
    id in d.byId && d.byId[id] == (key.0, key.1, i)
  }

  ghost predicate DagInv(d: Dag) {
    && (forall key :: Linear(key, Lineage(d, key)))
    && (forall id :: id in d.byId ==> Indexed(d, id))
    && (forall key, i :: 0 <= i < |Lineage(d, key)| ==> InIndex(d, key, i))
    && (forall id :: id in d.superseded <==> Overtaken(d, id))
  }

  lemma LineageAfter(d: Dag, c: Checkpoint, key: Key)
    ensures Lineage(Extend(d, c), key) == if key == KeyOf(c.draft) then Lineage(d, key) + [c] else Lineage(d, key)
  {
  }

  lemma {:induction false} SealTimesIncrease(key: Key, lineage: seq<Checkpoint>, i: nat, j: nat)
    requires Linear(key, lineage) && i <= j < |lineage|
    ensures lineage[i].sealedAt <= lineage[j].sealedAt
  {
    assert LinkOk(key, lineage, j);
    if i < j { SealTimesIncrease(key, lineage, i, j - 1); }
  }

  /** The id of a checkpoint sealed later than the lineage is new. */
  lemma SealedIsNew(d: Dag, draft: CheckpointDraft, sealedAt: I64)
    requires DagInv(d) && Check(d, draft, sealedAt).None?
    ensures Sealed(draft, sealedAt).id !in d.byId
  {
    var id := Sealed(draft, sealedAt).id;
    if id in d.byId {
      assert Indexed(d, id);
      var (t, p, i) := d.byId[id];
      var lineage := Lineage(d, (t, p));
      assert LinkOk((t, p), lineage, i);
      SealTimesIncrease((t, p), lineage, i, |lineage| - 1);
      assert false;
    }
  }

  /** The one checkpoint of a lineage that can be superseded is the last. */
  lemma OnlyLastIsFree(d: Dag, draft: CheckpointDraft, target: CheckpointId)
    requires DagInv(d) && draft.supersedes == Some(target) && draft.reason.Some? && draft.memo.Some?
    ensures var lineage := Lineage(d, KeyOf(draft));
      CheckLink(d, draft).None? <==> lineage != [] && lineage[|lineage| - 1].id == target
  {
    var key := KeyOf(draft);
    var lineage := Lineage(d, key);
    if target in d.byId { assert Indexed(d, target); }
    if lineage != [] { assert InIndex(d, key, |lineage| - 1); }
    if lineage != [] && lineage[|lineage| - 1].id == target { assert !Overtaken(d, target); }
  }

  lemma LinearAfter(d: Dag, draft: CheckpointDraft, sealedAt: I64)
    requires DagInv(d) && Check(d, draft, sealedAt).None?
    ensures Linear(KeyOf(draft), Lineage(d, KeyOf(draft)) + [Sealed(draft, sealedAt)])
  {
    var key := KeyOf(draft);
    var before := Lineage(d, key);
    var after := before + [Sealed(draft, sealedAt)];
    if draft.supersedes.Some? { OnlyLastIsFree(d, draft, draft.supersedes.value); }
    forall i | 0 <= i < |after| ensures LinkOk(key, after, i) {
      if i < |before| { assert LinkOk(key, before, i); }
    }
  }

  lemma OvertakenAfter(d: Dag, draft: CheckpointDraft, sealedAt: I64, id: CheckpointId)
    requires DagInv(d) && Check(d, draft, sealedAt).None?
    ensures var d' := Extend(d, Sealed(draft, sealedAt)); id in d'.superseded <==> Overtaken(d', id)
  {
    var c := Sealed(draft, sealedAt);
    var lineage := Lineage(d, KeyOf(draft));
    SealedIsNew(d, draft, sealedAt);
    if draft.supersedes.Some? { OnlyLastIsFree(d, draft, draft.supersedes.value); }
    if lineage != [] { assert InIndex(d, KeyOf(draft), |lineage| - 1); }
    if id in d.byId {
      assert Indexed(d, id);
      LineageAfter(d, c, (d.byId[id].0, d.byId[id].1));
    }
  }

  lemma SealKeepsInv(d: Dag, draft: CheckpointDraft, sealedAt: I64)
    requires DagInv(d)
    ensures DagInv(Seal(d, draft, sealedAt).0)
  {
    if Check(d, draft, sealedAt).None? {
      var c := Sealed(draft, sealedAt);
      var d' := Extend(d, c);
      SealedIsNew(d, draft, sealedAt);
      forall key ensures Linear(key, Lineage(d', key)) {
        LineageAfter(d, c, key);
        LinearAfter(d, draft, sealedAt);
      }
      forall id | id in d'.byId ensures Indexed(d', id) {
        if id in d.byId { assert Indexed(d, id); }
      }
      forall key, i | 0 <= i < |Lineage(d', key)| ensures InIndex(d', key, i) {
        LineageAfter(d, c, key);
        if i < |Lineage(d, key)| { assert InIndex(d, key, i); }
      }
      forall id ensures id in d'.superseded <==> Overtaken(d', id) { OvertakenAfter(d, draft, sealedAt, id); }
    }
  }

  lemma {:induction false} RunKeepsInv(d: Dag, commands: seq<Command>)
    requires DagInv(d)
    ensures DagInv(Run(d, commands))
    decreases |commands|
  {
    if commands != [] {
      SealKeepsInv(d, commands[0].draft, commands[0].sealedAt);
      RunKeepsInv(Seal(d, commands[0].draft, commands[0].sealedAt).0, commands[1..]);
    }
  }

  /** In every DAG that sealing can produce, each lineage is one linear chain, and its head
      is the checkpoint sealed last. */
  lemma LineagesAreLinear(commands: seq<Command>, key: Key)
    ensures var d := Run(EMPTY, commands);
      var lineage := Lineage(d, key);
      && Linear(key, lineage)
      && Head(d, key) == if lineage == [] then None else Some(lineage[|lineage| - 1])
  {
    RunKeepsInv(EMPTY, commands);
    var d := Run(EMPTY, commands);
    var lineage := Lineage(d, key);
    if lineage != [] {
      assert InIndex(d, key, |lineage| - 1);
      assert !Overtaken(d, lineage[|lineage| - 1].id);
    }
  }

  /** What sealing accepts: a first checkpoint without correction fields, or a justified
      supersession of the current head; in either case later than all before. */
  lemma SealAcceptedIff(commands: seq<Command>, draft: CheckpointDraft, sealedAt: I64)
    ensures var d := Run(EMPTY, commands);
      var head := Head(d, KeyOf(draft));
      Seal(d, draft, sealedAt).1.Ok? <==>
        match head
        case None => draft.supersedes.None? && draft.reason.None? && draft.memo.None?
        case Some(h) =>
          h.sealedAt < sealedAt && draft.supersedes == Some(h.id) && draft.reason.Some? && draft.memo.Some?
  {
    var d := Run(EMPTY, commands);
    RunKeepsInv(EMPTY, commands);
    LineagesAreLinear(commands, KeyOf(draft));
    if draft.supersedes.Some? && draft.reason.Some? && draft.memo.Some? {
      OnlyLastIsFree(d, draft, draft.supersedes.value);
    }
  }

  /** A lineage only grows at its end, so what was filed first stays as filed. */
  lemma {:induction false} AsFiledIsPermanent(d: Dag, commands: seq<Command>, key: Key)
    ensures Lineage(d, key) <= Lineage(Run(d, commands), key)
    ensures AsFiled(d, key).Some? ==> AsFiled(Run(d, commands), key) == AsFiled(d, key)
    decreases |commands|
  {
    if commands != [] {
      var c := commands[0];
      LineageAfter(d, Sealed(c.draft, c.sealedAt), key);
      AsFiledIsPermanent(Seal(d, c.draft, c.sealedAt).0, commands[1..], key);
    }
  }

  /** What was filed: in every DAG that sealing can produce, a lineage that has a checkpoint
      at all has exactly one that supersedes none, the first, and that is the one filed. */
  lemma AsFiledIsTheInitial(commands: seq<Command>, key: Key)
    ensures var d := Run(EMPTY, commands);
      var lineage := Lineage(d, key);
      match AsFiled(d, key)
      case None => lineage == []
      case Some(filed) =>
        && lineage != [] && filed == lineage[0]
        && forall i :: 0 <= i < |lineage| ==> (lineage[i].draft.supersedes.None? <==> lineage[i] == filed)
  {
    LineagesAreLinear(commands, key);
    var lineage := Lineage(Run(EMPTY, commands), key);
    forall i | 0 <= i < |lineage| ensures lineage[i].draft.supersedes.None? <==> lineage[i] == lineage[0] {
      assert LinkOk(key, lineage, i) && LinkOk(key, lineage, 0);
    }
  }

  /** What an accepted sealing books: one checkpoint at the end of its lineage, with the
      draft and the time given and the hash of both as id. Nothing else changes, and nothing
      at all when the sealing is refused. */
  lemma SealBooks(d: Dag, draft: CheckpointDraft, sealedAt: I64)
    ensures var (d', r) := Seal(d, draft, sealedAt);
      var key := (draft.tenant, draft.period);
      var before, after := Lineage(d, key), Lineage(d', key);
      && (r.Err? ==> d' == d)
      && (r.Ok? ==>
            && |after| == |before| + 1 && after[..|before|] == before
            && after[|before|] == Checkpoint(r.value, sealedAt, draft)
            && r.value == CheckpointHash(sealedAt, draft))
      && (forall other :: other != key ==> Lineage(d', other) == Lineage(d, other))
  {
  }

  ghost predicate SealedIn(lineage: seq<Checkpoint>, id: CheckpointId) {
    exists i :: 0 <= i < |lineage| && lineage[i].id == id
  }

  ghost predicate SealedAnywhere(d: Dag, id: CheckpointId) { exists key :: SealedIn(Lineage(d, key), id) }

  ghost predicate Replaced(lineage: seq<Checkpoint>, id: CheckpointId) {
    exists i :: 0 <= i < |lineage| && lineage[i].draft.supersedes == Some(id)
  }

  /** The reason given is a true one. */
  ghost predicate TrueReason(d: Dag, draft: CheckpointDraft, sealedAt: I64, e: CloseError) {
    var lineage := Lineage(d, (draft.tenant, draft.period));
    match e
    case NonMonotonicSealTime(last, proposed) =>
      lineage != [] && last == lineage[|lineage| - 1].sealedAt && proposed == sealedAt <= last
    case InitialWithCorrectionFields => draft.supersedes.None? && (draft.reason.Some? || draft.memo.Some?)
    case ParallelInitialCheckpoint => draft.supersedes.None? && lineage != []
    case SupersessionWithoutJustification => draft.supersedes.Some? && (draft.reason.None? || draft.memo.None?)
    case SupersedeTargetMissing(id) => draft.supersedes == Some(id) && !SealedAnywhere(d, id)
    case SupersedeAcrossLineage(id) => draft.supersedes == Some(id) && SealedAnywhere(d, id) && !SealedIn(lineage, id)
    case AlreadySuperseded(id) => draft.supersedes == Some(id) && SealedIn(lineage, id) && Replaced(lineage, id)
  }

  lemma SealedIff(d: Dag, id: CheckpointId)
    requires DagInv(d)
    ensures SealedAnywhere(d, id) <==> id in d.byId
    ensures forall key :: SealedIn(Lineage(d, key), id) <==> id in d.byId && key == (d.byId[id].0, d.byId[id].1)
  {
    if id in d.byId {
      assert Indexed(d, id);
      assert SealedIn(Lineage(d, (d.byId[id].0, d.byId[id].1)), id);
    }
    forall key ensures SealedIn(Lineage(d, key), id) <==> id in d.byId && key == (d.byId[id].0, d.byId[id].1) {
      if i :| 0 <= i < |Lineage(d, key)| && Lineage(d, key)[i].id == id { assert InIndex(d, key, i); }
    }
  }

  lemma OvertakenIsReplaced(d: Dag, id: CheckpointId)
    requires DagInv(d) && id in d.superseded
    ensures id in d.byId && Replaced(Lineage(d, (d.byId[id].0, d.byId[id].1)), id)
  {
    assert Overtaken(d, id) && Indexed(d, id);
    var (t, p, i) := d.byId[id];
    assert LinkOk((t, p), Lineage(d, (t, p)), i + 1);
  }

  /** What sealing refuses, it refuses for a reason that is true. */
  lemma SealRefusedTruly(commands: seq<Command>, draft: CheckpointDraft, sealedAt: I64)
    ensures var d := Run(EMPTY, commands);
      var r := Seal(d, draft, sealedAt).1;
      r.Err? ==> TrueReason(d, draft, sealedAt, r.error)
  {
    RunKeepsInv(EMPTY, commands);
    var d := Run(EMPTY, commands);
    if draft.supersedes.Some? {
      var target := draft.supersedes.value;
      SealedIff(d, target);
      if target in d.superseded { OvertakenIsReplaced(d, target); }
    }
  }
}

/** What holds in every ledger that appends can produce: sound chains, frozen history and
    corrections that form disjoint paths. */
module LedgerTheory {
  import opened Prelude
  import opened Json
  import JsonTheory
  import opened Filtering
  import opened Ledger

  // ------------------------------------------------------------------------------
  // Hash chains.

  /** How many events an id commits to. */
  ghost function Depth(id: EventId): nat {
    if id.EventHash? then 1 + Depth(id.prev) else 0
  }

  ghost function PrevId(tenant: TenantId, stream: seq<SealedEvent>, i: nat): EventId
    requires i <= |stream|
  {
    if i == 0 then Genesis(tenant) else stream[i - 1].id
  }

  /** Event `i` names its predecessor and carries the hash of its own content. */
  ghost predicate Linked(tenant: TenantId, stream: seq<SealedEvent>, i: nat)
    requires i < |stream|
  {
    var e := stream[i];
    e.prev == PrevId(tenant, stream, i) && ComputeId(e.prev, e.time, e.draft) == Some(e.id)
  }

  ghost predicate Chained(tenant: TenantId, stream: seq<SealedEvent>) {
    forall i :: 0 <= i < |stream| ==> Linked(tenant, stream, i)
  }

  lemma CheckChainStep(tenant: TenantId, stream: seq<SealedEvent>, i: nat)
    requires i < |stream|
    ensures CheckChain(stream, i, PrevId(tenant, stream, i)).Ok? <==>
      Linked(tenant, stream, i) && CheckChain(stream, i + 1, PrevId(tenant, stream, i + 1)).Ok?
  {
    assert PrevId(tenant, stream, i + 1) == stream[i].id;
  }

  ghost predicate LinkedFrom(tenant: TenantId, stream: seq<SealedEvent>, i: nat) {
    forall k :: i <= k < |stream| ==> Linked(tenant, stream, k)
  }

  lemma LinkedFromStep(tenant: TenantId, stream: seq<SealedEvent>, i: nat)
    requires i < |stream|
    ensures LinkedFrom(tenant, stream, i) <==> Linked(tenant, stream, i) && LinkedFrom(tenant, stream, i + 1)
  {
  }

  /** The check of the stream from `i` on passes exactly when every event from there on is
      linked. */
  lemma {:induction false} CheckChainExact(tenant: TenantId, stream: seq<SealedEvent>, i: nat)
    requires i <= |stream|
    ensures CheckChain(stream, i, PrevId(tenant, stream, i)).Ok? <==> LinkedFrom(tenant, stream, i)
    decreases |stream| - i
  {
    if i < |stream| {
      CheckChainExact(tenant, stream, i + 1);
      CheckChainStep(tenant, stream, i);
      LinkedFromStep(tenant, stream, i);
    }
  }

  lemma {:induction false} ChainDepth(tenant: TenantId, stream: seq<SealedEvent>, i: nat)
    requires i < |stream| && forall k :: 0 <= k <= i ==> Linked(tenant, stream, k)
    ensures Depth(stream[i].id) == i + 1
  {
    assert Linked(tenant, stream, i);
    if i > 0 { ChainDepth(tenant, stream, i - 1); }
  }

  /** The same event, but for the order of fields inside its payload. */
  ghost predicate SameEvent(a: SealedEvent, b: SealedEvent) {
    && a.id == b.id && a.prev == b.prev && a.time == b.time
    && a.draft == b.draft.(payload := a.draft.payload)
    && JsonTheory.Same(a.draft.payload, b.draft.payload)
  }

  lemma EqualIdsSameEvent(ta: TenantId, a: seq<SealedEvent>, tb: TenantId, b: seq<SealedEvent>, i: nat)
    requires i < |a| && i < |b| && Linked(ta, a, i) && Linked(tb, b, i) && a[i].id == b[i].id
    requires WellFormed(a[i].draft.payload) && WellFormed(b[i].draft.payload)
    ensures SameEvent(a[i], b[i])
  {
    JsonTheory.CanonicalTextIdentifies(a[i].draft.payload, b[i].draft.payload);
  }

  lemma {:induction false} EqualIdsBelow(tenant: TenantId, a: seq<SealedEvent>, b: seq<SealedEvent>, n: nat, i: nat)
    requires Chained(tenant, a) && Chained(tenant, b) && i < n <= |a| && n <= |b| && a[n - 1].id == b[n - 1].id
    ensures a[i].id == b[i].id
    decreases n
  {
    assert Linked(tenant, a, n - 1) && Linked(tenant, b, n - 1);
    if i < n - 1 { EqualIdsBelow(tenant, a, b, n - 1, i); }
  }

  ghost predicate WellFormedPayloads(stream: seq<SealedEvent>) {
    forall i :: 0 <= i < |stream| ==> WellFormed(stream[i].draft.payload)
  }

  lemma VerifiedIsChained(tenant: TenantId, stream: seq<SealedEvent>)
    requires VerifyStream(tenant, stream).Ok?
    ensures Chained(tenant, stream) && Depth(LastId(tenant, stream)) == |stream|
  {
    CheckChainExact(tenant, stream, 0);
    if stream != [] { ChainDepth(tenant, stream, |stream| - 1); }
  }

  lemma SameAt(tenant: TenantId, a: seq<SealedEvent>, b: seq<SealedEvent>, i: nat)
    requires Chained(tenant, a) && Chained(tenant, b) && WellFormedPayloads(a) && WellFormedPayloads(b)
    requires i < |a| == |b| && a[|a| - 1].id == b[|a| - 1].id
    ensures SameEvent(a[i], b[i])
  {
    EqualIdsBelow(tenant, a, b, |a|, i);
    EqualIdsSameEvent(tenant, a, tenant, b, i);
  }

  /** Tamper evidence: two streams of one tenant that both pass the check and end in the
      same id are equal, event for event and in length. */
  lemma LastIdDeterminesStream(tenant: TenantId, a: seq<SealedEvent>, b: seq<SealedEvent>)
    requires VerifyStream(tenant, a).Ok? && VerifyStream(tenant, b).Ok?
    requires WellFormedPayloads(a) && WellFormedPayloads(b)
    requires LastId(tenant, a) == LastId(tenant, b)
    ensures |a| == |b| && forall i :: 0 <= i < |a| ==> SameEvent(a[i], b[i])
  {
    VerifiedIsChained(tenant, a);
    VerifiedIsChained(tenant, b);
    forall i | 0 <= i < |a| ensures SameEvent(a[i], b[i]) { SameAt(tenant, a, b, i); }
  }

  // ------------------------------------------------------------------------------
  // The invariant.

  /** The position an id has in its stream. */
  ghost function Position(id: EventId): int { Depth(id) - 1 }

  ghost predicate Supersedes(e: SealedEvent, id: EventId) { e.draft.supersedes == Some(id) }

  /** The correction at `i` names an earlier event of its own layer, and is the first to. */
  ghost predicate CorrectionOk(stream: seq<SealedEvent>, i: nat, target: EventId)
    requires i < |stream|
  {
    var j := Position(target);
    && 0 <= j < i && stream[j].id == target && stream[j].draft.layer == stream[i].draft.layer
    && forall k :: 0 <= k < i ==> !Supersedes(stream[k], target)
  }

  ghost predicate EventOk(tenant: TenantId, stream: seq<SealedEvent>, i: nat)
    requires i < |stream|
  {
    var e := stream[i];
    && Linked(tenant, stream, i) && e.draft.tenant == tenant && e.draft.layer == ProvenanceLayer(e.draft.provenance)
    && (i > 0 ==> stream[i - 1].time < e.time)
    && (e.draft.supersedes.Some? ==> CorrectionOk(stream, i, e.draft.supersedes.value))
  }

  ghost predicate StreamOk(tenant: TenantId, stream: seq<SealedEvent>) {
    forall i :: 0 <= i < |stream| ==> EventOk(tenant, stream, i)
  }

  ghost predicate Held(s: State, id: EventId) {
    id.EventHash? && 0 <= Position(id) < |Stream(s, id.envelope.tenant)|
    && Stream(s, id.envelope.tenant)[Position(id)].id == id
  }

  ghost predicate Corrected(stream: seq<SealedEvent>, id: EventId) {
    exists k :: 0 <= k < |stream| && Supersedes(stream[k], id)
  }

  ghost predicate LedgerInv(s: State) {
    && (forall t :: StreamOk(t, Stream(s, t)))
    && (forall id :: id in s.byId <==> Held(s, id))
    && (forall id :: id in s.byId ==> s.byId[id] == (id.envelope.tenant, Position(id)))
    && (forall id :: id in s.superseded <==> id.EventHash? && Corrected(Stream(s, id.envelope.tenant), id))
  }

  lemma StreamAfter(s: State, e: SealedEvent, t: TenantId)
    ensures Stream(Booked(s, e), t) == if t == e.draft.tenant then Stream(s, t) + [e] else Stream(s, t)
  {
  }

  /** What the rules of an append amount to. */
  lemma CheckedTarget(s: State, draft: EventDraft, target: EventId)
    requires LedgerInv(s)
    ensures CheckTarget(s, draft, target).None? <==>
      && Held(s, target) && target.envelope.tenant == draft.tenant
      && Stream(s, draft.tenant)[Position(target)].draft.layer == draft.layer
      && !Corrected(Stream(s, draft.tenant), target)
  {
    if target in s.byId { assert Held(s, target); }
  }

  lemma SealedIsOk(s: State, draft: EventDraft, time: I64)
    requires LedgerInv(s) && Check(s, draft, time).None?
    ensures var stream := Stream(s, draft.tenant) + [Sealed(s, draft, time)];
      EventOk(draft.tenant, stream, |stream| - 1)
  {
    var before := Stream(s, draft.tenant);
    var stream := before + [Sealed(s, draft, time)];
    assert Linked(draft.tenant, stream, |before|);
    if draft.supersedes.Some? {
      var target := draft.supersedes.value;
      CheckedTarget(s, draft, target);
      forall k | 0 <= k < |before| ensures !Supersedes(stream[k], target) {
        assert !Supersedes(before[k], target);
      }
      assert CorrectionOk(stream, |before|, target);
    }
  }

  lemma {:induction false} EventStaysOk(tenant: TenantId, stream: seq<SealedEvent>, e: SealedEvent, i: nat)
    requires i < |stream| && EventOk(tenant, stream, i)
    ensures EventOk(tenant, stream + [e], i)
  {
    var longer := stream + [e];
    assert longer[i] == stream[i] && forall k :: 0 <= k < |stream| ==> longer[k] == stream[k];
    assert Linked(tenant, longer, i);
    if stream[i].draft.supersedes.Some? { assert CorrectionOk(longer, i, stream[i].draft.supersedes.value); }
  }

  lemma StreamStaysOk(s: State, draft: EventDraft, time: I64)
    requires LedgerInv(s) && Check(s, draft, time).None?
    ensures StreamOk(draft.tenant, Stream(s, draft.tenant) + [Sealed(s, draft, time)])
  {
    var before, e := Stream(s, draft.tenant), Sealed(s, draft, time);
    forall i | 0 <= i < |before + [e]| ensures EventOk(draft.tenant, before + [e], i) {
      if i < |before| { EventStaysOk(draft.tenant, before, e, i); } else { SealedIsOk(s, draft, time); }
    }
  }

  lemma SealedPosition(s: State, draft: EventDraft, time: I64)
    requires LedgerInv(s) && Check(s, draft, time).None?
    ensures Position(Sealed(s, draft, time).id) == |Stream(s, draft.tenant)|
  {
    StreamStaysOk(s, draft, time);
    var stream := Stream(s, draft.tenant) + [Sealed(s, draft, time)];
    forall k | 0 <= k < |stream| ensures Linked(draft.tenant, stream, k) { assert EventOk(draft.tenant, stream, k); }
    ChainDepth(draft.tenant, stream, |stream| - 1);
  }

  lemma HeldAfter(s: State, e: SealedEvent, id: EventId)
    requires e.id.EventHash? && e.id.envelope.tenant == e.draft.tenant && Position(e.id) == |Stream(s, e.draft.tenant)|
    ensures Held(Booked(s, e), id) <==> Held(s, id) || id == e.id
  {
    if id.EventHash? { StreamAfter(s, e, id.envelope.tenant); }
  }

  lemma CorrectedAfter(stream: seq<SealedEvent>, e: SealedEvent, id: EventId)
    ensures Corrected(stream + [e], id) <==> Corrected(stream, id) || Supersedes(e, id)
  {
    var longer := stream + [e];
    if Corrected(stream, id) {
      var k :| 0 <= k < |stream| && Supersedes(stream[k], id);
      assert longer[k] == stream[k];
    }
    if Supersedes(e, id) { assert longer[|stream|] == e; }
  }

  lemma SupersededAfter(s: State, draft: EventDraft, time: I64, id: EventId)
    requires LedgerInv(s) && Check(s, draft, time).None?
    ensures var s' := Booked(s, Sealed(s, draft, time));
      id in s'.superseded <==> id.EventHash? && Corrected(Stream(s', id.envelope.tenant), id)
  {
    var e := Sealed(s, draft, time);
    if draft.supersedes.Some? { CheckedTarget(s, draft, draft.supersedes.value); }
    if id.EventHash? {
      StreamAfter(s, e, id.envelope.tenant);
      CorrectedAfter(Stream(s, draft.tenant), e, id);
    }
  }

  lemma AppendKeepsInv(s: State, draft: EventDraft, time: I64)
    requires LedgerInv(s)
    ensures LedgerInv(Append(s, draft, time).0)
  {
    if Check(s, draft, time).None? {
      var e := Sealed(s, draft, time);
      var s' := Booked(s, e);
      SealedPosition(s, draft, time);
      forall t ensures StreamOk(t, Stream(s', t)) {
        StreamAfter(s, e, t);
        StreamStaysOk(s, draft, time);
      }
      forall id ensures id in s'.byId <==> Held(s', id) { HeldAfter(s, e, id); }
      forall id ensures id in s'.superseded <==> id.EventHash? && Corrected(Stream(s', id.envelope.tenant), id) {
        SupersededAfter(s, draft, time, id);
      }
    }
  }

  lemma {:induction false} RunKeepsInv(s: State, commands: seq<Command>)
    requires LedgerInv(s)
    ensures LedgerInv(Run(s, commands))
    decreases |commands|
  {
    if commands != [] {
      AppendKeepsInv(s, commands[0].draft, commands[0].time);
      RunKeepsInv(Append(s, commands[0].draft, commands[0].time).0, commands[1..]);
    }
  }

  /** Every ledger that appends can produce satisfies the invariant. */
  lemma ReachableLedgersAreSound(commands: seq<Command>)
    ensures LedgerInv(Run(EMPTY, commands))
  {
    RunKeepsInv(EMPTY, commands);
  }

  /** The chain check passes for every tenant in every ledger that appends can produce. */
  lemma ReachableChainsVerify(commands: seq<Command>, tenant: TenantId)
    ensures VerifyStream(tenant, Stream(Run(EMPTY, commands), tenant)).Ok?
  {
    ReachableLedgersAreSound(commands);
    var stream := Stream(Run(EMPTY, commands), tenant);
    forall i | 0 <= i < |stream| ensures Linked(tenant, stream, i) { assert EventOk(tenant, stream, i); }
    CheckChainExact(tenant, stream, 0);
  }

  // ------------------------------------------------------------------------------
  // Frozen history.

  lemma {:induction false} FilterAgrees<T>(xs: seq<T>, p: T -> bool, q: T -> bool)
    requires forall i :: 0 <= i < |xs| ==> p(xs[i]) == q(xs[i])
    ensures Filter(xs, p) == Filter(xs, q)
  {
    if xs != [] { FilterAgrees(xs[1..], p, q); }
  }

  lemma LaterEventInvisible(stream: seq<SealedEvent>, e: SealedEvent, time: I64)
    requires time < e.time
    ensures AsOf(stream + [e], time) == AsOf(stream, time)
  {
    assert SupersededBy(stream + [e], time) == SupersededBy(stream, time) by {
      assert forall x :: x in stream + [e] <==> x in stream || x == e;
    }
    var gone := SupersededBy(stream, time);
    var p := (x: SealedEvent) => x.time <= time && x.id !in gone;
    var gone' := SupersededBy(stream + [e], time);
    var q := (x: SealedEvent) => x.time <= time && x.id !in gone';
    FilterAppend(stream, [e], q);
    FilterAgrees(stream, p, q);
  }

  /** An append at knowledge time `k` leaves every query for an earlier time as it was, and
      the streams of other tenants altogether. */
  lemma AppendKeepsHistory(s: State, draft: EventDraft, k: I64, tenant: TenantId, time: I64)
    ensures var s' := Append(s, draft, k).0;
      && (time < k ==> AsOf(Stream(s', tenant), time) == AsOf(Stream(s, tenant), time))
      && (tenant != draft.tenant ==> Stream(s', tenant) == Stream(s, tenant))
      && Stream(s, tenant) <= Stream(s', tenant)
  {
    if Check(s, draft, k).None? && tenant == draft.tenant && time < k {
      LaterEventInvisible(Stream(s, tenant), Sealed(s, draft, k), time);
    }
  }

  /** The stream has moved to or past this knowledge time. */
  ghost predicate Reached(stream: seq<SealedEvent>, time: I64) {
    stream != [] && time <= stream[|stream| - 1].time
  }

  lemma AppendKeepsReached(s: State, draft: EventDraft, k: I64, tenant: TenantId, time: I64)
    requires Reached(Stream(s, tenant), time)
    ensures var stream' := Stream(Append(s, draft, k).0, tenant);
      Reached(stream', time) && AsOf(stream', time) == AsOf(Stream(s, tenant), time)
  {
    if Check(s, draft, k).None? {
      var e := Sealed(s, draft, k);
      StreamAfter(s, e, tenant);
      if tenant == draft.tenant { LaterEventInvisible(Stream(s, tenant), e, time); }
    }
  }

  /** Once a tenant's stream has reached a knowledge time, no later appends, by whomever,
      change what the books say as of that time. */
  lemma {:induction false} HistoryIsFrozen(s: State, commands: seq<Command>, tenant: TenantId, time: I64)
    requires Reached(Stream(s, tenant), time)
    ensures AsOf(Stream(Run(s, commands), tenant), time) == AsOf(Stream(s, tenant), time)
    decreases |commands|
  {
    if commands != [] {
      var c := commands[0];
      AppendKeepsReached(s, c.draft, c.time, tenant, time);
      HistoryIsFrozen(Append(s, c.draft, c.time).0, commands[1..], tenant, time);
    }
  }

  // ------------------------------------------------------------------------------
  // Corrections form disjoint paths.

  /** The first event of the correction chain that event `i` belongs to. */
  ghost function Root(tenant: TenantId, stream: seq<SealedEvent>, i: nat): (r: nat)
    requires StreamOk(tenant, stream) && i < |stream|
    ensures r <= i
  {
    if stream[i].draft.supersedes.None? then i
    else
      assert EventOk(tenant, stream, i);
      Root(tenant, stream, Position(stream[i].draft.supersedes.value))
  }

  ghost predicate Begins(stream: seq<SealedEvent>, i: nat)
    requires i < |stream|
  {
    stream[i].draft.supersedes.None?
  }

  lemma {:induction false} RootBegins(tenant: TenantId, stream: seq<SealedEvent>, i: nat)
    requires StreamOk(tenant, stream) && i < |stream|
    ensures var r := Root(tenant, stream, i);
      && Begins(stream, r) && Root(tenant, stream, r) == r
      && stream[r].draft.layer == stream[i].draft.layer && stream[r].draft.tenant == stream[i].draft.tenant == tenant
  {
    assert EventOk(tenant, stream, i);
    if stream[i].draft.supersedes.Some? {
      RootBegins(tenant, stream, Position(stream[i].draft.supersedes.value));
    }
  }

  /** Event `i` is booked among the first `n` and none of those supersedes it. */
  ghost predicate Active(stream: seq<SealedEvent>, n: nat, i: nat)
    requires n <= |stream|
  {
    i < n && forall k :: 0 <= k < n ==> !Supersedes(stream[k], stream[i].id)
  }

  lemma TargetPosition(tenant: TenantId, stream: seq<SealedEvent>, i: nat, k: nat)
    requires StreamOk(tenant, stream) && i < |stream| && k < |stream| && Supersedes(stream[k], stream[i].id)
    ensures i < k && Position(stream[i].id) == i && Root(tenant, stream, k) == Root(tenant, stream, i)
    ensures forall m :: 0 <= m < |stream| && Supersedes(stream[m], stream[i].id) ==> m == k
  {
    forall m | 0 <= m < |stream| ensures Linked(tenant, stream, m) { assert EventOk(tenant, stream, m); }
    ChainDepth(tenant, stream, i);
    assert EventOk(tenant, stream, k);
    forall m | 0 <= m < |stream| && Supersedes(stream[m], stream[i].id) ensures m == k {
      assert EventOk(tenant, stream, m);
    }
  }

  /** Of two links of one chain the earlier has been superseded by the time of the later. */
  lemma {:induction false} EarlierLinkSuperseded(tenant: TenantId, stream: seq<SealedEvent>, i: nat, later: nat) returns (k: nat)
    requires StreamOk(tenant, stream) && i < later < |stream|
    requires Root(tenant, stream, i) == Root(tenant, stream, later)
    ensures k <= later && Supersedes(stream[k], stream[i].id)
    decreases later
  {
    assert EventOk(tenant, stream, later);
    RootBegins(tenant, stream, i);
    var j: nat := Position(stream[later].draft.supersedes.value);
    if j == i {
      k := later;
    } else if j > i {
      k := EarlierLinkSuperseded(tenant, stream, i, j);
    } else {
      k := EarlierLinkSuperseded(tenant, stream, j, i);
      TargetPosition(tenant, stream, j, k);
      assert false;
    }
  }

  /** Event `i` is the latest link of its chain among the first `n` events. */
  ghost predicate LatestLink(tenant: TenantId, stream: seq<SealedEvent>, n: nat, i: nat)
    requires StreamOk(tenant, stream) && n <= |stream|
  {
    i < n && forall k :: i < k < n ==> Root(tenant, stream, k) != Root(tenant, stream, i)
  }

  /** What is active is exactly the latest link of each chain. */
  lemma ActiveIsLatest(tenant: TenantId, stream: seq<SealedEvent>, n: nat, i: nat)
    requires StreamOk(tenant, stream) && i < n <= |stream|
    ensures Active(stream, n, i) <==> LatestLink(tenant, stream, n, i)
  {
    if Active(stream, n, i) {
      forall k | i < k < n ensures Root(tenant, stream, k) != Root(tenant, stream, i) {
        if Root(tenant, stream, k) == Root(tenant, stream, i) {
          var m := EarlierLinkSuperseded(tenant, stream, i, k);
        }
      }
    }
    if LatestLink(tenant, stream, n, i) {
      forall k | 0 <= k < n ensures !Supersedes(stream[k], stream[i].id) {
        if Supersedes(stream[k], stream[i].id) { TargetPosition(tenant, stream, i, k); }
      }
    }
  }

  /** The latest link of a chain among the first `n` events. */
  lemma {:induction false} LatestOf(tenant: TenantId, stream: seq<SealedEvent>, n: nat, root: nat) returns (i: nat)
    requires StreamOk(tenant, stream) && root < n <= |stream| && Begins(stream, root)
    ensures LatestLink(tenant, stream, n, i) && Root(tenant, stream, i) == root
    decreases n
  {
    if Root(tenant, stream, n - 1) == root {
      i := n - 1;
    } else {
      i := LatestOf(tenant, stream, n - 1, root);
    }
  }

  lemma LaterThanBefore(tenant: TenantId, stream: seq<SealedEvent>, j: nat)
    requires StreamOk(tenant, stream) && 0 < j < |stream|
    ensures stream[j - 1].time < stream[j].time
  {
    assert EventOk(tenant, stream, j);
  }

  lemma {:induction false} TimesIncrease(tenant: TenantId, stream: seq<SealedEvent>, i: nat, j: nat)
    requires StreamOk(tenant, stream) && i < j < |stream|
    ensures stream[i].time < stream[j].time
  {
    LaterThanBefore(tenant, stream, j);
    if i < j - 1 { TimesIncrease(tenant, stream, i, j - 1); }
  }

  ghost predicate BookedUpTo(stream: seq<SealedEvent>, time: I64, n: nat) {
    n <= |stream| && forall i :: 0 <= i < |stream| ==> (stream[i].time <= time <==> i < n)
  }

  /** The events booked by a time are the first ones of the stream. */
  lemma {:induction false} BookedFirst(tenant: TenantId, stream: seq<SealedEvent>, time: I64, m: nat) returns (n: nat)
    requires StreamOk(tenant, stream) && m <= |stream| && forall i :: m <= i < |stream| ==> time < stream[i].time
    ensures BookedUpTo(stream, time, n)
    decreases m
  {
    if m > 0 && time < stream[m - 1].time {
      n := BookedFirst(tenant, stream, time, m - 1);
    } else {
      n := m;
      forall i | 0 <= i < m ensures stream[i].time <= time {
        if i < m - 1 { TimesIncrease(tenant, stream, i, m - 1); }
      }
    }
  }

  lemma ActiveMeansListed(stream: seq<SealedEvent>, time: I64, n: nat, i: nat)
    requires BookedUpTo(stream, time, n) && i < |stream|
    ensures Active(stream, n, i) <==> stream[i].time <= time && stream[i].id !in SupersededBy(stream, time)
  {
    var id := stream[i].id;
    if id in SupersededBy(stream, time) {
      var e :| e in stream && e.time <= time && e.draft.supersedes.Some? && e.draft.supersedes.value == id;
      var k :| 0 <= k < |stream| && stream[k] == e;
      assert Supersedes(stream[k], id);
    }
    if i < n && !Active(stream, n, i) {
      var k :| 0 <= k < n && Supersedes(stream[k], id);
      assert stream[k] in stream;
    }
  }

  /** The latest links, among the first `n` events, at positions below `m`, in order. */
  ghost function LatestLinks(tenant: TenantId, stream: seq<SealedEvent>, n: nat, m: nat): seq<SealedEvent>
    requires StreamOk(tenant, stream) && m <= n <= |stream|
  {
    if m == 0 then []
    else LatestLinks(tenant, stream, n, m - 1) + (if LatestLink(tenant, stream, n, m - 1) then [stream[m - 1]] else [])
  }

  lemma {:induction false} FilterLatest(tenant: TenantId, stream: seq<SealedEvent>, n: nat, m: nat, p: SealedEvent -> bool)
    requires StreamOk(tenant, stream) && m <= |stream| && n <= |stream|
    requires forall i :: 0 <= i < |stream| ==> (p(stream[i]) <==> i < n && LatestLink(tenant, stream, n, i))
    ensures Filter(stream[..m], p) == LatestLinks(tenant, stream, n, if m < n then m else n)
  {
    if m > 0 {
      var e := stream[m - 1];
      assert stream[..m] == stream[..m - 1] + [e];
      FilterAppend(stream[..m - 1], [e], p);
      assert Filter([e], p) == if p(e) then [e] else [];
      FilterLatest(tenant, stream, n, m - 1, p);
    }
  }

  /** A query lists the latest link of every correction chain, and nothing else, in the
      order of booking. */
  lemma AsOfListsLatestLinks(tenant: TenantId, stream: seq<SealedEvent>, time: I64, n: nat)
    requires StreamOk(tenant, stream) && BookedUpTo(stream, time, n)
    ensures AsOf(stream, time) == LatestLinks(tenant, stream, n, n)
  {
    var gone := SupersededBy(stream, time);
    var p := (e: SealedEvent) => e.time <= time && e.id !in gone;
    forall i | 0 <= i < |stream| ensures p(stream[i]) <==> i < n && LatestLink(tenant, stream, n, i) {
      ActiveMeansListed(stream, time, n, i);
      if i < n { ActiveIsLatest(tenant, stream, n, i); }
    }
    FilterLatest(tenant, stream, n, |stream|, p);
    assert stream[..|stream|] == stream;
  }

  /** Corrections form disjoint paths. In every ledger that appends can produce, for every
      tenant and time, the query lists the latest links of the chains in order of booking;
      a chain begun by then has one and only one such link, and a link has the tenant and
      layer of the event that began its chain. */
  lemma CorrectionsFormPaths(commands: seq<Command>, tenant: TenantId, time: I64) returns (stream: seq<SealedEvent>, n: nat)
    ensures stream == Stream(Run(EMPTY, commands), tenant) && StreamOk(tenant, stream) && BookedUpTo(stream, time, n)
    ensures AsOf(stream, time) == LatestLinks(tenant, stream, n, n)
    ensures forall root :: 0 <= root < n && Begins(stream, root) ==>
      exists i :: LatestLink(tenant, stream, n, i) && Root(tenant, stream, i) == root
    ensures forall i: nat, j: nat :: LatestLink(tenant, stream, n, i) && LatestLink(tenant, stream, n, j) && i != j ==>
      Root(tenant, stream, i) != Root(tenant, stream, j)
    ensures forall i :: 0 <= i < n ==>
      var root := Root(tenant, stream, i);
      && Begins(stream, root) && stream[i].draft.layer == stream[root].draft.layer
      && stream[i].draft.tenant == stream[root].draft.tenant == tenant
  {
    stream := Stream(Run(EMPTY, commands), tenant);
    ReachableLedgersAreSound(commands);
    n := BookedFirst(tenant, stream, time, |stream|);
    AsOfListsLatestLinks(tenant, stream, time, n);
    forall root | 0 <= root < n && Begins(stream, root)
      ensures exists i :: LatestLink(tenant, stream, n, i) && Root(tenant, stream, i) == root
    {
      var i := LatestOf(tenant, stream, n, root);
    }
    forall i: nat, j: nat | LatestLink(tenant, stream, n, i) && LatestLink(tenant, stream, n, j) && i != j
      ensures Root(tenant, stream, i) != Root(tenant, stream, j)
    {
      if i < j { assert i < j < n; } else { assert j < i < n; }
    }
    forall i | 0 <= i < n
      ensures var root := Root(tenant, stream, i);
        && Begins(stream, root) && stream[i].draft.layer == stream[root].draft.layer
        && stream[i].draft.tenant == stream[root].draft.tenant == tenant
    {
      RootBegins(tenant, stream, i);
    }
  }

  // ------------------------------------------------------------------------------
  // Which appends are accepted.

  /** A correction is accepted exactly when its target is active in the tenant's own books
      at present and has the same layer. */
  lemma CorrectionAcceptedIff(s: State, draft: EventDraft, target: EventId, now: I64)
    requires LedgerInv(s) && forall i :: 0 <= i < |Stream(s, draft.tenant)| ==> Stream(s, draft.tenant)[i].time <= now
    ensures CheckTarget(s, draft, target).None? <==>
      exists e :: e in AsOf(Stream(s, draft.tenant), now) && e.id == target && e.draft.layer == draft.layer
  {
    var stream := Stream(s, draft.tenant);
    if CheckTarget(s, draft, target).None? {
      CheckedTarget(s, draft, target);
      ListedAt(stream, now, Position(target));
    }
    if e :| e in AsOf(stream, now) && e.id == target && e.draft.layer == draft.layer {
      ListedIff(stream, now);
      var i: nat :| i < |stream| && stream[i] == e;
      ActiveTargetAccepted(s, draft, i, now);
    }
  }

  lemma ListedAt(stream: seq<SealedEvent>, now: I64, i: nat)
    requires i < |stream| && BookedUpTo(stream, now, |stream|) && !Corrected(stream, stream[i].id)
    ensures stream[i] in AsOf(stream, now)
  {
    ListedIff(stream, now);
    ActiveMeansListed(stream, now, |stream|, i);
  }

  lemma ActiveTargetAccepted(s: State, draft: EventDraft, i: nat, now: I64)
    requires LedgerInv(s) && i < |Stream(s, draft.tenant)| && BookedUpTo(Stream(s, draft.tenant), now, |Stream(s, draft.tenant)|)
    requires Stream(s, draft.tenant)[i] in AsOf(Stream(s, draft.tenant), now)
    requires Stream(s, draft.tenant)[i].draft.layer == draft.layer
    ensures CheckTarget(s, draft, Stream(s, draft.tenant)[i].id).None?
  {
    var stream := Stream(s, draft.tenant);
    ListedIff(stream, now);
    ActiveMeansListed(stream, now, |stream|, i);
    forall m | 0 <= m < |stream| ensures Linked(draft.tenant, stream, m) { assert EventOk(draft.tenant, stream, m); }
    ChainDepth(draft.tenant, stream, i);
    assert EventOk(draft.tenant, stream, i);
    CheckedTarget(s, draft, stream[i].id);
  }

  lemma ListedIff(stream: seq<SealedEvent>, time: I64)
    ensures forall e :: e in AsOf(stream, time) <==>
      e in stream && e.time <= time && e.id !in SupersededBy(stream, time)
  {
    var gone := SupersededBy(stream, time);
    FilterMembers(stream, (e: SealedEvent) => e.time <= time && e.id !in gone);
  }

  /** The kind of provenance each layer of claim has to come with. */
  ghost predicate Backs(p: Provenance, layer: ClaimLayer) {
    || (layer == Observation && p.Observed?)
    || (layer == DerivedFact && p.Derived?)
    || (layer == Judgment && p.Judged?)
    || (layer == PolicyOutput && p.Output?)
  }

  ghost predicate LaterThanAll(stream: seq<SealedEvent>, time: I64) {
    forall i :: 0 <= i < |stream| ==> stream[i].time < time
  }

  /** An event of the stream that has this id and layer and that no event supersedes. */
  ghost predicate Correctable(stream: seq<SealedEvent>, id: EventId, layer: ClaimLayer) {
    (exists i :: 0 <= i < |stream| && stream[i].id == id && stream[i].draft.layer == layer) && !Corrected(stream, id)
  }

  ghost predicate Hashable(payload: Json) { FloatFree(payload) && NestsWithin(payload, 127) }

  ghost predicate Acceptable(stream: seq<SealedEvent>, draft: EventDraft, time: I64) {
    && Backs(draft.provenance, draft.layer) && LaterThanAll(stream, time) && Hashable(draft.payload)
    && (draft.supersedes.Some? ==> Correctable(stream, draft.supersedes.value, draft.layer))
  }

  ghost predicate BookedAnywhere(s: State, id: EventId) { exists t :: BookedIn(Stream(s, t), id) }

  ghost predicate BookedIn(stream: seq<SealedEvent>, id: EventId) { exists i :: 0 <= i < |stream| && stream[i].id == id }

  /** The reason given is a true one. */
  ghost predicate TrueReason(s: State, draft: EventDraft, time: I64, e: LedgerError) {
    var stream := Stream(s, draft.tenant);
    match e
    case NonMonotonicKnowledgeTime(last, proposed) =>
      stream != [] && last == stream[|stream| - 1].time && proposed == time && !LaterThanAll(stream, time)
    case LayerProvenanceMismatch(layer, provenanceLayer) =>
      layer == draft.layer && layer != provenanceLayer && Backs(draft.provenance, provenanceLayer)
    case SupersedeTargetMissing(id) => draft.supersedes == Some(id) && !BookedAnywhere(s, id)
    case SupersedeCrossTenant(id) => draft.supersedes == Some(id) && BookedAnywhere(s, id) && !BookedIn(stream, id)
    case SupersedeCrossLayer(target, proposedLayer) =>
      && draft.supersedes.Some? && proposedLayer == draft.layer && target != draft.layer
      && exists i :: 0 <= i < |stream| && stream[i].id == draft.supersedes.value && stream[i].draft.layer == target
    case AlreadySuperseded(id) => draft.supersedes == Some(id) && Corrected(stream, id)
    case Canon => !Hashable(draft.payload)
    case ChainViolation(_) => false
  }

  /** An event stands where its id says, in the stream of its tenant. */
  lemma BookedIsHeld(s: State, t: TenantId, i: nat)
    requires LedgerInv(s) && i < |Stream(s, t)|
    ensures var id := Stream(s, t)[i].id; id.EventHash? && id.envelope.tenant == t && Position(id) == i && id in s.byId
  {
    var stream := Stream(s, t);
    forall m | 0 <= m < |stream| ensures Linked(t, stream, m) { assert EventOk(t, stream, m); }
    assert EventOk(t, stream, i);
    ChainDepth(t, stream, i);
    assert Held(s, stream[i].id);
  }

  lemma BookedIff(s: State, id: EventId)
    requires LedgerInv(s)
    ensures BookedAnywhere(s, id) <==> id in s.byId
    ensures forall t :: BookedIn(Stream(s, t), id) <==> id in s.byId && s.byId[id].0 == t
  {
    if id in s.byId { assert Held(s, id); assert BookedIn(Stream(s, id.envelope.tenant), id); }
    forall t ensures BookedIn(Stream(s, t), id) <==> id in s.byId && s.byId[id].0 == t {
      if BookedIn(Stream(s, t), id) {
        var i :| 0 <= i < |Stream(s, t)| && Stream(s, t)[i].id == id;
        BookedIsHeld(s, t, i);
      }
    }
  }

  lemma TargetAcceptedIff(s: State, draft: EventDraft, target: EventId)
    requires LedgerInv(s)
    ensures CheckTarget(s, draft, target).None? <==> Correctable(Stream(s, draft.tenant), target, draft.layer)
  {
    var stream := Stream(s, draft.tenant);
    CheckedTarget(s, draft, target);
    if i :| 0 <= i < |stream| && stream[i].id == target && stream[i].draft.layer == draft.layer {
      BookedIsHeld(s, draft.tenant, i);
    }
  }

  lemma TargetRefusedTruly(s: State, draft: EventDraft, time: I64)
    requires LedgerInv(s) && draft.supersedes.Some? && CheckTarget(s, draft, draft.supersedes.value).Some?
    ensures TrueReason(s, draft, time, CheckTarget(s, draft, draft.supersedes.value).value)
  {
    var target := draft.supersedes.value;
    BookedIff(s, target);
    if target in s.byId { assert Held(s, target); }
  }

  lemma LastIsLatest(s: State, tenant: TenantId, time: I64)
    requires LedgerInv(s)
    ensures var stream := Stream(s, tenant);
      LaterThanAll(stream, time) <==> stream == [] || stream[|stream| - 1].time < time
  {
    var stream := Stream(s, tenant);
    if stream != [] && stream[|stream| - 1].time < time {
      forall i | 0 <= i < |stream| ensures stream[i].time < time {
        if i < |stream| - 1 { TimesIncrease(tenant, stream, i, |stream| - 1); }
      }
    }
  }

  lemma ProvenanceBacks(p: Provenance, layer: ClaimLayer)
    ensures Backs(p, layer) <==> layer == ProvenanceLayer(p)
  {
  }

  /** What an append accepts, in every ledger: a claim with the provenance of its layer, booked
      later than everything in its stream, correcting if anything an uncorrected event of
      its own stream and layer, with a payload that can be hashed. What it refuses, it
      refuses for a reason that is true. */
  lemma AppendAcceptedIff(s: State, draft: EventDraft, time: I64)
    requires LedgerInv(s)
    ensures var r := Append(s, draft, time).1;
      && (r.Ok? <==> Acceptable(Stream(s, draft.tenant), draft, time))
      && (r.Err? ==> TrueReason(s, draft, time, r.error))
  {
    LastIsLatest(s, draft.tenant, time);
    ProvenanceBacks(draft.provenance, draft.layer);
    ProvenanceBacks(draft.provenance, ProvenanceLayer(draft.provenance));
    if draft.supersedes.Some? {
      TargetAcceptedIff(s, draft, draft.supersedes.value);
      if CheckTarget(s, draft, draft.supersedes.value).Some? { TargetRefusedTruly(s, draft, time); }
    }
  }

  /** What an accepted append books: one event at the end of the tenant's stream, with the
      draft and the time given, under a hash of both and of the last id before. Nothing
      else changes, and nothing at all when the append is refused. */
  lemma AppendBooks(s: State, draft: EventDraft, time: I64)
    ensures var (s', r) := Append(s, draft, time);
      var before, after := Stream(s, draft.tenant), Stream(s', draft.tenant);
      && (r.Err? ==> s' == s)
      && (r.Ok? ==>
            && |after| == |before| + 1 && after[..|before|] == before
            && var e := after[|before|];
              && e.draft == draft && e.time == time && e.id == r.value
              && e.prev == PrevId(draft.tenant, before, |before|)
              && e.id == EventHash(e.prev, time, EnvelopeOf(draft)))
      && (forall t :: t != draft.tenant ==> Stream(s', t) == Stream(s, t))
  {
  }

  /** A failed chain check names the first event that is not linked, or says that this
      event cannot be hashed. */
  lemma {:induction false} CheckChainFailsAt(tenant: TenantId, stream: seq<SealedEvent>, i: nat) returns (k: nat)
    requires i <= |stream| && CheckChain(stream, i, PrevId(tenant, stream, i)).Err?
    ensures i <= k < |stream| && !Linked(tenant, stream, k) && forall j :: i <= j < k ==> Linked(tenant, stream, j)
    ensures CheckChain(stream, i, PrevId(tenant, stream, i)).error ==
      if stream[k].prev == PrevId(tenant, stream, k) && !Hashable(stream[k].draft.payload) then Canon
      else ChainViolation(stream[k].id)
    decreases |stream| - i
  {
    if Linked(tenant, stream, i) {
      assert CheckChain(stream, i, stream[i].prev) == CheckChain(stream, i + 1, stream[i].id);
      k := CheckChainFailsAt(tenant, stream, i + 1);
    } else {
      k := i;
    }
  }
}

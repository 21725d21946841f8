/** The content-addressed evidence store: append-only, insertion order retained. */
module EvidenceStore {
  import opened Prelude
  import opened Hashing
  import opened Merkle

  type Bytes = seq<U8>

  function ContentAddress(bytes: Bytes): ContentHash { Sha256(Raw(bytes)) }

  datatype StoreError = NotFound(hash: ContentHash) | IntegrityViolation(hash: ContentHash)

  /** A store as a value: the blobs by key and the keys in insertion order. */
  datatype Store = Store(blobs: map<ContentHash, Bytes>, order: seq<ContentHash>)

  const EMPTY_STORE := Store(map[], [])

  ghost predicate StoreInvariant(s: Store) {
    && s.blobs.Keys == (set h | h in s.order)
    && (forall i, j :: 0 <= i < j < |s.order| ==> s.order[i] != s.order[j])
    && (forall h :: h in s.blobs ==> ContentAddress(s.blobs[h]) == h)
  }

  function Put(s: Store, bytes: Bytes): Store {
    var hash := ContentAddress(bytes);
    if hash in s.blobs then s else Store(s.blobs[hash := bytes], s.order + [hash])
  }

  function PutAll(s: Store, items: seq<Bytes>): Store
    decreases |items|
  {
    if items == [] then s else PutAll(Put(s, items[0]), items[1..])
  }

  function Get(s: Store, hash: ContentHash): Result<Bytes, StoreError> {
    if hash in s.blobs then Ok(s.blobs[hash]) else Err(NotFound(hash))
  }

  function Verify(s: Store, hash: ContentHash): Result<(), StoreError> {
    match Get(s, hash)
    case Ok(bytes) => if ContentAddress(bytes) == hash then Ok(()) else Err(IntegrityViolation(hash))
    case Err(e) => Err(e)
  }

  function TreeHead(s: Store): ContentHash { MerkleRoot(s.order) }

  function TreeHeadAt(s: Store, count: nat): Option<ContentHash> {
    if count <= |s.order| then Some(MerkleRoot(s.order[..count])) else None
  }

  lemma PutKeepsInvariant(s: Store, bytes: Bytes)
    requires StoreInvariant(s)
    ensures StoreInvariant(Put(s, bytes)) && s.order <= Put(s, bytes).order
    ensures Get(Put(s, bytes), ContentAddress(bytes)) == Ok(bytes)
    ensures Put(Put(s, bytes), bytes) == Put(s, bytes)
  {
    var hash := ContentAddress(bytes);
    if hash in s.blobs {
      assert ContentAddress(s.blobs[hash]) == hash;
    } else {
      var s' := Put(s, bytes);
      assert forall h :: h in s'.order <==> h in s.order || h == hash;
    }
  }

  /** Every stored item can be read back and passes its integrity check, whatever else
      is stored later; the insertion order only grows at the end. */
  lemma {:induction false} StoredForever(s: Store, bytes: Bytes, later: seq<Bytes>)
    requires StoreInvariant(s) && ContentAddress(bytes) in s.blobs
    ensures var s' := PutAll(s, later);
      && StoreInvariant(s') && s.order <= s'.order
      && Get(s', ContentAddress(bytes)) == Ok(bytes) && Verify(s', ContentAddress(bytes)) == Ok(())
    decreases |later|
  {
    assert ContentAddress(s.blobs[ContentAddress(bytes)]) == ContentAddress(bytes);
    if later != [] {
      PutKeepsInvariant(s, later[0]);
      StoredForever(Put(s, later[0]), bytes, later[1..]);
    }
  }

  lemma {:induction false} PutAllExtends(s: Store, items: seq<Bytes>)
    requires StoreInvariant(s)
    ensures StoreInvariant(PutAll(s, items)) && s.order <= PutAll(s, items).order
    decreases |items|
  {
    if items != [] {
      PutKeepsInvariant(s, items[0]);
      PutAllExtends(Put(s, items[0]), items[1..]);
    }
  }

  /** What a store answers: under the key of a stored item the bytes that hash to it, under
      any other key that there is none; and a head for every prefix it holds, of which the
      longest is its own head. */
  lemma StoreAnswers(s: Store, hash: ContentHash, count: nat)
    requires StoreInvariant(s)
    ensures match Get(s, hash)
      case Ok(bytes) => hash in s.order && Sha256(Raw(bytes)) == hash && Verify(s, hash) == Ok(())
      case Err(e) => hash !in s.order && e == NotFound(hash) && Verify(s, hash) == Err(e)
    ensures TreeHeadAt(s, count).Some? <==> count <= |s.order|
    ensures TreeHeadAt(s, |s.order|) == Some(TreeHead(s)) && TreeHead(s) == MerkleRoot(s.order)
    ensures count <= |s.order| ==> TreeHeadAt(s, count) == Some(MerkleRoot(s.order[..count]))
  {
    assert s.order[..|s.order|] == s.order;
    assert hash in s.order <==> hash in s.blobs;
  }

  /** The integrity check of any store, also a tampered one, passes exactly for an item whose
      bytes hash to its key. */
  lemma VerifyExact(s: Store, hash: ContentHash)
    ensures Verify(s, hash) ==
      if hash !in s.blobs then Err(NotFound(hash))
      else if Sha256(Raw(s.blobs[hash])) == hash then Ok(()) else Err(IntegrityViolation(hash))
  {
  }

  class InMemoryEvidenceStore {
    var blobs: map<ContentHash, Bytes>
    var order: seq<ContentHash>

    ghost function Value(): Store reads this { Store(blobs, order) }

    ghost predicate Valid() reads this { StoreInvariant(Value()) }

    constructor ()
      ensures Valid() && Value() == EMPTY_STORE
    {
      blobs, order := map[], [];
    }

    method PutBytes(bytes: Bytes) returns (hash: ContentHash)
      requires Valid()
      modifies this
      ensures Valid() && Value() == Put(old(Value()), bytes) && hash == ContentAddress(bytes)
    {
      PutKeepsInvariant(Value(), bytes);
      hash := ContentAddress(bytes);
      if hash !in blobs {
        blobs := blobs[hash := bytes];
        order := order + [hash];
      }
    }
  }
}

/** The append-only, coverage-monotonic log of anchor receipts over one store. */
module AnchorLog {
  import opened Prelude
  import opened Hashing
  import opened Merkle
  import opened EvidenceStore

  datatype AnchorReceipt = AnchorReceipt(treeHead: ContentHash, entryCount: U64, anchoredAt: I64)

  datatype AnchorError =
    | NonMonotonicAnchorTime(last: I64, proposed: I64)
    | CoverageRegression(lastCount: U64, proposedCount: U64)
    | EntryCountExceedsStore(claimed: U64, storeLen: nat)
    | HeadMismatch(anchored: ContentHash, recomputed: ContentHash)

  ghost predicate Monotonic(receipts: seq<AnchorReceipt>) {
    forall i, j :: 0 <= i < j < |receipts| ==>
      && receipts[i].anchoredAt < receipts[j].anchoredAt
      && receipts[i].entryCount <= receipts[j].entryCount
  }

  function AppendCheck(receipts: seq<AnchorReceipt>, r: AnchorReceipt): Result<(), AnchorError> {
    if receipts == [] then Ok(())
    else
      var last := receipts[|receipts| - 1];
      if r.anchoredAt <= last.anchoredAt then Err(NonMonotonicAnchorTime(last.anchoredAt, r.anchoredAt))
      else if r.entryCount < last.entryCount then Err(CoverageRegression(last.entryCount, r.entryCount))
      else Ok(())
  }

  function CheckReceipt(r: AnchorReceipt, s: Store): Result<(), AnchorError> {
    match TreeHeadAt(s, r.entryCount)
    case None => Err(EntryCountExceedsStore(r.entryCount, |s.order|))
    case Some(head) => if head != r.treeHead then Err(HeadMismatch(r.treeHead, head)) else Ok(())
  }

  /** The receipt is about a prefix that the store holds. */
  ghost predicate Covers(r: AnchorReceipt, order: seq<ContentHash>) {
    r.entryCount <= |order| && MerkleRoot(order[..r.entryCount]) == r.treeHead
  }

  ghost predicate Passes(receipts: seq<AnchorReceipt>, order: seq<ContentHash>) {
    forall i :: 0 <= i < |receipts| ==> Covers(receipts[i], order)
  }

  /** A receipt is refused for a true reason: it is not later than the last one, or covers
      less. */
  lemma RefusedTruly(receipts: seq<AnchorReceipt>, r: AnchorReceipt)
    requires AppendCheck(receipts, r).Err?
    ensures receipts != []
    ensures var last := receipts[|receipts| - 1];
      match AppendCheck(receipts, r).error
      case NonMonotonicAnchorTime(t, proposed) => t == last.anchoredAt && proposed == r.anchoredAt <= t
      case CoverageRegression(n, proposed) =>
        n == last.entryCount && proposed == r.entryCount < n && last.anchoredAt < r.anchoredAt
      case _ => false
  {
  }

  /** A receipt passes exactly when the store holds the prefix it covers; a failure says
      whether the store is too short or what head it has instead. */
  lemma CheckReceiptExact(r: AnchorReceipt, s: Store)
    ensures CheckReceipt(r, s).Ok? <==> Covers(r, s.order)
    ensures CheckReceipt(r, s).Err? ==>
      match CheckReceipt(r, s).error
      case EntryCountExceedsStore(claimed, len) => claimed == r.entryCount && len == |s.order| < claimed
      case HeadMismatch(anchored, recomputed) =>
        && r.entryCount <= |s.order| && anchored == r.treeHead
        && recomputed == MerkleRoot(s.order[..r.entryCount]) && anchored != recomputed
      case _ => false
  {
  }

  class Log {
    var receipts: seq<AnchorReceipt>

    ghost predicate Valid() reads this { Monotonic(receipts) }

    constructor ()
      ensures Valid() && receipts == []
    {
      receipts := [];
    }

    /** A receipt is admitted exactly when the log stays strictly ordered in time and
        never loses coverage; a refused receipt changes nothing. */
    method Append(r: AnchorReceipt) returns (res: Result<(), AnchorError>)
      requires Valid()
      modifies this
      ensures Valid() && res == AppendCheck(old(receipts), r)
      ensures receipts == if res.Ok? then old(receipts) + [r] else old(receipts)
      ensures res.Ok? <==> Monotonic(old(receipts) + [r])
    {
      ghost var grown := receipts + [r];
      if |receipts| > 0 {
        var last := receipts[|receipts| - 1];
        if r.anchoredAt <= last.anchoredAt {
          assert !Monotonic(grown) by { assert grown[|grown| - 2] == last && grown[|grown| - 1] == r; }
          return Err(NonMonotonicAnchorTime(last.anchoredAt, r.anchoredAt));
        }
        if r.entryCount < last.entryCount {
          assert !Monotonic(grown) by { assert grown[|grown| - 2] == last && grown[|grown| - 1] == r; }
          return Err(CoverageRegression(last.entryCount, r.entryCount));
        }
      }
      receipts := receipts + [r];
      res := Ok(());
    }

    /** Succeeds exactly when every receipt covers a prefix the store still holds, and
        otherwise reports the first receipt that does not. */
    method VerifyAgainst(s: Store) returns (res: Result<(), AnchorError>)
      ensures res.Ok? <==> Passes(receipts, s.order)
      ensures res.Err? ==>
        exists i :: 0 <= i < |receipts| && res == CheckReceipt(receipts[i], s) && Passes(receipts[..i], s.order)
    {
      for i := 0 to |receipts|
        invariant Passes(receipts[..i], s.order)
      {
        var head := TreeHeadAt(s, receipts[i].entryCount);
        if head.None? {
          assert !Covers(receipts[i], s.order);
          return Err(EntryCountExceedsStore(receipts[i].entryCount, |s.order|));
        }
        if head.value != receipts[i].treeHead {
          assert !Covers(receipts[i], s.order);
          return Err(HeadMismatch(receipts[i].treeHead, head.value));
        }
      }
      assert receipts[..|receipts|] == receipts;
      res := Ok(());
    }
  }

  /** Tamper evidence: two stores that pass one log agree entry for entry up to the
      latest receipt's count. */
  lemma AnchoredPrefixIsUnique(receipts: seq<AnchorReceipt>, a: seq<ContentHash>, b: seq<ContentHash>)
    requires |receipts| > 0 && Passes(receipts, a) && Passes(receipts, b)
    ensures var n := receipts[|receipts| - 1].entryCount;
      n <= |a| && n <= |b| && a[..n] == b[..n]
  {
    var last := receipts[|receipts| - 1];
    assert Covers(last, a) && Covers(last, b);
    RootInjective(a[..last.entryCount], b[..last.entryCount]);
  }

  lemma PassesWhenExtended(receipts: seq<AnchorReceipt>, a: seq<ContentHash>, b: seq<ContentHash>)
    requires Passes(receipts, a) && a <= b
    ensures Passes(receipts, b)
  {
    forall i | 0 <= i < |receipts| ensures Covers(receipts[i], b) {
      assert Covers(receipts[i], a);
      assert a[..receipts[i].entryCount] == b[..receipts[i].entryCount];
    }
  }

  /** Later evidence never invalidates an anchor. */
  lemma PassesAfterPuts(receipts: seq<AnchorReceipt>, s: Store, items: seq<Bytes>)
    requires StoreInvariant(s) && Passes(receipts, s.order)
    ensures Passes(receipts, PutAll(s, items).order)
  {
    PutAllExtends(s, items);
    PassesWhenExtended(receipts, s.order, PutAll(s, items).order);
  }

  /** For a coverage-monotonic log the latest receipt decides alone, once the earlier
      ones passed for any store: a store passes iff it extends the anchored prefix. */
  lemma PassesIffExtendsAnchoredPrefix(receipts: seq<AnchorReceipt>, a: seq<ContentHash>, b: seq<ContentHash>)
    requires Monotonic(receipts) && |receipts| > 0 && Passes(receipts, a)
    ensures Passes(receipts, b) <==> a[..receipts[|receipts| - 1].entryCount] <= b
  {
    var n := receipts[|receipts| - 1].entryCount;
    if Passes(receipts, b) {
      AnchoredPrefixIsUnique(receipts, a, b);
      assert a[..n] == b[..n];
    }
    if a[..n] <= b {
      forall i | 0 <= i < |receipts| ensures Covers(receipts[i], b) {
        assert Covers(receipts[i], a);
        assert a[..receipts[i].entryCount] == b[..receipts[i].entryCount];
      }
    }
  }

  // ------------------------------------------------------------------------------
  // Runs: evidence arrives and the current head is anchored, in any order.

  datatype Step = Arrive(bytes: Bytes) | Anchor(at: I64)

  datatype World = World(store: Store, receipts: seq<AnchorReceipt>)

  function Take(w: World, step: Step): World {
    match step
    case Arrive(bytes) => w.(store := Put(w.store, bytes))
    case Anchor(at) =>
      if |w.store.order| > U64_MAX then w
      else
        var r := AnchorReceipt(TreeHead(w.store), |w.store.order|, at);
        if AppendCheck(w.receipts, r).Ok? then w.(receipts := w.receipts + [r]) else w
  }

  function Run(w: World, steps: seq<Step>): World
    decreases |steps|
  {
    if steps == [] then w else Run(Take(w, steps[0]), steps[1..])
  }

  ghost predicate Sound(w: World) {
    && StoreInvariant(w.store) && Monotonic(w.receipts) && Passes(w.receipts, w.store.order)
  }

  lemma TakeKeepsSound(w: World, step: Step)
    requires Sound(w)
    ensures Sound(Take(w, step))
  {
    match step
    case Arrive(bytes) =>
      PutKeepsInvariant(w.store, bytes);
      PassesWhenExtended(w.receipts, w.store.order, Put(w.store, bytes).order);
    case Anchor(at) =>
      var n := |w.store.order|;
      assert w.store.order[..n] == w.store.order;
  }

  /** In every run the log verifies against the live store, whatever anchoring times
      were tried, and no receipt is ever taken back. */
  lemma {:induction false} EveryRunVerifies(w: World, steps: seq<Step>)
    requires Sound(w)
    ensures Sound(Run(w, steps)) && w.receipts <= Run(w, steps).receipts
    decreases |steps|
  {
    if steps != [] {
      TakeKeepsSound(w, steps[0]);
      EveryRunVerifies(Take(w, steps[0]), steps[1..]);
    }
  }

  /** Anchoring the current head is only ever refused for its time, never for coverage. */
  lemma AnchoringFailsOnlyOnTime(w: World, at: I64)
    requires Sound(w) && |w.store.order| <= U64_MAX
    ensures var check := AppendCheck(w.receipts, AnchorReceipt(TreeHead(w.store), |w.store.order|, at));
      check.Err? ==> check.error.NonMonotonicAnchorTime?
  {
    if w.receipts != [] {
      assert Covers(w.receipts[|w.receipts| - 1], w.store.order);
    }
  }
}

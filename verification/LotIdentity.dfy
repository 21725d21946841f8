/** Why a book stays consistent whatever is booked and whatever fails, and when its lot ids
    stay distinct. The book never compares a new id with the old ones. That ids are
    collision free is enough for consistency; that no opening is booked twice is what
    distinct ids need besides. */
module LotIdentity {
  import opened Prelude
  import opened Amounts
  import opened Filtering
  import opened Lots
  import opened LotReliefTheory
  import opened LotConservation
  import opened LotAtomicity

  /** The lot hash is collision free: an id determines the opening it was made from. */
  ghost predicate CollisionFree(idOf: Opening -> LotId, openingOf: LotId -> Opening) {
    forall o :: openingOf(idOf(o)) == o
  }

  ghost predicate Matches(l: Lot, o: Opening) { l.asset == o.asset && l.venue == o.venue && l.acquiredAt == o.acquiredAt }

  /** Every lot is where and since when the opening says that its id is the hash of. */
  ghost predicate Traceable(book: Book, openingOf: LotId -> Opening) {
    forall i :: 0 <= i < |book| ==> Matches(book[i], openingOf(book[i].lotId))
  }

  /** Lots of one id were opened alike. */
  lemma TraceableAgrees(book: Book, openingOf: LotId -> Opening)
    requires Traceable(book, openingOf)
    ensures Agreeing(book)
  {
  }

  // ------------------------------------------------------------------------------
  // What one call leaves over and what it opens.

  /** The part of the book that a call leaves over from before. */
  ghost function Kept(book: Book, op: Op): Book {
    match PlanOf(book, op) case None => book case Some(plan) => ApplyRelief(book, plan).0
  }

  /** The openings a call books, if it succeeds. */
  ghost function OpeningsOf(book: Book, op: Op, idOf: Opening -> LotId): seq<Opening> {
    if !Do(book, op, idOf).1 then []
    else match op
      case AcquireOp(o) => [o]
      case DisposeOp(_, _, _, _, _) => []
      case TransferOp(asset, _, to, _, event) =>
        MovedOpenings(Edits(book, op), book, asset, to, event)
  }

  ghost function MovedOpenings(rs: seq<LotRelief>, book: Book, asset: AssetId, to: VenueId, event: EventRef): seq<Opening> {
    seq(|rs|, i requires 0 <= i < |rs| => Moved(rs[i], book, asset, to, event))
  }

  lemma {:induction false} MovedLotsAt(rs: seq<LotRelief>, book: Book, asset: AssetId, to: VenueId,
                                       event: EventRef, idOf: Opening -> LotId, i: nat)
    requires i < |rs|
    ensures MovedLots(rs, book, asset, to, event, idOf)[i] == OpenLot(Moved(rs[i], book, asset, to, event), idOf)
  {
    if i > 0 { MovedLotsAt(rs[1..], book, asset, to, event, idOf, i - 1); }
  }

  /** The lots of these openings. */
  ghost predicate Opens(arrivals: Book, openings: seq<Opening>, idOf: Opening -> LotId) {
    |arrivals| == |openings| && forall j :: 0 <= j < |arrivals| ==> arrivals[j] == OpenLot(openings[j], idOf)
  }

  lemma TransferShape(book: Book, op: Op, idOf: Opening -> LotId) returns (arrivals: Book)
    requires op.TransferOp? && Do(book, op, idOf).1
    ensures Do(book, op, idOf).0 == Kept(book, op) + arrivals && Opens(arrivals, OpeningsOf(book, op, idOf), idOf)
  {
    var plan := Plan(book, op.asset, op.from, op.atoms, Fifo).value;
    DoneIsReported(book, plan);
    var rs := ApplyRelief(book, plan).1.value;
    arrivals := MovedLots(rs, book, op.asset, op.to, op.event, idOf);
    forall j | 0 <= j < |arrivals| ensures arrivals[j] == OpenLot(OpeningsOf(book, op, idOf)[j], idOf) {
      MovedLotsAt(rs, book, op.asset, op.to, op.event, idOf, j);
    }
  }

  /** After any call the book is what was left over and the lots that were opened. */
  lemma OpShape(book: Book, op: Op, idOf: Opening -> LotId) returns (arrivals: Book)
    ensures Do(book, op, idOf).0 == Kept(book, op) + arrivals && Opens(arrivals, OpeningsOf(book, op, idOf), idOf)
  {
    arrivals := [];
    match op
    case AcquireOp(o) => if Do(book, op, idOf).1 { arrivals := [OpenLot(o, idOf)]; }
    case DisposeOp(asset, venue, atoms, m, proceeds) => DisposeApplies(book, asset, venue, atoms, m, proceeds);
    case TransferOp(asset, from, to, atoms, event) =>
      if Do(book, op, idOf).1 {
        arrivals := TransferShape(book, op, idOf);
      } else {
        TransferApplies(book, asset, from, to, atoms, event, idOf);
      }
  }

  lemma PlanOfFits(book: Book, op: Op)
    requires Consistent(book)
    ensures PlanOf(book, op).Some? ==> PlanFits(book, PlanOf(book, op).value)
  {
    match op
    case AcquireOp(_) =>
    case DisposeOp(asset, venue, atoms, m, proceeds) =>
      if PlanOf(book, op).Some? { PlanExact(book, asset, venue, atoms, m); }
    case TransferOp(asset, from, to, atoms, event) =>
      if PlanOf(book, op).Some? { PlanExact(book, asset, from, atoms, Fifo); }
  }

  /** Every lot of `kept` is a lot of `book`, with other quantities perhaps. */
  ghost predicate ComesFrom(kept: Book, book: Book) { forall i :: 0 <= i < |kept| ==> Stems(kept[i], book) }

  ghost predicate Stems(l: Lot, book: Book) { exists k :: 0 <= k < |book| && SameOpening(l, book[k]) }

  lemma ComesFromItself(book: Book)
    ensures ComesFrom(book, book)
  {
    forall i | 0 <= i < |book| ensures Stems(book[i], book) { assert SameOpening(book[i], book[i]); }
  }

  lemma KeptIsSound(book: Book, op: Op)
    requires Consistent(book)
    ensures Consistent(Kept(book, op)) && ComesFrom(Kept(book, op), book)
    ensures DistinctIds(book) ==> DistinctIds(Kept(book, op))
  {
    PlanOfFits(book, op);
    if PlanOf(book, op).Some? {
      var plan := PlanOf(book, op).value;
      ReliefKeepsConsistent(book, plan);
      ReliefComesFrom(book, plan);
    } else {
      ComesFromItself(book);
    }
  }

  lemma ReliefComesFrom(book: Book, plan: seq<PlanItem>)
    requires SettlingBook(book) && PlanFits(book, plan)
    ensures ComesFrom(ApplyRelief(book, plan).0, book)
  {
    var edited, kept := ApplyEdits(book, plan).0, ApplyRelief(book, plan).0;
    EditsKeepSettling(book, plan);
    FilterMembers(edited, HasAtoms);
    forall i | 0 <= i < |kept| ensures Stems(kept[i], book) {
      assert kept[i] in edited;
      var k :| 0 <= k < |edited| && edited[k] == kept[i];
      assert SameOpening(kept[i], book[k]);
    }
  }

  // ------------------------------------------------------------------------------
  // Consistency.

  lemma KeptIsTraceable(kept: Book, book: Book, openingOf: LotId -> Opening)
    requires ComesFrom(kept, book) && Traceable(book, openingOf)
    ensures Traceable(kept, openingOf)
  {
    forall i | 0 <= i < |kept| ensures Matches(kept[i], openingOf(kept[i].lotId)) {
      assert Stems(kept[i], book);
      var k :| 0 <= k < |book| && SameOpening(kept[i], book[k]);
    }
  }

  lemma OpenedIsTraceable(arrivals: Book, openings: seq<Opening>, idOf: Opening -> LotId, openingOf: LotId -> Opening)
    requires Opens(arrivals, openings, idOf) && CollisionFree(idOf, openingOf)
    ensures forall j :: 0 <= j < |arrivals| ==> openingOf(arrivals[j].lotId) == openings[j]
    ensures Traceable(arrivals, openingOf)
  {
    forall j | 0 <= j < |arrivals|
      ensures openingOf(arrivals[j].lotId) == openings[j] && Matches(arrivals[j], openingOf(arrivals[j].lotId))
    {
      assert openingOf(idOf(openings[j])) == openings[j];
    }
  }

  lemma JoinIsTraceable(kept: Book, arrivals: Book, openingOf: LotId -> Opening)
    requires Traceable(kept, openingOf) && Traceable(arrivals, openingOf)
    ensures Traceable(kept + arrivals, openingOf)
  {
  }

  lemma CallKeepsTraces(book: Book, op: Op, idOf: Opening -> LotId, openingOf: LotId -> Opening)
    requires Consistent(book) && Traceable(book, openingOf) && CollisionFree(idOf, openingOf)
    ensures Traceable(Do(book, op, idOf).0, openingOf)
  {
    var arrivals := OpShape(book, op, idOf);
    KeptIsSound(book, op);
    KeptIsTraceable(Kept(book, op), book, openingOf);
    OpenedIsTraceable(arrivals, OpeningsOf(book, op, idOf), idOf, openingOf);
    JoinIsTraceable(Kept(book, op), arrivals, openingOf);
  }

  lemma CallKeepsSettling(book: Book, op: Op, idOf: Opening -> LotId)
    requires Consistent(book)
    ensures SettlingBook(Do(book, op, idOf).0)
  {
    OneOpConserves(book, op, idOf, Account("", "", Atoms));
  }

  /** Any call, accepted, refused or half done. */
  lemma OneOpKeepsTraces(book: Book, op: Op, idOf: Opening -> LotId, openingOf: LotId -> Opening)
    requires Consistent(book) && Traceable(book, openingOf) && CollisionFree(idOf, openingOf)
    ensures var book' := Do(book, op, idOf).0; Consistent(book') && Traceable(book', openingOf)
  {
    CallKeepsTraces(book, op, idOf, openingOf);
    CallKeepsSettling(book, op, idOf);
    TraceableAgrees(Do(book, op, idOf).0, openingOf);
  }

  /** Every run, whatever is booked and however often, and whatever is refused or fails half
      done, keeps the book consistent. */
  lemma {:induction false} EveryRunStaysConsistent(book: Book, ops: seq<Op>, idOf: Opening -> LotId,
                                                   openingOf: LotId -> Opening)
    requires Consistent(book) && Traceable(book, openingOf) && CollisionFree(idOf, openingOf)
    ensures Consistent(After(book, ops, idOf)) && Traceable(After(book, ops, idOf), openingOf)
    ensures IdsStayAgreed(book, ops, idOf)
    decreases |ops|
  {
    if ops != [] {
      OneOpKeepsTraces(book, ops[0], idOf, openingOf);
      EveryRunStaysConsistent(Do(book, ops[0], idOf).0, ops[1..], idOf, openingOf);
    }
  }

  /** The books a caller can have: whatever was called on an empty book, it is consistent
      and conservation holds with what was lost. */
  lemma ReachableBooksConserve(ops: seq<Op>, idOf: Opening -> LotId, openingOf: LotId -> Opening, a: Account)
    requires CollisionFree(idOf, openingOf)
    ensures var book := After([], ops, idOf);
      && Consistent(book)
      && Acquired([], ops, idOf, a) == Balance(book, a) + Relieved([], ops, idOf, a) + LostIn([], ops, idOf, a)
  {
    EveryRunStaysConsistent([], ops, idOf, openingOf);
    EveryRunConserves([], ops, idOf, a);
  }

  // ------------------------------------------------------------------------------
  // Distinct ids.

  /** No opening is booked twice, and none of those in `seen` again. One event may open
      several lots, and a refused call may be repeated. */
  ghost predicate OpeningsOnce(book: Book, ops: seq<Op>, idOf: Opening -> LotId, seen: set<Opening>)
    decreases |ops|
  {
    ops != [] ==>
      var openings := OpeningsOf(book, ops[0], idOf);
      && (forall j :: 0 <= j < |openings| ==> openings[j] !in seen)
      && OpeningsOnce(Do(book, ops[0], idOf).0, ops[1..], idOf, seen + Booked(openings))
  }

  ghost function Booked(openings: seq<Opening>): set<Opening> { set o | o in openings }

  /** The lots of the book were opened by openings in `seen`. */
  ghost predicate Known(book: Book, openingOf: LotId -> Opening, seen: set<Opening>) {
    forall i :: 0 <= i < |book| ==> openingOf(book[i].lotId) in seen
  }

  lemma KeptIsKnown(kept: Book, book: Book, openingOf: LotId -> Opening, seen: set<Opening>)
    requires ComesFrom(kept, book) && Known(book, openingOf, seen)
    ensures Known(kept, openingOf, seen)
  {
    forall i | 0 <= i < |kept| ensures openingOf(kept[i].lotId) in seen {
      assert Stems(kept[i], book);
      var k :| 0 <= k < |book| && SameOpening(kept[i], book[k]);
    }
  }

  /** A relief that succeeds takes from each lot once. */
  lemma DoneDiffer(book: Book, plan: seq<PlanItem>)
    requires SettlingBook(book) && PlanFits(book, plan) && ApplyEdits(book, plan).1.Ok?
    ensures var rs := Done(book, plan); forall i, j :: 0 <= i < j < |rs| ==> rs[i].lotId != rs[j].lotId
  {
    EditsSucceedIffClean(book, plan);
    ReliefShape(book, plan);
    DoneIsReported(book, plan);
  }

  ghost predicate Different(openings: seq<Opening>) {
    forall i, j :: 0 <= i < j < |openings| ==> openings[i] != openings[j]
  }

  lemma MovedDiffer(rs: seq<LotRelief>, book: Book, asset: AssetId, to: VenueId, event: EventRef)
    requires forall i, j :: 0 <= i < j < |rs| ==> rs[i].lotId != rs[j].lotId
    ensures Different(MovedOpenings(rs, book, asset, to, event))
  {
    var openings := MovedOpenings(rs, book, asset, to, event);
    forall i, j | 0 <= i < j < |openings| ensures openings[i] != openings[j] {
      assert openings[i].movedFrom == Some(rs[i].lotId) && openings[j].movedFrom == Some(rs[j].lotId);
    }
  }

  lemma TransferApplied(book: Book, op: Op, idOf: Opening -> LotId) returns (plan: seq<PlanItem>)
    requires op.TransferOp? && Do(book, op, idOf).1
    ensures PlanOf(book, op) == Some(plan) && ApplyEdits(book, plan).1.Ok?
    ensures OpeningsOf(book, op, idOf) == MovedOpenings(Done(book, plan), book, op.asset, op.to, op.event)
  {
    TransferApplies(book, op.asset, op.from, op.to, op.atoms, op.event, idOf);
    plan := PlanOf(book, op).value;
  }

  /** A call opens different lots. */
  lemma OpeningsDiffer(book: Book, op: Op, idOf: Opening -> LotId)
    requires Consistent(book)
    ensures Different(OpeningsOf(book, op, idOf))
  {
    if op.TransferOp? && Do(book, op, idOf).1 {
      var plan := TransferApplied(book, op, idOf);
      PlanOfFits(book, op);
      DoneDiffer(book, plan);
      MovedDiffer(Done(book, plan), book, op.asset, op.to, op.event);
    }
  }

  lemma JoinIsDistinct(kept: Book, arrivals: Book, openings: seq<Opening>, openingOf: LotId -> Opening, seen: set<Opening>)
    requires DistinctIds(kept) && Known(kept, openingOf, seen) && |arrivals| == |openings|
    requires forall j :: 0 <= j < |arrivals| ==> openingOf(arrivals[j].lotId) == openings[j] && openings[j] !in seen
    requires Different(openings)
    ensures DistinctIds(kept + arrivals) && Known(kept + arrivals, openingOf, seen + Booked(openings))
  {
  }

  lemma OneOpKeepsDistinct(book: Book, op: Op, idOf: Opening -> LotId, openingOf: LotId -> Opening, seen: set<Opening>)
    requires Consistent(book) && DistinctIds(book) && CollisionFree(idOf, openingOf) && Known(book, openingOf, seen)
    requires forall j :: 0 <= j < |OpeningsOf(book, op, idOf)| ==> OpeningsOf(book, op, idOf)[j] !in seen
    ensures var book' := Do(book, op, idOf).0;
      DistinctIds(book') && Known(book', openingOf, seen + Booked(OpeningsOf(book, op, idOf)))
  {
    var openings := OpeningsOf(book, op, idOf);
    var arrivals := OpShape(book, op, idOf);
    KeptIsSound(book, op);
    KeptIsKnown(Kept(book, op), book, openingOf, seen);
    OpenedIsTraceable(arrivals, openings, idOf, openingOf);
    OpeningsDiffer(book, op, idOf);
    JoinIsDistinct(Kept(book, op), arrivals, openings, openingOf, seen);
  }

  /** A caller who never books one opening twice has distinct lot ids for ever. */
  lemma {:induction false} DistinctOpeningsKeepIdsDistinct(book: Book, ops: seq<Op>, idOf: Opening -> LotId,
                                                           openingOf: LotId -> Opening, seen: set<Opening>)
    requires Consistent(book) && Traceable(book, openingOf) && CollisionFree(idOf, openingOf)
    requires DistinctIds(book) && Known(book, openingOf, seen) && OpeningsOnce(book, ops, idOf, seen)
    ensures IdsStayDistinct(book, ops, idOf) && DistinctIds(After(book, ops, idOf))
    decreases |ops|
  {
    if ops != [] {
      var openings := OpeningsOf(book, ops[0], idOf);
      OneOpKeepsTraces(book, ops[0], idOf, openingOf);
      OneOpKeepsDistinct(book, ops[0], idOf, openingOf, seen);
      DistinctOpeningsKeepIdsDistinct(Do(book, ops[0], idOf).0, ops[1..], idOf, openingOf, seen + Booked(openings));
    }
  }
}

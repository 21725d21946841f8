/** Conservation: per asset and basis currency, the atoms, basis and fees that were
    acquired are in the open lots, or were carried out by disposals, or were lost in calls
    that failed half done, over every run. */
module LotConservation {
  import opened Prelude
  import opened Amounts
  import opened Filtering
  import opened Lots
  import opened LotReliefTheory

  datatype Measure = Atoms | Basis | Fee

  /** One balance to be conserved. */
  datatype Account = Account(asset: AssetId, currency: AssetId, measure: Measure)

  ghost function Holds(l: Lot, a: Account): int {
    if l.asset != a.asset || l.basis.asset != a.currency then 0
    else match a.measure case Atoms => l.atoms case Basis => l.basis.atoms case Fee => l.fee.atoms
  }

  ghost function Carries(r: LotRelief, asset: AssetId, a: Account): int {
    if asset != a.asset || r.basis.asset != a.currency then 0
    else match a.measure case Atoms => r.atoms case Basis => r.basis.atoms case Fee => r.fee.atoms
  }

  ghost function Balance(book: Book, a: Account): int {
    if book == [] then 0 else Holds(book[0], a) + Balance(book[1..], a)
  }

  ghost function Outflow(rs: seq<LotRelief>, asset: AssetId, a: Account): int {
    if rs == [] then 0 else Carries(rs[0], asset, a) + Outflow(rs[1..], asset, a)
  }

  lemma {:induction false} BalanceAfterEdit(book: Book, i: nat, lot: Lot, a: Account)
    requires i < |book|
    ensures Balance(book[i := lot], a) == Balance(book, a) - Holds(book[i], a) + Holds(lot, a)
  {
    if i == 0 {
      assert book[0 := lot][1..] == book[1..];
    } else {
      assert book[i := lot][1..] == book[1..][i - 1 := lot];
      BalanceAfterEdit(book[1..], i - 1, lot, a);
    }
  }

  lemma {:induction false} BalanceAppend(x: Book, y: Book, a: Account)
    ensures Balance(x + y, a) == Balance(x, a) + Balance(y, a)
  {
    if x == [] {
      assert x + y == y;
    } else {
      assert (x + y)[1..] == x[1..] + y;
      BalanceAppend(x[1..], y, a);
    }
  }

  lemma {:induction false} BalanceNonNegative(book: Book, a: Account)
    requires SettlingBook(book)
    ensures Balance(book, a) >= 0
  {
    if book != [] { BalanceNonNegative(book[1..], a); }
  }

  lemma {:induction false} BalanceRetained(book: Book, a: Account)
    requires SettlingBook(book)
    ensures Balance(Retain(book), a) == Balance(book, a)
  {
    if book != [] {
      var kept := if book[0].atoms > 0 then [book[0]] else [];
      BalanceRetained(book[1..], a);
      assert Retain(book) == kept + Retain(book[1..]);
      BalanceAppend(kept, Retain(book[1..]), a);
    }
  }

  /** The reliefs that go through before the plan is finished or fails. */
  ghost function Done(book: Book, plan: seq<PlanItem>): seq<LotRelief>
    decreases |plan|
  {
    if plan == [] || Find(book, plan[0].lotId).None? then []
    else
      var i := Find(book, plan[0].lotId).value;
      var (lot, r) := RelieveLot(book[i], plan[0].take);
      if r.Err? then [] else [r.value] + Done(book[i := lot], plan[1..])
  }

  /** What a finished plan reports is what it did. */
  lemma {:induction false} DoneIsReported(book: Book, plan: seq<PlanItem>)
    ensures ApplyEdits(book, plan).1.Ok? ==> ApplyEdits(book, plan).1.value == Done(book, plan)
    decreases |plan|
  {
    if plan != [] && Find(book, plan[0].lotId).Some? {
      var i := Find(book, plan[0].lotId).value;
      DoneIsReported(book[i := RelieveLot(book[i], plan[0].take).0], plan[1..]);
    }
  }

  lemma ReliefSplits(l: Lot, take: I128, asset: AssetId, a: Account)
    requires Settling(l) && 0 < take <= l.atoms && l.asset == asset && RelieveLot(l, take).1.Ok?
    ensures Holds(l, a) == Holds(RelieveLot(l, take).0, a) + Carries(RelieveLot(l, take).1.value, asset, a)
  {
    RelieveLotExact(l, take);
  }

  /** The edits take out of the book exactly what the reliefs done carry. */
  lemma {:induction false} EditsConserve(book: Book, plan: seq<PlanItem>, asset: AssetId, venue: VenueId, a: Account)
    requires SettlingBook(book) && PlanFits(book, plan) && PlanAt(book, plan, asset, venue)
    ensures Balance(book, a) == Balance(ApplyEdits(book, plan).0, a) + Outflow(Done(book, plan), asset, a)
    decreases |plan|
  {
    if plan != [] {
      var i, lot, r := FirstEdit(book, plan);
      if r.Ok? {
        ReliefSplits(book[i], plan[0].take, asset, a);
        PlanAtNext(book, plan, asset, venue, i, lot);
        BalanceAfterEdit(book, i, lot, a);
        EditsConserve(book[i := lot], plan[1..], asset, venue, a);
        var rest := Done(book[i := lot], plan[1..]);
        assert ([r.value] + rest)[1..] == rest;
      }
    }
  }

  /** What the reliefs done carry out is exactly what the book loses, half done or not. */
  lemma ReliefConserves(book: Book, plan: seq<PlanItem>, asset: AssetId, venue: VenueId, a: Account)
    requires Consistent(book) && PlanFits(book, plan) && PlanAt(book, plan, asset, venue)
    ensures var (book', r) := ApplyRelief(book, plan);
      && Balance(book, a) == Balance(book', a) + Outflow(Done(book, plan), asset, a)
      && (r.Ok? ==> r.value == Done(book, plan))
  {
    EditsKeepSettling(book, plan);
    EditsConserve(book, plan, asset, venue, a);
    BalanceRetained(ApplyEdits(book, plan).0, a);
    DoneIsReported(book, plan);
  }

  lemma {:induction false} ReliefShape(book: Book, plan: seq<PlanItem>)
    requires SettlingBook(book) && PlanFits(book, plan) && ApplyEdits(book, plan).1.Ok?
    ensures var rs := ApplyEdits(book, plan).1.value;
      && |rs| == |plan|
      && forall i :: 0 <= i < |rs| ==>
           && rs[i].lotId == plan[i].lotId && rs[i].atoms == plan[i].take && rs[i].atoms > 0
           && rs[i].basis.atoms >= 0 && rs[i].fee.atoms >= 0 && rs[i].basis.asset == rs[i].fee.asset
    decreases |plan|
  {
    if plan != [] {
      var i, lot, r := FirstEdit(book, plan);
      RelieveLotExact(book[i], plan[0].take);
      ReliefShape(book[i := lot], plan[1..]);
    }
  }

  lemma {:induction false} MovedBalance(rs: seq<LotRelief>, book: Book, asset: AssetId, to: VenueId,
                                        event: EventRef, idOf: Opening -> LotId, a: Account)
    ensures Balance(MovedLots(rs, book, asset, to, event, idOf), a) == Outflow(rs, asset, a)
  {
    if rs != [] {
      var first := [OpenLot(Moved(rs[0], book, asset, to, event), idOf)];
      MovedBalance(rs[1..], book, asset, to, event, idOf, a);
      BalanceAppend(first, MovedLots(rs[1..], book, asset, to, event, idOf), a);
    }
  }

  lemma {:induction false} MovedLotsGood(rs: seq<LotRelief>, book: Book, asset: AssetId, to: VenueId,
                                         event: EventRef, idOf: Opening -> LotId)
    requires forall i :: 0 <= i < |rs| ==>
      rs[i].atoms > 0 && rs[i].basis.atoms >= 0 && rs[i].fee.atoms >= 0 && rs[i].basis.asset == rs[i].fee.asset
    ensures forall l :: l in MovedLots(rs, book, asset, to, event, idOf) ==> GoodLot(l) && l.venue == to
  {
    if rs != [] { MovedLotsGood(rs[1..], book, asset, to, event, idOf); }
  }

  lemma TransferGood(book: Book, asset: AssetId, from: VenueId, to: VenueId, atoms: I128,
                     event: EventRef, idOf: Opening -> LotId)
    requires Consistent(book) && Transfer(book, asset, from, to, atoms, event, idOf).1.Ok?
    ensures var book' := Transfer(book, asset, from, to, atoms, event, idOf).0;
      AllGood(book')
  {
    var plan := Plan(book, asset, from, atoms, Fifo).value;
    PlanExact(book, asset, from, atoms, Fifo);
    ReliefKeepsConsistent(book, plan);
    ReliefShape(book, plan);
    var rs := ApplyRelief(book, plan).1.value;
    MovedLotsGood(rs, book, asset, to, event, idOf);
    var arrivals := MovedLots(rs, book, asset, to, event, idOf);
    forall i | 0 <= i < |arrivals| ensures GoodLot(arrivals[i]) { assert arrivals[i] in arrivals; }
  }

  /** A transfer moves quantity, basis and fee without loss: every balance of the book is
      unchanged, and every lot is a good one. */
  lemma TransferConserves(book: Book, asset: AssetId, from: VenueId, to: VenueId, atoms: I128,
                          event: EventRef, idOf: Opening -> LotId, a: Account)
    requires Consistent(book) && Transfer(book, asset, from, to, atoms, event, idOf).1.Ok?
    ensures var book' := Transfer(book, asset, from, to, atoms, event, idOf).0;
      Balance(book', a) == Balance(book, a) && AllGood(book')
  {
    TransferGood(book, asset, from, to, atoms, event, idOf);
    var plan := Plan(book, asset, from, atoms, Fifo).value;
    PlanExact(book, asset, from, atoms, Fifo);
    ReliefConserves(book, plan, asset, from, a);
    var (kept, r) := ApplyRelief(book, plan);
    MovedBalance(r.value, book, asset, to, event, idOf, a);
    BalanceAppend(kept, MovedLots(r.value, book, asset, to, event, idOf), a);
  }

  lemma {:induction false} OutflowAtoms(rs: seq<LotRelief>, plan: seq<PlanItem>, asset: AssetId, currency: AssetId)
    requires |rs| == |plan| && forall i :: 0 <= i < |rs| ==> rs[i].atoms == plan[i].take && rs[i].basis.asset == currency
    ensures Outflow(rs, asset, Account(asset, currency, Atoms)) == TakeOf(plan)
  {
    if rs != [] { OutflowAtoms(rs[1..], plan[1..], asset, currency); }
  }

  // ------------------------------------------------------------------------------
  // Runs.

  datatype Op =
    | AcquireOp(o: Opening)
    | DisposeOp(asset: AssetId, venue: VenueId, atoms: I128, m: ReliefMethod, proceeds: AssetAmount)
    | TransferOp(asset: AssetId, from: VenueId, to: VenueId, atoms: I128, event: EventRef)

  /** The book after an operation, and whether the operation succeeded. */
  function Do(book: Book, op: Op, idOf: Opening -> LotId): (Book, bool) {
    match op
    case AcquireOp(o) => var (b, r) := Acquire(book, o, idOf); (b, r.Ok?)
    case DisposeOp(asset, venue, atoms, m, proceeds) =>
      var (b, r) := Dispose(book, asset, venue, atoms, m, proceeds); (b, r.Ok?)
    case TransferOp(asset, from, to, atoms, event) =>
      var (b, r) := Transfer(book, asset, from, to, atoms, event, idOf); (b, r.Ok?)
  }

  /** The plan an operation gets to apply: none when it is refused before that. */
  ghost function PlanOf(book: Book, op: Op): Option<seq<PlanItem>> {
    match op
    case AcquireOp(_) => None
    case DisposeOp(asset, venue, atoms, m, proceeds) =>
      if Admitted(book, asset, venue, atoms, m, proceeds) then Some(Plan(book, asset, venue, atoms, m).value) else None
    case TransferOp(asset, from, _, atoms, _) =>
      if Plan(book, asset, from, atoms, Fifo).Ok? then Some(Plan(book, asset, from, atoms, Fifo).value) else None
  }

  /** A disposal gets past planning: a plan exists and the proceeds are in its currency. */
  ghost predicate Admitted(book: Book, asset: AssetId, venue: VenueId, atoms: I128, m: ReliefMethod, proceeds: AssetAmount) {
    && Plan(book, asset, venue, atoms, m).Ok?
    && BasisCurrency(book, Plan(book, asset, venue, atoms, m).value) == Ok(proceeds.asset)
  }

  /** The reliefs an operation makes, whether or not it then succeeds. */
  ghost function Edits(book: Book, op: Op): seq<LotRelief> {
    match PlanOf(book, op) case None => [] case Some(plan) => Done(book, plan)
  }

  ghost function AssetOf(op: Op): AssetId {
    match op case AcquireOp(o) => o.asset case DisposeOp(asset, _, _, _, _) => asset case TransferOp(asset, _, _, _, _) => asset
  }

  /** What comes in with an acquisition that is accepted. */
  ghost function Incoming(book: Book, op: Op, idOf: Opening -> LotId, a: Account): int {
    if op.AcquireOp? && Do(book, op, idOf).1 then Holds(OpenLot(op.o, idOf), a) else 0
  }

  /** What a disposal reports as carried out. */
  ghost function Outgoing(book: Book, op: Op, a: Account): int {
    match op
    case DisposeOp(asset, venue, atoms, m, proceeds) =>
      var r := Dispose(book, asset, venue, atoms, m, proceeds).1;
      if r.Ok? then Outflow(r.value.reliefs, asset, a) else 0
    case _ => 0
  }

  /** What is gone from the book after an operation that failed. */
  ghost function Lost(book: Book, op: Op, idOf: Opening -> LotId, a: Account): int {
    if Do(book, op, idOf).1 then 0 else Outflow(Edits(book, op), AssetOf(op), a)
  }

  /** A disposal that is not admitted changes nothing; an admitted one applies its plan. */
  lemma DisposeApplies(book: Book, asset: AssetId, venue: VenueId, atoms: I128, m: ReliefMethod, proceeds: AssetAmount)
    ensures var (book', r) := Dispose(book, asset, venue, atoms, m, proceeds);
      if Admitted(book, asset, venue, atoms, m, proceeds) then
        var (applied, rs) := ApplyRelief(book, Plan(book, asset, venue, atoms, m).value);
        book' == applied && (r.Ok? ==> rs.Ok? && r.value.reliefs == rs.value)
      else book' == book && r.Err?
  {
  }

  lemma DisposeBalances(book: Book, asset: AssetId, venue: VenueId, atoms: I128, m: ReliefMethod,
                        proceeds: AssetAmount, a: Account)
    requires Consistent(book)
    ensures var (book', r) := Dispose(book, asset, venue, atoms, m, proceeds);
      var done := Edits(book, DisposeOp(asset, venue, atoms, m, proceeds));
      && Balance(book, a) == Balance(book', a) + Outflow(done, asset, a)
      && Consistent(book') && (r.Ok? ==> r.value.reliefs == done && AllGood(book'))
      && (DistinctIds(book) ==> DistinctIds(book'))
  {
    DisposeApplies(book, asset, venue, atoms, m, proceeds);
    if Admitted(book, asset, venue, atoms, m, proceeds) {
      var plan := Plan(book, asset, venue, atoms, m).value;
      PlanExact(book, asset, venue, atoms, m);
      ReliefConserves(book, plan, asset, venue, a);
      ReliefKeepsConsistent(book, plan);
    }
  }

  lemma DisposeConserves(book: Book, asset: AssetId, venue: VenueId, atoms: I128, m: ReliefMethod,
                         proceeds: AssetAmount, a: Account)
    requires Consistent(book) && Dispose(book, asset, venue, atoms, m, proceeds).1.Ok?
    ensures var (book', r) := Dispose(book, asset, venue, atoms, m, proceeds);
      && Balance(book, a) == Balance(book', a) + Outflow(r.value.reliefs, asset, a)
      && Consistent(book') && AllGood(book')
  {
    DisposeBalances(book, asset, venue, atoms, m, proceeds, a);
  }

  lemma FailedTransferBalances(book: Book, asset: AssetId, from: VenueId, to: VenueId, atoms: I128,
                               event: EventRef, idOf: Opening -> LotId, a: Account)
    requires Consistent(book) && Transfer(book, asset, from, to, atoms, event, idOf).1.Err?
    ensures var book' := Transfer(book, asset, from, to, atoms, event, idOf).0;
      && Balance(book, a) == Balance(book', a) + Outflow(Edits(book, TransferOp(asset, from, to, atoms, event)), asset, a)
      && Consistent(book')
  {
    if Plan(book, asset, from, atoms, Fifo).Ok? {
      var plan := Plan(book, asset, from, atoms, Fifo).value;
      PlanExact(book, asset, from, atoms, Fifo);
      ReliefConserves(book, plan, asset, from, a);
      ReliefKeepsConsistent(book, plan);
    }
  }

  /** What an operation, accepted or refused, does to one balance and to the book. */
  ghost predicate Conserves(book: Book, op: Op, idOf: Opening -> LotId, a: Account) {
    var (book', ok) := Do(book, op, idOf);
    && Balance(book, a) + Incoming(book, op, idOf, a)
       == Balance(book', a) + Outgoing(book, op, a) + Lost(book, op, idOf, a)
    && SettlingBook(book') && (AllGood(book) && ok ==> AllGood(book'))
  }

  lemma AcquireOpConserves(book: Book, o: Opening, idOf: Opening -> LotId, a: Account)
    requires Consistent(book)
    ensures Conserves(book, AcquireOp(o), idOf, a)
  {
    BalanceAppend(book, [OpenLot(o, idOf)], a);
  }

  lemma DisposeOpConserves(book: Book, op: Op, idOf: Opening -> LotId, a: Account)
    requires Consistent(book) && op.DisposeOp?
    ensures Conserves(book, op, idOf, a)
  {
    DisposeBalances(book, op.asset, op.venue, op.atoms, op.m, op.proceeds, a);
  }

  lemma TransferOpConserves(book: Book, op: Op, idOf: Opening -> LotId, a: Account)
    requires Consistent(book) && op.TransferOp?
    ensures Conserves(book, op, idOf, a)
  {
    if Do(book, op, idOf).1 {
      TransferConserves(book, op.asset, op.from, op.to, op.atoms, op.event, idOf, a);
    } else {
      FailedTransferBalances(book, op.asset, op.from, op.to, op.atoms, op.event, idOf, a);
    }
  }

  /** One operation, accepted or refused: what came in is held, reported or lost. */
  lemma OneOpConserves(book: Book, op: Op, idOf: Opening -> LotId, a: Account)
    requires Consistent(book)
    ensures Conserves(book, op, idOf, a)
  {
    match op
    case AcquireOp(o) => AcquireOpConserves(book, o, idOf, a);
    case DisposeOp(_, _, _, _, _) => DisposeOpConserves(book, op, idOf, a);
    case TransferOp(_, _, _, _, _) => TransferOpConserves(book, op, idOf, a);
  }

  /** No two lots of the book ever share an id. */
  ghost predicate IdsStayDistinct(book: Book, ops: seq<Op>, idOf: Opening -> LotId)
    decreases |ops|
  {
    ops != [] ==>
      var book' := Do(book, ops[0], idOf).0;
      DistinctIds(book') && IdsStayDistinct(book', ops[1..], idOf)
  }

  /** Lots that share an id are always opened alike. */
  ghost predicate IdsStayAgreed(book: Book, ops: seq<Op>, idOf: Opening -> LotId)
    decreases |ops|
  {
    ops != [] ==>
      var book' := Do(book, ops[0], idOf).0;
      Agreeing(book') && IdsStayAgreed(book', ops[1..], idOf)
  }

  /** Every operation of the run succeeds. */
  ghost predicate AllSucceed(book: Book, ops: seq<Op>, idOf: Opening -> LotId)
    decreases |ops|
  {
    ops != [] ==> Do(book, ops[0], idOf).1 && AllSucceed(Do(book, ops[0], idOf).0, ops[1..], idOf)
  }

  ghost function After(book: Book, ops: seq<Op>, idOf: Opening -> LotId): Book
    decreases |ops|
  {
    if ops == [] then book else After(Do(book, ops[0], idOf).0, ops[1..], idOf)
  }

  ghost function Acquired(book: Book, ops: seq<Op>, idOf: Opening -> LotId, a: Account): int
    decreases |ops|
  {
    if ops == [] then 0
    else Incoming(book, ops[0], idOf, a) + Acquired(Do(book, ops[0], idOf).0, ops[1..], idOf, a)
  }

  ghost function Relieved(book: Book, ops: seq<Op>, idOf: Opening -> LotId, a: Account): int
    decreases |ops|
  {
    if ops == [] then 0
    else Outgoing(book, ops[0], a) + Relieved(Do(book, ops[0], idOf).0, ops[1..], idOf, a)
  }

  ghost function LostIn(book: Book, ops: seq<Op>, idOf: Opening -> LotId, a: Account): int
    decreases |ops|
  {
    if ops == [] then 0
    else Lost(book, ops[0], idOf, a) + LostIn(Do(book, ops[0], idOf).0, ops[1..], idOf, a)
  }

  /** Over every run, refused and half-done operations included: opened plus acquired
      equals held plus relieved plus lost, to the atom and to the minor unit. */
  lemma {:induction false} EveryRunConserves(book: Book, ops: seq<Op>, idOf: Opening -> LotId, a: Account)
    requires Consistent(book) && IdsStayAgreed(book, ops, idOf)
    ensures Consistent(After(book, ops, idOf))
    ensures Balance(book, a) + Acquired(book, ops, idOf, a)
         == Balance(After(book, ops, idOf), a) + Relieved(book, ops, idOf, a) + LostIn(book, ops, idOf, a)
    decreases |ops|
  {
    if ops != [] {
      OneOpConserves(book, ops[0], idOf, a);
      EveryRunConserves(Do(book, ops[0], idOf).0, ops[1..], idOf, a);
    }
  }

  /** A run in which every operation succeeds loses nothing, and every lot left in the book
      is a good one. */
  lemma {:induction false} RunConserves(book: Book, ops: seq<Op>, idOf: Opening -> LotId, a: Account)
    requires Consistent(book) && AllGood(book) && AllSucceed(book, ops, idOf) && IdsStayAgreed(book, ops, idOf)
    ensures Consistent(After(book, ops, idOf)) && AllGood(After(book, ops, idOf))
    ensures Balance(book, a) + Acquired(book, ops, idOf, a)
         == Balance(After(book, ops, idOf), a) + Relieved(book, ops, idOf, a)
    decreases |ops|
  {
    if ops != [] {
      OneOpConserves(book, ops[0], idOf, a);
      RunConserves(Do(book, ops[0], idOf).0, ops[1..], idOf, a);
    }
  }
}

/** What each call on the book does and answers, told lot by lot in terms of the book
    before: dates, venues, shares of money and ids. */
module LotMeaning {
  import opened Prelude
  import opened Amounts
  import opened Filtering
  import opened Lots
  import opened LotReliefTheory
  import opened LotConservation
  import opened LotAtomicity
  import opened LotIdentity

  // ------------------------------------------------------------------------------
  // Acquisition.

  ghost predicate Acquirable(o: Opening) {
    o.atoms > 0 && o.basis.atoms >= 0 && o.fee.atoms >= 0 && o.basis.asset == o.fee.asset
  }

  /** The lot an opening describes, under the id that is its hash. */
  ghost predicate Records(l: Lot, o: Opening, idOf: Opening -> LotId) {
    && l.lotId == idOf(o) && l.asset == o.asset && l.venue == o.venue && l.atoms == o.atoms
    && l.basis == o.basis && l.fee == o.fee && l.acquiredAt == o.acquiredAt
    && l.sourceEvent == o.sourceEvent && l.movedFrom == o.movedFrom
  }

  ghost predicate Refused(o: Opening, e: LotError) {
    match e
    case NonPositiveQuantity(n) => n == o.atoms <= 0
    case NegativeMoney => o.basis.atoms < 0 || o.fee.atoms < 0
    case CurrencyMismatch => o.basis.asset != o.fee.asset
    case _ => false
  }

  /** An acquisition is accepted exactly for a positive quantity and money of one currency
      that is not negative; it is then the last lot of the book and its id is returned. A
      refused one changes nothing, for the reason given. */
  lemma AcquireAcceptedIff(book: Book, o: Opening, idOf: Opening -> LotId)
    ensures var (book', r) := Acquire(book, o, idOf);
      && (r.Ok? <==> Acquirable(o))
      && (r.Ok? ==>
            && r.value == idOf(o) && |book'| == |book| + 1 && book' == book + [book'[|book|]]
            && Records(book'[|book|], o, idOf))
      && (r.Err? ==> book' == book && Refused(o, r.error))
  {
  }

  // ------------------------------------------------------------------------------
  // Relief.

  /** `left` is what `r` leaves of `l`: the relief carries the floor of its share of basis
      and fee, quantity and money go down by just that, and nothing else changes. */
  ghost predicate RelievedBy(l: Lot, r: LotRelief, left: Lot) {
    && r.lotId == l.lotId && 0 < r.atoms <= l.atoms
    && r.basis.asset == r.fee.asset == l.basis.asset == l.fee.asset
    && r.basis.atoms == l.basis.atoms * r.atoms / l.atoms
    && r.fee.atoms == l.fee.atoms * r.atoms / l.atoms
    && left == l.(atoms := left.atoms, basis := left.basis, fee := left.fee)
    && left.basis.asset == left.fee.asset == l.basis.asset
    && left.atoms + r.atoms == l.atoms
    && left.basis.atoms + r.basis.atoms == l.basis.atoms
    && left.fee.atoms + r.fee.atoms == l.fee.atoms
  }

  /** The lot a relief is taken from. */
  ghost function SourceOf(book: Book, r: LotRelief): nat
    requires Find(book, r.lotId).Some?
  {
    Find(book, r.lotId).value
  }

  ghost predicate TakenFrom(book: Book, r: LotRelief, left: Book, asset: AssetId, venue: VenueId)
    requires |left| == |book|
  {
    && Find(book, r.lotId).Some? && RelievedBy(book[SourceOf(book, r)], r, left[SourceOf(book, r)])
    && book[SourceOf(book, r)].asset == asset && book[SourceOf(book, r)].venue == venue
  }

  /** `left` is the book with these reliefs taken, each from another lot of the asset and
      the venue, and every other lot as it was. */
  ghost predicate Relieves(book: Book, rs: seq<LotRelief>, left: Book, asset: AssetId, venue: VenueId) {
    && |left| == |book|
    && (forall i, j :: 0 <= i < j < |rs| ==> rs[i].lotId != rs[j].lotId)
    && (forall j :: 0 <= j < |rs| ==> TakenFrom(book, rs[j], left, asset, venue))
    && (forall k :: 0 <= k < |book| && Untouched(book, rs, k) ==> left[k] == book[k])
  }

  ghost predicate Untouched(book: Book, rs: seq<LotRelief>, k: nat) {
    forall j :: 0 <= j < |rs| ==> Find(book, rs[j].lotId) != Some(k)
  }

  lemma RelieveKeepsId(l: Lot, take: I128)
    ensures RelieveLot(l, take).0.lotId == l.lotId
  {
  }

  lemma {:induction false} UnplannedLot(book: Book, plan: seq<PlanItem>, k: nat)
    requires k < |book| && forall j :: 0 <= j < |plan| ==> Find(book, plan[j].lotId) != Some(k)
    ensures var edited := ApplyEdits(book, plan).0; |edited| == |book| && edited[k] == book[k]
    decreases |plan|
  {
    if plan != [] && Find(book, plan[0].lotId).Some? {
      var i := Find(book, plan[0].lotId).value;
      var lot := RelieveLot(book[i], plan[0].take).0;
      RelieveKeepsId(book[i], plan[0].take);
      assert i != k;
      forall j | 0 <= j < |plan[1..]| ensures Find(book[i := lot], plan[1..][j].lotId) != Some(k) {
        FindAfterEdit(book, i, lot, plan[j + 1].lotId);
      }
      UnplannedLot(book[i := lot], plan[1..], k);
    }
  }

  /** The first item of a clean plan is the only one to touch its lot. */
  lemma FirstRelief(book: Book, plan: seq<PlanItem>)
    requires SettlingBook(book) && plan != [] && PlanFits(book, plan) && ApplyEdits(book, plan).1.Ok?
    ensures var (edited, r) := ApplyEdits(book, plan);
      && Find(book, plan[0].lotId).Some? && |edited| == |book| && r.value != []
      && RelievedBy(LotFor(book, plan[0]), r.value[0], edited[Find(book, plan[0].lotId).value])
  {
    EditsSucceedIffClean(book, plan);
    var i, lot, r := FirstEdit(book, plan);
    forall j | 0 <= j < |plan[1..]| ensures Find(book[i := lot], plan[1..][j].lotId) != Some(i) {
      assert plan[1..][j] == plan[j + 1] && plan[0].lotId != plan[j + 1].lotId;
      FindAfterEdit(book, i, lot, plan[j + 1].lotId);
    }
    UnplannedLot(book[i := lot], plan[1..], i);
    RelieveLotExact(book[i], plan[0].take);
    assert RelievedBy(book[i], r.value, lot);
  }

  lemma {:induction false} PlannedRelief(book: Book, plan: seq<PlanItem>, j: nat)
    requires SettlingBook(book) && PlanFits(book, plan) && j < |plan| && ApplyEdits(book, plan).1.Ok?
    ensures var (edited, r) := ApplyEdits(book, plan);
      && Find(book, plan[j].lotId).Some? && |edited| == |book| && |r.value| == |plan|
      && RelievedBy(LotFor(book, plan[j]), r.value[j], edited[Find(book, plan[j].lotId).value])
    decreases |plan|
  {
    ReliefShape(book, plan);
    if j == 0 {
      FirstRelief(book, plan);
    } else {
      EditsSucceedIffClean(book, plan);
      var i, lot, r := FirstEdit(book, plan);
      assert plan[1..][j - 1] == plan[j] && plan[0].lotId != plan[j].lotId;
      FindAfterEdit(book, i, lot, plan[j].lotId);
      PlannedRelief(book[i := lot], plan[1..], j - 1);
    }
  }

  ghost function AtomsRelieved(rs: seq<LotRelief>): int {
    if rs == [] then 0 else rs[0].atoms + AtomsRelieved(rs[1..])
  }

  lemma {:induction false} AtomsRelievedIsTake(rs: seq<LotRelief>, plan: seq<PlanItem>)
    requires |rs| == |plan| && forall i :: 0 <= i < |rs| ==> rs[i].atoms == plan[i].take
    ensures AtomsRelieved(rs) == TakeOf(plan)
  {
    if rs != [] { AtomsRelievedIsTake(rs[1..], plan[1..]); }
  }

  /** The reliefs are those planned, in that order. */
  ghost predicate FollowsPlan(rs: seq<LotRelief>, plan: seq<PlanItem>) {
    |rs| == |plan| && forall j :: 0 <= j < |rs| ==> rs[j].lotId == plan[j].lotId && rs[j].atoms == plan[j].take
  }

  lemma PlanRelieves(book: Book, asset: AssetId, venue: VenueId, atoms: I128, m: ReliefMethod)
    requires Consistent(book) && Plan(book, asset, venue, atoms, m).Ok?
    requires ApplyEdits(book, Plan(book, asset, venue, atoms, m).value).1.Ok?
    ensures var plan := Plan(book, asset, venue, atoms, m).value;
      var (edited, r) := ApplyEdits(book, plan);
      Relieves(book, r.value, edited, asset, venue) && FollowsPlan(r.value, plan) && AtomsRelieved(r.value) == atoms
  {
    var plan := Plan(book, asset, venue, atoms, m).value;
    PlanExact(book, asset, venue, atoms, m);
    var (edited, r) := ApplyEdits(book, plan);
    var rs := r.value;
    ReliefShape(book, plan);
    EditsKeepSettling(book, plan);
    EditsSucceedIffClean(book, plan);
    AtomsRelievedIsTake(rs, plan);
    forall j | 0 <= j < |rs| ensures TakenFrom(book, rs[j], edited, asset, venue) { PlannedRelief(book, plan, j); }
    forall k | 0 <= k < |book| && Untouched(book, rs, k) ensures edited[k] == book[k] {
      forall j | 0 <= j < |plan| ensures Find(book, plan[j].lotId) != Some(k) { assert rs[j].lotId == plan[j].lotId; }
      UnplannedLot(book, plan, k);
    }
  }

  // ------------------------------------------------------------------------------
  // Disposal and transfer.

  /** A disposal, lot by lot: reliefs of the quantity asked for are taken as planned from
      lots of the asset at the venue, all other lots stay, and emptied lots are dropped. The
      report carries these reliefs, their basis, the proceeds and the difference. */
  lemma DisposalLotByLot(book: Book, asset: AssetId, venue: VenueId, atoms: I128, m: ReliefMethod,
                         proceeds: AssetAmount) returns (left: Book)
    requires Consistent(book) && Dispose(book, asset, venue, atoms, m, proceeds).1.Ok?
    ensures var (book', r) := Dispose(book, asset, venue, atoms, m, proceeds);
      var d := r.value;
      && book' == Retain(left) && Plan(book, asset, venue, atoms, m).Ok?
      && Relieves(book, d.reliefs, left, asset, venue) && AtomsRelieved(d.reliefs) == atoms
      && FollowsPlan(d.reliefs, Plan(book, asset, venue, atoms, m).value)
      && d.totalBasis == AssetAmount(proceeds.asset, d.totalBasis.atoms) && d.totalBasis.atoms == BasisOf(d.reliefs)
      && d.proceeds == proceeds
      && d.realized == AssetAmount(proceeds.asset, d.realized.atoms)
      && d.realized.atoms + BasisOf(d.reliefs) == proceeds.atoms
  {
    var plan := Plan(book, asset, venue, atoms, m).value;
    left := ApplyEdits(book, plan).0;
    PlanRelieves(book, asset, venue, atoms, m);
    DisposalSums(book, asset, venue, atoms, m, proceeds);
  }

  lemma DisposalSums(book: Book, asset: AssetId, venue: VenueId, atoms: I128, m: ReliefMethod, proceeds: AssetAmount)
    requires Consistent(book) && Dispose(book, asset, venue, atoms, m, proceeds).1.Ok?
    ensures var d := Dispose(book, asset, venue, atoms, m, proceeds).1.value;
      && d.totalBasis.asset == d.realized.asset == proceeds.asset && d.proceeds == proceeds
      && d.totalBasis.atoms == BasisOf(d.reliefs) && d.realized.atoms == proceeds.atoms - BasisOf(d.reliefs)
  {
    var plan := Plan(book, asset, venue, atoms, m).value;
    PlanExact(book, asset, venue, atoms, m);
    BasisCurrencyIsAllIn(book, plan);
    ReliefCurrency(book, plan, proceeds.asset);
    ReliefShape(book, plan);
    SettleExact(ApplyEdits(book, plan).1.value, proceeds.asset, proceeds);
  }

  /** `l` is where a relief arrived: at the new venue, dated as the lot it was taken from,
      with the quantity and the money of the relief. */
  ghost predicate Arrival(l: Lot, r: LotRelief, book: Book, asset: AssetId, to: VenueId, event: EventRef)
    requires Find(book, r.lotId).Some?
  {
    && l.asset == asset && l.venue == to && l.sourceEvent == event && l.movedFrom == Some(r.lotId)
    && l.acquiredAt == book[SourceOf(book, r)].acquiredAt
    && l.atoms == r.atoms && l.basis == r.basis && l.fee == r.fee
  }

  ghost predicate HashedId(l: Lot, idOf: Opening -> LotId) {
    l.lotId == idOf(Opening(l.asset, l.venue, l.atoms, l.basis, l.fee, l.acquiredAt, l.sourceEvent, l.movedFrom))
  }

  ghost predicate Arrivals(arrivals: Book, rs: seq<LotRelief>, book: Book, asset: AssetId, to: VenueId,
                           event: EventRef, idOf: Opening -> LotId) {
    && |arrivals| == |rs|
    && forall j :: 0 <= j < |arrivals| ==>
         && Find(book, rs[j].lotId).Some? && Arrival(arrivals[j], rs[j], book, asset, to, event)
         && HashedId(arrivals[j], idOf)
  }

  /** A transfer, lot by lot: first in, first out, reliefs of the quantity asked for are
      taken from lots of the asset at the old venue, all other lots stay, and each relief
      arrives as one new lot at the new venue, dated as the lot it came from. The ids
      returned are those of the arrivals, in order. */
  lemma TransferLotByLot(book: Book, asset: AssetId, from: VenueId, to: VenueId, atoms: I128, event: EventRef,
                         idOf: Opening -> LotId) returns (left: Book, rs: seq<LotRelief>, arrivals: Book)
    requires Consistent(book) && Transfer(book, asset, from, to, atoms, event, idOf).1.Ok?
    ensures var (book', r) := Transfer(book, asset, from, to, atoms, event, idOf);
      && book' == Retain(left) + arrivals && Plan(book, asset, from, atoms, Fifo).Ok?
      && Relieves(book, rs, left, asset, from) && AtomsRelieved(rs) == atoms
      && FollowsPlan(rs, Plan(book, asset, from, atoms, Fifo).value)
      && Arrivals(arrivals, rs, book, asset, to, event, idOf) && AtomsOf(arrivals) == atoms
      && |r.value| == |arrivals| && forall j :: 0 <= j < |arrivals| ==> r.value[j] == arrivals[j].lotId
  {
    var plan := Plan(book, asset, from, atoms, Fifo).value;
    left := ApplyEdits(book, plan).0;
    rs := ApplyEdits(book, plan).1.value;
    arrivals := MovedLots(rs, book, asset, to, event, idOf);
    PlanRelieves(book, asset, from, atoms, Fifo);
    forall j | 0 <= j < |arrivals|
      ensures Find(book, rs[j].lotId).Some? && Arrival(arrivals[j], rs[j], book, asset, to, event)
      ensures HashedId(arrivals[j], idOf)
    {
      assert TakenFrom(book, rs[j], left, asset, from);
      MovedLotsAt(rs, book, asset, to, event, idOf, j);
    }
    ArrivedAtoms(arrivals, rs);
  }

  lemma {:induction false} ArrivedAtoms(arrivals: Book, rs: seq<LotRelief>)
    requires |arrivals| == |rs| && forall j :: 0 <= j < |rs| ==> arrivals[j].atoms == rs[j].atoms
    ensures AtomsOf(arrivals) == AtomsRelieved(rs)
  {
    if rs != [] { ArrivedAtoms(arrivals[1..], rs[1..]); }
  }

  // ------------------------------------------------------------------------------
  // What planning refuses.

  /** Every id names a lot of the asset at the venue. */
  ghost predicate AllNamed(book: Book, ids: seq<LotId>, asset: AssetId, venue: VenueId) {
    forall i :: 0 <= i < |ids| ==> NamesAt(book, ids[i], asset, venue)
  }

  ghost predicate NamesAt(book: Book, id: LotId, asset: AssetId, venue: VenueId) {
    First(book, id).Some? && First(book, id).value.asset == asset && First(book, id).value.venue == venue
  }

  ghost function AtomsNamed(book: Book, ids: seq<LotId>): int {
    if ids == [] then 0
    else (if First(book, ids[0]).Some? then First(book, ids[0]).value.atoms else 0) + AtomsNamed(book, ids[1..])
  }

  lemma {:induction false} NamedIff(book: Book, ids: seq<LotId>, asset: AssetId, venue: VenueId)
    ensures Named(book, ids, asset, venue).Ok? <==> AllNamed(book, ids, asset, venue)
    ensures Named(book, ids, asset, venue).Ok? ==> AtomsOf(Named(book, ids, asset, venue).value) == AtomsNamed(book, ids)
    ensures var r := Named(book, ids, asset, venue); r.Err? ==>
      || (r.error.UnknownLot? && r.error.id in ids && First(book, r.error.id).None?)
      || (r.error.WrongLotTarget? && r.error.id in ids && First(book, r.error.id).Some? && !NamesAt(book, r.error.id, asset, venue))
  {
    if ids != [] {
      NamedIff(book, ids[1..], asset, venue);
      assert ids == [ids[0]] + ids[1..];
      assert AllNamed(book, ids, asset, venue) <==>
        NamesAt(book, ids[0], asset, venue) && AllNamed(book, ids[1..], asset, venue) by { AllNamedSplits(book, ids, asset, venue); }
      if Named(book, ids, asset, venue).Ok? {
        var rest := Named(book, ids[1..], asset, venue).value;
        assert ([First(book, ids[0]).value] + rest)[1..] == rest;
      }
    }
  }

  lemma AllNamedSplits(book: Book, ids: seq<LotId>, asset: AssetId, venue: VenueId)
    requires ids != []
    ensures AllNamed(book, ids, asset, venue) <==>
      NamesAt(book, ids[0], asset, venue) && AllNamed(book, ids[1..], asset, venue)
  {
    if NamesAt(book, ids[0], asset, venue) && AllNamed(book, ids[1..], asset, venue) {
      forall i | 0 <= i < |ids| ensures NamesAt(book, ids[i], asset, venue) {
        if i > 0 { assert ids[i] == ids[1..][i - 1]; }
      }
    }
  }

  /** A plan over named lots exists exactly when every id names a lot of the asset at the
      venue and these lots, as often as they are named, hold the positive quantity. */
  lemma SpecificPlanExistsIff(book: Book, asset: AssetId, venue: VenueId, atoms: I128, ids: seq<LotId>)
    requires SettlingBook(book)
    ensures Plan(book, asset, venue, atoms, SpecificLots(ids)).Ok? <==>
      AllNamed(book, ids, asset, venue) && 0 < atoms <= AtomsNamed(book, ids) <= I128_MAX
  {
    NamedIff(book, ids, asset, venue);
    if AllNamed(book, ids, asset, venue) {
      var ordered := Named(book, ids, asset, venue).value;
      CandidatesNotNegative(book, asset, venue, SpecificLots(ids));
      AvailableWhenFits(ordered, 0);
      if Available(ordered, 0).Some? { AvailableIsSum(ordered, 0); }
      if 0 < atoms <= AtomsOf(ordered) { AllocateFits(ordered, atoms); }
    }
  }

  ghost function AtomsAsked(book: Book, asset: AssetId, venue: VenueId, m: ReliefMethod): int {
    match m case Fifo => AtomsOf(Located(book, asset, venue)) case SpecificLots(ids) => AtomsNamed(book, ids)
  }

  /** The reason planning gives is a true one. */
  lemma PlanRefusalIsTrue(book: Book, asset: AssetId, venue: VenueId, atoms: I128, m: ReliefMethod)
    requires SettlingBook(book) && Plan(book, asset, venue, atoms, m).Err?
    ensures match Plan(book, asset, venue, atoms, m).error
      case NonPositiveQuantity(n) => n == atoms <= 0
      case UnknownLot(id) => m.SpecificLots? && id in m.ids && First(book, id).None?
      case WrongLotTarget(id) => m.SpecificLots? && id in m.ids && First(book, id).Some? && !NamesAt(book, id, asset, venue)
      case InsufficientQuantity(n, held) => n == atoms && held == AtomsAsked(book, asset, venue, m) < atoms
      case Overflow => AtomsAsked(book, asset, venue, m) > I128_MAX
      case _ => false
  {
    if m.SpecificLots? { NamedIff(book, m.ids, asset, venue); } else { AtomsOfSorted(Located(book, asset, venue)); }
    if Candidates(book, asset, venue, m).Ok? {
      var ordered := Candidates(book, asset, venue, m).value;
      CandidatesNotNegative(book, asset, venue, m);
      AvailableWhenFits(ordered, 0);
      if Available(ordered, 0).Some? { AvailableIsSum(ordered, 0); }
      if 0 < atoms <= AtomsOf(ordered) { AllocateFits(ordered, atoms); }
    }
  }

  /** A plan has a currency exactly when it names a lot at all, and only lots with a basis in
      that currency. */
  lemma BasisCurrencyIff(book: Book, plan: seq<PlanItem>, currency: AssetId)
    ensures BasisCurrency(book, plan) == Ok(currency) <==> plan != [] && PlanIn(book, plan, currency)
  {
    if plan != [] && Find(book, plan[0].lotId).Some? {
      var first := LotFor(book, plan[0]).basis.asset;
      AllInIff(book, plan, first);
      if PlanIn(book, plan, currency) { assert BasisIn(book, plan[0], currency); }
    } else if plan != [] {
      assert !BasisIn(book, plan[0], currency);
    }
  }

  ghost predicate BasisIn(book: Book, item: PlanItem, currency: AssetId) {
    First(book, item.lotId).Some? && First(book, item.lotId).value.basis.asset == currency
  }

  ghost predicate PlanIn(book: Book, plan: seq<PlanItem>, currency: AssetId) {
    forall i :: 0 <= i < |plan| ==> BasisIn(book, plan[i], currency)
  }

  lemma {:induction false} AllInIff(book: Book, plan: seq<PlanItem>, currency: AssetId)
    ensures AllIn(book, plan, currency) == Ok(currency) <==> PlanIn(book, plan, currency)
    ensures AllIn(book, plan, currency).Ok? ==> AllIn(book, plan, currency) == Ok(currency)
  {
    if plan != [] {
      AllInIff(book, plan[1..], currency);
      if BasisIn(book, plan[0], currency) && PlanIn(book, plan[1..], currency) {
        forall i | 0 <= i < |plan| ensures BasisIn(book, plan[i], currency) {
          if i > 0 { assert plan[i] == plan[1..][i - 1]; }
        }
      }
      if PlanIn(book, plan, currency) {
        assert BasisIn(book, plan[0], currency);
        forall i | 0 <= i < |plan[1..]| ensures BasisIn(book, plan[1..][i], currency) { assert plan[1..][i] == plan[i + 1]; }
      }
    }
  }

  /** A disposal gets past planning exactly when a plan exists and every planned lot has
      its basis in the currency of the proceeds. */
  lemma AdmittedIff(book: Book, asset: AssetId, venue: VenueId, atoms: I128, m: ReliefMethod, proceeds: AssetAmount)
    requires Consistent(book)
    ensures Admitted(book, asset, venue, atoms, m, proceeds) <==>
      && Plan(book, asset, venue, atoms, m).Ok?
      && PlanIn(book, Plan(book, asset, venue, atoms, m).value, proceeds.asset)
  {
    if Plan(book, asset, venue, atoms, m).Ok? {
      PlanExact(book, asset, venue, atoms, m);
      BasisCurrencyIff(book, Plan(book, asset, venue, atoms, m).value, proceeds.asset);
    }
  }
}

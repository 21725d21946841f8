/** The lot book as a value: what each operation does to the list of open lots. Every
    function is total, on well-formed books and on any other list of lots. */
module Lots {
  import opened Prelude
  import opened Amounts
  import opened Sorting
  import opened Filtering

  /** A digest, of which only equality and byte order matter here. */
  type LotId = nat
  type EventRef = nat
  type VenueId = string

  datatype Lot = Lot(
    lotId: LotId, asset: AssetId, venue: VenueId, atoms: I128,
    basis: AssetAmount, fee: AssetAmount,
    acquiredAt: I64, sourceEvent: EventRef, movedFrom: Option<LotId>)

  /** The facts a lot id is the hash of. The tenant is fixed per book. */
  datatype Opening = Opening(
    asset: AssetId, venue: VenueId, atoms: I128, basis: AssetAmount, fee: AssetAmount,
    acquiredAt: I64, sourceEvent: EventRef, movedFrom: Option<LotId>)

  type Book = seq<Lot>

  datatype ReliefMethod = Fifo | SpecificLots(ids: seq<LotId>)

  datatype PlanItem = PlanItem(lotId: LotId, take: I128)

  datatype LotRelief = LotRelief(lotId: LotId, atoms: I128, basis: AssetAmount, fee: AssetAmount)

  datatype DisposalResult = DisposalResult(
    reliefs: seq<LotRelief>, totalBasis: AssetAmount, proceeds: AssetAmount, realized: AssetAmount)

  datatype LotError =
    | NonPositiveQuantity(atoms: int)
    | NegativeMoney
    | CurrencyMismatch
    | InsufficientQuantity(requested: int, available: int)
    | UnknownLot(id: LotId)
    | WrongLotTarget(id: LotId)
    | Overflow
    | Amount(e: AmountError)

  function OpenLot(o: Opening, idOf: Opening -> LotId): Lot {
    Lot(idOf(o), o.asset, o.venue, o.atoms, o.basis, o.fee, o.acquiredAt, o.sourceEvent, o.movedFrom)
  }

  // ------------------------------------------------------------------------------
  // Acquisition.

  function Acquire(book: Book, o: Opening, idOf: Opening -> LotId): (Book, Result<LotId, LotError>) {
    if o.atoms <= 0 then (book, Err(NonPositiveQuantity(o.atoms)))
    else if o.basis.atoms < 0 || o.fee.atoms < 0 then (book, Err(NegativeMoney))
    else if o.basis.asset != o.fee.asset then (book, Err(CurrencyMismatch))
    else (book + [OpenLot(o, idOf)], Ok(idOf(o)))
  }

  // ------------------------------------------------------------------------------
  // Planning.

  /** Position of the first lot with this id. */
  function Find(book: Book, id: LotId): (r: Option<nat>)
    ensures r.Some? ==> r.value < |book| && book[r.value].lotId == id
    ensures r.Some? ==> forall i :: 0 <= i < r.value ==> book[i].lotId != id
    ensures r.None? ==> forall i :: 0 <= i < |book| ==> book[i].lotId != id
  {
    if book == [] then None
    else if book[0].lotId == id then Some(0)
    else match Find(book[1..], id) case Some(i) => Some(i + 1) case None => None
  }

  predicate At(l: Lot, asset: AssetId, venue: VenueId) { l.asset == asset && l.venue == venue }

  function Located(book: Book, asset: AssetId, venue: VenueId): Book {
    Filter(book, (l: Lot) => At(l, asset, venue))
  }

  predicate LotLeq(a: Lot, b: Lot) {
    a.acquiredAt < b.acquiredAt || (a.acquiredAt == b.acquiredAt && a.lotId <= b.lotId)
  }

  function Named(book: Book, ids: seq<LotId>, asset: AssetId, venue: VenueId): Result<Book, LotError> {
    if ids == [] then Ok([])
    else
      match Find(book, ids[0])
      case None => Err(UnknownLot(ids[0]))
      case Some(i) =>
        if !At(book[i], asset, venue) then Err(WrongLotTarget(ids[0]))
        else Prepend([book[i]], Named(book, ids[1..], asset, venue))
  }

  function Candidates(book: Book, asset: AssetId, venue: VenueId, m: ReliefMethod): Result<Book, LotError> {
    match m
    case Fifo => Ok(SortBy(Located(book, asset, venue), LotLeq))
    case SpecificLots(ids) => Named(book, ids, asset, venue)
  }

  /** Running checked sum of atoms. */
  function Available(ordered: Book, acc: I128): Option<I128>
    decreases |ordered|
  {
    if ordered == [] then Some(acc)
    else if FitsI128(acc + ordered[0].atoms) then Available(ordered[1..], acc + ordered[0].atoms)
    else None
  }

  function Min(a: I128, b: I128): I128 { if a <= b then a else b }

  function Allocate(ordered: Book, needed: I128): Result<seq<PlanItem>, LotError>
    decreases |ordered|
  {
    if ordered == [] || needed == 0 then Ok([])
    else
      var take := Min(needed, ordered[0].atoms);
      if !FitsI128(needed - take) then Err(Overflow)
      else Prepend([PlanItem(ordered[0].lotId, take)], Allocate(ordered[1..], needed - take))
  }

  function Plan(book: Book, asset: AssetId, venue: VenueId, atoms: I128, m: ReliefMethod)
    : Result<seq<PlanItem>, LotError>
  {
    if atoms <= 0 then Err(NonPositiveQuantity(atoms))
    else
      match Candidates(book, asset, venue, m)
      case Err(e) => Err(e)
      case Ok(ordered) =>
        match Available(ordered, 0)
        case None => Err(Overflow)
        case Some(available) =>
          if available < atoms then Err(InsufficientQuantity(atoms, available))
          else Allocate(ordered, atoms)
  }

  /** The single basis currency of the planned lots. */
  function BasisCurrency(book: Book, plan: seq<PlanItem>): Result<AssetId, LotError> {
    if plan == [] then Err(NonPositiveQuantity(0))
    else
      match Find(book, plan[0].lotId)
      case None => Err(UnknownLot(plan[0].lotId))
      case Some(i) => AllIn(book, plan, book[i].basis.asset)
  }

  function AllIn(book: Book, plan: seq<PlanItem>, currency: AssetId): Result<AssetId, LotError> {
    if plan == [] then Ok(currency)
    else
      match Find(book, plan[0].lotId)
      case None => Err(UnknownLot(plan[0].lotId))
      case Some(i) =>
        if book[i].basis.asset != currency then Err(CurrencyMismatch) else AllIn(book, plan[1..], currency)
  }

  // ------------------------------------------------------------------------------
  // Relief.

  function ProRata(total: I128, part: I128, whole: I128): Option<I128> {
    match Checked128(total * part)
    case None => None
    case Some(scaled) => CheckedDiv128(scaled, whole)
  }

  /** One lot's relief, and what is left of the lot; on an error after the quantity was
      reduced, the reduced quantity stays. */
  function RelieveLot(lot: Lot, take: I128): (Lot, Result<LotRelief, LotError>) {
    match ProRata(lot.basis.atoms, take, lot.atoms)
    case None => (lot, Err(Overflow))
    case Some(basisPart) =>
      match ProRata(lot.fee.atoms, take, lot.atoms)
      case None => (lot, Err(Overflow))
      case Some(feePart) =>
        if !FitsI128(lot.atoms - take) then (lot, Err(Overflow))
        else
          var reduced := lot.(atoms := lot.atoms - take);
          var currency := lot.basis.asset;
          if !FitsI128(lot.basis.atoms - basisPart) || !FitsI128(lot.fee.atoms - feePart) then
            (reduced, Err(Overflow))
          else
            (reduced.(basis := AssetAmount(currency, lot.basis.atoms - basisPart),
                      fee := AssetAmount(currency, lot.fee.atoms - feePart)),
             Ok(LotRelief(lot.lotId, take, AssetAmount(currency, basisPart), AssetAmount(currency, feePart))))
  }

  /** The edits made lot by lot, before emptied lots are dropped. */
  function ApplyEdits(book: Book, plan: seq<PlanItem>): (Book, Result<seq<LotRelief>, LotError>)
    decreases |plan|
  {
    if plan == [] then (book, Ok([]))
    else
      match Find(book, plan[0].lotId)
      case None => (book, Err(UnknownLot(plan[0].lotId)))
      case Some(i) =>
        var (lot, r) := RelieveLot(book[i], plan[0].take);
        if r.Err? then (book[i := lot], Err(r.error))
        else
          var (rest, rs) := ApplyEdits(book[i := lot], plan[1..]);
          (rest, Prepend([r.value], rs))
  }

  predicate HasAtoms(l: Lot) { l.atoms > 0 }

  function Retain(book: Book): Book { Filter(book, HasAtoms) }

  function ApplyRelief(book: Book, plan: seq<PlanItem>): (Book, Result<seq<LotRelief>, LotError>) {
    var (edited, r) := ApplyEdits(book, plan);
    if r.Ok? then (Retain(edited), r) else (edited, r)
  }

  // ------------------------------------------------------------------------------
  // Disposal and transfer.

  function TotalBasis(acc: AssetAmount, reliefs: seq<LotRelief>): Result<AssetAmount, LotError>
    decreases |reliefs|
  {
    if reliefs == [] then Ok(acc)
    else match AddAmounts(acc, reliefs[0].basis)
      case Err(e) => Err(Amount(e))
      case Ok(sum) => TotalBasis(sum, reliefs[1..])
  }

  function Settle(reliefs: seq<LotRelief>, currency: AssetId, proceeds: AssetAmount)
    : Result<DisposalResult, LotError>
  {
    match TotalBasis(AssetAmount(currency, 0), reliefs)
    case Err(e) => Err(e)
    case Ok(total) =>
      match SubAmounts(proceeds, total)
      case Err(e) => Err(Amount(e))
      case Ok(realized) => Ok(DisposalResult(reliefs, total, proceeds, realized))
  }

  function Dispose(book: Book, asset: AssetId, venue: VenueId, atoms: I128, m: ReliefMethod, proceeds: AssetAmount)
    : (Book, Result<DisposalResult, LotError>)
  {
    match Plan(book, asset, venue, atoms, m)
    case Err(e) => (book, Err(e))
    case Ok(plan) =>
      match BasisCurrency(book, plan)
      case Err(e) => (book, Err(e))
      case Ok(currency) =>
        if proceeds.asset != currency then (book, Err(CurrencyMismatch))
        else
          var (book', r) := ApplyRelief(book, plan);
          match r
          case Err(e) => (book', Err(e))
          case Ok(reliefs) => (book', Settle(reliefs, currency, proceeds))
  }

  function Moved(relief: LotRelief, book: Book, asset: AssetId, to: VenueId, event: EventRef): Opening {
    var since := match Find(book, relief.lotId) case Some(i) => book[i].acquiredAt case None => 0;
    Opening(asset, to, relief.atoms, relief.basis, relief.fee, since, event, Some(relief.lotId))
  }

  /** The lots a transfer opens, one per relief, dated as the lots they came from. */
  function MovedLots(reliefs: seq<LotRelief>, book: Book, asset: AssetId, to: VenueId, event: EventRef,
                     idOf: Opening -> LotId): (r: Book)
    ensures |r| == |reliefs|
  {
    if reliefs == [] then []
    else [OpenLot(Moved(reliefs[0], book, asset, to, event), idOf)]
         + MovedLots(reliefs[1..], book, asset, to, event, idOf)
  }

  function IdsOf(lots: Book): seq<LotId> { seq(|lots|, i requires 0 <= i < |lots| => lots[i].lotId) }

  function Transfer(book: Book, asset: AssetId, from: VenueId, to: VenueId, atoms: I128, event: EventRef,
                    idOf: Opening -> LotId): (Book, Result<seq<LotId>, LotError>)
  {
    match Plan(book, asset, from, atoms, Fifo)
    case Err(e) => (book, Err(e))
    case Ok(plan) =>
      var (book', r) := ApplyRelief(book, plan);
      match r
      case Err(e) => (book', Err(e))
      case Ok(reliefs) =>
        var arrivals := MovedLots(reliefs, book, asset, to, event, idOf);
        (book' + arrivals, Ok(IdsOf(arrivals)))
  }
}

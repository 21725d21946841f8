/** The mutable lot book. Each method is proved to do to the field `lots` exactly what
    the corresponding function of module `Lots` says, half-done failures included. */
module LotBooks {
  import opened Prelude
  import opened Amounts
  import opened Sorting
  import opened Lots

  /** The first step of applying a plan, spelled out. */
  lemma FirstItem(book: Book, plan: seq<PlanItem>)
    requires plan != []
    ensures match Find(book, plan[0].lotId)
      case None => ApplyEdits(book, plan) == (book, Err(UnknownLot(plan[0].lotId)))
      case Some(i) =>
        var (lot, r) := RelieveLot(book[i], plan[0].take);
        if r.Err? then ApplyEdits(book, plan) == (book[i := lot], Err(r.error))
        else
          && ApplyEdits(book, plan).0 == ApplyEdits(book[i := lot], plan[1..]).0
          && ApplyEdits(book, plan).1 == Prepend([r.value], ApplyEdits(book[i := lot], plan[1..]).1)
  {
  }

  class LotBook {
    /** The lot hash, for this book's tenant. */
    const idOf: Opening -> LotId
    var lots: Book

    constructor (idOf: Opening -> LotId)
      ensures lots == [] && this.idOf == idOf
    {
      this.idOf := idOf;
      lots := [];
    }

    method AcquireLot(o: Opening) returns (r: Result<LotId, LotError>)
      modifies this
      ensures lots == Acquire(old(lots), o, idOf).0 && r == Acquire(old(lots), o, idOf).1
    {
      if o.atoms <= 0 { return Err(NonPositiveQuantity(o.atoms)); }
      if o.basis.atoms < 0 || o.fee.atoms < 0 { return Err(NegativeMoney); }
      if o.basis.asset != o.fee.asset { return Err(CurrencyMismatch); }
      lots := lots + [OpenLot(o, idOf)];
      return Ok(idOf(o));
    }

    method NameLots(ids: seq<LotId>, asset: AssetId, venue: VenueId) returns (r: Result<Book, LotError>)
      ensures r == Named(lots, ids, asset, venue)
    {
      var found: Book := [];
      PrependNothing(Named(lots, ids, asset, venue));
      for i := 0 to |ids|
        invariant Named(lots, ids, asset, venue) == Prepend(found, Named(lots, ids[i..], asset, venue))
      {
        assert ids[i..][1..] == ids[i + 1..];
        var at := Find(lots, ids[i]);
        if at.None? { return Err(UnknownLot(ids[i])); }
        if !At(lots[at.value], asset, venue) { return Err(WrongLotTarget(ids[i])); }
        PrependTwice(found, [lots[at.value]], Named(lots, ids[i + 1..], asset, venue));
        found := found + [lots[at.value]];
      }
      assert found + [] == found;
      r := Ok(found);
    }

    method PlanRelief(asset: AssetId, venue: VenueId, atoms: I128, m: ReliefMethod)
      returns (r: Result<seq<PlanItem>, LotError>)
      ensures r == Plan(lots, asset, venue, atoms, m)
    {
      if atoms <= 0 { return Err(NonPositiveQuantity(atoms)); }
      var ordered: Book;
      match m {
        case Fifo => ordered := SortBy(Located(lots, asset, venue), LotLeq);
        case SpecificLots(ids) =>
          var named := NameLots(ids, asset, venue);
          if named.Err? { return Err(named.error); }
          ordered := named.value;
      }
      var available := SumAvailable(ordered);
      if available.None? { return Err(Overflow); }
      if available.value < atoms { return Err(InsufficientQuantity(atoms, available.value)); }
      r := AllocateAtoms(ordered, atoms);
    }

    method SumAvailable(ordered: Book) returns (r: Option<I128>)
      ensures r == Available(ordered, 0)
    {
      var available: I128 := 0;
      for i := 0 to |ordered|
        invariant Available(ordered, 0) == Available(ordered[i..], available)
      {
        assert ordered[i..][1..] == ordered[i + 1..];
        if !FitsI128(available + ordered[i].atoms) { return None; }
        available := available + ordered[i].atoms;
      }
      r := Some(available);
    }

    method AllocateAtoms(ordered: Book, atoms: I128) returns (r: Result<seq<PlanItem>, LotError>)
      ensures r == Allocate(ordered, atoms)
    {
      var plan: seq<PlanItem> := [];
      var needed: I128 := atoms;
      PrependNothing(Allocate(ordered, atoms));
      for i := 0 to |ordered|
        invariant Allocate(ordered, atoms) == Prepend(plan, Allocate(ordered[i..], needed))
      {
        assert ordered[i..][1..] == ordered[i + 1..];
        if needed == 0 { break; }
        var take := Min(needed, ordered[i].atoms);
        if !FitsI128(needed - take) { return Err(Overflow); }
        PrependTwice(plan, [PlanItem(ordered[i].lotId, take)], Allocate(ordered[i + 1..], needed - take));
        plan := plan + [PlanItem(ordered[i].lotId, take)];
        needed := needed - take;
      }
      assert plan + [] == plan;
      r := Ok(plan);
    }

    method PlanCurrency(plan: seq<PlanItem>) returns (r: Result<AssetId, LotError>)
      ensures r == BasisCurrency(lots, plan)
    {
      if plan == [] { return Err(NonPositiveQuantity(0)); }
      var first := Find(lots, plan[0].lotId);
      if first.None? { return Err(UnknownLot(plan[0].lotId)); }
      var currency := lots[first.value].basis.asset;
      for i := 0 to |plan|
        invariant AllIn(lots, plan, currency) == AllIn(lots, plan[i..], currency)
      {
        assert plan[i..][1..] == plan[i + 1..];
        var at := Find(lots, plan[i].lotId);
        if at.None? { return Err(UnknownLot(plan[i].lotId)); }
        if lots[at.value].basis.asset != currency { return Err(CurrencyMismatch); }
      }
      r := Ok(currency);
    }

    /** One lot is edited in place, field by field, with early exits in between. */
    method RelieveAt(i: nat, take: I128) returns (r: Result<LotRelief, LotError>)
      requires i < |lots|
      modifies this
      ensures lots == old(lots)[i := RelieveLot(old(lots)[i], take).0] && r == RelieveLot(old(lots)[i], take).1
    {
      var lot := lots[i];
      assert lots == lots[i := lot];
      var basisPart := ProRata(lot.basis.atoms, take, lot.atoms);
      if basisPart.None? { return Err(Overflow); }
      var feePart := ProRata(lot.fee.atoms, take, lot.atoms);
      if feePart.None? { return Err(Overflow); }
      var currency := lot.basis.asset;
      if !FitsI128(lot.atoms - take) { return Err(Overflow); }
      var reduced := lot.(atoms := lot.atoms - take);
      lots := lots[i := reduced];
      if !FitsI128(lot.basis.atoms - basisPart.value) { return Err(Overflow); }
      if !FitsI128(lot.fee.atoms - feePart.value) { return Err(Overflow); }
      lots := lots[i := reduced.(
        basis := AssetAmount(currency, lot.basis.atoms - basisPart.value),
        fee := AssetAmount(currency, lot.fee.atoms - feePart.value))];
      r := Ok(LotRelief(lot.lotId, take, AssetAmount(currency, basisPart.value), AssetAmount(currency, feePart.value)));
    }

    method ApplyPlan(plan: seq<PlanItem>) returns (r: Result<seq<LotRelief>, LotError>)
      modifies this
      ensures lots == ApplyRelief(old(lots), plan).0 && r == ApplyRelief(old(lots), plan).1
    {
      var reliefs: seq<LotRelief> := [];
      ghost var target := ApplyEdits(lots, plan);
      PrependNothing(target.1);
      assert plan[0..] == plan;
      for k := 0 to |plan|
        invariant target.0 == ApplyEdits(lots, plan[k..]).0
        invariant target.1 == Prepend(reliefs, ApplyEdits(lots, plan[k..]).1)
      {
        ghost var before, rest := lots, plan[k..];
        assert rest[1..] == plan[k + 1..] && rest[0] == plan[k];
        FirstItem(before, rest);
        var at := Find(lots, plan[k].lotId);
        if at.None? { return Err(UnknownLot(plan[k].lotId)); }
        var relief := RelieveAt(at.value, plan[k].take);
        if relief.Err? { return Err(relief.error); }
        PrependTwice(reliefs, [relief.value], ApplyEdits(lots, plan[k + 1..]).1);
        reliefs := reliefs + [relief.value];
      }
      assert reliefs + [] == reliefs;
      lots := Retain(lots);
      r := Ok(reliefs);
    }

    method DisposeLots(asset: AssetId, venue: VenueId, atoms: I128, m: ReliefMethod, proceeds: AssetAmount)
      returns (r: Result<DisposalResult, LotError>)
      modifies this
      ensures lots == Dispose(old(lots), asset, venue, atoms, m, proceeds).0
      ensures r == Dispose(old(lots), asset, venue, atoms, m, proceeds).1
    {
      var plan := PlanRelief(asset, venue, atoms, m);
      if plan.Err? { return Err(plan.error); }
      var currency := PlanCurrency(plan.value);
      if currency.Err? { return Err(currency.error); }
      if proceeds.asset != currency.value { return Err(CurrencyMismatch); }
      var reliefs := ApplyPlan(plan.value);
      if reliefs.Err? { return Err(reliefs.error); }
      var total := SumBasis(currency.value, reliefs.value);
      if total.Err? { return Err(total.error); }
      var realized := SubAmounts(proceeds, total.value);
      if realized.Err? { return Err(Amount(realized.error)); }
      r := Ok(DisposalResult(reliefs.value, total.value, proceeds, realized.value));
    }

    method SumBasis(currency: AssetId, reliefs: seq<LotRelief>) returns (r: Result<AssetAmount, LotError>)
      ensures r == TotalBasis(AssetAmount(currency, 0), reliefs)
    {
      var total := AssetAmount(currency, 0);
      for i := 0 to |reliefs|
        invariant TotalBasis(AssetAmount(currency, 0), reliefs) == TotalBasis(total, reliefs[i..])
      {
        assert reliefs[i..][1..] == reliefs[i + 1..];
        var sum := AddAmounts(total, reliefs[i].basis);
        if sum.Err? { return Err(Amount(sum.error)); }
        total := sum.value;
      }
      r := Ok(total);
    }

    method TransferLots(asset: AssetId, from: VenueId, to: VenueId, atoms: I128, event: EventRef)
      returns (r: Result<seq<LotId>, LotError>)
      modifies this
      ensures lots == Transfer(old(lots), asset, from, to, atoms, event, idOf).0
      ensures r == Transfer(old(lots), asset, from, to, atoms, event, idOf).1
    {
      var plan := PlanRelief(asset, from, atoms, Fifo);
      if plan.Err? { return Err(plan.error); }
      var origins := lots;
      var reliefs := ApplyPlan(plan.value);
      if reliefs.Err? { return Err(reliefs.error); }
      var arrivals := MoveLots(reliefs.value, origins, asset, to, event);
      lots := lots + arrivals;
      r := Ok(IdsOf(arrivals));
    }

    method MoveLots(reliefs: seq<LotRelief>, origins: Book, asset: AssetId, to: VenueId, event: EventRef)
      returns (arrivals: Book)
      ensures arrivals == MovedLots(reliefs, origins, asset, to, event, idOf)
    {
      arrivals := [];
      ghost var all := MovedLots(reliefs, origins, asset, to, event, idOf);
      for i := 0 to |reliefs|
        invariant all == arrivals + MovedLots(reliefs[i..], origins, asset, to, event, idOf)
      {
        assert reliefs[i..][1..] == reliefs[i + 1..];
        arrivals := arrivals + [OpenLot(Moved(reliefs[i], origins, asset, to, event), idOf)];
      }
    }
  }
}

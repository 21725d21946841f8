/** When a failed disposal or transfer leaves the book alone. The original promises this of
    every failed disposal; it holds except in one family of calls, described exactly below. */
module LotAtomicity {
  import opened Prelude
  import opened Amounts
  import opened Sorting
  import opened Filtering
  import opened Rounding
  import opened Lots
  import opened LotReliefTheory
  import opened LotConservation

  ghost function LotFor(book: Book, item: PlanItem): Lot
    requires Find(book, item.lotId).Some?
  {
    book[Find(book, item.lotId).value]
  }

  ghost predicate NoRepeat(plan: seq<PlanItem>) {
    forall i, j :: 0 <= i < j < |plan| ==> plan[i].lotId != plan[j].lotId
  }

  /** Every planned lot is named once, is not empty, and its products fit. */
  ghost predicate Clean(book: Book, plan: seq<PlanItem>)
    requires PlanFits(book, plan)
  {
    && NoRepeat(plan)
    && forall i :: 0 <= i < |plan| ==>
         && ItemFits(book, plan, i)
         && LotFor(book, plan[i]).atoms > 0 && Representable(LotFor(book, plan[i]), plan[i].take)
  }

  lemma CleanNext(book: Book, plan: seq<PlanItem>, i: nat, lot: Lot)
    requires plan != [] && PlanFits(book, plan) && Find(book, plan[0].lotId) == Some(i)
    requires book[i].atoms > 0 && Representable(book[i], plan[0].take)
    requires lot.lotId == book[i].lotId && lot.atoms == book[i].atoms - plan[0].take
    requires PlanFits(book[i := lot], plan[1..])
    ensures Clean(book, plan) <==> Clean(book[i := lot], plan[1..])
  {
    var book1, rest := book[i := lot], plan[1..];
    forall j | 0 <= j < |rest|
      ensures Find(book1, rest[j].lotId) == Find(book, plan[j + 1].lotId) && Find(book, plan[j + 1].lotId).Some?
      ensures rest[j].lotId != plan[0].lotId ==> LotFor(book1, rest[j]) == LotFor(book, plan[j + 1])
      ensures rest[j].lotId == plan[0].lotId ==> LotFor(book1, rest[j]).atoms == 0
    {
      assert rest[j] == plan[j + 1];
      FindAfterEdit(book, i, lot, plan[j + 1].lotId);
      assert ItemFits(book, plan, 0) && FirstUse(plan, 0) && ItemFits(book, plan, j + 1);
    }
    if Clean(book1, rest) {
      forall p, q | 0 <= p < q < |plan| ensures plan[p].lotId != plan[q].lotId {
        assert plan[q] == rest[q - 1];
        if p > 0 { assert plan[p] == rest[p - 1]; } else { assert LotFor(book1, rest[q - 1]).atoms > 0; }
      }
      forall p | 0 <= p < |plan|
        ensures ItemFits(book, plan, p)
        ensures LotFor(book, plan[p]).atoms > 0 && Representable(LotFor(book, plan[p]), plan[p].take)
      {
        if p > 0 { assert plan[p] == rest[p - 1] && LotFor(book1, rest[p - 1]).atoms > 0; }
      }
    }
    if Clean(book, plan) {
      forall p, q | 0 <= p < q < |rest| ensures rest[p].lotId != rest[q].lotId {
        assert rest[p] == plan[p + 1] && rest[q] == plan[q + 1];
      }
      forall p | 0 <= p < |rest|
        ensures LotFor(book1, rest[p]).atoms > 0 && Representable(LotFor(book1, rest[p]), rest[p].take)
      {
        assert rest[p] == plan[p + 1] && plan[p + 1].lotId != plan[0].lotId;
      }
    }
  }

  /** Applying a fitting plan succeeds exactly when the plan is clean. */
  lemma {:induction false} EditsSucceedIffClean(book: Book, plan: seq<PlanItem>)
    requires SettlingBook(book) && PlanFits(book, plan)
    ensures ApplyEdits(book, plan).1.Ok? <==> Clean(book, plan)
    decreases |plan|
  {
    if plan != [] {
      var i, lot, r := FirstEdit(book, plan);
      if r.Ok? {
        CleanNext(book, plan, i, lot);
        EditsSucceedIffClean(book[i := lot], plan[1..]);
      } else {
        assert LotFor(book, plan[0]) == book[i];
      }
    }
  }

  /** The first item of the plan goes through: its lot is not empty and its products fit. */
  ghost predicate Starts(book: Book, plan: seq<PlanItem>)
    requires plan != [] && PlanFits(book, plan)
  {
    && ItemFits(book, plan, 0)
    && LotFor(book, plan[0]).atoms > 0 && Representable(LotFor(book, plan[0]), plan[0].take)
  }

  /** No edit adds atoms, and the first one that goes through removes some. */
  lemma {:induction false} EditsShrink(book: Book, plan: seq<PlanItem>)
    requires SettlingBook(book) && PlanFits(book, plan)
    ensures var edited := ApplyEdits(book, plan).0;
      && |edited| == |book| && (forall i :: 0 <= i < |book| ==> edited[i].atoms <= book[i].atoms)
      && (plan != [] ==> (edited == book <==> !Starts(book, plan)))
    decreases |plan|
  {
    if plan != [] {
      var i, lot, r := FirstEdit(book, plan);
      assert LotFor(book, plan[0]) == book[i];
      if r.Ok? {
        assert ItemFits(book, plan, 0);
        EditsShrink(book[i := lot], plan[1..]);
        assert ApplyEdits(book, plan).0[i].atoms < book[i].atoms;
      }
    }
  }

  lemma {:induction false} RetainShorter(book: Book)
    ensures |Retain(book)| <= |book| && (|Retain(book)| == |book| ==> Retain(book) == book)
  {
    if book != [] {
      RetainShorter(book[1..]);
      assert book == [book[0]] + book[1..];
      assert Retain(book) == (if HasAtoms(book[0]) then [book[0]] else []) + Retain(book[1..]);
    }
  }

  /** Relief of a clean or unclean plan changes the book unless its very first item is
      refused. */
  lemma ReliefChangesBook(book: Book, plan: seq<PlanItem>)
    requires Consistent(book) && plan != [] && PlanFits(book, plan)
    ensures ApplyRelief(book, plan).0 == book <==> !Starts(book, plan)
    ensures ApplyRelief(book, plan).1.Ok? <==> Clean(book, plan)
  {
    var (edited, r) := ApplyEdits(book, plan);
    EditsShrink(book, plan);
    EditsSucceedIffClean(book, plan);
    if Clean(book, plan) { assert ItemFits(book, plan, 0) && Starts(book, plan); }
    RetainShorter(edited);
  }

  // ------------------------------------------------------------------------------
  // Settling the proceeds.

  /** The basis a clean plan relieves, computed from the book before the call. */
  ghost function PlannedBasis(book: Book, plan: seq<PlanItem>): int
    requires forall i :: 0 <= i < |plan| ==> Find(book, plan[i].lotId).Some? && LotFor(book, plan[i]).atoms > 0
  {
    if plan == [] then 0
    else
      var l := LotFor(book, plan[0]);
      l.basis.atoms * plan[0].take / l.atoms + PlannedBasis(book, plan[1..])
  }

  lemma {:induction false} PlannedBasisAfterEdit(book: Book, plan: seq<PlanItem>, i: nat, lot: Lot)
    requires i < |book| && lot.lotId == book[i].lotId
    requires forall j :: 0 <= j < |plan| ==>
      Find(book, plan[j].lotId).Some? && LotFor(book, plan[j]).atoms > 0 && plan[j].lotId != book[i].lotId
    ensures forall j :: 0 <= j < |plan| ==>
      Find(book[i := lot], plan[j].lotId).Some? && LotFor(book[i := lot], plan[j]) == LotFor(book, plan[j])
    ensures PlannedBasis(book[i := lot], plan) == PlannedBasis(book, plan)
  {
    forall j | 0 <= j < |plan|
      ensures Find(book[i := lot], plan[j].lotId) == Find(book, plan[j].lotId)
    {
      FindAfterEdit(book, i, lot, plan[j].lotId);
    }
    if plan != [] { PlannedBasisAfterEdit(book, plan[1..], i, lot); }
  }

  lemma {:induction false} ReliefsCarryPlannedBasis(book: Book, plan: seq<PlanItem>)
    requires SettlingBook(book) && PlanFits(book, plan) && Clean(book, plan)
    ensures ApplyEdits(book, plan).1.Ok?
    ensures BasisOf(ApplyEdits(book, plan).1.value) == PlannedBasis(book, plan)
    decreases |plan|
  {
    EditsSucceedIffClean(book, plan);
    if plan != [] {
      var i, lot, r := FirstEdit(book, plan);
      RelieveLotExact(book[i], plan[0].take);
      CleanNext(book, plan, i, lot);
      ReliefsCarryPlannedBasis(book[i := lot], plan[1..]);
      var rest := ApplyEdits(book[i := lot], plan[1..]).1.value;
      assert ([r.value] + rest)[1..] == rest;
      forall j | 0 <= j < |plan| - 1
        ensures Find(book, plan[1..][j].lotId).Some? && LotFor(book, plan[1..][j]).atoms > 0
        ensures plan[1..][j].lotId != book[i].lotId
      {
        assert plan[1..][j] == plan[j + 1] && plan[0].lotId != plan[j + 1].lotId;
      }
      PlannedBasisAfterEdit(book, plan[1..], i, lot);
    }
  }

  lemma {:induction false} ReliefCurrency(book: Book, plan: seq<PlanItem>, currency: AssetId)
    requires SettlingBook(book) && PlanFits(book, plan) && AllIn(book, plan, currency) == Ok(currency)
    requires ApplyEdits(book, plan).1.Ok?
    ensures forall i :: 0 <= i < |ApplyEdits(book, plan).1.value| ==>
      ApplyEdits(book, plan).1.value[i].basis.asset == currency
    decreases |plan|
  {
    if plan != [] {
      var i, lot, r := FirstEdit(book, plan);
      RelieveLotExact(book[i], plan[0].take);
      AllInAfterEdit(book, plan[1..], currency, i, lot);
      ReliefCurrency(book[i := lot], plan[1..], currency);
    }
  }

  lemma {:induction false} AllInAfterEdit(book: Book, plan: seq<PlanItem>, currency: AssetId, i: nat, lot: Lot)
    requires i < |book| && lot.lotId == book[i].lotId && lot.basis.asset == book[i].basis.asset
    ensures AllIn(book[i := lot], plan, currency) == AllIn(book, plan, currency)
  {
    if plan != [] {
      FindAfterEdit(book, i, lot, plan[0].lotId);
      AllInAfterEdit(book, plan[1..], currency, i, lot);
    }
  }

  lemma {:induction false} TotalBasisExact(acc: AssetAmount, rs: seq<LotRelief>)
    requires acc.atoms >= 0 && forall i :: 0 <= i < |rs| ==> rs[i].basis.asset == acc.asset && rs[i].basis.atoms >= 0
    ensures BasisOf(rs) >= 0
    ensures TotalBasis(acc, rs).Ok? <==> acc.atoms + BasisOf(rs) <= I128_MAX
    ensures TotalBasis(acc, rs).Ok? ==> TotalBasis(acc, rs).value == AssetAmount(acc.asset, acc.atoms + BasisOf(rs))
    decreases |rs|
  {
    if rs != [] {
      if FitsI128(acc.atoms + rs[0].basis.atoms) {
        TotalBasisExact(AssetAmount(acc.asset, acc.atoms + rs[0].basis.atoms), rs[1..]);
      } else {
        TotalBasisExact(AssetAmount(acc.asset, 0), rs[1..]);
      }
    }
  }

  lemma SettleExact(rs: seq<LotRelief>, currency: AssetId, proceeds: AssetAmount)
    requires proceeds.asset == currency
    requires forall i :: 0 <= i < |rs| ==> rs[i].basis.asset == currency && rs[i].basis.atoms >= 0
    ensures Settle(rs, currency, proceeds).Ok? <==>
      BasisOf(rs) <= I128_MAX && I128_MIN <= proceeds.atoms - BasisOf(rs)
    ensures Settle(rs, currency, proceeds).Ok? ==>
      var d := Settle(rs, currency, proceeds).value;
      && d.totalBasis.asset == d.realized.asset == currency
      && d.totalBasis.atoms == BasisOf(rs) && d.realized.atoms == proceeds.atoms - BasisOf(rs)
  {
    TotalBasisExact(AssetAmount(currency, 0), rs);
  }

  ghost predicate Settles(book: Book, plan: seq<PlanItem>, proceeds: AssetAmount)
    requires forall i :: 0 <= i < |plan| ==> Find(book, plan[i].lotId).Some? && LotFor(book, plan[i]).atoms > 0
  {
    PlannedBasis(book, plan) <= I128_MAX && I128_MIN <= proceeds.atoms - PlannedBasis(book, plan)
  }

  // ------------------------------------------------------------------------------
  // Main results.

  lemma BasisCurrencyIsAllIn(book: Book, plan: seq<PlanItem>)
    requires BasisCurrency(book, plan).Ok?
    ensures AllIn(book, plan, BasisCurrency(book, plan).value) == BasisCurrency(book, plan)
  {
    AllInAnswers(book, plan, LotFor(book, plan[0]).basis.asset);
  }

  lemma {:induction false} AllInAnswers(book: Book, plan: seq<PlanItem>, currency: AssetId)
    ensures AllIn(book, plan, currency).Ok? ==> AllIn(book, plan, currency).value == currency
  {
    if plan != [] { AllInAnswers(book, plan[1..], currency); }
  }

  /** The plan is clean and the totals of the disposal fit. */
  ghost predicate CleanAndSettles(book: Book, plan: seq<PlanItem>, proceeds: AssetAmount)
    requires PlanFits(book, plan)
  {
    Clean(book, plan) && Settles(book, plan, proceeds)
  }

  lemma CleanSettles(book: Book, plan: seq<PlanItem>, proceeds: AssetAmount)
    requires Consistent(book) && PlanFits(book, plan) && Clean(book, plan)
    requires BasisCurrency(book, plan) == Ok(proceeds.asset)
    ensures ApplyEdits(book, plan).1.Ok?
    ensures Settle(ApplyEdits(book, plan).1.value, proceeds.asset, proceeds).Ok? <==> Settles(book, plan, proceeds)
  {
    EditsSucceedIffClean(book, plan);
    BasisCurrencyIsAllIn(book, plan);
    ReliefsCarryPlannedBasis(book, plan);
    ReliefCurrency(book, plan, proceeds.asset);
    ReliefShape(book, plan);
    SettleExact(ApplyEdits(book, plan).1.value, proceeds.asset, proceeds);
  }

  /** An admitted disposal succeeds exactly when its plan is clean and the totals fit. */
  lemma DisposeSucceedsIff(book: Book, asset: AssetId, venue: VenueId, atoms: I128, m: ReliefMethod, proceeds: AssetAmount)
    requires Consistent(book) && Admitted(book, asset, venue, atoms, m, proceeds)
    ensures var plan := Plan(book, asset, venue, atoms, m).value;
      && plan != [] && PlanFits(book, plan)
      && (Dispose(book, asset, venue, atoms, m, proceeds).1.Ok? <==> CleanAndSettles(book, plan, proceeds))
  {
    var plan := Plan(book, asset, venue, atoms, m).value;
    PlanExact(book, asset, venue, atoms, m);
    EditsSucceedIffClean(book, plan);
    if Clean(book, plan) { CleanSettles(book, plan, proceeds); }
  }

  /** Exactly when a disposal fails and has changed the book all the same: it got past
      planning, its first lot is not empty and the products of that lot fit, and then a
      planned lot repeats, or is already empty, or a product overflows, or the totals do
      not fit. */
  lemma FailedDisposalChangesBookIff(book: Book, asset: AssetId, venue: VenueId, atoms: I128, m: ReliefMethod,
                                     proceeds: AssetAmount)
    requires Consistent(book)
    ensures var (book', r) := Dispose(book, asset, venue, atoms, m, proceeds);
      (r.Err? && book' != book) <==>
        && Admitted(book, asset, venue, atoms, m, proceeds)
        && var plan := Plan(book, asset, venue, atoms, m).value;
          plan != [] && PlanFits(book, plan) && Starts(book, plan) && !CleanAndSettles(book, plan, proceeds)
  {
    DisposeApplies(book, asset, venue, atoms, m, proceeds);
    if Admitted(book, asset, venue, atoms, m, proceeds) {
      DisposeSucceedsIff(book, asset, venue, atoms, m, proceeds);
      ReliefChangesBook(book, Plan(book, asset, venue, atoms, m).value);
    }
  }

  lemma TransferApplies(book: Book, asset: AssetId, from: VenueId, to: VenueId, atoms: I128,
                        event: EventRef, idOf: Opening -> LotId)
    ensures var (book', r) := Transfer(book, asset, from, to, atoms, event, idOf);
      match Plan(book, asset, from, atoms, Fifo)
      case Err(_) => r.Err? && book' == book
      case Ok(plan) => (r.Ok? <==> ApplyRelief(book, plan).1.Ok?) && (r.Err? ==> book' == ApplyRelief(book, plan).0)
  {
  }

  /** The same for a transfer, where no lot can repeat and nothing has to be settled. */
  lemma FailedTransferChangesBookIff(book: Book, asset: AssetId, from: VenueId, to: VenueId, atoms: I128,
                                     event: EventRef, idOf: Opening -> LotId)
    requires Consistent(book)
    ensures var (book', r) := Transfer(book, asset, from, to, atoms, event, idOf);
      (r.Err? && book' != book) <==>
        && Plan(book, asset, from, atoms, Fifo).Ok?
        && var plan := Plan(book, asset, from, atoms, Fifo).value;
          plan != [] && PlanFits(book, plan) && Starts(book, plan) && !Clean(book, plan)
  {
    TransferApplies(book, asset, from, to, atoms, event, idOf);
    if Plan(book, asset, from, atoms, Fifo).Ok? {
      PlanExact(book, asset, from, atoms, Fifo);
      ReliefChangesBook(book, Plan(book, asset, from, atoms, Fifo).value);
    }
  }

  /** A concrete member of that family: one lot of five atoms named twice. The call fails
      after the lot was emptied, and the emptied lot stays in the book. */
  lemma NamingALotTwiceEmptiesIt(l: Lot)
    requires GoodLot(l) && l.atoms == 5 && l.basis == AssetAmount("USD", 10) && l.fee == AssetAmount("USD", 0)
    ensures var (book', r) :=
        Dispose([l], l.asset, l.venue, 8, SpecificLots([l.lotId, l.lotId]), AssetAmount("USD", 20));
      r == Err(Overflow) && book' != [l] && |book'| == 1 && book'[0].atoms == 0
  {
    var ids := [l.lotId, l.lotId];
    assert ids[1..] == [l.lotId] && ids[1..][1..] == [];
    assert Find([l], l.lotId) == Some(0);
    assert [l] + [] == [l] && [l] + [l] == [l, l];
    assert [l.lotId][1..] == [] && Named([l], [], l.asset, l.venue) == Ok([]);
    assert Named([l], [l.lotId], l.asset, l.venue) == Ok([l]);
    assert Named([l], ids, l.asset, l.venue) == Ok([l, l]);
    var two := [l, l];
    assert two[1..] == [l] && [l][1..] == [];
    assert Available(two, 0) == Available([l], 5) == Some(10);
    assert [PlanItem(l.lotId, 3)] + [] == [PlanItem(l.lotId, 3)] && Allocate([], 0) == Ok([]);
    assert Allocate([l], 3) == Ok([PlanItem(l.lotId, 3)]);
    assert [PlanItem(l.lotId, 5)] + [PlanItem(l.lotId, 3)] == [PlanItem(l.lotId, 5), PlanItem(l.lotId, 3)];
    assert Allocate(two[1..], 3) == Ok([PlanItem(l.lotId, 3)]);
    assert Allocate(two, 8) == Ok([PlanItem(l.lotId, 5), PlanItem(l.lotId, 3)]);
    var plan := [PlanItem(l.lotId, 5), PlanItem(l.lotId, 3)];
    assert plan[1..] == [PlanItem(l.lotId, 3)];
    assert AllIn([l], plan[1..], "USD") == Ok("USD");
    assert BasisCurrency([l], plan) == Ok("USD");
    RelieveLotExact(l, 5);
    var left := RelieveLot(l, 5).0;
    assert [l][0 := left] == [left];
    RelieveLotExact(left, 3);
    assert [left][0 := left] == [left] && Find([left], l.lotId) == Some(0);
    assert RelieveLot(left, 3) == (left, Err(Overflow));
    assert ApplyEdits([left], plan[1..]) == ([left], Err(Overflow));
    assert ApplyEdits([l], plan) == ([left], Err(Overflow));
    assert Plan([l], l.asset, l.venue, 8, SpecificLots(ids)) == Ok(plan);
  }

  /** Another member, on a book that such a failure has left behind: between two lots of
      five atoms stands an emptied one. First in, first out takes nothing from it and fails
      there, after the first lot was emptied as well. */
  lemma EmptyLotStopsDisposal(a: Lot, b: Lot, c: Lot)
    requires DistinctIds([a, b, c]) && SettlingBook([a, b, c]) && a.acquiredAt < b.acquiredAt < c.acquiredAt
    requires At(b, a.asset, a.venue) && At(c, a.asset, a.venue)
    requires a.atoms == 5 && b.atoms == 0 && c.atoms == 5
    requires a.basis == c.basis == AssetAmount("USD", 10) && b.basis.asset == "USD"
    requires a.fee.atoms == 0 && c.fee.atoms == 0
    ensures var (book', r) := Dispose([a, b, c], a.asset, a.venue, 7, Fifo, AssetAmount("USD", 20));
      r.Err? && book' != [a, b, c]
  {
    var book := [a, b, c];
    var plan := [PlanItem(a.lotId, 5), PlanItem(b.lotId, 0), PlanItem(c.lotId, 2)];
    FifoOfThree(a, b, c);
    assert Find(book, a.lotId) == Some(0) && Find(book, b.lotId) == Some(1) && Find(book, c.lotId) == Some(2) by {
      FindsItself(book, a);
      FindsItself(book, b);
      FindsItself(book, c);
    }
    assert plan[1..] == [PlanItem(b.lotId, 0), PlanItem(c.lotId, 2)] && plan[1..][1..] == [PlanItem(c.lotId, 2)];
    assert AllIn(book, plan[1..][1..], "USD") == Ok("USD");
    assert AllIn(book, plan[1..], "USD") == Ok("USD");
    assert BasisCurrency(book, plan) == Ok("USD");
    PlanExact(book, a.asset, a.venue, 7, Fifo);
    assert LotFor(book, plan[0]) == a && LotFor(book, plan[1]) == b;
    FailedDisposalChangesBookIff(book, a.asset, a.venue, 7, Fifo, AssetAmount("USD", 20));
  }

  lemma FifoOfThree(a: Lot, b: Lot, c: Lot)
    requires a.acquiredAt < b.acquiredAt < c.acquiredAt && At(b, a.asset, a.venue) && At(c, a.asset, a.venue)
    requires a.atoms == 5 && b.atoms == 0 && c.atoms == 5
    ensures Plan([a, b, c], a.asset, a.venue, 7, Fifo)
         == Ok([PlanItem(a.lotId, 5), PlanItem(b.lotId, 0), PlanItem(c.lotId, 2)])
  {
    var plan := [PlanItem(a.lotId, 5), PlanItem(b.lotId, 0), PlanItem(c.lotId, 2)];
    SortedStays(a, b, c);
    AvailableThree(a, b, c);
    AllocateThree(a, b, c);
    FilterAll([a, b, c], (l: Lot) => At(l, a.asset, a.venue));
    FifoOfSorted([a, b, c], [a, b, c], a.asset, a.venue, 7, 10, plan);
  }

  /** The plan for lots that are in order of acquisition. */
  lemma FifoOfSorted(book: Book, located: Book, asset: AssetId, venue: VenueId, atoms: I128, available: I128, plan: seq<PlanItem>)
    requires 0 < atoms <= available && Located(book, asset, venue) == located && SortBy(located, LotLeq) == located
    requires Available(located, 0) == Some(available) && Allocate(located, atoms) == Ok(plan)
    ensures Plan(book, asset, venue, atoms, Fifo) == Ok(plan)
  {
  }

  lemma AvailableThree(a: Lot, b: Lot, c: Lot)
    requires a.atoms == 5 && b.atoms == 0 && c.atoms == 5
    ensures Available([a, b, c], 0) == Some(10)
  {
    assert [a, b, c][1..] == [b, c] && [b, c][1..] == [c] && [c][1..] == [];
    assert Available([c], 5) == Some(10);
    assert Available([b, c], 5) == Some(10);
  }

  lemma SortedStays(a: Lot, b: Lot, c: Lot)
    requires a.acquiredAt < b.acquiredAt < c.acquiredAt
    ensures SortBy([a, b, c], LotLeq) == [a, b, c]
  {
    assert [a, b, c][1..] == [b, c] && [b, c][1..] == [c] && [c][1..] == [];
    assert SortBy([c], LotLeq) == Insert(c, [], LotLeq) == [c];
    assert SortBy([b, c], LotLeq) == [b, c];
  }

  lemma AllocateOne(l: Lot, rest: Book, needed: I128, plan: seq<PlanItem>)
    requires needed > 0 && l.atoms >= 0 && Allocate(rest, needed - Min(needed, l.atoms)) == Ok(plan)
    ensures Allocate([l] + rest, needed) == Ok([PlanItem(l.lotId, Min(needed, l.atoms))] + plan)
  {
    assert ([l] + rest)[1..] == rest;
  }

  lemma AllocateThree(a: Lot, b: Lot, c: Lot)
    requires a.atoms == 5 && b.atoms == 0 && c.atoms == 5
    ensures Allocate([a, b, c], 7) == Ok([PlanItem(a.lotId, 5), PlanItem(b.lotId, 0), PlanItem(c.lotId, 2)])
  {
    var pa, pb, pc := PlanItem(a.lotId, 5), PlanItem(b.lotId, 0), PlanItem(c.lotId, 2);
    AllocateOne(c, [], 2, []);
    assert [c] + [] == [c] && [pc] + [] == [pc];
    AllocateOne(b, [c], 2, [pc]);
    assert [b] + [c] == [b, c] && [pb] + [pc] == [pb, pc];
    AllocateOne(a, [b, c], 7, [pb, pc]);
    assert [a] + [b, c] == [a, b, c] && [pa] + [pb, pc] == [pa, pb, pc];
  }

  /** And one on a book with two lots of one id: both are planned, but both items go to the
      first of them, so the second item finds it empty. */
  lemma TwoLotsOfOneIdStopDisposal(a: Lot, b: Lot)
    requires a.lotId == b.lotId && Alike(a, b) && a.atoms == 3 && b.atoms == 5
    requires a.basis == AssetAmount("USD", 6) && b.basis == AssetAmount("USD", 10)
    requires a.fee == b.fee == AssetAmount("USD", 0)
    ensures var (book', r) := Dispose([a, b], a.asset, a.venue, 8, Fifo, AssetAmount("USD", 20));
      r.Err? && book' != [a, b]
  {
    var book, pa, pb := [a, b], PlanItem(a.lotId, 3), PlanItem(b.lotId, 5);
    FifoOfTwo(a, b);
    var plan := [pa, pb];
    assert Find(book, a.lotId) == Some(0) && plan[1..] == [pb] && [pb][1..] == [];
    assert AllIn(book, [pb], "USD") == Ok("USD");
    assert BasisCurrency(book, plan) == Ok("USD");
    PlanExact(book, a.asset, a.venue, 8, Fifo);
    assert LotFor(book, plan[0]) == a && !NoRepeat(plan);
    FailedDisposalChangesBookIff(book, a.asset, a.venue, 8, Fifo, AssetAmount("USD", 20));
  }

  lemma FifoOfTwo(a: Lot, b: Lot)
    requires a.lotId == b.lotId && Alike(a, b) && a.atoms == 3 && b.atoms == 5
    ensures Plan([a, b], a.asset, a.venue, 8, Fifo) == Ok([PlanItem(a.lotId, 3), PlanItem(b.lotId, 5)])
  {
    var book, pa, pb := [a, b], PlanItem(a.lotId, 3), PlanItem(b.lotId, 5);
    assert book[1..] == [b] && [b][1..] == [];
    assert SortBy([b], LotLeq) == Insert(b, [], LotLeq) == [b];
    assert SortBy(book, LotLeq) == book;
    assert Available([b], 3) == Some(8);
    AllocateOne(b, [], 5, []);
    assert [b] + [] == [b] && [pb] + [] == [pb];
    AllocateOne(a, [b], 8, [pb]);
    assert [a] + [b] == book && [pa] + [pb] == [pa, pb];
    FilterAll(book, (l: Lot) => At(l, a.asset, a.venue));
    FifoOfSorted(book, book, a.asset, a.venue, 8, 8, [pa, pb]);
  }

  /** Such a book is reached by booking one acquisition twice and then disposing of some of
      it by naming its id. */
  lemma BookingTwiceGivesTwoLots(o: Opening, idOf: Opening -> LotId)
    requires o.atoms == 5 && o.basis == AssetAmount("USD", 10) && o.fee == AssetAmount("USD", 0)
    ensures var l := OpenLot(o, idOf);
      var twice := Acquire(Acquire([], o, idOf).0, o, idOf).0;
      Dispose(twice, o.asset, o.venue, 2, SpecificLots([l.lotId]), AssetAmount("USD", 5)).0
        == [l.(atoms := 3, basis := AssetAmount("USD", 6)), l]
  {
    var l := OpenLot(o, idOf);
    var book, plan := [l, l], [PlanItem(l.lotId, 2)];
    assert Acquire(Acquire([], o, idOf).0, o, idOf).0 == ([] + [l]) + [l] == book;
    assert Find(book, l.lotId) == Some(0);
    NamesOne(book, l);
    assert plan[1..] == [] && AllIn(book, plan[1..], "USD") == Ok("USD");
    assert BasisCurrency(book, plan) == Ok("USD");
    DisposeApplies(book, o.asset, o.venue, 2, SpecificLots([l.lotId]), AssetAmount("USD", 5));
    RelieveLotExact(l, 2);
    var left := l.(atoms := 3, basis := AssetAmount("USD", 6));
    assert RelieveLot(l, 2).0 == left;
    assert book[0 := left] == [left, l];
    assert ApplyEdits([left, l], []) == ([left, l], Ok([]));
    assert ApplyEdits(book, plan).0 == [left, l] && ApplyEdits(book, plan).1.Ok?;
    FilterAll([left, l], HasAtoms);
  }

  lemma NamesOne(book: Book, l: Lot)
    requires Find(book, l.lotId).Some? && book[Find(book, l.lotId).value] == l && l.atoms == 5
    ensures Plan(book, l.asset, l.venue, 2, SpecificLots([l.lotId])) == Ok([PlanItem(l.lotId, 2)])
  {
    var ids := [l.lotId];
    assert ids[1..] == [] && Named(book, [], l.asset, l.venue) == Ok([]) && [l] + [] == [l];
    assert Named(book, ids, l.asset, l.venue) == Ok([l]);
    assert [l][1..] == [] && Available([l], 0) == Some(5);
    AllocateOne(l, [], 2, []);
    assert [PlanItem(l.lotId, 2)] + [] == [PlanItem(l.lotId, 2)];
  }

  // ------------------------------------------------------------------------------
  // A bound under which no disposal is ever half done, and which every operation keeps.

  ghost predicate Small(l: Lot) {
    l.basis.atoms * l.atoms <= I128_MAX && l.fee.atoms * l.atoms <= I128_MAX
  }

  ghost predicate Bounded(book: Book) {
    && (forall i :: 0 <= i < |book| ==> Small(book[i]))
    && (forall asset, currency :: Balance(book, Account(asset, currency, Basis)) <= I128_MAX)
  }

  ghost predicate NamesOnce(m: ReliefMethod) {
    m.SpecificLots? ==> forall i, j :: 0 <= i < j < |m.ids| ==> m.ids[i] != m.ids[j]
  }

  lemma SmallIsRepresentable(l: Lot, take: int)
    requires Small(l) && 0 <= take <= l.atoms && 0 <= l.basis.atoms && 0 <= l.fee.atoms
    ensures Representable(l, take)
  {
    MulMonotone(take, l.atoms, l.basis.atoms);
    MulMonotone(take, l.atoms, l.fee.atoms);
  }

  lemma CandidatesDistinct(book: Book, asset: AssetId, venue: VenueId, m: ReliefMethod)
    requires DistinctIds(book) && NamesOnce(m) && Candidates(book, asset, venue, m).Ok?
    ensures DistinctIds(Candidates(book, asset, venue, m).value)
  {
    match m
    case Fifo =>
      var key := (l: Lot) => l.lotId;
      DistinctFilter(book, key, (l: Lot) => At(l, asset, venue));
      DistinctPermuted(Located(book, asset, venue), SortBy(Located(book, asset, venue), LotLeq), key);
      assert DistinctOn(SortBy(Located(book, asset, venue), LotLeq), key);
    case SpecificLots(ids) => NamedInOrder(book, ids, asset, venue);
  }

  lemma PlanNamesOnce(book: Book, asset: AssetId, venue: VenueId, atoms: I128, m: ReliefMethod)
    requires WellFormed(book) && NamesOnce(m) && Plan(book, asset, venue, atoms, m).Ok?
    ensures NoRepeat(Plan(book, asset, venue, atoms, m).value)
  {
    CandidatesDistinct(book, asset, venue, m);
    PlanFollows(book, asset, venue, atoms, m);
  }

  lemma BoundedPlanIsClean(book: Book, asset: AssetId, venue: VenueId, atoms: I128, m: ReliefMethod)
    requires WellFormed(book) && Bounded(book) && NamesOnce(m) && Plan(book, asset, venue, atoms, m).Ok?
    ensures PlanFits(book, Plan(book, asset, venue, atoms, m).value)
    ensures Clean(book, Plan(book, asset, venue, atoms, m).value)
  {
    PlanExact(book, asset, venue, atoms, m);
    PlanNamesOnce(book, asset, venue, atoms, m);
    var plan := Plan(book, asset, venue, atoms, m).value;
    forall i | 0 <= i < |plan|
      ensures ItemFits(book, plan, i)
      ensures LotFor(book, plan[i]).atoms > 0 && Representable(LotFor(book, plan[i]), plan[i].take)
    {
      assert ItemFits(book, plan, i) && FirstUse(plan, i);
      SmallIsRepresentable(LotFor(book, plan[i]), plan[i].take);
    }
  }

  lemma {:induction false} OutflowIsBasis(rs: seq<LotRelief>, asset: AssetId, currency: AssetId)
    requires forall i :: 0 <= i < |rs| ==> rs[i].basis.asset == currency
    ensures Outflow(rs, asset, Account(asset, currency, Basis)) == BasisOf(rs)
  {
    if rs != [] { OutflowIsBasis(rs[1..], asset, currency); }
  }

  /** All or nothing: within the bound, with each lot named at most once and proceeds that
      are not negative, a disposal succeeds or fails at planning with the book unchanged. */
  lemma BoundedDisposalIsAtomic(book: Book, asset: AssetId, venue: VenueId, atoms: I128, m: ReliefMethod,
                                proceeds: AssetAmount)
    requires WellFormed(book) && Bounded(book) && NamesOnce(m) && proceeds.atoms >= 0
    ensures var (book', r) := Dispose(book, asset, venue, atoms, m, proceeds);
      && (r.Ok? <==> Admitted(book, asset, venue, atoms, m, proceeds))
      && (r.Err? ==> book' == book)
  {
    DisposeApplies(book, asset, venue, atoms, m, proceeds);
    if Admitted(book, asset, venue, atoms, m, proceeds) {
      var plan := Plan(book, asset, venue, atoms, m).value;
      var currency := proceeds.asset;
      var a := Account(asset, currency, Basis);
      PlanExact(book, asset, venue, atoms, m);
      BoundedPlanIsClean(book, asset, venue, atoms, m);
      DisposeSucceedsIff(book, asset, venue, atoms, m, proceeds);
      BasisCurrencyIsAllIn(book, plan);
      ReliefsCarryPlannedBasis(book, plan);
      ReliefCurrency(book, plan, currency);
      OutflowIsBasis(ApplyEdits(book, plan).1.value, asset, currency);
      ReliefConserves(book, plan, asset, venue, a);
      ReliefKeepsConsistent(book, plan);
      BalanceNonNegative(ApplyRelief(book, plan).0, a);
      assert PlannedBasis(book, plan) <= Balance(book, a) <= I128_MAX;
    }
  }

  /** Within the bound a transfer succeeds or fails at planning with the book unchanged. */
  lemma BoundedTransferIsAtomic(book: Book, asset: AssetId, from: VenueId, to: VenueId, atoms: I128,
                                event: EventRef, idOf: Opening -> LotId)
    requires WellFormed(book) && Bounded(book)
    ensures var (book', r) := Transfer(book, asset, from, to, atoms, event, idOf);
      && (r.Ok? <==> Plan(book, asset, from, atoms, Fifo).Ok?)
      && (r.Err? ==> book' == book)
  {
    TransferApplies(book, asset, from, to, atoms, event, idOf);
    if Plan(book, asset, from, atoms, Fifo).Ok? {
      BoundedPlanIsClean(book, asset, from, atoms, Fifo);
      EditsSucceedIffClean(book, Plan(book, asset, from, atoms, Fifo).value);
    }
  }

  /** What a disposal reports: it takes exactly the atoms asked for, and the gain is the
      proceeds less the basis that left the book. */
  lemma DisposalReport(book: Book, asset: AssetId, venue: VenueId, atoms: I128, m: ReliefMethod, proceeds: AssetAmount)
    requires Consistent(book) && Dispose(book, asset, venue, atoms, m, proceeds).1.Ok?
    ensures var (book', r) := Dispose(book, asset, venue, atoms, m, proceeds);
      var held, basis := Account(asset, proceeds.asset, Atoms), Account(asset, proceeds.asset, Basis);
      && Balance(book, held) - Balance(book', held) == atoms
      && Balance(book, basis) - Balance(book', basis) == r.value.totalBasis.atoms
      && r.value.realized.atoms == proceeds.atoms - r.value.totalBasis.atoms
      && r.value.realized.asset == r.value.totalBasis.asset == proceeds.asset
  {
    var plan := Plan(book, asset, venue, atoms, m).value;
    PlanExact(book, asset, venue, atoms, m);
    BasisCurrencyIsAllIn(book, plan);
    ReliefCurrency(book, plan, proceeds.asset);
    ReliefShape(book, plan);
    var rs := ApplyEdits(book, plan).1.value;
    SettleExact(rs, proceeds.asset, proceeds);
    OutflowIsBasis(rs, asset, proceeds.asset);
    OutflowAtoms(rs, plan, asset, proceeds.asset);
    ReliefConserves(book, plan, asset, venue, Account(asset, proceeds.asset, Atoms));
    ReliefConserves(book, plan, asset, venue, Account(asset, proceeds.asset, Basis));
  }

  lemma ProductShrinks(x: int, y: int, x': int, y': int)
    requires 0 <= x' <= x && 0 <= y' <= y
    ensures x' * y' <= x * y
  {
    MulMonotone(x', x, y');
    MulMonotone(y', y, x);
  }

  lemma {:induction false} ReliefKeepsSmall(book: Book, plan: seq<PlanItem>)
    requires SettlingBook(book) && PlanFits(book, plan) && forall i :: 0 <= i < |book| ==> Small(book[i])
    requires ApplyEdits(book, plan).1.Ok?
    ensures var (edited, r) := ApplyEdits(book, plan);
      && (forall i :: 0 <= i < |edited| ==> Small(edited[i]))
      && forall i :: 0 <= i < |r.value| ==>
           r.value[i].basis.atoms * r.value[i].atoms <= I128_MAX && r.value[i].fee.atoms * r.value[i].atoms <= I128_MAX
    decreases |plan|
  {
    if plan != [] {
      var i, lot, r := FirstEdit(book, plan);
      var l := book[i];
      assert ItemFits(book, plan, 0);
      RelieveLotExact(l, plan[0].take);
      ProductShrinks(l.basis.atoms, l.atoms, lot.basis.atoms, lot.atoms);
      ProductShrinks(l.fee.atoms, l.atoms, lot.fee.atoms, lot.atoms);
      ProductShrinks(l.basis.atoms, l.atoms, r.value.basis.atoms, plan[0].take);
      ProductShrinks(l.fee.atoms, l.atoms, r.value.fee.atoms, plan[0].take);
      ReliefKeepsSmall(book[i := lot], plan[1..]);
    }
  }

  lemma {:induction false} OutflowNonNegative(rs: seq<LotRelief>, asset: AssetId, a: Account)
    requires forall i :: 0 <= i < |rs| ==> rs[i].atoms > 0 && rs[i].basis.atoms >= 0 && rs[i].fee.atoms >= 0
    ensures Outflow(rs, asset, a) >= 0
  {
    if rs != [] { OutflowNonNegative(rs[1..], asset, a); }
  }

  lemma {:induction false} MovedLotsSmall(rs: seq<LotRelief>, book: Book, asset: AssetId, to: VenueId,
                                          event: EventRef, idOf: Opening -> LotId)
    requires forall i :: 0 <= i < |rs| ==>
      rs[i].basis.atoms * rs[i].atoms <= I128_MAX && rs[i].fee.atoms * rs[i].atoms <= I128_MAX
    ensures forall l :: l in MovedLots(rs, book, asset, to, event, idOf) ==> Small(l)
  {
    if rs != [] { MovedLotsSmall(rs[1..], book, asset, to, event, idOf); }
  }

  lemma RetainKeepsSmall(book: Book)
    requires forall i :: 0 <= i < |book| ==> Small(book[i])
    ensures forall i :: 0 <= i < |Retain(book)| ==> Small(Retain(book)[i])
  {
    FilterMembers(book, HasAtoms);
    forall i | 0 <= i < |Retain(book)| ensures Small(Retain(book)[i]) { assert Retain(book)[i] in book; }
  }

  lemma DisposalKeepsBounded(book: Book, asset: AssetId, venue: VenueId, atoms: I128, m: ReliefMethod,
                             proceeds: AssetAmount)
    requires WellFormed(book) && Bounded(book) && Dispose(book, asset, venue, atoms, m, proceeds).1.Ok?
    ensures Bounded(Dispose(book, asset, venue, atoms, m, proceeds).0)
  {
    var plan := Plan(book, asset, venue, atoms, m).value;
    PlanExact(book, asset, venue, atoms, m);
    ReliefKeepsSmall(book, plan);
    RetainKeepsSmall(ApplyEdits(book, plan).0);
    ReliefShape(book, plan);
    var (book', r) := ApplyRelief(book, plan);
    forall s, c ensures Balance(book', Account(s, c, Basis)) <= I128_MAX {
      ReliefConserves(book, plan, asset, venue, Account(s, c, Basis));
      OutflowNonNegative(r.value, asset, Account(s, c, Basis));
    }
  }

  lemma TransferKeepsBounded(book: Book, asset: AssetId, from: VenueId, to: VenueId, atoms: I128,
                             event: EventRef, idOf: Opening -> LotId)
    requires WellFormed(book) && Bounded(book) && Transfer(book, asset, from, to, atoms, event, idOf).1.Ok?
    ensures Bounded(Transfer(book, asset, from, to, atoms, event, idOf).0)
  {
    var plan := Plan(book, asset, from, atoms, Fifo).value;
    PlanExact(book, asset, from, atoms, Fifo);
    ReliefKeepsSmall(book, plan);
    RetainKeepsSmall(ApplyEdits(book, plan).0);
    var rs := ApplyRelief(book, plan).1.value;
    var arrivals := MovedLots(rs, book, asset, to, event, idOf);
    MovedLotsSmall(rs, book, asset, to, event, idOf);
    forall i | 0 <= i < |arrivals| ensures Small(arrivals[i]) { assert arrivals[i] in arrivals; }
    forall s, c ensures Balance(Transfer(book, asset, from, to, atoms, event, idOf).0, Account(s, c, Basis)) <= I128_MAX {
      TransferConserves(book, asset, from, to, atoms, event, idOf, Account(s, c, Basis));
    }
  }

  /** An acquisition within the bound: its lot is small and its basis can be added. */
  ghost predicate Modest(book: Book, o: Opening, idOf: Opening -> LotId) {
    && Small(OpenLot(o, idOf))
    && Balance(book, Account(o.asset, o.basis.asset, Basis)) + o.basis.atoms <= I128_MAX
  }

  lemma AcquisitionKeepsBoundedIff(book: Book, o: Opening, idOf: Opening -> LotId)
    requires Bounded(book)
    ensures Bounded(book + [OpenLot(o, idOf)]) <==> Modest(book, o, idOf)
  {
    var l := OpenLot(o, idOf);
    forall s, c ensures Balance(book + [l], Account(s, c, Basis)) == Balance(book, Account(s, c, Basis)) + Holds(l, Account(s, c, Basis)) {
      BalanceAppend(book, [l], Account(s, c, Basis));
    }
    assert (book + [l])[|book|] == l;
    if Bounded(book + [l]) { assert Balance(book + [l], Account(o.asset, o.basis.asset, Basis)) <= I128_MAX; }
  }

  /** Every operation that succeeds keeps the bound, except exactly an acquisition that is
      not within it. */
  lemma OperationsKeepBounded(book: Book, op: Op, idOf: Opening -> LotId)
    requires WellFormed(book) && Bounded(book) && Do(book, op, idOf).1
    ensures Bounded(Do(book, op, idOf).0) <==> (op.AcquireOp? ==> Modest(book, op.o, idOf))
  {
    match op
    case AcquireOp(o) => AcquisitionKeepsBoundedIff(book, o, idOf);
    case DisposeOp(asset, venue, atoms, m, proceeds) => DisposalKeepsBounded(book, asset, venue, atoms, m, proceeds);
    case TransferOp(asset, from, to, atoms, event) => TransferKeepsBounded(book, asset, from, to, atoms, event, idOf);
  }

  // ------------------------------------------------------------------------------
  // Runs within the bound.

  /** What a caller has to observe of one call. */
  ghost predicate Careful(book: Book, op: Op, idOf: Opening -> LotId) {
    match op
    case AcquireOp(o) => Do(book, op, idOf).1 ==> Modest(book, o, idOf)
    case DisposeOp(_, _, _, m, proceeds) => NamesOnce(m) && proceeds.atoms >= 0
    case TransferOp(_, _, _, _, _) => true
  }

  ghost predicate CarefulRun(book: Book, ops: seq<Op>, idOf: Opening -> LotId)
    decreases |ops|
  {
    ops != [] ==> Careful(book, ops[0], idOf) && CarefulRun(Do(book, ops[0], idOf).0, ops[1..], idOf)
  }

  /** A careful call on a bounded book is all or nothing. */
  lemma CarefulCallIsAtomic(book: Book, op: Op, idOf: Opening -> LotId)
    requires WellFormed(book) && Bounded(book) && Careful(book, op, idOf)
    ensures !Do(book, op, idOf).1 ==> Do(book, op, idOf).0 == book
  {
    match op
    case AcquireOp(o) =>
    case DisposeOp(asset, venue, atoms, m, proceeds) => BoundedDisposalIsAtomic(book, asset, venue, atoms, m, proceeds);
    case TransferOp(asset, from, to, atoms, event) => BoundedTransferIsAtomic(book, asset, from, to, atoms, event, idOf);
  }

  /** A careful run, refused calls included, loses nothing: every refused call leaves the
      book as it was, the bound and well-formedness are kept, and opened plus acquired
      equals held plus relieved. */
  lemma {:induction false} CarefulRunConserves(book: Book, ops: seq<Op>, idOf: Opening -> LotId, a: Account)
    requires WellFormed(book) && Bounded(book) && CarefulRun(book, ops, idOf) && IdsStayDistinct(book, ops, idOf)
    ensures WellFormed(After(book, ops, idOf)) && Bounded(After(book, ops, idOf))
    ensures Balance(book, a) + Acquired(book, ops, idOf, a)
         == Balance(After(book, ops, idOf), a) + Relieved(book, ops, idOf, a)
    decreases |ops|
  {
    if ops != [] {
      var (book', ok) := Do(book, ops[0], idOf);
      OneOpConserves(book, ops[0], idOf, a);
      if ok { OperationsKeepBounded(book, ops[0], idOf); } else { CarefulCallIsAtomic(book, ops[0], idOf); }
      CarefulRunConserves(book', ops[1..], idOf, a);
    }
  }
}

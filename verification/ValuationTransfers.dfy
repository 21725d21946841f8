/** What empty lots do to a valuation, and therefore when a transfer is invisible to it. */
module ValuationTransfers {
  import opened Prelude
  import opened Amounts
  import opened Sorting
  import opened Filtering
  import opened StringOrder
  import opened Rounding
  import opened Lots
  import opened LotReliefTheory
  import opened LotConservation
  import opened LotAtomicity
  import opened Valuation
  import opened ValuationSuccess

  predicate Positive(p: Position) { p.atoms > 0 }

  /** The report without the positions of assets that are not held. */
  function HeldOnly(r: Report): Report { r.(positions := Filter(r.positions, Positive)) }

  lemma {:induction false} ZeroAtoms(lots: Book, a: AssetId, currency: AssetId)
    requires SettlingBook(lots) && AtomsIn(lots, a, currency) == 0
    ensures BasisIn(lots, a, currency) == 0
  {
    if lots != [] {
      BalanceNonNegative(lots[1..], Account(a, currency, Atoms));
      ZeroAtoms(lots[1..], a, currency);
    }
  }

  ghost predicate HeldKey(entry: map<AssetId, Held>, a: AssetId) { a in entry && entry[a].atoms > 0 }

  ghost function HeldKeys(keys: seq<AssetId>, entry: map<AssetId, Held>): seq<AssetId> {
    Filter(keys, (a: AssetId) => HeldKey(entry, a))
  }

  /** An entry under which nothing is held carries no money either. */
  ghost predicate EntryOk(entry: map<AssetId, Held>, a: AssetId, currency: AssetId) {
    a in entry && entry[a].atoms >= 0 && entry[a].basis.asset == currency && (entry[a].atoms == 0 ==> entry[a].basis.atoms == 0)
  }

  lemma EmptyPosition(r: Report, a: AssetId, held: Held, s: PriceSnapshot)
    requires held.atoms == 0 && held.basis == AssetAmount(s.currency, 0) && InCurrency(r, s)
    requires ValuePosition(a, held, s).Ok?
    ensures var next := AddPosition(r, ValuePosition(a, held, s).value); next.Ok? && HeldOnly(next.value) == HeldOnly(r)
  {
    ValuePositionOkIff(a, held, s);
    assert 0 * s.prices[a].minorPerUnit == 0;
    var p := ValuePosition(a, held, s).value;
    FilterAppend(r.positions, [p], Positive);
    assert Filter([p], Positive) == [];
    assert Filter(r.positions, Positive) + [] == Filter(r.positions, Positive);
  }

  lemma HeldPosition(r: Report, p: Position)
    requires p.atoms > 0 && AddPosition(r, p).Ok?
    ensures AddPosition(HeldOnly(r), p) == Ok(HeldOnly(AddPosition(r, p).value))
  {
    FilterAppend(r.positions, [p], Positive);
    assert Filter([p], Positive) == [p];
  }

  lemma AddKeepsCurrency(r: Report, a: AssetId, held: Held, s: PriceSnapshot)
    requires InCurrency(r, s) && ValuePosition(a, held, s).Ok? && AddPosition(r, ValuePosition(a, held, s).value).Ok?
    ensures InCurrency(AddPosition(r, ValuePosition(a, held, s).value).value, s)
  {
  }

  /** Leaving out what is not held leaves out its positions and nothing else. */
  lemma {:induction false} ValueAllHeld(r: Report, keys: seq<AssetId>, entry: map<AssetId, Held>, entry': map<AssetId, Held>, s: PriceSnapshot)
    requires InCurrency(r, s) && forall i :: 0 <= i < |keys| ==> keys[i] in entry && EntryOk(entry, keys[i], s.currency)
    requires forall a :: HeldKey(entry, a) ==> a in entry' && entry'[a] == entry[a]
    requires ValueAll(r, keys, entry, s).Ok?
    ensures forall i :: 0 <= i < |HeldKeys(keys, entry)| ==> HeldKeys(keys, entry)[i] in entry'
    ensures ValueAll(HeldOnly(r), HeldKeys(keys, entry), entry', s) == Ok(HeldOnly(ValueAll(r, keys, entry, s).value))
    decreases |keys|
  {
    HeldKeysIn(keys, entry, entry');
    if keys != [] {
      var a, rest := keys[0], keys[1..];
      assert EntryOk(entry, a, s.currency);
      var p := ValuePosition(a, entry[a], s).value;
      var next := AddPosition(r, p).value;
      AddKeepsCurrency(r, a, entry[a], s);
      ValueAllHeld(next, rest, entry, entry', s);
      if HeldKey(entry, a) {
        HeldPosition(r, p);
        assert HeldKeys(keys, entry) == [a] + HeldKeys(rest, entry);
        assert HeldKeys(keys, entry)[1..] == HeldKeys(rest, entry);
      } else {
        EmptyPosition(r, a, entry[a], s);
        assert HeldKeys(keys, entry) == HeldKeys(rest, entry);
      }
    }
  }

  lemma HeldKeysIn(keys: seq<AssetId>, entry: map<AssetId, Held>, entry': map<AssetId, Held>)
    requires forall a :: HeldKey(entry, a) ==> a in entry'
    ensures forall i :: 0 <= i < |HeldKeys(keys, entry)| ==> HeldKeys(keys, entry)[i] in entry'
  {
    FilterMembers(keys, (a: AssetId) => HeldKey(entry, a));
    forall i | 0 <= i < |HeldKeys(keys, entry)| ensures HeldKeys(keys, entry)[i] in entry' {
      assert HeldKeys(keys, entry)[i] in HeldKeys(keys, entry);
    }
  }

  lemma {:induction false} FilterStrict(keys: seq<AssetId>, p: AssetId -> bool)
    requires StrictlySorted(keys)
    ensures StrictlySorted(Filter(keys, p))
  {
    if keys != [] {
      var a, rest := keys[0], keys[1..];
      assert keys == [a] + rest;
      assert NoDuplicates(rest) by {
        forall x ensures multiset(rest)[x] <= 1 { assert multiset(keys)[x] == multiset([a])[x] + multiset(rest)[x]; }
      }
      FilterStrict(rest, p);
      FilterMembers(rest, p);
      if p(a) { StrictCons(a, rest, Filter(rest, p)); }
    }
  }

  lemma StrictCons(a: AssetId, rest: seq<AssetId>, part: seq<AssetId>)
    requires StrictlySorted([a] + rest) && StrictlySorted(part) && forall x :: x in part ==> x in rest
    ensures StrictlySorted([a] + part)
  {
    var keys := [a] + rest;
    forall j | 0 <= j < |part| ensures StrLeq(a, part[j]) && part[j] != a {
      assert part[j] in rest;
      var k :| 0 <= k < |rest| && rest[k] == part[j];
      assert keys[0] == a && keys[k + 1] == part[j];
      KeysDiffer(keys, 0, k + 1);
    }
    assert a !in part;
    forall x ensures multiset([a] + part)[x] <= 1 {
      assert multiset([a] + part)[x] == multiset([a])[x] + multiset(part)[x];
    }
  }

  /** Dropping the empty lots of a book leaves the holdings of what is held. */
  lemma HeldHoldings(h: Holdings, h': Holdings, book: Book, currency: AssetId)
    requires SettlingBook(book) && Describes(h, book, currency) && Describes(h', Retain(book), currency)
    ensures forall a :: HeldKey(h.entry, a) <==> a in h'.entry
    ensures forall a :: a in h'.entry ==> a in h.entry && h'.entry[a] == h.entry[a]
    ensures h'.keys == HeldKeys(h.keys, h.entry)
  {
    RetainedGood(book, currency);
    forall a ensures (HeldKey(h.entry, a) <==> a in h'.entry) && (a in h'.entry ==> a in h.entry && h'.entry[a] == h.entry[a]) {
      assert Entered(h.entry, a, book, currency) && Entered(h'.entry, a, Retain(book), currency);
      BalanceRetained(book, Account(a, currency, Atoms));
      BalanceRetained(book, Account(a, currency, Basis));
      GoodAssets(Retain(book), currency, a);
    }
    FilterStrict(h.keys, (a: AssetId) => HeldKey(h.entry, a));
    FilterMembers(h.keys, (a: AssetId) => HeldKey(h.entry, a));
    SameKeys(h'.keys, HeldKeys(h.keys, h.entry));
    StringsAreOrdered();
    SortedUnique(h'.keys, HeldKeys(h.keys, h.entry), StrLeq);
  }

  lemma RetainedGood(book: Book, currency: AssetId)
    requires SettlingBook(book)
    ensures AllGood(Retain(book)) && (AllCurrency(book, currency) ==> AllCurrency(Retain(book), currency))
  {
    FilterMembers(book, HasAtoms);
    forall i | 0 <= i < |Retain(book)| ensures Retain(book)[i] in book && HasAtoms(Retain(book)[i]) {
      assert Retain(book)[i] in Retain(book);
    }
  }

  /** Dropping the empty lots of a book drops the positions without atoms from its report,
      and nothing else. */
  lemma EmptyLotsAddPositions(book: Book, s: PriceSnapshot)
    requires SettlingBook(book) && ValueBook(book, s).Ok?
    ensures ValueBook(Retain(book), s) == Ok(HeldOnly(ValueBook(book, s).value))
  {
    var kept := Retain(book);
    HoldingsOf(book, s.currency);
    RetainedGood(book, s.currency);
    HoldingsOf(kept, s.currency);
    forall a: Account ensures Balance(book, a) == Balance(kept, a) { BalanceRetained(book, a); }
    SameFit(book, kept, s.currency);
    var h := Aggregate(NOTHING, SortBy(book, LotLeq), s.currency).value;
    var h' := Aggregate(NOTHING, SortBy(kept, LotLeq), s.currency).value;
    HeldHoldings(h, h', book, s.currency);
    EntriesOk(h, book, s.currency);
    ValueAllHeld(Blank(s), h.keys, h.entry, h'.entry, s);
    assert HeldOnly(Blank(s)) == Blank(s);
  }

  lemma EntriesOk(h: Holdings, book: Book, currency: AssetId)
    requires SettlingBook(book) && Describes(h, book, currency)
    ensures forall i :: 0 <= i < |h.keys| ==> h.keys[i] in h.entry && EntryOk(h.entry, h.keys[i], currency)
  {
    forall i | 0 <= i < |h.keys| ensures h.keys[i] in h.entry && EntryOk(h.entry, h.keys[i], currency) {
      var a := h.keys[i];
      assert a in h.keys && Entered(h.entry, a, book, currency);
      BalanceNonNegative(book, Account(a, currency, Atoms));
      if AtomsIn(book, a, currency) == 0 { ZeroAtoms(book, a, currency); }
    }
  }

  /** Every asset that has a lot is held. */
  ghost predicate AllHeld(book: Book, currency: AssetId) {
    forall a :: HasAsset(book, a) ==> AtomsIn(book, a, currency) > 0
  }

  lemma HeldOnlyIsSame(book: Book, s: PriceSnapshot)
    requires SettlingBook(book) && ValueBook(book, s).Ok?
    ensures HeldOnly(ValueBook(book, s).value) == ValueBook(book, s).value <==> AllHeld(book, s.currency)
  {
    ReportExact(book, s);
    var ps := ValueBook(book, s).value.positions;
    if AllHeld(book, s.currency) {
      forall i | 0 <= i < |ps| ensures Positive(ps[i]) {
        assert PositionOk(ps[i], book, s) && HasAsset(book, ps[i].asset);
      }
      FilterAll(ps, Positive);
    } else {
      var a :| HasAsset(book, a) && AtomsIn(book, a, s.currency) <= 0;
      var i :| 0 <= i < |ps| && ps[i].asset == a;
      assert PositionOk(ps[i], book, s);
      FilterMembers(ps, Positive);
      assert ps[i] in ps && ps[i] !in Filter(ps, Positive);
    }
  }

  /** What a transfer changes in a valuation: a book that could be valued can be valued after
      the transfer, with the same totals and the same positions, except that positions of
      assets of which only empty lots were left are gone. So the transfer is invisible if
      and only if there was no such asset. */
  lemma TransferIsInvisible(book: Book, asset: AssetId, from: VenueId, to: VenueId, atoms: I128,
                            event: EventRef, idOf: Opening -> LotId, s: PriceSnapshot)
    requires Consistent(book) && Transfer(book, asset, from, to, atoms, event, idOf).1.Ok?
    requires ValueBook(book, s).Ok?
    ensures var before, after := ValueBook(book, s).value, ValueBook(Transfer(book, asset, from, to, atoms, event, idOf).0, s);
      && after == Ok(HeldOnly(before))
      && (after == Ok(before) <==> AllHeld(book, s.currency))
  {
    var book', kept := Transfer(book, asset, from, to, atoms, event, idOf).0, Retain(book);
    HoldingsOf(book, s.currency);
    RetainedGood(book, s.currency);
    EmptyLotsAddPositions(book, s);
    HeldOnlyIsSame(book, s);
    TransferGood(book, asset, from, to, atoms, event, idOf);
    forall a: Account ensures Balance(kept, a) == Balance(book', a) {
      BalanceRetained(book, a);
      TransferConserves(book, asset, from, to, atoms, event, idOf, a);
    }
    GoodBooksSameValue(kept, book', s);
  }

  /** A book without empty lots has no asset that is not held. */
  lemma GoodBooksHoldAll(book: Book, s: PriceSnapshot)
    requires AllGood(book) && ValueBook(book, s).Ok?
    ensures AllHeld(book, s.currency)
  {
    HoldingsOf(book, s.currency);
    forall a | HasAsset(book, a) ensures AtomsIn(book, a, s.currency) > 0 { GoodAssets(book, s.currency, a); }
  }

  // ------------------------------------------------------------------------------
  // A transfer that is visible.

  ghost predicate EmptyAndFull(x: Lot, y: Lot) {
    && x.asset == "A" && x.atoms == 0 && x.basis == AssetAmount("USD", 0) && x.fee == AssetAmount("USD", 0)
    && y.asset == "B" && y.atoms == 5 && y.basis == AssetAmount("USD", 10) && y.fee == AssetAmount("USD", 0)
    && x.lotId != y.lotId
  }

  const EVEN := PriceSnapshot("USD", 0, map["A" := Price(1, 1), "B" := Price(1, 1)])

  /** A book with an empty lot of one asset and a full one of another: moving the full one to
      another venue changes the report, which loses the position without atoms. */
  lemma EmptyLotMakesTransferVisible(x: Lot, y: Lot, to: VenueId, event: EventRef, idOf: Opening -> LotId)
    requires EmptyAndFull(x, y)
    ensures var (after, r) := Transfer([x, y], "B", y.venue, to, 5, event, idOf);
      && r.Ok? && ValueBook([x, y], EVEN).Ok? && ValueBook(after, EVEN).Ok?
      && ValueBook(after, EVEN) != ValueBook([x, y], EVEN)
  {
    var book := [x, y];
    BalancesOfTwo(x, y);
    CanValueTwo(x, y);
    CanMoveAll(x, y, to, event, idOf);
    assert HasAsset(book, "A") by { assert book[0].asset == "A"; }
    TransferIsInvisible(book, "B", y.venue, to, 5, event, idOf, EVEN);
  }

  lemma BalancesOfTwo(x: Lot, y: Lot)
    requires EmptyAndFull(x, y)
    ensures forall a: Account :: Balance([x, y], a) == Holds(x, a) + Holds(y, a)
    ensures TwoBalances([x, y])
  {
    forall a: Account ensures Balance([x, y], a) == Holds(x, a) + Holds(y, a) {
      assert [x, y][1..] == [y] && [y][1..] == [];
      assert Balance([y], a) == Holds(y, a);
    }
  }

  lemma AssetsOfTwo(x: Lot, y: Lot)
    requires x.asset == "A" && y.asset == "B"
    ensures AssetsOf([x, y]) == ["A", "B"]
  {
    assert [x, y][1..] == [y] && [y][1..] == [];
    assert AssetsOf([y]) == Insert("B", [], StrLeq) == ["B"];
    assert StrLeq("A", "B");
  }

  /** The balances of such a book. */
  ghost predicate TwoBalances(book: Book) {
    && AtomsIn(book, "A", "USD") == 0 && BasisIn(book, "A", "USD") == 0
    && AtomsIn(book, "B", "USD") == 5 && BasisIn(book, "B", "USD") == 10
  }

  lemma FitsTwo(x: Lot, y: Lot)
    requires EmptyAndFull(x, y)
    ensures AllFit([x, y], "USD")
  {
    BalancesOfTwo(x, y);
    forall a ensures FitsAsset([x, y], a, "USD") {
      assert AtomsIn([x, y], a, "USD") == Holds(x, Account(a, "USD", Atoms)) + Holds(y, Account(a, "USD", Atoms));
      assert BasisIn([x, y], a, "USD") == Holds(x, Account(a, "USD", Basis)) + Holds(y, Account(a, "USD", Basis));
    }
  }

  lemma PricedTwo(book: Book)
    requires TwoBalances(book)
    ensures AllPriced(["A", "B"], book, EVEN) && Summable(Blank(EVEN), ["A", "B"], book, EVEN)
  {
    var keys := ["A", "B"];
    assert Priced(0, 0, "A", EVEN) && Priced(5, 10, "B", EVEN);
    forall n | 0 <= n <= |keys| ensures TotalsFit(0, 0, keys, n, book, EVEN) { SumsOfTwo(book, n); }
  }

  lemma CanValueTwo(x: Lot, y: Lot)
    requires EmptyAndFull(x, y)
    ensures ValueBook([x, y], EVEN).Ok?
  {
    BalancesOfTwo(x, y);
    AssetsOfTwo(x, y);
    FitsTwo(x, y);
    PricedTwo([x, y]);
    ValueBookOkIff([x, y], EVEN);
  }

  lemma SumsOfTwo(book: Book, n: nat)
    requires n <= 2 && TwoBalances(book)
    ensures TotalsFit(0, 0, ["A", "B"], n, book, EVEN)
  {
    var keys := ["A", "B"];
    assert keys[..0] == [] && keys[..1] == ["A"] && keys[..2] == keys && keys[1..] == ["B"];
    assert FairSum(["B"], book, EVEN) == 5 && BasisSum(["B"], book, EVEN) == 10 by { assert ["B"][1..] == []; }
    assert FairSum(["A"], book, EVEN) == 0 && BasisSum(["A"], book, EVEN) == 0 by { assert ["A"][1..] == []; }
    assert FairSum(keys, book, EVEN) == 5 && BasisSum(keys, book, EVEN) == 10;
  }

  lemma OneItemApplies(book: Book, item: PlanItem, i: nat)
    requires Find(book, item.lotId) == Some(i) && RelieveLot(book[i], item.take).1.Ok?
    ensures ApplyRelief(book, [item]).1.Ok?
  {
    assert [item][1..] == [];
    var edited := book[i := RelieveLot(book[i], item.take).0];
    assert ApplyEdits(edited, []) == (edited, Ok([]));
  }

  lemma CanMoveAll(x: Lot, y: Lot, to: VenueId, event: EventRef, idOf: Opening -> LotId)
    requires EmptyAndFull(x, y)
    ensures Consistent([x, y]) && Transfer([x, y], "B", y.venue, to, 5, event, idOf).1.Ok?
  {
    var book := [x, y];
    PlanOfTwo(x, y);
    TransferApplies(book, "B", y.venue, to, 5, event, idOf);
    assert book[1..] == [y] && Find([y], y.lotId) == Some(0) && Find(book, y.lotId) == Some(1);
    RelieveLotExact(y, 5);
    OneItemApplies(book, PlanItem(y.lotId, 5), 1);
  }

  lemma PlanOfTwo(x: Lot, y: Lot)
    requires EmptyAndFull(x, y)
    ensures Plan([x, y], "B", y.venue, 5, Fifo) == Ok([PlanItem(y.lotId, 5)])
  {
    var book := [x, y];
    assert book[1..] == [y] && [y][1..] == [];
    assert Located(book, "B", y.venue) == [y] by {
      FilterAll([y], (l: Lot) => At(l, "B", y.venue));
      assert Located(book, "B", y.venue) == [] + Filter([y], (l: Lot) => At(l, "B", y.venue));
    }
    assert SortBy([y], LotLeq) == Insert(y, [], LotLeq) == [y];
    assert Available([y], 0) == Some(5);
    AllocateOne(y, [], 5, []);
    var plan := [PlanItem(y.lotId, 5)];
    assert [y] + [] == [y] && plan + [] == plan;
    FifoOfSorted(book, [y], "B", y.venue, 5, 5, plan);
  }
}

/** Exactly when a book can be valued. */
module ValuationSuccess {
  import opened Prelude
  import opened Amounts
  import opened Sorting
  import opened StringOrder
  import opened Rounding
  import opened Lots
  import opened LotReliefTheory
  import opened LotConservation
  import opened Valuation

  /** The value of a holding, rounded toward zero as the original's division does. */
  ghost function Fair(atoms: int, asset: AssetId, s: PriceSnapshot): int {
    if asset !in s.prices || s.prices[asset].atomsPerUnit <= 0 then 0
    else TruncDiv(atoms * s.prices[asset].minorPerUnit, s.prices[asset].atomsPerUnit)
  }

  /** The asset has a usable price, and the product and the mark fit. */
  ghost predicate Priced(atoms: int, basis: int, asset: AssetId, s: PriceSnapshot) {
    && asset in s.prices && s.prices[asset].atomsPerUnit > 0
    && FitsI128(atoms * s.prices[asset].minorPerUnit) && FitsI128(Fair(atoms, asset, s) - basis)
  }

  lemma QuotientFits(x: int, d: int)
    requires FitsI128(x) && d > 0
    ensures FitsI128(TruncDiv(x, d))
  {
    if x >= 0 { FloorBounds(x, d); } else { FloorBounds(-x, d); }
  }

  lemma ValuePositionOkIff(asset: AssetId, held: Held, s: PriceSnapshot)
    requires held.basis.asset == s.currency
    ensures ValuePosition(asset, held, s).Ok? <==> Priced(held.atoms, held.basis.atoms, asset, s)
    ensures ValuePosition(asset, held, s).Ok? ==>
      var p := ValuePosition(asset, held, s).value;
      && p.fairValue == AssetAmount(s.currency, Fair(held.atoms, asset, s))
      && p.unrealized == AssetAmount(s.currency, Fair(held.atoms, asset, s) - held.basis.atoms)
  {
    if asset in s.prices && s.prices[asset].atomsPerUnit > 0 {
      var price := s.prices[asset];
      if FitsI128(held.atoms * price.minorPerUnit) { QuotientFits(held.atoms * price.minorPerUnit, price.atomsPerUnit); }
    }
  }

  ghost function FairSum(keys: seq<AssetId>, book: Book, s: PriceSnapshot): int {
    if keys == [] then 0 else Fair(AtomsIn(book, keys[0], s.currency), keys[0], s) + FairSum(keys[1..], book, s)
  }

  ghost function BasisSum(keys: seq<AssetId>, book: Book, s: PriceSnapshot): int {
    if keys == [] then 0 else BasisIn(book, keys[0], s.currency) + BasisSum(keys[1..], book, s)
  }

  /** Both totals fit after the first `n` assets, starting from these. */
  ghost predicate TotalsFit(fair: int, unrealized: int, keys: seq<AssetId>, n: nat, book: Book, s: PriceSnapshot)
    requires n <= |keys|
  {
    var value, basis := FairSum(keys[..n], book, s), BasisSum(keys[..n], book, s);
    FitsI128(fair + value) && FitsI128(unrealized + value - basis)
  }

  ghost predicate AllPriced(keys: seq<AssetId>, book: Book, s: PriceSnapshot) {
    forall i :: 0 <= i < |keys| ==>
      Priced(AtomsIn(book, keys[i], s.currency), BasisIn(book, keys[i], s.currency), keys[i], s)
  }

  /** The entries are the balances of the book. */
  ghost predicate AllEntered(keys: seq<AssetId>, entry: map<AssetId, Held>, book: Book, currency: AssetId) {
    forall i :: 0 <= i < |keys| ==> keys[i] in entry && Entered(entry, keys[i], book, currency)
  }

  lemma TotalsShift(fair: int, unrealized: int, keys: seq<AssetId>, n: nat, book: Book, s: PriceSnapshot)
    requires n < |keys|
    ensures var value, basis := Fair(AtomsIn(book, keys[0], s.currency), keys[0], s), BasisIn(book, keys[0], s.currency);
      TotalsFit(fair, unrealized, keys, n + 1, book, s) <==>
      TotalsFit(fair + value, unrealized + (value - basis), keys[1..], n, book, s)
  {
    assert keys[..n + 1][1..] == keys[1..][..n] && keys[..n + 1][0] == keys[0];
  }

  ghost predicate Summable(r: Report, keys: seq<AssetId>, book: Book, s: PriceSnapshot) {
    forall n :: 0 <= n <= |keys| ==> TotalsFit(r.totalFairValue.atoms, r.totalUnrealized.atoms, keys, n, book, s)
  }

  lemma SummableNext(r: Report, r': Report, keys: seq<AssetId>, book: Book, s: PriceSnapshot)
    requires keys != [] && TotalsFit(r.totalFairValue.atoms, r.totalUnrealized.atoms, keys, 0, book, s)
    requires var value, basis := Fair(AtomsIn(book, keys[0], s.currency), keys[0], s), BasisIn(book, keys[0], s.currency);
      && r'.totalFairValue.atoms == r.totalFairValue.atoms + value
      && r'.totalUnrealized.atoms == r.totalUnrealized.atoms + (value - basis)
    ensures Summable(r, keys, book, s) <==> Summable(r', keys[1..], book, s)
  {
    var f, u, f', u' := r.totalFairValue.atoms, r.totalUnrealized.atoms, r'.totalFairValue.atoms, r'.totalUnrealized.atoms;
    forall n | 0 <= n < |keys| ensures TotalsFit(f, u, keys, n + 1, book, s) <==> TotalsFit(f', u', keys[1..], n, book, s) {
      TotalsShift(f, u, keys, n, book, s);
    }
    if Summable(r', keys[1..], book, s) {
      forall n | 0 <= n <= |keys| ensures TotalsFit(f, u, keys, n, book, s) {
        if n > 0 { assert TotalsFit(f', u', keys[1..], n - 1, book, s); }
      }
    }
    if Summable(r, keys, book, s) {
      forall n | 0 <= n <= |keys[1..]| ensures TotalsFit(f', u', keys[1..], n, book, s) {
        assert TotalsFit(f, u, keys, n + 1, book, s);
      }
    }
  }

  ghost predicate InCurrency(r: Report, s: PriceSnapshot) {
    r.totalFairValue.asset == s.currency && r.totalUnrealized.asset == s.currency
  }

  /** One position more is possible exactly when it is priced and both totals still fit. */
  lemma AddPositionOkIff(r: Report, keys: seq<AssetId>, entry: map<AssetId, Held>, book: Book, s: PriceSnapshot)
    requires keys != [] && AllEntered(keys, entry, book, s.currency) && InCurrency(r, s)
    requires ValuePosition(keys[0], entry[keys[0]], s).Ok?
    ensures var p := ValuePosition(keys[0], entry[keys[0]], s).value;
      var value, basis := Fair(AtomsIn(book, keys[0], s.currency), keys[0], s), BasisIn(book, keys[0], s.currency);
      && (AddPosition(r, p).Ok? <==> TotalsFit(r.totalFairValue.atoms, r.totalUnrealized.atoms, keys, 1, book, s))
      && (AddPosition(r, p).Ok? ==>
        && InCurrency(AddPosition(r, p).value, s)
        && AddPosition(r, p).value.totalFairValue.atoms == r.totalFairValue.atoms + value
        && AddPosition(r, p).value.totalUnrealized.atoms == r.totalUnrealized.atoms + (value - basis))
  {
    ValuePositionOkIff(keys[0], entry[keys[0]], s);
    assert Entered(entry, keys[0], book, s.currency);
    var first := keys[..1];
    assert first[0] == keys[0] && first[1..] == [];
    assert FairSum(first, book, s) == Fair(AtomsIn(book, keys[0], s.currency), keys[0], s);
    assert BasisSum(first, book, s) == BasisIn(book, keys[0], s.currency);
  }

  lemma {:induction false} ValueAllOkIff(r: Report, keys: seq<AssetId>, entry: map<AssetId, Held>, book: Book, s: PriceSnapshot)
    requires AllEntered(keys, entry, book, s.currency) && InCurrency(r, s)
    ensures ValueAll(r, keys, entry, s).Ok? <==> AllPriced(keys, book, s) && Summable(r, keys, book, s)
    decreases |keys|
  {
    var f, u := r.totalFairValue.atoms, r.totalUnrealized.atoms;
    assert TotalsFit(f, u, keys, 0, book, s) by { assert keys[..0] == []; }
    if keys != [] {
      ValuePositionOkIff(keys[0], entry[keys[0]], s);
      if ValuePosition(keys[0], entry[keys[0]], s).Ok? {
        AddPositionOkIff(r, keys, entry, book, s);
        var next := AddPosition(r, ValuePosition(keys[0], entry[keys[0]], s).value);
        if next.Ok? {
          ValueAllOkIff(next.value, keys[1..], entry, book, s);
          SummableNext(r, next.value, keys, book, s);
          PricedNext(keys, book, s);
        }
      }
    }
  }

  lemma PricedNext(keys: seq<AssetId>, book: Book, s: PriceSnapshot)
    requires keys != []
    ensures AllPriced(keys, book, s) <==>
      && Priced(AtomsIn(book, keys[0], s.currency), BasisIn(book, keys[0], s.currency), keys[0], s)
      && AllPriced(keys[1..], book, s)
  {
    if AllPriced(keys[1..], book, s) {
      forall i | 0 < i < |keys|
        ensures Priced(AtomsIn(book, keys[i], s.currency), BasisIn(book, keys[i], s.currency), keys[i], s)
      {
        assert keys[i] == keys[1..][i - 1];
      }
    }
  }

  /** The assets that have a lot, in the order of their names. */
  ghost function AssetsOf(book: Book): seq<AssetId> {
    if book == [] then []
    else
      var rest := AssetsOf(book[1..]);
      if book[0].asset in rest then rest else Insert(book[0].asset, rest, StrLeq)
  }

  lemma {:induction false} AssetsListed(book: Book)
    ensures StrictlySorted(AssetsOf(book)) && forall a :: a in AssetsOf(book) <==> HasAsset(book, a)
  {
    if book != [] {
      var rest, asset := AssetsOf(book[1..]), book[0].asset;
      AssetsListed(book[1..]);
      if asset !in rest {
        InsertStrict(asset, rest);
        InsertMembers(asset, rest);
      }
      forall a ensures a in AssetsOf(book) <==> HasAsset(book, a) { HasAssetFirst(book, a); }
    }
  }

  lemma InsertMembers(a: AssetId, keys: seq<AssetId>)
    ensures forall x :: x in Insert(a, keys, StrLeq) <==> x == a || x in keys
  {
    var r := Insert(a, keys, StrLeq);
    assert forall x :: x in r <==> x in multiset(r);
    assert forall x :: x in keys <==> x in multiset(keys);
  }

  lemma HasAssetFirst(book: Book, a: AssetId)
    requires book != []
    ensures HasAsset(book, a) <==> book[0].asset == a || HasAsset(book[1..], a)
  {
    if i :| 0 <= i < |book| && book[i].asset == a { if i > 0 { assert book[1..][i - 1] == book[i]; } }
    if i :| 0 <= i < |book[1..]| && book[1..][i].asset == a { assert book[i + 1].asset == a; }
  }

  lemma KeysAreAssets(h: Holdings, book: Book, currency: AssetId)
    requires Describes(h, book, currency)
    ensures h.keys == AssetsOf(book)
  {
    AssetsListed(book);
    forall a ensures a in h.keys <==> a in AssetsOf(book) { assert Entered(h.entry, a, book, currency); }
    SameKeys(h.keys, AssetsOf(book));
    StringsAreOrdered();
    SortedUnique(h.keys, AssetsOf(book), StrLeq);
  }

  /** Exactly when a book can be valued: every lot is in the snapshot's currency, the
      balances fit, every asset that has a lot, be it an empty one, has a usable price whose
      product and mark fit, and the two totals fit after every asset, taken in the order of
      names. */
  lemma ValueBookOkIff(book: Book, s: PriceSnapshot)
    requires SettlingBook(book)
    ensures ValueBook(book, s).Ok? <==>
      && AllCurrency(book, s.currency) && AllFit(book, s.currency)
      && AllPriced(AssetsOf(book), book, s) && Summable(Blank(s), AssetsOf(book), book, s)
  {
    HoldingsOf(book, s.currency);
    if AllCurrency(book, s.currency) && AllFit(book, s.currency) {
      var h := Aggregate(NOTHING, SortBy(book, LotLeq), s.currency).value;
      KeysAreAssets(h, book, s.currency);
      forall i | 0 <= i < |h.keys|
        ensures h.keys[i] in h.entry && Entered(h.entry, h.keys[i], book, s.currency)
      {
        assert h.keys[i] in h.keys;
      }
      ValueAllOkIff(Blank(s), h.keys, h.entry, book, s);
    }
  }

  ghost predicate TruePositionReason(keys: seq<AssetId>, s: PriceSnapshot, e: FvError) {
    match e
    case MissingPrice(a) => a in keys && a !in s.prices
    case BadPrice(a) => a in keys && a in s.prices && s.prices[a].atomsPerUnit <= 0
    case CurrencyMismatch => false
    case Overflow => true
    case Amount(cause) => cause.AmountOverflow?
  }

  lemma {:induction false} ValueAllRefusedTruly(r: Report, keys: seq<AssetId>, entry: map<AssetId, Held>, book: Book, s: PriceSnapshot)
    requires AllEntered(keys, entry, book, s.currency) && InCurrency(r, s) && ValueAll(r, keys, entry, s).Err?
    ensures TruePositionReason(keys, s, ValueAll(r, keys, entry, s).error)
    decreases |keys|
  {
    assert Entered(entry, keys[0], book, s.currency);
    if ValuePosition(keys[0], entry[keys[0]], s).Ok? {
      AddPositionOkIff(r, keys, entry, book, s);
      ValuePositionOkIff(keys[0], entry[keys[0]], s);
      var next := AddPosition(r, ValuePosition(keys[0], entry[keys[0]], s).value);
      if next.Ok? { ValueAllRefusedTruly(next.value, keys[1..], entry, book, s); }
    }
  }

  ghost predicate TrueLotReason(lots: Book, currency: AssetId, e: FvError) {
    match e
    case CurrencyMismatch => !AllCurrency(lots, currency)
    case Overflow => true
    case Amount(cause) => cause.AmountOverflow?
    case _ => false
  }

  lemma {:induction false} AggregateRefusedTruly(h: Holdings, done: Book, lots: Book, currency: AssetId)
    requires Describes(h, done, currency) && SettlingBook(lots) && AllFit(done, currency)
    requires Aggregate(h, lots, currency).Err?
    ensures TrueLotReason(lots, currency, Aggregate(h, lots, currency).error)
    decreases |lots|
  {
    var l := lots[0];
    AddLotExact(h, done, l, currency);
    CurrencyNext(lots, currency);
    assert Entered(h.entry, l.asset, done, currency);
    if AddLot(h, l, currency).Ok? {
      AggregateRefusedTruly(AddLot(h, l, currency).value, done + [l], lots[1..], currency);
    }
  }

  lemma NothingDescribesNothing(currency: AssetId)
    ensures Describes(NOTHING, [], currency) && AllFit([], currency)
  {
  }

  lemma SortedLots(book: Book, currency: AssetId)
    ensures SettlingBook(book) ==> SettlingBook(SortBy(book, LotLeq))
    ensures AllCurrency(book, currency) <==> AllCurrency(SortBy(book, LotLeq), currency)
  {
    var lots := SortBy(book, LotLeq);
    SortMembers(book, LotLeq);
    SameCurrency(book, lots, currency);
    if SettlingBook(book) {
      forall i | 0 <= i < |lots| ensures Settling(lots[i]) { assert lots[i] in book; }
    }
  }

  /** A valuation that is refused names a true reason: an asset of the book without a price or
      with a useless one, a lot in another currency, or an amount that does not fit. */
  ghost predicate TrueReason(book: Book, s: PriceSnapshot, e: FvError) {
    match e
    case MissingPrice(a) => HasAsset(book, a) && a !in s.prices
    case BadPrice(a) => HasAsset(book, a) && a in s.prices && s.prices[a].atomsPerUnit <= 0
    case CurrencyMismatch => !AllCurrency(book, s.currency)
    case Overflow => true
    case Amount(cause) => cause.AmountOverflow?
  }

  lemma ValuingRefusedTruly(h: Holdings, book: Book, s: PriceSnapshot)
    requires Describes(h, book, s.currency) && ValueAll(Blank(s), h.keys, h.entry, s).Err?
    ensures TrueReason(book, s, ValueAll(Blank(s), h.keys, h.entry, s).error)
  {
    forall i | 0 <= i < |h.keys| ensures h.keys[i] in h.entry && Entered(h.entry, h.keys[i], book, s.currency) {
      assert h.keys[i] in h.keys;
    }
    ValueAllRefusedTruly(Blank(s), h.keys, h.entry, book, s);
    forall a | a in h.keys ensures HasAsset(book, a) { assert Entered(h.entry, a, book, s.currency); }
  }

  lemma CollectingRefusedTruly(book: Book, s: PriceSnapshot)
    requires SettlingBook(book) && Aggregate(NOTHING, SortBy(book, LotLeq), s.currency).Err?
    ensures TrueReason(book, s, Aggregate(NOTHING, SortBy(book, LotLeq), s.currency).error)
  {
    SortedLots(book, s.currency);
    NothingDescribesNothing(s.currency);
    AggregateRefusedTruly(NOTHING, [], SortBy(book, LotLeq), s.currency);
  }

  lemma RefusedTruly(book: Book, s: PriceSnapshot)
    requires SettlingBook(book) && ValueBook(book, s).Err?
    ensures TrueReason(book, s, ValueBook(book, s).error)
  {
    HoldingsOf(book, s.currency);
    var r := Aggregate(NOTHING, SortBy(book, LotLeq), s.currency);
    if r.Err? { CollectingRefusedTruly(book, s); } else { ValuingRefusedTruly(r.value, book, s); }
  }
}

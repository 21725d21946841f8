/** Fair value of a lot book at a price snapshot. */
module Valuation {
  import opened Prelude
  import opened Amounts
  import opened Sorting
  import opened StringOrder
  import opened Rounding
  import opened Lots
  import opened LotReliefTheory
  import opened LotConservation

  datatype Price = Price(minorPerUnit: I128, atomsPerUnit: I128)

  datatype PriceSnapshot = PriceSnapshot(currency: AssetId, asOf: I64, prices: map<AssetId, Price>)

  datatype Position = Position(
    asset: AssetId, atoms: I128, costBasis: AssetAmount, fairValue: AssetAmount, unrealized: AssetAmount)

  /** The report without its content-address key. */
  datatype Report = Report(
    asOf: I64, positions: seq<Position>, totalFairValue: AssetAmount, totalUnrealized: AssetAmount)

  datatype FvError =
    | MissingPrice(asset: AssetId) | BadPrice(asset: AssetId)
    | CurrencyMismatch | Overflow | Amount(e: AmountError)

  datatype Held = Held(atoms: I128, basis: AssetAmount)

  /** An ordered map: its keys in order, and the entry under each key. */
  datatype Holdings = Holdings(keys: seq<AssetId>, entry: map<AssetId, Held>)

  const NOTHING := Holdings([], map[])

  function AddLot(h: Holdings, l: Lot, currency: AssetId): Result<Holdings, FvError> {
    if l.basis.asset != currency then Err(FvError.CurrencyMismatch)
    else if l.asset !in h.entry then
      Ok(Holdings(Insert(l.asset, h.keys, StrLeq), h.entry[l.asset := Held(l.atoms, l.basis)]))
    else
      var held := h.entry[l.asset];
      if !FitsI128(held.atoms + l.atoms) then Err(FvError.Overflow)
      else match AddAmounts(held.basis, l.basis)
        case Err(e) => Err(FvError.Amount(e))
        case Ok(basis) => Ok(h.(entry := h.entry[l.asset := Held(held.atoms + l.atoms, basis)]))
  }

  function Aggregate(h: Holdings, lots: Book, currency: AssetId): Result<Holdings, FvError>
    decreases |lots|
  {
    if lots == [] then Ok(h)
    else match AddLot(h, lots[0], currency)
      case Err(e) => Err(e)
      case Ok(h') => Aggregate(h', lots[1..], currency)
  }

  function ValuePosition(asset: AssetId, held: Held, s: PriceSnapshot): Result<Position, FvError> {
    if asset !in s.prices then Err(MissingPrice(asset))
    else
      var price := s.prices[asset];
      if price.atomsPerUnit <= 0 then Err(BadPrice(asset))
      else if !FitsI128(held.atoms * price.minorPerUnit) then Err(FvError.Overflow)
      else match CheckedDiv128(held.atoms * price.minorPerUnit, price.atomsPerUnit)
        case None => Err(FvError.Overflow)
        case Some(minor) =>
          var fair := AssetAmount(s.currency, minor);
          match SubAmounts(fair, held.basis)
          case Err(e) => Err(FvError.Amount(e))
          case Ok(unrealized) => Ok(Position(asset, held.atoms, held.basis, fair, unrealized))
  }

  /** Adds one position to a report under construction. */
  function AddPosition(r: Report, p: Position): Result<Report, FvError> {
    match AddAmounts(r.totalFairValue, p.fairValue)
    case Err(e) => Err(FvError.Amount(e))
    case Ok(fair) =>
      match AddAmounts(r.totalUnrealized, p.unrealized)
      case Err(e) => Err(FvError.Amount(e))
      case Ok(unrealized) => Ok(Report(r.asOf, r.positions + [p], fair, unrealized))
  }

  function ValueAll(r: Report, keys: seq<AssetId>, entry: map<AssetId, Held>, s: PriceSnapshot): Result<Report, FvError>
    requires forall i :: 0 <= i < |keys| ==> keys[i] in entry
    decreases |keys|
  {
    if keys == [] then Ok(r)
    else match ValuePosition(keys[0], entry[keys[0]], s)
      case Err(e) => Err(e)
      case Ok(p) =>
        match AddPosition(r, p)
        case Err(e) => Err(e)
        case Ok(r') => ValueAll(r', keys[1..], entry, s)
  }

  function Blank(s: PriceSnapshot): Report {
    Report(s.asOf, [], AssetAmount(s.currency, 0), AssetAmount(s.currency, 0))
  }

  ghost predicate KeysMatch(h: Holdings) {
    forall a :: a in h.keys <==> a in h.entry
  }

  lemma AddLotKeys(h: Holdings, l: Lot, currency: AssetId)
    requires KeysMatch(h) && AddLot(h, l, currency).Ok?
    ensures KeysMatch(AddLot(h, l, currency).value)
  {
    var keys := Insert(l.asset, h.keys, StrLeq);
    assert forall a :: a in keys <==> a in multiset(keys);
    assert forall a :: a in h.keys <==> a in multiset(h.keys);
  }

  lemma {:induction false} AggregateKeys(h: Holdings, lots: Book, currency: AssetId)
    requires KeysMatch(h) && Aggregate(h, lots, currency).Ok?
    ensures KeysMatch(Aggregate(h, lots, currency).value)
    decreases |lots|
  {
    if lots != [] {
      AddLotKeys(h, lots[0], currency);
      AggregateKeys(AddLot(h, lots[0], currency).value, lots[1..], currency);
    }
  }

  ghost function ValueBook(book: Book, s: PriceSnapshot): Result<Report, FvError> {
    match Aggregate(NOTHING, SortBy(book, LotLeq), s.currency)
    case Err(e) => Err(e)
    case Ok(h) =>
      AggregateKeys(NOTHING, SortBy(book, LotLeq), s.currency);
      ValueAll(Blank(s), h.keys, h.entry, s)
  }

  /** The two loops of the original: lots into holdings, holdings into positions. */
  method ComputeValue(book: Book, s: PriceSnapshot) returns (r: Result<Report, FvError>)
    ensures r == ValueBook(book, s)
  {
    var h := CollectLots(SortBy(book, LotLeq), s.currency);
    if h.Err? { return Err(h.error); }
    r := ValueHoldings(h.value, s);
  }

  method CollectLots(lots: Book, currency: AssetId) returns (r: Result<Holdings, FvError>)
    ensures r == Aggregate(NOTHING, lots, currency) && (r.Ok? ==> KeysMatch(r.value))
  {
    var h := NOTHING;
    for i := 0 to |lots|
      invariant KeysMatch(h) && Aggregate(NOTHING, lots, currency) == Aggregate(h, lots[i..], currency)
    {
      assert lots[i..][1..] == lots[i + 1..];
      var next := AddLot(h, lots[i], currency);
      if next.Err? { return Err(next.error); }
      AddLotKeys(h, lots[i], currency);
      h := next.value;
    }
    r := Ok(h);
  }

  method ValueHoldings(h: Holdings, s: PriceSnapshot) returns (r: Result<Report, FvError>)
    requires KeysMatch(h)
    ensures r == ValueAll(Blank(s), h.keys, h.entry, s)
  {
    var report := Blank(s);
    for i := 0 to |h.keys|
      invariant ValueAll(Blank(s), h.keys, h.entry, s) == ValueAll(report, h.keys[i..], h.entry, s)
    {
      assert h.keys[i..][1..] == h.keys[i + 1..];
      var p := ValuePosition(h.keys[i], h.entry[h.keys[i]], s);
      if p.Err? { return Err(p.error); }
      var next := AddPosition(report, p.value);
      if next.Err? { return Err(next.error); }
      report := next.value;
    }
    r := Ok(report);
  }

  // ------------------------------------------------------------------------------
  // Holdings are balances.

  ghost predicate StrictlySorted(keys: seq<AssetId>) {
    Sorted(keys, StrLeq) && NoDuplicates(keys)
  }

  ghost predicate NoDuplicates(keys: seq<AssetId>) { forall a :: multiset(keys)[a] <= 1 }

  ghost predicate AllCurrency(lots: Book, currency: AssetId) {
    forall i :: 0 <= i < |lots| ==> lots[i].basis.asset == currency
  }

  ghost function AtomsIn(lots: Book, asset: AssetId, currency: AssetId): int {
    Balance(lots, Account(asset, currency, Atoms))
  }

  ghost function BasisIn(lots: Book, asset: AssetId, currency: AssetId): int {
    Balance(lots, Account(asset, currency, Basis))
  }

  /** The book has a lot of this asset, be it an empty one. */
  ghost predicate HasAsset(lots: Book, a: AssetId) { exists i :: 0 <= i < |lots| && lots[i].asset == a }

  ghost predicate SameAssets(x: Book, y: Book) { forall a :: HasAsset(x, a) <==> HasAsset(y, a) }

  lemma HasAssetMore(done: Book, l: Lot, a: AssetId)
    ensures HasAsset(done + [l], a) <==> HasAsset(done, a) || l.asset == a
  {
    if HasAsset(done, a) {
      var i :| 0 <= i < |done| && done[i].asset == a;
      assert (done + [l])[i] == done[i];
    }
    assert (done + [l])[|done|] == l;
  }

  /** `h` is what the lots amount to: an entry for every asset with a lot, with its balances. */
  ghost predicate Describes(h: Holdings, lots: Book, currency: AssetId) {
    && KeysMatch(h) && StrictlySorted(h.keys) && AllCurrency(lots, currency)
    && forall a :: Entered(h.entry, a, lots, currency)
  }

  /** The entry under an asset: its balances if there is a lot of it, and none otherwise. */
  ghost predicate Entered(entry: map<AssetId, Held>, a: AssetId, lots: Book, currency: AssetId) {
    && (a in entry <==> HasAsset(lots, a))
    && (a in entry ==>
          && entry[a].atoms == AtomsIn(lots, a, currency)
          && entry[a].basis.asset == currency && entry[a].basis.atoms == BasisIn(lots, a, currency))
    && (a !in entry ==> AtomsIn(lots, a, currency) == 0 && BasisIn(lots, a, currency) == 0)
  }

  ghost predicate FitsAsset(lots: Book, asset: AssetId, currency: AssetId) {
    AtomsIn(lots, asset, currency) <= I128_MAX && BasisIn(lots, asset, currency) <= I128_MAX
  }

  ghost predicate AllFit(lots: Book, currency: AssetId) { forall a :: FitsAsset(lots, a, currency) }

  lemma InsertStrict(a: AssetId, keys: seq<AssetId>)
    requires StrictlySorted(keys) && a !in keys
    ensures StrictlySorted(Insert(a, keys, StrLeq))
  {
    StringsAreOrdered();
    InsertSorted(a, keys, StrLeq);
  }

  lemma AddLotEntry(h: Holdings, done: Book, l: Lot, currency: AssetId, a: AssetId)
    requires Entered(h.entry, a, done, currency) && Settling(l) && AddLot(h, l, currency).Ok?
    ensures Entered(AddLot(h, l, currency).value.entry, a, done + [l], currency)
  {
    HasAssetMore(done, l, a);
    BalanceAppend(done, [l], Account(a, currency, Atoms));
    BalanceAppend(done, [l], Account(a, currency, Basis));
  }

  lemma AddLotDescribes(h: Holdings, done: Book, l: Lot, currency: AssetId)
    requires Describes(h, done, currency) && Settling(l)
    requires AddLot(h, l, currency).Ok?
    ensures Describes(AddLot(h, l, currency).value, done + [l], currency)
  {
    var h' := AddLot(h, l, currency).value;
    AddLotKeys(h, l, currency);
    if l.asset !in h.entry { InsertStrict(l.asset, h.keys); }
    forall a ensures Entered(h'.entry, a, done + [l], currency) {
      assert Entered(h.entry, a, done, currency);
      AddLotEntry(h, done, l, currency, a);
    }
  }

  /** An addition is refused exactly for a foreign currency or a balance that overflows. */
  lemma AddLotOkIff(h: Holdings, done: Book, l: Lot, currency: AssetId)
    requires Describes(h, done, currency) && Settling(l)
    ensures AddLot(h, l, currency).Ok? <==> l.basis.asset == currency && FitsAsset(done + [l], l.asset, currency)
  {
    assert Entered(h.entry, l.asset, done, currency);
    BalanceAppend(done, [l], Account(l.asset, currency, Atoms));
    BalanceAppend(done, [l], Account(l.asset, currency, Basis));
  }

  lemma PrefixFits(done: Book, rest: Book, asset: AssetId, currency: AssetId)
    requires SettlingBook(rest) && FitsAsset(done + rest, asset, currency)
    ensures FitsAsset(done, asset, currency)
  {
    BalanceAppend(done, rest, Account(asset, currency, Atoms));
    BalanceAppend(done, rest, Account(asset, currency, Basis));
    BalanceNonNegative(rest, Account(asset, currency, Atoms));
    BalanceNonNegative(rest, Account(asset, currency, Basis));
  }

  lemma PrefixAllFit(done: Book, rest: Book, currency: AssetId)
    requires SettlingBook(rest) && AllFit(done + rest, currency)
    ensures AllFit(done, currency)
  {
    forall a ensures FitsAsset(done, a, currency) {
      assert FitsAsset(done + rest, a, currency);
      PrefixFits(done, rest, a, currency);
    }
  }

  lemma CurrencyNext(lots: Book, currency: AssetId)
    requires lots != []
    ensures AllCurrency(lots, currency) <==> lots[0].basis.asset == currency && AllCurrency(lots[1..], currency)
  {
    if AllCurrency(lots[1..], currency) && lots[0].basis.asset == currency {
      forall i | 0 < i < |lots| ensures lots[i].basis.asset == currency { assert lots[i] == lots[1..][i - 1]; }
    }
  }

  /** One lot more is accepted exactly when it is in the currency and all totals still fit. */
  lemma AddLotExact(h: Holdings, done: Book, l: Lot, currency: AssetId)
    requires Describes(h, done, currency) && Settling(l) && AllFit(done, currency)
    ensures AddLot(h, l, currency).Ok? <==> l.basis.asset == currency && AllFit(done + [l], currency)
    ensures AddLot(h, l, currency).Ok? ==> Describes(AddLot(h, l, currency).value, done + [l], currency)
  {
    AddLotOkIff(h, done, l, currency);
    if AllFit(done + [l], currency) { assert FitsAsset(done + [l], l.asset, currency); }
    if AddLot(h, l, currency).Ok? {
      AddLotDescribes(h, done, l, currency);
      OthersStillFit(done, l, currency);
    }
  }

  /** Aggregation succeeds exactly when every lot is in the snapshot's currency and every
      total fits: the order of the lots decides nothing. */
  lemma {:induction false} AggregateExact(h: Holdings, done: Book, lots: Book, currency: AssetId)
    requires Describes(h, done, currency) && SettlingBook(lots)
    requires AllFit(done, currency)
    ensures Aggregate(h, lots, currency).Ok? <==>
      AllCurrency(lots, currency) && AllFit(done + lots, currency)
    ensures Aggregate(h, lots, currency).Ok? ==> Describes(Aggregate(h, lots, currency).value, done + lots, currency)
    decreases |lots|
  {
    if lots == [] {
      assert done + lots == done;
    } else {
      var l, rest := lots[0], lots[1..];
      assert done + lots == (done + [l]) + rest;
      CurrencyNext(lots, currency);
      AddLotExact(h, done, l, currency);
      if AddLot(h, l, currency).Ok? {
        AggregateExact(AddLot(h, l, currency).value, done + [l], rest, currency);
      } else if AllFit(done + lots, currency) {
        PrefixAllFit(done + [l], rest, currency);
      }
    }
  }

  lemma OthersStillFit(done: Book, l: Lot, currency: AssetId)
    requires AllFit(done, currency) && FitsAsset(done + [l], l.asset, currency)
    ensures AllFit(done + [l], currency)
  {
    forall a ensures FitsAsset(done + [l], a, currency) {
      BalanceAppend(done, [l], Account(a, currency, Atoms));
      BalanceAppend(done, [l], Account(a, currency, Basis));
      assert FitsAsset(done, a, currency);
    }
  }

  // ------------------------------------------------------------------------------
  // Only balances matter.

  lemma {:induction false} BalanceInsert(l: Lot, lots: Book, a: Account)
    ensures Balance(Insert(l, lots, LotLeq), a) == Holds(l, a) + Balance(lots, a)
  {
    if lots != [] && !LotLeq(l, lots[0]) {
      BalanceInsert(l, lots[1..], a);
      assert ([lots[0]] + Insert(l, lots[1..], LotLeq))[1..] == Insert(l, lots[1..], LotLeq);
    } else {
      assert ([l] + lots)[1..] == lots;
    }
  }

  lemma {:induction false} BalanceSorted(book: Book, a: Account)
    ensures Balance(SortBy(book, LotLeq), a) == Balance(book, a)
  {
    if book != [] {
      BalanceSorted(book[1..], a);
      BalanceInsert(book[0], SortBy(book[1..], LotLeq), a);
    }
  }

  /** Holdings of a whole book. */
  lemma HoldingsOf(book: Book, currency: AssetId)
    requires SettlingBook(book)
    ensures var r := Aggregate(NOTHING, SortBy(book, LotLeq), currency);
      && (r.Ok? <==> AllCurrency(book, currency) && AllFit(book, currency))
      && (r.Ok? ==> Describes(r.value, book, currency))
  {
    var lots := SortBy(book, LotLeq);
    SortMembers(book, LotLeq);
    forall i | 0 <= i < |lots| ensures Settling(lots[i]) { assert lots[i] in book; }
    HoldingsOfSorted(lots, currency);
    SameCurrency(book, lots, currency);
    MembersGiveAssets(book, lots);
    forall a: Account ensures Balance(lots, a) == Balance(book, a) { BalanceSorted(book, a); }
    SameFit(lots, book, currency);
    if Aggregate(NOTHING, lots, currency).Ok? {
      DescribesSame(Aggregate(NOTHING, lots, currency).value, lots, book, currency);
    }
  }

  lemma HoldingsOfSorted(lots: Book, currency: AssetId)
    requires SettlingBook(lots)
    ensures var r := Aggregate(NOTHING, lots, currency);
      && (r.Ok? <==> AllCurrency(lots, currency) && AllFit(lots, currency))
      && (r.Ok? ==> Describes(r.value, lots, currency))
  {
    assert [] + lots == lots;
    AggregateExact(NOTHING, [], lots, currency);
  }

  lemma MembersGiveAssets(x: Book, y: Book)
    requires forall l :: l in x <==> l in y
    ensures SameAssets(x, y)
  {
    forall a ensures HasAsset(x, a) <==> HasAsset(y, a) {
      if i :| 0 <= i < |x| && x[i].asset == a { assert x[i] in y; }
      if i :| 0 <= i < |y| && y[i].asset == a { assert y[i] in x; }
    }
  }

  lemma SameFit(x: Book, y: Book, currency: AssetId)
    requires forall a: Account :: Balance(x, a) == Balance(y, a)
    ensures AllFit(x, currency) <==> AllFit(y, currency)
  {
    assert forall a :: FitsAsset(x, a, currency) <==> FitsAsset(y, a, currency);
  }

  lemma DescribesSame(h: Holdings, x: Book, y: Book, currency: AssetId)
    requires Describes(h, x, currency) && AllCurrency(y, currency) && SameAssets(x, y)
    requires forall a: Account :: Balance(x, a) == Balance(y, a)
    ensures Describes(h, y, currency)
  {
    forall a ensures Entered(h.entry, a, y, currency) {
      assert Entered(h.entry, a, x, currency);
    }
  }

  lemma SameCurrency(a: Book, b: Book, currency: AssetId)
    requires forall l :: l in a <==> l in b
    ensures AllCurrency(a, currency) <==> AllCurrency(b, currency)
  {
    if AllCurrency(a, currency) {
      forall i | 0 <= i < |b| ensures b[i].basis.asset == currency { assert b[i] in a; }
    }
    if AllCurrency(b, currency) {
      forall i | 0 <= i < |a| ensures a[i].basis.asset == currency { assert a[i] in b; }
    }
  }

  lemma DescriptionUnique(h: Holdings, h': Holdings, x: Book, y: Book, currency: AssetId)
    requires Describes(h, x, currency) && Describes(h', y, currency) && SameAssets(x, y)
    requires forall a: Account :: Balance(x, a) == Balance(y, a)
    ensures h == h'
  {
    forall a ensures (a in h.entry <==> a in h'.entry) && (a in h.entry ==> h.entry[a] == h'.entry[a]) {
      assert Entered(h.entry, a, x, currency) && Entered(h'.entry, a, y, currency);
    }
    assert h.entry == h'.entry;
    SameKeys(h.keys, h'.keys);
    StringsAreOrdered();
    SortedUnique(h.keys, h'.keys, StrLeq);
  }

  lemma SameKeys(a: seq<AssetId>, b: seq<AssetId>)
    requires NoDuplicates(a) && NoDuplicates(b) && forall x :: x in a <==> x in b
    ensures multiset(a) == multiset(b)
  {
    forall x ensures multiset(a)[x] == multiset(b)[x] {
      assert x in a <==> x in multiset(a);
      assert x in b <==> x in multiset(b);
    }
  }

  /** Two books with the same balances and lots of the same assets have the same value. */
  lemma ValueDependsOnBalances(x: Book, y: Book, s: PriceSnapshot)
    requires SettlingBook(x) && SettlingBook(y) && AllCurrency(x, s.currency) && AllCurrency(y, s.currency)
    requires SameAssets(x, y) && forall a: Account :: Balance(x, a) == Balance(y, a)
    ensures ValueBook(x, s).Ok? <==> ValueBook(y, s).Ok?
    ensures ValueBook(x, s).Ok? ==> ValueBook(x, s) == ValueBook(y, s)
  {
    HoldingsOf(x, s.currency);
    HoldingsOf(y, s.currency);
    SameFit(x, y, s.currency);
    if AllFit(x, s.currency) {
      DescriptionUnique(Aggregate(NOTHING, SortBy(x, LotLeq), s.currency).value,
                        Aggregate(NOTHING, SortBy(y, LotLeq), s.currency).value, x, y, s.currency);
    }
  }

  /** Of books without empty lots the balances tell the assets. */
  lemma GoodAssets(x: Book, currency: AssetId, a: AssetId)
    requires AllGood(x) && AllCurrency(x, currency)
    ensures HasAsset(x, a) <==> AtomsIn(x, a, currency) > 0
  {
    if i: nat :| i < |x| && x[i].asset == a { MemberBalance(x, i, Account(a, currency, Atoms)); }
    if !HasAsset(x, a) { NoLotsNoBalance(x, Account(a, currency, Atoms)); }
  }

  lemma {:induction false} NoLotsNoBalance(x: Book, a: Account)
    requires !HasAsset(x, a.asset)
    ensures Balance(x, a) == 0
  {
    if x != [] {
      assert x[0].asset != a.asset;
      forall i | 0 <= i < |x[1..]| ensures x[1..][i].asset != a.asset { assert x[1..][i] == x[i + 1]; }
      NoLotsNoBalance(x[1..], a);
    }
  }

  lemma GoodBooksSameValue(x: Book, y: Book, s: PriceSnapshot)
    requires AllGood(x) && AllGood(y) && AllCurrency(x, s.currency)
    requires forall a: Account :: Balance(x, a) == Balance(y, a)
    ensures ValueBook(x, s).Ok? ==> ValueBook(y, s) == ValueBook(x, s)
  {
    BalancesFixCurrency(x, y, s.currency);
    forall a ensures HasAsset(x, a) <==> HasAsset(y, a) {
      GoodAssets(x, s.currency, a);
      GoodAssets(y, s.currency, a);
    }
    ValueDependsOnBalances(x, y, s);
  }

  /** With equal balances, no lot of one book can be in a currency the other has not. */
  lemma BalancesFixCurrency(x: Book, y: Book, currency: AssetId)
    requires AllGood(x) && AllGood(y) && AllCurrency(x, currency)
    requires forall a: Account :: Balance(x, a) == Balance(y, a)
    ensures AllCurrency(y, currency)
  {
    forall i | 0 <= i < |y| ensures y[i].basis.asset == currency {
      if y[i].basis.asset != currency {
        var a := Account(y[i].asset, y[i].basis.asset, Atoms);
        ForeignBalance(x, a, currency);
        MemberBalance(y, i, a);
      }
    }
  }

  lemma {:induction false} ForeignBalance(x: Book, a: Account, currency: AssetId)
    requires AllCurrency(x, currency) && a.currency != currency
    ensures Balance(x, a) == 0
  {
    if x != [] { ForeignBalance(x[1..], a, currency); }
  }

  lemma {:induction false} MemberBalance(y: Book, i: nat, a: Account)
    requires AllGood(y) && i < |y| && a == Account(y[i].asset, y[i].basis.asset, Atoms)
    ensures Balance(y, a) > 0
  {
    BalanceNonNegative(y[1..], a);
    if i > 0 { MemberBalance(y[1..], i - 1, a); }
  }

  // ------------------------------------------------------------------------------
  // Totals.

  ghost function BasisOfBook(book: Book): int {
    if book == [] then 0 else book[0].basis.atoms + BasisOfBook(book[1..])
  }

  ghost function BasisOfKeys(keys: seq<AssetId>, entry: map<AssetId, Held>): int
    requires forall i :: 0 <= i < |keys| ==> keys[i] in entry
  {
    if keys == [] then 0 else entry[keys[0]].basis.atoms + BasisOfKeys(keys[1..], entry)
  }

  lemma {:induction false} BasisOfKeysFrame(keys: seq<AssetId>, entry: map<AssetId, Held>, a: AssetId, held: Held)
    requires (forall i :: 0 <= i < |keys| ==> keys[i] in entry)
    requires NoDuplicates(keys)
    ensures BasisOfKeys(keys, entry[a := held]) ==
      BasisOfKeys(keys, entry) + if a in keys then held.basis.atoms - entry[a].basis.atoms else 0
  {
    if keys != [] {
      assert keys == [keys[0]] + keys[1..];
      assert multiset(keys) == multiset([keys[0]]) + multiset(keys[1..]);
      assert multiset(keys)[keys[0]] <= 1;
      assert forall x :: multiset(keys[1..])[x] <= multiset(keys)[x];
      BasisOfKeysFrame(keys[1..], entry, a, held);
    }
  }

  lemma {:induction false} BasisOfKeysInsert(keys: seq<AssetId>, entry: map<AssetId, Held>, a: AssetId)
    requires a in entry && forall i :: 0 <= i < |keys| ==> keys[i] in entry
    ensures forall k :: k in Insert(a, keys, StrLeq) ==> k in entry
    ensures BasisOfKeys(Insert(a, keys, StrLeq), entry) == entry[a].basis.atoms + BasisOfKeys(keys, entry)
  {
    var r := Insert(a, keys, StrLeq);
    assert forall k :: k in r ==> k in multiset(r);
    if keys != [] && !StrLeq(a, keys[0]) {
      BasisOfKeysInsert(keys[1..], entry, a);
      assert r[1..] == Insert(a, keys[1..], StrLeq);
    } else {
      assert r[1..] == keys;
    }
  }

  lemma AddLotBasis(h: Holdings, l: Lot, currency: AssetId)
    requires KeysMatch(h) && StrictlySorted(h.keys) && AddLot(h, l, currency).Ok?
    ensures KeysMatch(AddLot(h, l, currency).value) && StrictlySorted(AddLot(h, l, currency).value.keys)
    ensures var h' := AddLot(h, l, currency).value;
      BasisOfKeys(h'.keys, h'.entry) == BasisOfKeys(h.keys, h.entry) + l.basis.atoms
  {
    AddLotKeys(h, l, currency);
    var h' := AddLot(h, l, currency).value;
    if l.asset !in h.entry {
      InsertStrict(l.asset, h.keys);
      BasisOfKeysFrame(h.keys, h.entry, l.asset, h'.entry[l.asset]);
      BasisOfKeysInsert(h.keys, h'.entry, l.asset);
    } else {
      BasisOfKeysFrame(h.keys, h.entry, l.asset, h'.entry[l.asset]);
    }
  }

  lemma {:induction false} AggregateBasis(h: Holdings, lots: Book, currency: AssetId)
    requires KeysMatch(h) && StrictlySorted(h.keys) && Aggregate(h, lots, currency).Ok?
    ensures KeysMatch(Aggregate(h, lots, currency).value)
    ensures var h' := Aggregate(h, lots, currency).value;
      BasisOfKeys(h'.keys, h'.entry) == BasisOfKeys(h.keys, h.entry) + BasisOfBook(lots)
    decreases |lots|
  {
    if lots != [] {
      AddLotBasis(h, lots[0], currency);
      AggregateBasis(AddLot(h, lots[0], currency).value, lots[1..], currency);
    }
  }

  lemma {:induction false} ValueAllTotals(r: Report, keys: seq<AssetId>, entry: map<AssetId, Held>, s: PriceSnapshot)
    requires forall i :: 0 <= i < |keys| ==> keys[i] in entry
    requires ValueAll(r, keys, entry, s).Ok?
    ensures var r' := ValueAll(r, keys, entry, s).value;
      && r'.totalFairValue.atoms - r'.totalUnrealized.atoms
           == r.totalFairValue.atoms - r.totalUnrealized.atoms + BasisOfKeys(keys, entry)
      && |r'.positions| == |r.positions| + |keys|
    decreases |keys|
  {
    if keys != [] {
      var p := ValuePosition(keys[0], entry[keys[0]], s).value;
      ValueAllTotals(AddPosition(r, p).value, keys[1..], entry, s);
    }
  }

  lemma {:induction false} BasisOfInsert(l: Lot, lots: Book)
    ensures BasisOfBook(Insert(l, lots, LotLeq)) == l.basis.atoms + BasisOfBook(lots)
  {
    if lots != [] && !LotLeq(l, lots[0]) {
      BasisOfInsert(l, lots[1..]);
      assert ([lots[0]] + Insert(l, lots[1..], LotLeq))[1..] == Insert(l, lots[1..], LotLeq);
    } else {
      assert ([l] + lots)[1..] == lots;
    }
  }

  lemma {:induction false} BasisOfSorted(book: Book)
    ensures BasisOfBook(SortBy(book, LotLeq)) == BasisOfBook(book)
  {
    if book != [] {
      BasisOfSorted(book[1..]);
      BasisOfInsert(book[0], SortBy(book[1..], LotLeq));
    }
  }

  /** The marks add up: total unrealized is total fair value less the basis of the book,
      for every book that can be valued. */
  lemma UnrealizedAddsUp(book: Book, s: PriceSnapshot)
    requires ValueBook(book, s).Ok?
    ensures var r := ValueBook(book, s).value;
      r.totalUnrealized.atoms == r.totalFairValue.atoms - BasisOfBook(book)
  {
    var lots := SortBy(book, LotLeq);
    AggregateKeys(NOTHING, lots, s.currency);
    AggregateBasis(NOTHING, lots, s.currency);
    BasisOfSorted(book);
    var h := Aggregate(NOTHING, lots, s.currency).value;
    ValueAllTotals(Blank(s), h.keys, h.entry, s);
  }

  lemma {:induction false} ValueAllPositions(r: Report, keys: seq<AssetId>, entry: map<AssetId, Held>, s: PriceSnapshot)
    requires forall i :: 0 <= i < |keys| ==> keys[i] in entry
    requires ValueAll(r, keys, entry, s).Ok?
    ensures var ps, n := ValueAll(r, keys, entry, s).value.positions, |r.positions|;
      && |ps| == n + |keys| && r.positions <= ps
      && forall i :: 0 <= i < |keys| ==> ValuePosition(keys[i], entry[keys[i]], s) == Ok(ps[n + i])
    decreases |keys|
  {
    if keys != [] {
      var p := ValuePosition(keys[0], entry[keys[0]], s).value;
      var r' := AddPosition(r, p).value;
      ValueAllPositions(r', keys[1..], entry, s);
      var ps, n := ValueAll(r, keys, entry, s).value.positions, |r.positions|;
      assert ps[n] == r'.positions[n] == p;
      forall i | 0 <= i < |keys| ensures ValuePosition(keys[i], entry[keys[i]], s) == Ok(ps[n + i]) {
        if i > 0 { assert keys[1..][i - 1] == keys[i]; }
      }
    }
  }

  /** Fair value is atoms times price, per unit, with the remainder dropped toward zero. */
  ghost predicate FairlyValued(p: Position, price: Price) {
    var value, unit, exact := p.fairValue.atoms, price.atomsPerUnit, p.atoms * price.minorPerUnit;
    && unit > 0
    && (exact >= 0 ==> value * unit <= exact < (value + 1) * unit)
    && (exact <= 0 ==> (value - 1) * unit < exact <= value * unit)
  }

  lemma TruncBounds(x: int, d: int)
    requires d > 0
    ensures var q := TruncDiv(x, d);
      && (x >= 0 ==> q * d <= x < (q + 1) * d)
      && (x <= 0 ==> (q - 1) * d < x <= q * d)
  {
    if x >= 0 { FloorBounds(x, d); }
    if x <= 0 { FloorBounds(-x, d); NegatedQuotient(-x / d, d); }
  }

  lemma NegatedQuotient(q: int, d: int)
    ensures (-q - 1) * d == -((q + 1) * d) && -q * d == -(q * d)
  {
  }

  lemma ValuePositionExact(asset: AssetId, held: Held, s: PriceSnapshot)
    requires held.basis.asset == s.currency && ValuePosition(asset, held, s).Ok?
    ensures var p := ValuePosition(asset, held, s).value;
      && p.asset == asset && asset in s.prices && FairlyValued(p, s.prices[asset])
      && p.atoms == held.atoms && p.costBasis == held.basis
      && p.unrealized.atoms == p.fairValue.atoms - p.costBasis.atoms
      && p.fairValue.asset == p.unrealized.asset == s.currency
  {
    var price := s.prices[asset];
    TruncBounds(held.atoms * price.minorPerUnit, price.atomsPerUnit);
  }

  lemma KeysDiffer(keys: seq<AssetId>, i: nat, j: nat)
    requires StrictlySorted(keys) && i < j < |keys|
    ensures keys[i] != keys[j] && StrLeq(keys[i], keys[j])
  {
    if keys[i] == keys[j] { TwiceInMultiset(keys, i, j); }
  }

  /** A position of the report: the book's own balances of an asset, its fair value and its
      mark, in the currency of the snapshot. */
  ghost predicate PositionOk(p: Position, book: Book, s: PriceSnapshot) {
    && p.asset in s.prices && FairlyValued(p, s.prices[p.asset])
    && p.costBasis.asset == p.fairValue.asset == p.unrealized.asset == s.currency
    && p.atoms == AtomsIn(book, p.asset, s.currency) >= 0
    && p.costBasis.atoms == BasisIn(book, p.asset, s.currency)
    && p.unrealized.atoms == p.fairValue.atoms - p.costBasis.atoms
  }

  lemma PositionsOf(book: Book, s: PriceSnapshot) returns (h: Holdings)
    requires SettlingBook(book) && ValueBook(book, s).Ok?
    ensures Describes(h, book, s.currency)
    ensures var ps := ValueBook(book, s).value.positions;
      |ps| == |h.keys| && forall i :: 0 <= i < |ps| ==> ps[i].asset == h.keys[i] && PositionOk(ps[i], book, s)
  {
    HoldingsOf(book, s.currency);
    h := Aggregate(NOTHING, SortBy(book, LotLeq), s.currency).value;
    AggregateKeys(NOTHING, SortBy(book, LotLeq), s.currency);
    ValueAllPositions(Blank(s), h.keys, h.entry, s);
    var ps := ValueBook(book, s).value.positions;
    forall i | 0 <= i < |h.keys| ensures ps[i].asset == h.keys[i] && PositionOk(ps[i], book, s) {
      assert h.keys[i] in h.entry && Entered(h.entry, h.keys[i], book, s.currency);
      BalanceNonNegative(book, Account(h.keys[i], s.currency, Atoms));
      ValuePositionExact(h.keys[i], h.entry[h.keys[i]], s);
    }
  }

  ghost function FairOf(ps: seq<Position>): int {
    if ps == [] then 0 else FairOf(ps[..|ps| - 1]) + ps[|ps| - 1].fairValue.atoms
  }

  ghost function UnrealizedOf(ps: seq<Position>): int {
    if ps == [] then 0 else UnrealizedOf(ps[..|ps| - 1]) + ps[|ps| - 1].unrealized.atoms
  }

  /** The totals of a report are the sums over its positions. */
  ghost predicate Totalled(r: Report, asOf: I64, currency: AssetId) {
    && r.asOf == asOf && r.totalFairValue.asset == r.totalUnrealized.asset == currency
    && r.totalFairValue.atoms == FairOf(r.positions) && r.totalUnrealized.atoms == UnrealizedOf(r.positions)
  }

  lemma AddPositionTotalled(r: Report, p: Position, asOf: I64, currency: AssetId)
    requires Totalled(r, asOf, currency) && AddPosition(r, p).Ok?
    ensures Totalled(AddPosition(r, p).value, asOf, currency)
  {
    assert (r.positions + [p])[..|r.positions|] == r.positions;
  }

  lemma {:induction false} ValueAllTotalled(r: Report, keys: seq<AssetId>, entry: map<AssetId, Held>, s: PriceSnapshot)
    requires forall i :: 0 <= i < |keys| ==> keys[i] in entry
    requires Totalled(r, s.asOf, s.currency) && ValueAll(r, keys, entry, s).Ok?
    ensures Totalled(ValueAll(r, keys, entry, s).value, s.asOf, s.currency)
    decreases |keys|
  {
    if keys != [] {
      var p := ValuePosition(keys[0], entry[keys[0]], s).value;
      AddPositionTotalled(r, p, s.asOf, s.currency);
      ValueAllTotalled(AddPosition(r, p).value, keys[1..], entry, s);
    }
  }

  /** A report is dated as its snapshot, and its totals are the sums over its positions, in
      the currency of the snapshot. */
  lemma ReportTotals(book: Book, s: PriceSnapshot)
    requires ValueBook(book, s).Ok?
    ensures var r := ValueBook(book, s).value;
      && r.asOf == s.asOf
      && r.totalFairValue == AssetAmount(s.currency, r.totalFairValue.atoms)
      && r.totalUnrealized == AssetAmount(s.currency, r.totalUnrealized.atoms)
      && r.totalFairValue.atoms == FairOf(r.positions) && r.totalUnrealized.atoms == UnrealizedOf(r.positions)
  {
    var h := Aggregate(NOTHING, SortBy(book, LotLeq), s.currency).value;
    AggregateKeys(NOTHING, SortBy(book, LotLeq), s.currency);
    ValueAllTotalled(Blank(s), h.keys, h.entry, s);
  }

  /** What a report says: one position for every asset that has a lot and for nothing else,
      in the order of asset names and no asset twice. */
  lemma ReportExact(book: Book, s: PriceSnapshot)
    requires SettlingBook(book) && ValueBook(book, s).Ok?
    ensures var ps := ValueBook(book, s).value.positions;
      && (forall i :: 0 <= i < |ps| ==> PositionOk(ps[i], book, s) && HasAsset(book, ps[i].asset))
      && (forall i, j :: 0 <= i < j < |ps| ==> ps[i].asset != ps[j].asset && StrLeq(ps[i].asset, ps[j].asset))
      && (forall a :: HasAsset(book, a) ==> exists i :: 0 <= i < |ps| && ps[i].asset == a)
  {
    var h := PositionsOf(book, s);
    var ps := ValueBook(book, s).value.positions;
    forall i | 0 <= i < |ps| ensures HasAsset(book, ps[i].asset) {
      assert h.keys[i] in h.keys && Entered(h.entry, h.keys[i], book, s.currency);
    }
    forall i, j | 0 <= i < j < |ps| ensures ps[i].asset != ps[j].asset && StrLeq(ps[i].asset, ps[j].asset) {
      KeysDiffer(h.keys, i, j);
    }
    forall a | HasAsset(book, a) ensures exists i :: 0 <= i < |ps| && ps[i].asset == a {
      assert Entered(h.entry, a, book, s.currency) && a in h.keys;
      var i :| 0 <= i < |h.keys| && h.keys[i] == a;
      assert ps[i].asset == a;
    }
  }
}

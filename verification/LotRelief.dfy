/** What planning and relief guarantee, lot by lot and for the whole book. */
module LotReliefTheory {
  import opened Prelude
  import opened Amounts
  import opened Sorting
  import opened Filtering
  import opened Rounding
  import opened Lots

  ghost predicate DistinctIds(book: Book) {
    forall i, j :: 0 <= i < j < |book| ==> book[i].lotId != book[j].lotId
  }

  /** An open lot: a positive quantity, money that is not negative, one currency. */
  ghost predicate GoodLot(l: Lot) {
    l.atoms > 0 && l.basis.atoms >= 0 && l.fee.atoms >= 0 && l.basis.asset == l.fee.asset
  }

  ghost predicate WellFormed(book: Book) {
    DistinctIds(book) && AllGood(book)
  }

  /** A lot in the middle of relief: it may be empty, but then it carries no money. */
  ghost predicate Settling(l: Lot) {
    && l.atoms >= 0 && l.basis.atoms >= 0 && l.fee.atoms >= 0 && l.basis.asset == l.fee.asset
    && (l.atoms == 0 ==> l.basis.atoms == 0 && l.fee.atoms == 0)
  }

  ghost predicate SettlingBook(book: Book) { forall i :: 0 <= i < |book| ==> Settling(book[i]) }

  /** Two lots of one id, if there are any, were opened alike. */
  ghost predicate Alike(a: Lot, b: Lot) { a.asset == b.asset && a.venue == b.venue && a.acquiredAt == b.acquiredAt }

  ghost predicate Agreeing(book: Book) {
    forall i, j :: 0 <= i < |book| && 0 <= j < |book| && book[i].lotId == book[j].lotId ==> Alike(book[i], book[j])
  }

  /** What every operation keeps, also one that fails half done: a lot may have been
      emptied and left behind, but it holds no money; an id may occur twice, if one opening
      was booked twice, but only for lots that were opened alike. */
  ghost predicate Consistent(book: Book) { Agreeing(book) && SettlingBook(book) }

  ghost predicate AllGood(book: Book) { forall i :: 0 <= i < |book| ==> GoodLot(book[i]) }

  // ------------------------------------------------------------------------------
  // One lot.

  ghost predicate Representable(lot: Lot, take: int) {
    lot.basis.atoms * take <= I128_MAX && lot.fee.atoms * take <= I128_MAX
  }

  lemma ProRataIsFloor(total: I128, part: I128, whole: I128)
    requires 0 <= total && 0 < part <= whole
    ensures total * part <= I128_MAX ==> ProRata(total, part, whole) == Some(total * part / whole)
    ensures total * part > I128_MAX ==> ProRata(total, part, whole) == None
    ensures 0 <= total * part / whole <= total
  {
    ShareBounds(total, part, whole);
    MulMonotone(0, part, total);
    assert total * part >= 0;
  }

  /** Relief of one lot succeeds exactly when the lot is not empty and both products fit;
      quantity, basis and fee are then split without loss, and an emptied lot is empty of
      money too. A refused relief leaves the lot as it was. */
  lemma RelieveLotExact(lot: Lot, take: I128)
    requires Settling(lot) && take >= 0 && (lot.atoms == 0 || 0 < take <= lot.atoms)
    ensures var (left, r) := RelieveLot(lot, take);
      && (r.Ok? <==> lot.atoms > 0 && Representable(lot, take))
      && (r.Err? ==> left == lot)
      && (r.Ok? ==>
            && Settling(left)
            && left == lot.(atoms := lot.atoms - take, basis := left.basis, fee := left.fee)
            && left.basis.asset == lot.basis.asset
            && r.value.lotId == lot.lotId && r.value.atoms == take
            && r.value.basis.asset == r.value.fee.asset == lot.basis.asset
            && r.value.basis.atoms == lot.basis.atoms * take / lot.atoms
            && r.value.fee.atoms == lot.fee.atoms * take / lot.atoms
            && 0 <= r.value.basis.atoms && 0 <= r.value.fee.atoms
            && left.basis.atoms + r.value.basis.atoms == lot.basis.atoms
            && left.fee.atoms + r.value.fee.atoms == lot.fee.atoms)
  {
    if lot.atoms > 0 {
      ProRataIsFloor(lot.basis.atoms, take, lot.atoms);
      ProRataIsFloor(lot.fee.atoms, take, lot.atoms);
      ShareBounds(lot.basis.atoms, take, lot.atoms);
      ShareBounds(lot.fee.atoms, take, lot.atoms);
    }
  }

  /** The life of one lot: `states[i]` is relieved of `takes[i]`, giving `rs[i]`. */
  ghost predicate Life(states: seq<Lot>, takes: seq<I128>, rs: seq<LotRelief>) {
    && |states| == |takes| + 1 && |rs| == |takes|
    && forall i :: 0 <= i < |takes| ==> RelieveLot(states[i], takes[i]) == (states[i + 1], Ok(rs[i]))
  }

  ghost function BasisOf(rs: seq<LotRelief>): int {
    if rs == [] then 0 else rs[0].basis.atoms + BasisOf(rs[1..])
  }

  ghost function FeeOf(rs: seq<LotRelief>): int {
    if rs == [] then 0 else rs[0].fee.atoms + FeeOf(rs[1..])
  }

  /** What one relief does to the three balances. */
  ghost predicate Splits(before: Lot, take: int, r: LotRelief, after: Lot) {
    && before.atoms > 0 && after.atoms == before.atoms - take
    && r.basis.atoms == before.basis.atoms * take / before.atoms
    && r.fee.atoms == before.fee.atoms * take / before.atoms
    && after.basis.atoms == before.basis.atoms - r.basis.atoms
    && after.fee.atoms == before.fee.atoms - r.fee.atoms
  }

  lemma {:induction false} LifeSplits(states: seq<Lot>, takes: seq<I128>, rs: seq<LotRelief>)
    requires Life(states, takes, rs) && Settling(states[0]) && Reliefs(states[0].atoms, takes)
    ensures forall i :: 0 <= i < |takes| ==> Splits(states[i], takes[i], rs[i], states[i + 1])
    decreases |takes|
  {
    if takes != [] {
      SumNonNegative(takes[1..]);
      RelieveLotExact(states[0], takes[0]);
      LifeSplits(states[1..], takes[1..], rs[1..]);
      forall i | 0 <= i < |takes| ensures Splits(states[i], takes[i], rs[i], states[i + 1]) {
        if i > 0 { assert Splits(states[1..][i - 1], takes[1..][i - 1], rs[1..][i - 1], states[1..][i]); }
      }
    }
  }

  lemma {:induction false} LifeCarries(states: seq<Lot>, takes: seq<I128>, rs: seq<LotRelief>)
    requires |states| == |takes| + 1 && |rs| == |takes|
    requires forall i :: 0 <= i < |takes| ==> Splits(states[i], takes[i], rs[i], states[i + 1])
    ensures BasisOf(rs) == Carried(states[0].basis.atoms, states[0].atoms, takes)
    ensures FeeOf(rs) == Carried(states[0].fee.atoms, states[0].atoms, takes)
    decreases |takes|
  {
    if takes != [] {
      var now := states[0];
      assert Splits(now, takes[0], rs[0], states[1]);
      forall i | 0 <= i < |takes| - 1
        ensures Splits(states[1..][i], takes[1..][i], rs[1..][i], states[1..][i + 1])
      {
        assert Splits(states[i + 1], takes[i + 1], rs[i + 1], states[i + 2]);
      }
      LifeCarries(states[1..], takes[1..], rs[1..]);
      CarriedStep(now.basis.atoms, now.atoms, takes, rs[0].basis.atoms);
      CarriedStep(now.fee.atoms, now.atoms, takes, rs[0].fee.atoms);
    }
  }

  /** Rounding over a lot's whole life: after k reliefs that took T of the N atoms of a
      lot with basis B, the basis relieved R satisfies B·T/N - k < R <= B·T/N, and the
      same for the fee; the lot is emptied of money exactly when it is emptied of atoms. */
  lemma LotLifetimeRounding(states: seq<Lot>, takes: seq<I128>, rs: seq<LotRelief>)
    requires takes != [] && Life(states, takes, rs)
    requires GoodLot(states[0]) && Reliefs(states[0].atoms, takes)
    ensures var lot, T, k := states[0], SumOf(takes), |takes|;
      && BasisOf(rs) * lot.atoms <= lot.basis.atoms * T < (BasisOf(rs) + k) * lot.atoms
      && FeeOf(rs) * lot.atoms <= lot.fee.atoms * T < (FeeOf(rs) + k) * lot.atoms
      && (T == lot.atoms ==> BasisOf(rs) == lot.basis.atoms && FeeOf(rs) == lot.fee.atoms)
      && (T < lot.atoms && lot.basis.atoms > 0 ==> BasisOf(rs) < lot.basis.atoms)
      && (T < lot.atoms && lot.fee.atoms > 0 ==> FeeOf(rs) < lot.fee.atoms)
  {
    var lot := states[0];
    LifeSplits(states, takes, rs);
    LifeCarries(states, takes, rs);
    ReliefRounding(lot.basis.atoms, lot.atoms, takes);
    ReliefRounding(lot.fee.atoms, lot.atoms, takes);
  }

  // ------------------------------------------------------------------------------
  // Plans.

  /** No earlier item of the plan names the same lot. */
  ghost predicate FirstUse(plan: seq<PlanItem>, i: nat)
    requires i < |plan|
  {
    forall j :: 0 <= j < i ==> plan[j].lotId != plan[i].lotId
  }

  /** A plan item names a lot of the book. The first item to name it takes some of what is
      there, all of it unless it is the last of the plan; an empty lot may stand in the way.
      A later item that names it again finds it empty. */
  ghost predicate ItemFits(book: Book, plan: seq<PlanItem>, i: nat)
    requires i < |plan|
  {
    && Find(book, plan[i].lotId).Some? && plan[i].take >= 0
    && (FirstUse(plan, i) ==>
      var atoms := book[Find(book, plan[i].lotId).value].atoms;
      atoms == 0 || (0 < plan[i].take <= atoms && (i == |plan| - 1 || plan[i].take == atoms)))
  }

  ghost predicate PlanFits(book: Book, plan: seq<PlanItem>) {
    forall i :: 0 <= i < |plan| ==> ItemFits(book, plan, i)
  }

  ghost predicate PlanAt(book: Book, plan: seq<PlanItem>, asset: AssetId, venue: VenueId) {
    forall i :: 0 <= i < |plan| ==>
      Find(book, plan[i].lotId).Some? && At(book[Find(book, plan[i].lotId).value], asset, venue)
  }

  ghost function TakeOf(plan: seq<PlanItem>): int {
    if plan == [] then 0 else plan[0].take + TakeOf(plan[1..])
  }

  ghost function AtomsOf(book: Book): int {
    if book == [] then 0 else book[0].atoms + AtomsOf(book[1..])
  }

  lemma {:induction false} AvailableIsSum(ordered: Book, acc: I128)
    requires Available(ordered, acc).Some?
    ensures Available(ordered, acc).value == acc + AtomsOf(ordered)
    decreases |ordered|
  {
    if ordered != [] { AvailableIsSum(ordered[1..], acc + ordered[0].atoms); }
  }

  lemma {:induction false} AllocateFits(ordered: Book, needed: I128)
    requires forall i :: 0 <= i < |ordered| ==> ordered[i].atoms >= 0
    requires 0 <= needed <= AtomsOf(ordered)
    ensures Allocate(ordered, needed).Ok?
    ensures var plan := Allocate(ordered, needed).value;
      && |plan| <= |ordered| && TakeOf(plan) == needed
      && (forall i :: 0 <= i < |plan| ==>
            && plan[i].lotId == ordered[i].lotId && 0 <= plan[i].take <= ordered[i].atoms
            && (ordered[i].atoms > 0 ==> plan[i].take > 0)
            && (i < |plan| - 1 ==> plan[i].take == ordered[i].atoms))
    decreases |ordered|
  {
    if ordered != [] && needed != 0 {
      var take := Min(needed, ordered[0].atoms);
      AtomsNonNegative(ordered[1..]);
      AllocateFits(ordered[1..], needed - take);
      var rest := Allocate(ordered[1..], needed - take).value;
      assert ([PlanItem(ordered[0].lotId, take)] + rest)[1..] == rest;
    }
  }

  lemma {:induction false} AtomsNonNegative(book: Book)
    requires forall i :: 0 <= i < |book| ==> book[i].atoms >= 0
    ensures AtomsOf(book) >= 0
  {
    if book != [] { AtomsNonNegative(book[1..]); }
  }

  lemma LocatedMembers(book: Book, asset: AssetId, venue: VenueId)
    ensures forall l :: l in Located(book, asset, venue) <==> l in book && At(l, asset, venue)
  {
    FilterMembers(book, (l: Lot) => At(l, asset, venue));
  }

  lemma {:induction false} NamedMembers(book: Book, ids: seq<LotId>, asset: AssetId, venue: VenueId)
    requires Named(book, ids, asset, venue).Ok?
    ensures var found := Named(book, ids, asset, venue).value;
      forall l :: l in found ==> l in book && At(l, asset, venue)
  {
    if ids != [] { NamedMembers(book, ids[1..], asset, venue); }
  }

  lemma CandidateMembers(book: Book, asset: AssetId, venue: VenueId, m: ReliefMethod)
    requires Candidates(book, asset, venue, m).Ok?
    ensures forall l :: l in Candidates(book, asset, venue, m).value ==> l in book && At(l, asset, venue)
  {
    match m
    case Fifo =>
      LocatedMembers(book, asset, venue);
      SortMembers(Located(book, asset, venue), LotLeq);
    case SpecificLots(ids) => NamedMembers(book, ids, asset, venue);
  }

  lemma FindsItself(book: Book, l: Lot)
    requires DistinctIds(book) && l in book
    ensures Find(book, l.lotId).Some? && book[Find(book, l.lotId).value] == l
  {
    var i :| 0 <= i < |book| && book[i] == l;
    var r := Find(book, l.lotId);
    assert r.Some?;
  }

  lemma CandidatesNotNegative(book: Book, asset: AssetId, venue: VenueId, m: ReliefMethod)
    requires SettlingBook(book) && Candidates(book, asset, venue, m).Ok?
    ensures forall i :: 0 <= i < |Candidates(book, asset, venue, m).value| ==>
      Candidates(book, asset, venue, m).value[i].atoms >= 0
  {
    var ordered := Candidates(book, asset, venue, m).value;
    CandidateMembers(book, asset, venue, m);
    forall i | 0 <= i < |ordered| ensures ordered[i].atoms >= 0 { assert ordered[i] in book; }
  }

  /** A plan follows the candidates from the front, takes some of each that is not empty,
      and takes exactly what was asked for. */
  lemma PlanFollows(book: Book, asset: AssetId, venue: VenueId, atoms: I128, m: ReliefMethod)
    requires SettlingBook(book) && Plan(book, asset, venue, atoms, m).Ok?
    ensures var plan, ordered := Plan(book, asset, venue, atoms, m).value, Candidates(book, asset, venue, m).value;
      && plan != [] && TakeOf(plan) == atoms && |plan| <= |ordered|
      && (forall i :: 0 <= i < |plan| ==>
            && plan[i].lotId == ordered[i].lotId && 0 <= plan[i].take <= ordered[i].atoms
            && (ordered[i].atoms > 0 ==> plan[i].take > 0)
            && (i < |plan| - 1 ==> plan[i].take == ordered[i].atoms))
  {
    var ordered := Candidates(book, asset, venue, m).value;
    CandidatesNotNegative(book, asset, venue, m);
    AvailableIsSum(ordered, 0);
    AllocateFits(ordered, atoms);
  }

  /** The first lot with this id, as a value. */
  ghost function First(book: Book, id: LotId): Option<Lot> {
    match Find(book, id) case Some(i) => Some(book[i]) case None => None
  }

  lemma FirstCons(x: Lot, rest: Book, id: LotId)
    ensures First([x] + rest, id) == if x.lotId == id then Some(x) else First(rest, id)
  {
    assert ([x] + rest)[1..] == rest;
  }

  /** The sort is stable: inserting before equals keeps an earlier lot of an id first. */
  lemma {:induction false} FirstOfInsert(x: Lot, ys: Book, id: LotId)
    requires forall i :: 0 <= i < |ys| && ys[i].lotId == x.lotId ==> LotLeq(x, ys[i])
    ensures First(Insert(x, ys, LotLeq), id) == if x.lotId == id then Some(x) else First(ys, id)
  {
    if ys == [] || LotLeq(x, ys[0]) {
      FirstCons(x, ys, id);
      assert Insert(x, ys, LotLeq) == [x] + ys;
    } else {
      assert forall i :: 0 <= i < |ys[1..]| ==> ys[1..][i] == ys[i + 1];
      FirstOfInsert(x, ys[1..], id);
      FirstCons(ys[0], Insert(x, ys[1..], LotLeq), id);
      FirstCons(ys[0], ys[1..], id);
      assert ys == [ys[0]] + ys[1..];
    }
  }

  /** A lot comes, in the order of the sort, before the later lots of its id. */
  lemma BeforeItsLikes(x: Lot, rest: Book, ys: Book)
    requires Agreeing([x] + rest) && forall l :: l in ys ==> l in rest
    ensures forall i :: 0 <= i < |ys| && ys[i].lotId == x.lotId ==> LotLeq(x, ys[i])
  {
    var book := [x] + rest;
    forall i | 0 <= i < |ys| && ys[i].lotId == x.lotId ensures LotLeq(x, ys[i]) {
      assert ys[i] in rest;
      var k :| 0 <= k < |rest| && rest[k] == ys[i];
      assert book[0] == x && book[k + 1] == ys[i] && Alike(book[0], book[k + 1]);
    }
  }

  lemma TailAgrees(x: Lot, rest: Book)
    requires Agreeing([x] + rest)
    ensures Agreeing(rest)
  {
    SubsetAgrees([x] + rest, rest);
  }

  lemma {:induction false} FirstOfSorted(book: Book, id: LotId)
    requires Agreeing(book)
    ensures First(SortBy(book, LotLeq), id) == First(book, id)
  {
    if book != [] {
      var x, rest := book[0], book[1..];
      assert book == [x] + rest;
      TailAgrees(x, rest);
      FirstOfSorted(rest, id);
      SortMembers(rest, LotLeq);
      BeforeItsLikes(x, rest, SortBy(rest, LotLeq));
      FirstOfInsert(x, SortBy(rest, LotLeq), id);
      FirstCons(x, rest, id);
    }
  }

  lemma {:induction false} FirstOfFiltered(book: Book, p: Lot -> bool, id: LotId)
    requires First(book, id).Some? ==> p(First(book, id).value)
    ensures First(book, id).Some? ==> First(Filter(book, p), id) == First(book, id)
    decreases |book|
  {
    if book != [] {
      var x, rest := book[0], book[1..];
      FirstCons(x, rest, id);
      assert book == [x] + rest;
      if x.lotId == id {
        FirstCons(x, Filter(rest, p), id);
      } else {
        FirstOfFiltered(rest, p, id);
        FirstCons(x, Filter(rest, p), id);
        assert [] + Filter(rest, p) == Filter(rest, p);
      }
    }
  }

  lemma FilterAgrees(book: Book, p: Lot -> bool)
    requires Agreeing(book)
    ensures Agreeing(Filter(book, p))
  {
    FilterMembers(book, p);
    SubsetAgrees(book, Filter(book, p));
  }

  lemma SubsetAgrees(book: Book, part: Book)
    requires Agreeing(book) && forall l :: l in part ==> l in book
    ensures Agreeing(part)
  {
    forall i, j | 0 <= i < |part| && 0 <= j < |part| && part[i].lotId == part[j].lotId ensures Alike(part[i], part[j]) {
      assert part[i] in book && part[j] in book;
    }
  }

  /** Every lot with an id is alike to the first one. */
  lemma FirstIsAlike(book: Book, l: Lot)
    requires Agreeing(book) && l in book
    ensures First(book, l.lotId).Some? && Alike(First(book, l.lotId).value, l)
  {
    var i :| 0 <= i < |book| && book[i] == l;
    assert Find(book, l.lotId).Some?;
  }

  /** Among the candidates, too, the first with an id is the first of the book. */
  lemma FirstCandidate(book: Book, asset: AssetId, venue: VenueId, m: ReliefMethod, i: nat)
    requires Agreeing(book) && Candidates(book, asset, venue, m).Ok? && i < |Candidates(book, asset, venue, m).value|
    ensures var ordered := Candidates(book, asset, venue, m).value;
      (forall j :: 0 <= j < i ==> ordered[j].lotId != ordered[i].lotId) ==>
        First(book, ordered[i].lotId) == Some(ordered[i])
  {
    var ordered := Candidates(book, asset, venue, m).value;
    match m
    case Fifo =>
      var located, id := Located(book, asset, venue), ordered[i].lotId;
      CandidateMembers(book, asset, venue, m);
      assert ordered[i] in ordered;
      FirstIsAlike(book, ordered[i]);
      FirstOfFiltered(book, (l: Lot) => At(l, asset, venue), id);
      FilterAgrees(book, (l: Lot) => At(l, asset, venue));
      FirstOfSorted(located, id);
    case SpecificLots(ids) => NamedFirst(book, ids, asset, venue, i);
  }

  lemma {:induction false} NamedFirst(book: Book, ids: seq<LotId>, asset: AssetId, venue: VenueId, i: nat)
    requires Named(book, ids, asset, venue).Ok? && i < |Named(book, ids, asset, venue).value|
    ensures var found := Named(book, ids, asset, venue).value; First(book, found[i].lotId) == Some(found[i])
  {
    if i > 0 { NamedFirst(book, ids[1..], asset, venue, i - 1); }
  }

  /** The lot a plan item is applied to: of the asset and venue asked for, as old as the
      lot planned, and that lot itself where the plan names it first. */
  lemma PlannedLot(book: Book, asset: AssetId, venue: VenueId, atoms: I128, m: ReliefMethod, i: nat)
    requires Consistent(book) && Plan(book, asset, venue, atoms, m).Ok? && i < |Plan(book, asset, venue, atoms, m).value|
    ensures var plan, ordered := Plan(book, asset, venue, atoms, m).value, Candidates(book, asset, venue, m).value;
      && i < |ordered| && First(book, plan[i].lotId).Some?
      && Alike(First(book, plan[i].lotId).value, ordered[i]) && At(ordered[i], asset, venue)
      && (FirstUse(plan, i) ==> First(book, plan[i].lotId) == Some(ordered[i]))
  {
    var ordered := Candidates(book, asset, venue, m).value;
    PlanFollows(book, asset, venue, atoms, m);
    CandidateMembers(book, asset, venue, m);
    assert ordered[i] in ordered;
    FirstIsAlike(book, ordered[i]);
    FirstCandidate(book, asset, venue, m, i);
  }

  /** A successful plan takes exactly what was asked for, from lots of that asset at that
      venue, and fits the book. */
  lemma PlanExact(book: Book, asset: AssetId, venue: VenueId, atoms: I128, m: ReliefMethod)
    requires Consistent(book) && Plan(book, asset, venue, atoms, m).Ok?
    ensures var plan := Plan(book, asset, venue, atoms, m).value;
      plan != [] && TakeOf(plan) == atoms && PlanFits(book, plan) && PlanAt(book, plan, asset, venue)
  {
    var plan := Plan(book, asset, venue, atoms, m).value;
    PlanFollows(book, asset, venue, atoms, m);
    forall i | 0 <= i < |plan|
      ensures ItemFits(book, plan, i)
      ensures Find(book, plan[i].lotId).Some? && At(book[Find(book, plan[i].lotId).value], asset, venue)
    {
      PlannedLot(book, asset, venue, atoms, m, i);
    }
  }

  /** Specific identification takes the lots in the order in which they were named. */
  lemma SpecificKeepsOrder(book: Book, asset: AssetId, venue: VenueId, atoms: I128, ids: seq<LotId>)
    requires SettlingBook(book) && Plan(book, asset, venue, atoms, SpecificLots(ids)).Ok?
    ensures var plan := Plan(book, asset, venue, atoms, SpecificLots(ids)).value;
      |plan| <= |ids| && forall i :: 0 <= i < |plan| ==> plan[i].lotId == ids[i]
  {
    PlanFollows(book, asset, venue, atoms, SpecificLots(ids));
    NamedInOrder(book, ids, asset, venue);
  }

  /** First in, first out: a lot of that asset and venue is touched before every lot that
      was acquired after it, or with it under a greater id. */
  lemma FifoIsOldestFirst(book: Book, asset: AssetId, venue: VenueId, atoms: I128, l: Lot, i: nat)
    requires Consistent(book) && Plan(book, asset, venue, atoms, Fifo).Ok?
    requires l in book && At(l, asset, venue) && i < |Plan(book, asset, venue, atoms, Fifo).value|
    ensures var plan := Plan(book, asset, venue, atoms, Fifo).value;
      && Find(book, plan[i].lotId).Some?
      && var p := book[Find(book, plan[i].lotId).value];
        || (exists j :: 0 <= j <= i && plan[j].lotId == l.lotId)
        || p.acquiredAt < l.acquiredAt
        || (p.acquiredAt == l.acquiredAt && p.lotId <= l.lotId)
  {
    var plan, ordered := Plan(book, asset, venue, atoms, Fifo).value, Candidates(book, asset, venue, Fifo).value;
    PlanFollows(book, asset, venue, atoms, Fifo);
    PlannedLot(book, asset, venue, atoms, Fifo, i);
    var k := PlaceInOrder(book, asset, venue, l);
    if k <= i {
      assert plan[k].lotId == l.lotId;
    } else {
      assert LotLeq(ordered[i], ordered[k]);
      assert First(book, plan[i].lotId).value.lotId == ordered[i].lotId;
    }
  }

  lemma PlaceInOrder(book: Book, asset: AssetId, venue: VenueId, l: Lot) returns (k: nat)
    requires l in book && At(l, asset, venue)
    ensures var ordered := Candidates(book, asset, venue, Fifo).value;
      k < |ordered| && ordered[k] == l && Sorted(ordered, LotLeq)
  {
    var located := Located(book, asset, venue);
    LocatedMembers(book, asset, venue);
    SortMembers(located, LotLeq);
    SortBySorted(located, LotLeq);
    assert l in SortBy(located, LotLeq);
    k :| 0 <= k < |SortBy(located, LotLeq)| && SortBy(located, LotLeq)[k] == l;
  }

  lemma {:induction false} NamedInOrder(book: Book, ids: seq<LotId>, asset: AssetId, venue: VenueId)
    requires Named(book, ids, asset, venue).Ok?
    ensures var found := Named(book, ids, asset, venue).value;
      |found| == |ids| && forall i :: 0 <= i < |ids| ==> found[i].lotId == ids[i]
  {
    if ids != [] { NamedInOrder(book, ids[1..], asset, venue); }
  }

  lemma {:induction false} AvailableWhenFits(ordered: Book, acc: I128)
    requires acc >= 0 && (forall i :: 0 <= i < |ordered| ==> ordered[i].atoms >= 0)
    ensures Available(ordered, acc).Some? <==> acc + AtomsOf(ordered) <= I128_MAX
    decreases |ordered|
  {
    if ordered != [] {
      AtomsNonNegative(ordered[1..]);
      if FitsI128(acc + ordered[0].atoms) { AvailableWhenFits(ordered[1..], acc + ordered[0].atoms); }
    }
  }

  lemma {:induction false} AtomsOfInsert(l: Lot, lots: Book)
    ensures AtomsOf(Insert(l, lots, LotLeq)) == l.atoms + AtomsOf(lots)
  {
    if lots != [] && !LotLeq(l, lots[0]) {
      AtomsOfInsert(l, lots[1..]);
      assert ([lots[0]] + Insert(l, lots[1..], LotLeq))[1..] == Insert(l, lots[1..], LotLeq);
    } else {
      assert ([l] + lots)[1..] == lots;
    }
  }

  lemma {:induction false} AtomsOfSorted(lots: Book)
    ensures AtomsOf(SortBy(lots, LotLeq)) == AtomsOf(lots)
  {
    if lots != [] {
      AtomsOfSorted(lots[1..]);
      AtomsOfInsert(lots[0], SortBy(lots[1..], LotLeq));
    }
  }

  /** Fail closed, and only then: a first-in-first-out plan exists exactly for a positive
      quantity that the venue holds, and whose holdings can be added up at all. */
  lemma FifoPlanExistsIff(book: Book, asset: AssetId, venue: VenueId, atoms: I128)
    requires SettlingBook(book)
    ensures var total := AtomsOf(Located(book, asset, venue));
      Plan(book, asset, venue, atoms, Fifo).Ok? <==> 0 < atoms <= total <= I128_MAX
  {
    var ordered := SortBy(Located(book, asset, venue), LotLeq);
    CandidatesNotNegative(book, asset, venue, Fifo);
    AtomsOfSorted(Located(book, asset, venue));
    AvailableWhenFits(ordered, 0);
    if Available(ordered, 0).Some? { AvailableIsSum(ordered, 0); }
    if 0 < atoms <= AtomsOf(ordered) { AllocateFits(ordered, atoms); }
  }

  // ------------------------------------------------------------------------------
  // Applying a plan.

  lemma FindAfterEdit(book: Book, i: nat, lot: Lot, id: LotId)
    requires i < |book| && lot.lotId == book[i].lotId
    ensures Find(book[i := lot], id) == Find(book, id)
  {
    var edited := book[i := lot];
    var a, b := Find(book, id), Find(edited, id);
    if a.Some? { assert edited[a.value].lotId == id; }
    if b.Some? { assert book[b.value].lotId == id; }
  }

  lemma LaterFirstUse(plan: seq<PlanItem>, j: nat)
    requires j + 1 < |plan| && FirstUse(plan[1..], j)
    ensures plan[j + 1].lotId == plan[0].lotId || FirstUse(plan, j + 1)
  {
    if plan[j + 1].lotId != plan[0].lotId {
      forall k | 0 <= k < j + 1 ensures plan[k].lotId != plan[j + 1].lotId {
        if k > 0 { assert plan[1..][k - 1] == plan[k]; }
      }
    }
  }

  /** The rest of a fitting plan fits the book after the first item was applied: an item
      that repeats a lot is not the last, so it finds the lot empty. */
  lemma PlanFitsNext(book: Book, plan: seq<PlanItem>, i: nat, lot: Lot)
    requires plan != [] && PlanFits(book, plan) && Find(book, plan[0].lotId) == Some(i)
    requires book[i].atoms > 0 && lot.lotId == book[i].lotId && lot.atoms == book[i].atoms - plan[0].take
    ensures PlanFits(book[i := lot], plan[1..])
  {
    var edited, rest := book[i := lot], plan[1..];
    forall j | 0 <= j < |rest| ensures ItemFits(edited, rest, j) {
      FindAfterEdit(book, i, lot, plan[j + 1].lotId);
      assert ItemFits(book, plan, 0) && ItemFits(book, plan, j + 1) && rest[j] == plan[j + 1];
      if FirstUse(rest, j) { LaterFirstUse(plan, j); }
    }
  }

  lemma PlanAtNext(book: Book, plan: seq<PlanItem>, asset: AssetId, venue: VenueId, i: nat, lot: Lot)
    requires plan != [] && PlanAt(book, plan, asset, venue) && i < |book|
    requires lot.lotId == book[i].lotId && lot.asset == book[i].asset && lot.venue == book[i].venue
    ensures PlanAt(book[i := lot], plan[1..], asset, venue)
  {
    forall j | 0 <= j < |plan| - 1
      ensures Find(book[i := lot], plan[1..][j].lotId).Some?
      ensures At(book[i := lot][Find(book[i := lot], plan[1..][j].lotId).value], asset, venue)
    {
      FindAfterEdit(book, i, lot, plan[j + 1].lotId);
      assert plan[1..][j] == plan[j + 1];
    }
  }

  /** The first step of applying a fitting plan. */
  lemma FirstEdit(book: Book, plan: seq<PlanItem>) returns (i: nat, lot: Lot, r: Result<LotRelief, LotError>)
    requires SettlingBook(book) && plan != [] && PlanFits(book, plan)
    ensures i < |book| && Find(book, plan[0].lotId) == Some(i) && (lot, r) == RelieveLot(book[i], plan[0].take)
    ensures Settling(book[i]) && plan[0].take >= 0 && (book[i].atoms == 0 || 0 < plan[0].take <= book[i].atoms)
    ensures lot.lotId == book[i].lotId && lot.asset == book[i].asset && lot.basis.asset == book[i].basis.asset
    ensures lot.venue == book[i].venue && lot.acquiredAt == book[i].acquiredAt && lot.sourceEvent == book[i].sourceEvent
    ensures SettlingBook(book[i := lot])
    ensures r.Ok? ==> lot.atoms == book[i].atoms - plan[0].take && PlanFits(book[i := lot], plan[1..])
    ensures r.Ok? <==> book[i].atoms > 0 && Representable(book[i], plan[0].take)
    ensures r.Err? ==> book[i := lot] == book
  {
    assert ItemFits(book, plan, 0) && FirstUse(plan, 0);
    i := Find(book, plan[0].lotId).value;
    lot, r := RelieveLot(book[i], plan[0].take).0, RelieveLot(book[i], plan[0].take).1;
    RelieveLotExact(book[i], plan[0].take);
    if r.Ok? { PlanFitsNext(book, plan, i, lot); }
  }

  /** What an edit leaves of a lot besides its quantity and money. */
  ghost predicate SameOpening(a: Lot, b: Lot) {
    a.lotId == b.lotId && Alike(a, b) && a.sourceEvent == b.sourceEvent && a.basis.asset == b.basis.asset
  }

  lemma {:induction false} EditsKeepSettling(book: Book, plan: seq<PlanItem>)
    requires SettlingBook(book) && PlanFits(book, plan)
    ensures var book' := ApplyEdits(book, plan).0;
      && SettlingBook(book') && |book'| == |book|
      && (forall i :: 0 <= i < |book| ==> SameOpening(book'[i], book[i]))
    decreases |plan|
  {
    if plan != [] {
      var i, lot, r := FirstEdit(book, plan);
      if r.Ok? { EditsKeepSettling(book[i := lot], plan[1..]); }
    }
  }

  lemma EditsKeepIds(book: Book, plan: seq<PlanItem>)
    requires Consistent(book) && PlanFits(book, plan)
    ensures Consistent(ApplyEdits(book, plan).0)
    ensures DistinctIds(book) ==> DistinctIds(ApplyEdits(book, plan).0)
  {
    var edited := ApplyEdits(book, plan).0;
    EditsKeepSettling(book, plan);
    forall i, j | 0 <= i < |edited| && 0 <= j < |edited| && edited[i].lotId == edited[j].lotId
      ensures Alike(edited[i], edited[j])
    {
      assert SameOpening(edited[i], book[i]) && SameOpening(edited[j], book[j]);
      assert Alike(book[i], book[j]);
    }
    if DistinctIds(book) {
      forall i, j | 0 <= i < j < |edited| ensures edited[i].lotId != edited[j].lotId {
        assert SameOpening(edited[i], book[i]) && SameOpening(edited[j], book[j]);
      }
    }
  }

  /** A relief keeps the book consistent, half done or not; one that succeeds leaves no
      empty lot behind, whoever left it. */
  lemma ReliefKeepsConsistent(book: Book, plan: seq<PlanItem>)
    requires Consistent(book) && PlanFits(book, plan)
    ensures var (book', r) := ApplyRelief(book, plan);
      Consistent(book') && (r.Ok? ==> AllGood(book')) && (DistinctIds(book) ==> DistinctIds(book'))
  {
    var edited := ApplyEdits(book, plan).0;
    EditsKeepIds(book, plan);
    FilterAgrees(edited, HasAtoms);
    if DistinctIds(book) { DistinctFilter(edited, (l: Lot) => l.lotId, HasAtoms); }
    FilterMembers(edited, HasAtoms);
    forall i | 0 <= i < |Retain(edited)| ensures GoodLot(Retain(edited)[i]) {
      assert Retain(edited)[i] in edited;
    }
  }
}

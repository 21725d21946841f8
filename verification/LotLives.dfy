/** The life of one lot in a run of the book: the reliefs it receives, from whichever calls,
    follow on one another, so the rounding bound for one lot holds of the book. A lot is
    followed by its position, since its id need not be its own. */
module LotLives {
  import opened Prelude
  import opened Amounts
  import opened Filtering
  import opened Rounding
  import opened Lots
  import opened LotReliefTheory
  import opened LotConservation
  import opened LotIdentity

  /** The reliefs in `rs`, one after the other, lead from one state of a lot to another. */
  ghost predicate Lived(from: Lot, rs: seq<LotRelief>, to: Lot)
    decreases |rs|
  {
    if rs == [] then from == to
    else
      var (next, r) := RelieveLot(from, rs[0].atoms);
      0 < rs[0].atoms <= from.atoms && r == Ok(rs[0]) && Lived(next, rs[1..], to)
  }

  ghost function TakesOf(rs: seq<LotRelief>): seq<I128> {
    seq(|rs|, i requires 0 <= i < |rs| => rs[i].atoms)
  }

  lemma {:induction false} LivedAppend(a: Lot, x: seq<LotRelief>, b: Lot, y: seq<LotRelief>, c: Lot)
    requires Lived(a, x, b) && Lived(b, y, c)
    ensures Lived(a, x + y, c)
    decreases |x|
  {
    if x == [] {
      assert x + y == y;
    } else {
      assert (x + y)[0] == x[0] && (x + y)[1..] == x[1..] + y;
      LivedAppend(RelieveLot(a, x[0].atoms).0, x[1..], b, y, c);
    }
  }

  /** Such a sequence is a life in the sense of the rounding theorem. */
  lemma {:induction false} LivedIsLife(from: Lot, rs: seq<LotRelief>, to: Lot) returns (states: seq<Lot>)
    requires Lived(from, rs, to)
    ensures Life(states, TakesOf(rs), rs) && states[0] == from && states[|rs|] == to
    decreases |rs|
  {
    if rs == [] {
      states := [from];
    } else {
      var next := RelieveLot(from, rs[0].atoms).0;
      var later := LivedIsLife(next, rs[1..], to);
      states := [from] + later;
      assert forall i :: 0 <= i < |rs| - 1 ==> TakesOf(rs)[i + 1] == TakesOf(rs[1..])[i] && rs[i + 1] == rs[1..][i];
    }
  }

  lemma {:induction false} LivedTakes(from: Lot, rs: seq<LotRelief>, to: Lot)
    requires Lived(from, rs, to) && Settling(from)
    ensures Reliefs(from.atoms, TakesOf(rs)) && |TakesOf(rs)| == |rs| && to.atoms == from.atoms - SumOf(TakesOf(rs))
    ensures to.basis.atoms == from.basis.atoms - BasisOf(rs) && to.fee.atoms == from.fee.atoms - FeeOf(rs)
    ensures Settling(to) && to.lotId == from.lotId
    decreases |rs|
  {
    if rs != [] {
      RelieveLotExact(from, rs[0].atoms);
      LivedTakes(RelieveLot(from, rs[0].atoms).0, rs[1..], to);
      assert TakesOf(rs)[1..] == TakesOf(rs[1..]);
    }
  }

  // ------------------------------------------------------------------------------
  // One call.

  ghost function OfLot(rs: seq<LotRelief>, id: LotId): seq<LotRelief> { Filter(rs, (r: LotRelief) => r.lotId == id) }

  lemma OfLotFirst(r: LotRelief, rest: seq<LotRelief>, id: LotId)
    ensures OfLot([r] + rest, id) == (if r.lotId == id then [r] else []) + OfLot(rest, id)
  {
    assert ([r] + rest)[1..] == rest;
  }

  /** What a plan does to the lot at `i` is the reliefs of that lot among those done. */
  lemma {:induction false} PlanLife(book: Book, plan: seq<PlanItem>, id: LotId, i: nat)
    requires SettlingBook(book) && PlanFits(book, plan) && Find(book, id) == Some(i)
    ensures |ApplyEdits(book, plan).0| == |book|
    ensures Lived(book[i], OfLot(Done(book, plan), id), ApplyEdits(book, plan).0[i])
    decreases |plan|
  {
    if plan != [] {
      var k, lot, r := FirstEdit(book, plan);
      if r.Ok? {
        var rest := Done(book[k := lot], plan[1..]);
        RelieveLotExact(book[k], plan[0].take);
        FindAfterEdit(book, k, lot, id);
        PlanLife(book[k := lot], plan[1..], id, i);
        OfLotFirst(r.value, rest, id);
        if plan[0].lotId == id {
          var mine := OfLot(rest, id);
          assert ([r.value] + mine)[1..] == mine;
        } else {
          assert [] + OfLot(rest, id) == OfLot(rest, id);
        }
      }
    }
  }

  /** A lot that is not the first of its id is left alone. */
  lemma {:induction false} LaterLotUntouched(book: Book, plan: seq<PlanItem>, i: nat)
    requires SettlingBook(book) && PlanFits(book, plan) && i < |book| && Find(book, book[i].lotId) != Some(i)
    ensures |ApplyEdits(book, plan).0| == |book| && ApplyEdits(book, plan).0[i] == book[i]
    decreases |plan|
  {
    if plan != [] {
      var k, lot, r := FirstEdit(book, plan);
      if r.Ok? {
        FindAfterEdit(book, k, lot, book[i].lotId);
        LaterLotUntouched(book[k := lot], plan[1..], i);
      }
    }
  }

  /** Where a lot stands after emptied lots were dropped. */
  lemma RetainedAt(edited: Book, i: nat)
    requires i < |edited| && HasAtoms(edited[i])
    ensures var j := |Retain(edited[..i])|; j < |Retain(edited)| && Retain(edited)[j] == edited[i]
  {
    var before, after := edited[..i], edited[i + 1..];
    assert edited == before + ([edited[i]] + after);
    FilterAppend(before, [edited[i]] + after, HasAtoms);
    FilterAppend([edited[i]], after, HasAtoms);
    FilterAll([edited[i]], HasAtoms);
  }

  /** The reliefs a call makes of the lot at `i`: reliefs go to the first lot of an id. */
  ghost function ReliefsAt(book: Book, op: Op, i: nat): seq<LotRelief>
    requires i < |book|
  {
    if Find(book, book[i].lotId) == Some(i) then OfLot(Edits(book, op), book[i].lotId) else []
  }

  /** Where the lot at `i` stands after the call, or that it was emptied and dropped. */
  ghost function Next(book: Book, op: Op, i: nat): Option<nat>
    requires i < |book|
  {
    match PlanOf(book, op)
    case None => Some(i)
    case Some(plan) =>
      var (edited, r) := ApplyEdits(book, plan);
      if r.Err? || i >= |edited| then Some(i)
      else if HasAtoms(edited[i]) then Some(|Retain(edited[..i])|)
      else None
  }

  lemma PlanLifeAt(book: Book, plan: seq<PlanItem>, i: nat)
    requires SettlingBook(book) && PlanFits(book, plan) && i < |book|
    ensures |ApplyEdits(book, plan).0| == |book|
    ensures var rs := if Find(book, book[i].lotId) == Some(i) then OfLot(Done(book, plan), book[i].lotId) else [];
      Lived(book[i], rs, ApplyEdits(book, plan).0[i])
  {
    if Find(book, book[i].lotId) == Some(i) {
      PlanLife(book, plan, book[i].lotId, i);
    } else {
      LaterLotUntouched(book, plan, i);
    }
  }

  /** One call, accepted or not: its reliefs of the lot lead to the lot that stands there
      afterwards, or to an empty one that is gone. */
  lemma CallLife(book: Book, op: Op, idOf: Opening -> LotId, i: nat) returns (to: Lot)
    requires Consistent(book) && i < |book|
    ensures Lived(book[i], ReliefsAt(book, op, i), to)
    ensures match Next(book, op, i)
      case None => to.atoms == 0
      case Some(j) => j < |Do(book, op, idOf).0| && Do(book, op, idOf).0[j] == to
  {
    var arrivals := OpShape(book, op, idOf);
    PlanOfFits(book, op);
    to := book[i];
    if PlanOf(book, op).Some? {
      var plan := PlanOf(book, op).value;
      var edited := ApplyEdits(book, plan).0;
      PlanLifeAt(book, plan, i);
      EditsKeepSettling(book, plan);
      to := edited[i];
      if HasAtoms(to) { RetainedAt(edited, i); }
    } else {
      assert OfLot([], book[i].lotId) == [];
    }
  }

  // ------------------------------------------------------------------------------
  // Runs.

  /** All reliefs of the lot at `i` over a run, in order. */
  ghost function ReliefsOf(book: Book, ops: seq<Op>, idOf: Opening -> LotId, i: nat): seq<LotRelief>
    requires i < |book|
    decreases |ops|
  {
    if ops == [] then []
    else
      var book', next := Do(book, ops[0], idOf).0, Next(book, ops[0], i);
      ReliefsAt(book, ops[0], i)
      + (if next.Some? && next.value < |book'| then ReliefsOf(book', ops[1..], idOf, next.value) else [])
  }

  /** The reliefs that one lot receives over any run follow on one another, and end in the
      lot that is in the book then, or in an empty one. */
  lemma {:induction false} RunLife(book: Book, ops: seq<Op>, idOf: Opening -> LotId, i: nat) returns (to: Lot)
    requires Consistent(book) && IdsStayAgreed(book, ops, idOf) && i < |book|
    ensures Lived(book[i], ReliefsOf(book, ops, idOf, i), to)
    ensures to.atoms == 0 || to in After(book, ops, idOf)
    decreases |ops|
  {
    if ops == [] {
      to := book[i];
    } else {
      var op, book' := ops[0], Do(book, ops[0], idOf).0;
      CallKeepsSettling(book, op, idOf);
      to := CallLife(book, op, idOf, i);
      var rs := ReliefsAt(book, op, i);
      if Next(book, op, i).Some? {
        var j := Next(book, op, i).value;
        var later := RunLife(book', ops[1..], idOf, j);
        LivedAppend(book[i], rs, to, ReliefsOf(book', ops[1..], idOf, j), later);
        to := later;
      } else {
        assert rs + [] == rs;
      }
    }
  }

  lemma LivedRounding(from: Lot, rs: seq<LotRelief>, to: Lot)
    requires Lived(from, rs, to) && GoodLot(from)
    ensures Rounded(from, rs)
  {
    LivedTakes(from, rs, to);
    if rs != [] {
      var states := LivedIsLife(from, rs, to);
      LotLifetimeRounding(states, TakesOf(rs), rs);
    } else {
      assert SumOf(TakesOf(rs)) == 0;
    }
  }

  /** The rounding bound for the reliefs `rs` of a lot. */
  ghost predicate Rounded(lot: Lot, rs: seq<LotRelief>) {
    var T, k := SumOf(TakesOf(rs)), |rs|;
    && (k > 0 ==>
      && BasisOf(rs) * lot.atoms <= lot.basis.atoms * T < (BasisOf(rs) + k) * lot.atoms
      && FeeOf(rs) * lot.atoms <= lot.fee.atoms * T < (FeeOf(rs) + k) * lot.atoms)
    && (T == lot.atoms ==> BasisOf(rs) == lot.basis.atoms && FeeOf(rs) == lot.fee.atoms)
    && (T < lot.atoms && lot.basis.atoms > 0 ==> BasisOf(rs) < lot.basis.atoms)
    && (T < lot.atoms && lot.fee.atoms > 0 ==> FeeOf(rs) < lot.fee.atoms)
  }

  /** Rounding in the book: over any run, half-done calls included, the k reliefs that took
      T of the N atoms of a lot with basis B carry a basis R with B·T/N - k < R <= B·T/N,
      and R = B once T = N; the same for the fee; and what was not carried is still in the
      lot. */
  lemma RoundingOverRuns(book: Book, ops: seq<Op>, idOf: Opening -> LotId, openingOf: LotId -> Opening, i: nat) returns (to: Lot)
    requires Consistent(book) && Traceable(book, openingOf) && CollisionFree(idOf, openingOf)
    requires i < |book| && GoodLot(book[i])
    ensures var lot, rs := book[i], ReliefsOf(book, ops, idOf, i);
      && Rounded(lot, rs) && (to.atoms == 0 || to in After(book, ops, idOf))
      && to.lotId == lot.lotId && to.atoms == lot.atoms - SumOf(TakesOf(rs))
      && to.basis.atoms == lot.basis.atoms - BasisOf(rs) && to.fee.atoms == lot.fee.atoms - FeeOf(rs)
  {
    EveryRunStaysConsistent(book, ops, idOf, openingOf);
    to := RunLife(book, ops, idOf, i);
    LivedTakes(book[i], ReliefsOf(book, ops, idOf, i), to);
    LivedRounding(book[i], ReliefsOf(book, ops, idOf, i), to);
  }
}

/** What the matcher guarantees of every run: nothing is netted twice, nothing pairable is
    overlooked, a permitted close is a perfect pairing, and input order is irrelevant. */
module MatcherTheory {
  import opened Prelude
  import opened Amounts
  import opened Sorting
  import opened Filtering
  import opened Matcher

  ghost predicate DistinctIds(legs: seq<Leg>) {
    forall i, j :: 0 <= i < j < |legs| ==> legs[i].legId != legs[j].legId
  }

  /** Outflows and inflows with pairwise different ids. */
  ghost predicate Separated(outs: seq<Leg>, ins: seq<Leg>) {
    && DistinctIds(outs) && DistinctIds(ins)
    && forall o, i :: o in outs && i in ins ==> o.legId != i.legId
  }

  // ------------------------------------------------------------------------------
  // The tests, in legs and numbers.

  ghost function FeeAtoms(o: Leg): int { match o.fee case Some(fee) => fee.atoms case None => 0 }

  /** What left, less the fee, arrived in the same asset and within the window. */
  ghost predicate Arrives(o: Leg, i: Leg, c: Config) {
    && i.amount.asset == o.amount.asset && (o.fee.Some? ==> o.fee.value.asset == o.amount.asset)
    && i.amount.atoms + FeeAtoms(o) == o.amount.atoms
    && 0 <= i.eventTime - o.eventTime <= c.window
  }

  /** Both legs name one transaction and one asset. */
  ghost predicate SharesTx(o: Leg, i: Leg) {
    o.txHash.Some? && i.txHash.Some? && o.txHash.value == i.txHash.value && o.amount.asset == i.amount.asset
  }

  /** Both legs name an address, and it is the same. */
  ghost predicate SameAddress(o: Leg, i: Leg) {
    o.address.Some? && i.address.Some? && o.address.value == i.address.value
  }

  /** Less than the threshold configured for the asset; without one, less than nothing. */
  ghost predicate Immaterial(o: Leg, c: Config) {
    var asset := o.amount.asset;
    if asset in c.materiality then o.amount.atoms < c.materiality[asset] else o.amount.atoms < 0
  }

  ghost predicate NotLater(a: Leg, b: Leg) {
    a.eventTime < b.eventTime || (a.eventTime == b.eventTime && a.legId <= b.legId)
  }

  ghost predicate Chronological(legs: seq<Leg>) {
    forall i, j :: 0 <= i < j < |legs| ==> NotLater(legs[i], legs[j])
  }

  /** The tests of the matcher mean just this. */
  lemma TestsMean(o: Leg, i: Leg, c: Config)
    ensures AmountAndWindow(o, i, c) <==> Arrives(o, i, c)
    ensures SameTx(o, i) <==> SharesTx(o, i)
    ensures Corroborates(o, i) <==> SameAddress(o, i)
    ensures o.amount.atoms < Threshold(c, o.amount.asset) <==> Immaterial(o, c)
  {
  }

  // ------------------------------------------------------------------------------
  // Pairs.

  /** Tiers 0 and 1 consume their legs; tier 2 does not. */
  ghost predicate Consuming(p: Pair) { !p.tier.Probabilistic? }

  /** The evidence each tier rests on, and what may be netted without a human. */
  ghost predicate Justified(p: Pair, c: Config) {
    match p.tier
    case Deterministic => SharesTx(p.out, p.inn) && p.disposition.AutoNet?
    case StrongCorroboration =>
      && Arrives(p.out, p.inn, c) && SameAddress(p.out, p.inn)
      && (p.disposition.AutoNet? <==> Immaterial(p.out, c))
    case Probabilistic => Arrives(p.out, p.inn, c) && p.disposition.Queue?
  }

  ghost predicate GoodPair(p: Pair, outs: seq<Leg>, ins: seq<Leg>, c: Config) {
    p.out in outs && p.inn in ins && p.out.amount.asset == p.inn.amount.asset && Justified(p, c)
  }

  /** The inflow is not consumed by these pairs. */
  ghost predicate Free(i: Leg, before: seq<Pair>, ins: seq<Leg>) { i in ins && i.legId !in UsedBy(before) }

  ghost predicate Corroborating(o: Leg, i: Leg, before: seq<Pair>, ins: seq<Leg>, c: Config) {
    Free(i, before, ins) && Arrives(o, i, c) && SameAddress(o, i)
  }

  ghost predicate NoFreeTx(o: Leg, before: seq<Pair>, ins: seq<Leg>) {
    forall i :: Free(i, before, ins) ==> !SharesTx(o, i)
  }

  /** Why the pair got its tier when its outflow was processed, after the pairs in `before`.
      Tier 0: the inflow is the earliest free one of that transaction. Tier 1: there is no
      such inflow, and this is the only free one that arrives and has the address. Tier 2:
      there is no such inflow either, and not exactly one with the address. */
  ghost predicate Earned(p: Pair, before: seq<Pair>, ins: seq<Leg>, c: Config) {
    && p.out.legId !in UsedBy(before) && p.inn.legId !in UsedBy(before)
    && match p.tier
      case Deterministic => forall i :: Free(i, before, ins) && SharesTx(p.out, i) ==> NotLater(p.inn, i)
      case StrongCorroboration =>
        NoFreeTx(p.out, before, ins) && forall i :: Corroborating(p.out, i, before, ins, c) ==> i == p.inn
      case Probabilistic =>
        && NoFreeTx(p.out, before, ins)
        && forall i :: Corroborating(p.out, i, before, ins, c) ==>
             exists j :: j != i && Corroborating(p.out, j, before, ins, c)
  }

  ghost function UsedBy(pairs: seq<Pair>): set<LegId> {
    (set p | p in pairs && Consuming(p) :: p.out.legId) + (set p | p in pairs && Consuming(p) :: p.inn.legId)
  }

  ghost predicate Exclusive(pairs: seq<Pair>) {
    forall j, k :: 0 <= j < k < |pairs| && Consuming(pairs[j]) && Consuming(pairs[k]) ==>
      pairs[j].out.legId != pairs[k].out.legId && pairs[j].inn.legId != pairs[k].inn.legId
  }

  ghost predicate Inv(s: State, outs: seq<Leg>, ins: seq<Leg>, c: Config) {
    && (forall k :: 0 <= k < |s.pairs| ==> GoodPair(s.pairs[k], outs, ins, c))
    && (forall k :: 0 <= k < |s.pairs| ==> Earned(s.pairs[k], s.pairs[..k], ins, c))
    && s.used == UsedBy(s.pairs) && Exclusive(s.pairs)
  }

  lemma StaysEarned(pairs: seq<Pair>, more: seq<Pair>, ins: seq<Leg>, c: Config)
    requires forall k :: 0 <= k < |pairs| ==> Earned(pairs[k], pairs[..k], ins, c)
    requires forall k :: 0 <= k < |more| ==> Earned(more[k], pairs + more[..k], ins, c)
    ensures forall k :: 0 <= k < |pairs + more| ==> Earned((pairs + more)[k], (pairs + more)[..k], ins, c)
  {
    forall k | 0 <= k < |pairs + more| ensures Earned((pairs + more)[k], (pairs + more)[..k], ins, c) {
      if k < |pairs| {
        assert (pairs + more)[..k] == pairs[..k];
      } else {
        assert (pairs + more)[..k] == pairs + more[..k - |pairs|];
      }
    }
  }

  lemma UsedByMore(pairs: seq<Pair>, p: Pair)
    requires Consuming(p)
    ensures UsedBy(pairs + [p]) == UsedBy(pairs) + {p.out.legId, p.inn.legId}
  {
    assert p in pairs + [p];
    assert forall q :: q in pairs + [p] <==> q in pairs || q == p;
  }

  lemma StaysExclusive(pairs: seq<Pair>, p: Pair)
    requires Exclusive(pairs) && p.out.legId !in UsedBy(pairs) && p.inn.legId !in UsedBy(pairs)
    ensures Exclusive(pairs + [p])
  {
    forall j | 0 <= j < |pairs| && Consuming(pairs[j])
      ensures pairs[j].out.legId != p.out.legId && pairs[j].inn.legId != p.inn.legId
    {
      assert pairs[j] in pairs;
      assert pairs[j].out.legId in UsedBy(pairs) && pairs[j].inn.legId in UsedBy(pairs);
    }
  }

  lemma ConsumeKeepsInv(s: State, p: Pair, outs: seq<Leg>, ins: seq<Leg>, c: Config)
    requires Inv(s, outs, ins, c) && GoodPair(p, outs, ins, c) && Consuming(p)
    requires p.out.legId !in s.used && p.inn.legId !in s.used && Earned(p, s.pairs, ins, c)
    ensures Inv(Consume(s, p), outs, ins, c)
  {
    UsedByMore(s.pairs, p);
    StaysExclusive(s.pairs, p);
    assert s.pairs + [p][..0] == s.pairs;
    StaysEarned(s.pairs, [p], ins, c);
  }

  lemma {:induction false} UsedByQueued(pairs: seq<Pair>, more: seq<Pair>)
    requires forall k :: 0 <= k < |more| ==> !Consuming(more[k])
    ensures UsedBy(pairs + more) == UsedBy(pairs)
  {
    assert forall q :: q in pairs + more <==> q in pairs || q in more;
    assert forall q :: q in more ==> !Consuming(q);
  }

  /** Tier 2 leaves its legs free, so what holds of one of its pairs holds of all. */
  lemma EarnedAlike(p: Pair, pairs: seq<Pair>, more: seq<Pair>, ins: seq<Leg>, c: Config)
    requires Earned(p, pairs, ins, c) && UsedBy(pairs + more) == UsedBy(pairs)
    ensures Earned(p, pairs + more, ins, c)
  {
    assert forall i :: Free(i, pairs + more, ins) <==> Free(i, pairs, ins);
    assert forall i :: Corroborating(p.out, i, pairs + more, ins, c) <==> Corroborating(p.out, i, pairs, ins, c);
  }

  lemma Tier2KeepsInv(s: State, out: Leg, candidates: seq<Leg>, outs: seq<Leg>, ins: seq<Leg>, c: Config)
    requires Inv(s, outs, ins, c) && out in outs
    requires forall i :: 0 <= i < |candidates| ==> candidates[i] in ins && Arrives(out, candidates[i], c)
    requires forall i :: 0 <= i < |candidates| ==> Earned(Pair(out, candidates[i], Probabilistic, Queue), s.pairs, ins, c)
    ensures Inv(s.(pairs := s.pairs + Tier2Pairs(out, candidates)), outs, ins, c)
  {
    var more := Tier2Pairs(out, candidates);
    forall k | 0 <= k < |more| ensures GoodPair(more[k], outs, ins, c) && !Consuming(more[k]) {
      assert more[k] == Pair(out, candidates[k], Probabilistic, Queue);
    }
    forall k | 0 <= k < |more| ensures Earned(more[k], s.pairs + more[..k], ins, c) {
      UsedByQueued(s.pairs, more[..k]);
      EarnedAlike(more[k], s.pairs, more[..k], ins, c);
    }
    StaysEarned(s.pairs, more, ins, c);
    UsedByQueued(s.pairs, more);
  }

  // ------------------------------------------------------------------------------
  // Tier 0.

  /** Nothing free shares a transaction with this outflow any more. */
  ghost predicate Cleared(s: State, o: Leg, ins: seq<Leg>) {
    o.legId in s.used || forall i :: i in ins && i.legId !in s.used ==> !SharesTx(o, i)
  }

  lemma ClearedLater(s: State, s': State, o: Leg, ins: seq<Leg>)
    requires Cleared(s, o, ins) && s.used <= s'.used
    ensures Cleared(s', o, ins)
  {
  }

  ghost predicate Grows(s: State, s': State) { s.used <= s'.used && s.pairs <= s'.pairs }

  /** These outflows are to be processed and are free. */
  ghost predicate Waiting(s: State, rest: seq<Leg>, outs: seq<Leg>) {
    forall k :: 0 <= k < |rest| ==> rest[k] in outs && rest[k].legId !in s.used
  }

  /** The search finds the earliest free inflow of the transaction, or there is none. */
  lemma {:induction false} FirstTxIsEarliest(out: Leg, ins: seq<Leg>, used: set<LegId>)
    requires Chronological(ins)
    ensures var r := FirstTx(out, ins, used);
      match r
      case None => forall i :: i in ins && i.legId !in used ==> !SharesTx(out, i)
      case Some(inn) =>
        && inn in ins && inn.legId !in used && SharesTx(out, inn)
        && forall i :: i in ins && i.legId !in used && SharesTx(out, i) ==> NotLater(inn, i)
  {
    if ins != [] {
      var rest := ins[1..];
      assert ins == [ins[0]] + rest && forall k :: 0 <= k < |rest| ==> rest[k] == ins[k + 1];
      FirstTxIsEarliest(out, rest, used);
      TestsMean(out, ins[0], Config(0, map[]));
      forall i | i in rest ensures NotLater(ins[0], i) {
        var k :| 0 <= k < |rest| && rest[k] == i;
        assert NotLater(ins[0], ins[k + 1]);
      }
    }
  }

  lemma Tier0StepKeepsInv(s: State, out: Leg, outs: seq<Leg>, ins: seq<Leg>, c: Config)
    requires Separated(outs, ins) && Chronological(ins) && Inv(s, outs, ins, c) && out in outs && out.legId !in s.used
    ensures var s' := Tier0Step(s, out, ins);
      && Inv(s', outs, ins, c) && Grows(s, s') && Cleared(s', out, ins)
      && (forall o :: o in outs && o.legId in s'.used ==> o.legId in s.used || o.legId == out.legId)
  {
    var found := FirstTx(out, ins, s.used);
    FirstTxIsEarliest(out, ins, s.used);
    if found.Some? {
      var p := Pair(out, found.value, Deterministic, AutoNet);
      assert Earned(p, s.pairs, ins, c);
      ConsumeKeepsInv(s, p, outs, ins, c);
    }
  }

  lemma StillWaiting(s: State, s1: State, rest: seq<Leg>, outs: seq<Leg>)
    requires rest != [] && DistinctIds(rest) && Waiting(s, rest, outs)
    requires forall o :: o in outs && o.legId in s1.used ==> o.legId in s.used || o.legId == rest[0].legId
    ensures DistinctIds(rest[1..]) && Waiting(s1, rest[1..], outs)
  {
    var more := rest[1..];
    forall k | 0 <= k < |more| ensures more[k] in outs && more[k].legId !in s1.used { assert rest[k + 1] == more[k]; }
  }

  lemma {:induction false} Tier0KeepsInv(s: State, rest: seq<Leg>, outs: seq<Leg>, ins: seq<Leg>, c: Config)
    requires Separated(outs, ins) && Chronological(ins)
    requires Inv(s, outs, ins, c) && DistinctIds(rest) && Waiting(s, rest, outs)
    ensures var s' := Tier0(s, rest, ins);
      Inv(s', outs, ins, c) && Grows(s, s') && forall k :: 0 <= k < |rest| ==> Cleared(s', rest[k], ins)
    decreases |rest|
  {
    if rest != [] {
      var out, more := rest[0], rest[1..];
      var s1 := Tier0Step(s, out, ins);
      Tier0StepKeepsInv(s, out, outs, ins, c);
      StillWaiting(s, s1, rest, outs);
      Tier0KeepsInv(s1, more, outs, ins, c);
      var s' := Tier0(s1, more, ins);
      ClearedLater(s1, s', out, ins);
      forall k | 0 < k < |rest| ensures Cleared(s', rest[k], ins) { assert more[k - 1] == rest[k]; }
    }
  }

  // ------------------------------------------------------------------------------
  // Tiers 1 and 2.

  lemma CandidateFacts(out: Leg, ins: seq<Leg>, used: set<LegId>, c: Config)
    ensures forall l :: l in Candidates(out, ins, used, c) <==> l in ins && l.legId !in used && Arrives(out, l, c)
    ensures forall l :: l in Corroborated(out, Candidates(out, ins, used, c)) <==>
      l in Candidates(out, ins, used, c) && SameAddress(out, l)
  {
    var candidates := Candidates(out, ins, used, c);
    FilterMembers(ins, (l: Leg) => l.legId !in used && AmountAndWindow(out, l, c));
    FilterMembers(candidates, (l: Leg) => Corroborates(out, l));
    forall l ensures AmountAndWindow(out, l, c) <==> Arrives(out, l, c) { TestsMean(out, l, c); }
    forall l ensures Corroborates(out, l) <==> SameAddress(out, l) { TestsMean(out, l, c); }
  }

  /** The corroborated candidates are the free inflows that arrive and have the address. */
  lemma CorroboratedMeans(s: State, out: Leg, ins: seq<Leg>, c: Config)
    requires s.used == UsedBy(s.pairs)
    ensures forall l :: l in Corroborated(out, Candidates(out, ins, s.used, c)) <==> Corroborating(out, l, s.pairs, ins, c)
  {
    CandidateFacts(out, ins, s.used, c);
  }

  ghost predicate Settled(s: State, o: Leg, ins: seq<Leg>, c: Config) {
    o.legId in s.used ||
    forall i :: i in ins && i.legId !in s.used && Arrives(o, i, c) ==>
      Pair(o, i, Probabilistic, Queue) in s.pairs
  }

  lemma ClearedMeans(s: State, out: Leg, ins: seq<Leg>)
    requires s.used == UsedBy(s.pairs) && Cleared(s, out, ins) && out.legId !in s.used
    ensures NoFreeTx(out, s.pairs, ins)
  {
  }

  /** A list without repetitions that has an element, but not just one, has another. */
  lemma AnotherOne(xs: seq<Leg>, i: Leg) returns (j: Leg)
    requires DistinctIds(xs) && i in xs && |xs| != 1
    ensures j in xs && j != i
  {
    if xs[0] != i { j := xs[0]; } else { j := xs[1]; }
  }

  lemma CorroboratedDistinct(out: Leg, ins: seq<Leg>, used: set<LegId>, c: Config)
    requires DistinctIds(ins)
    ensures DistinctIds(Corroborated(out, Candidates(out, ins, used, c)))
  {
    var key := (l: Leg) => l.legId;
    DistinctFilter(ins, key, (l: Leg) => l.legId !in used && AmountAndWindow(out, l, c));
    DistinctFilter(Candidates(out, ins, used, c), key, (l: Leg) => Corroborates(out, l));
    assert DistinctOn(Corroborated(out, Candidates(out, ins, used, c)), key);
  }

  lemma Tier2Earned(s: State, out: Leg, inn: Leg, outs: seq<Leg>, ins: seq<Leg>, c: Config)
    requires Inv(s, outs, ins, c) && DistinctIds(ins) && out.legId !in s.used && Cleared(s, out, ins)
    requires inn in Candidates(out, ins, s.used, c) && |Corroborated(out, Candidates(out, ins, s.used, c))| != 1
    ensures Earned(Pair(out, inn, Probabilistic, Queue), s.pairs, ins, c)
  {
    var corroborated := Corroborated(out, Candidates(out, ins, s.used, c));
    CandidateFacts(out, ins, s.used, c);
    CorroboratedMeans(s, out, ins, c);
    CorroboratedDistinct(out, ins, s.used, c);
    ClearedMeans(s, out, ins);
    forall i | Corroborating(out, i, s.pairs, ins, c)
      ensures exists j :: j != i && Corroborating(out, j, s.pairs, ins, c)
    {
      var j := AnotherOne(corroborated, i);
    }
  }

  lemma Tier2Settles(s: State, out: Leg, outs: seq<Leg>, ins: seq<Leg>, c: Config)
    requires Inv(s, outs, ins, c) && out in outs && DistinctIds(ins) && out.legId !in s.used && Cleared(s, out, ins)
    requires |Corroborated(out, Candidates(out, ins, s.used, c))| != 1
    ensures var s' := s.(pairs := s.pairs + Tier2Pairs(out, Candidates(out, ins, s.used, c)));
      Inv(s', outs, ins, c) && Settled(s', out, ins, c)
  {
    var candidates := Candidates(out, ins, s.used, c);
    CandidateFacts(out, ins, s.used, c);
    forall i | 0 <= i < |candidates|
      ensures candidates[i] in ins && Arrives(out, candidates[i], c)
      ensures Earned(Pair(out, candidates[i], Probabilistic, Queue), s.pairs, ins, c)
    {
      assert candidates[i] in candidates;
      Tier2Earned(s, out, candidates[i], outs, ins, c);
    }
    Tier2KeepsInv(s, out, candidates, outs, ins, c);
    forall i | i in ins && i.legId !in s.used && Arrives(out, i, c)
      ensures Pair(out, i, Probabilistic, Queue) in s.pairs + Tier2Pairs(out, candidates)
    {
      assert i in candidates;
      var k :| 0 <= k < |candidates| && candidates[k] == i;
      assert Tier2Pairs(out, candidates)[k] == Pair(out, i, Probabilistic, Queue);
    }
  }

  /** The single corroborated candidate of an outflow is consumed with it. */
  lemma Tier1Consumes(s: State, out: Leg, inn: Leg, outs: seq<Leg>, ins: seq<Leg>, c: Config)
    requires Inv(s, outs, ins, c) && out in outs && out.legId !in s.used && Cleared(s, out, ins)
    requires Corroborated(out, Candidates(out, ins, s.used, c)) == [inn]
    ensures Inv(Consume(s, Tier1Pair(out, inn, c)), outs, ins, c)
  {
    CandidateFacts(out, ins, s.used, c);
    CorroboratedMeans(s, out, ins, c);
    ClearedMeans(s, out, ins);
    TestsMean(out, inn, c);
    assert inn in [inn];
    assert forall l :: l in [inn] ==> l == inn;
    assert Earned(Tier1Pair(out, inn, c), s.pairs, ins, c);
    ConsumeKeepsInv(s, Tier1Pair(out, inn, c), outs, ins, c);
  }

  lemma Tier1StepKeepsInv(s: State, out: Leg, outs: seq<Leg>, ins: seq<Leg>, c: Config)
    requires Inv(s, outs, ins, c) && out in outs && DistinctIds(ins) && Cleared(s, out, ins)
    ensures var s' := Tier1Step(s, out, ins, c);
      Inv(s', outs, ins, c) && Grows(s, s') && Settled(s', out, ins, c)
  {
    if out.legId !in s.used {
      var corroborated := Corroborated(out, Candidates(out, ins, s.used, c));
      if |corroborated| == 1 {
        assert corroborated == [corroborated[0]];
        Tier1Consumes(s, out, corroborated[0], outs, ins, c);
      } else {
        Tier2Settles(s, out, outs, ins, c);
      }
    }
  }

  lemma SettledLater(s: State, s': State, o: Leg, ins: seq<Leg>, c: Config)
    requires Settled(s, o, ins, c) && s.used <= s'.used && s.pairs <= s'.pairs
    ensures Settled(s', o, ins, c)
  {
    assert forall p :: p in s.pairs ==> p in s'.pairs;
  }

  /** These outflows are to be processed, and tier 0 is through with them. */
  ghost predicate AllCleared(s: State, rest: seq<Leg>, outs: seq<Leg>, ins: seq<Leg>) {
    forall k :: 0 <= k < |rest| ==> rest[k] in outs && Cleared(s, rest[k], ins)
  }

  lemma AllClearedLater(s: State, s': State, rest: seq<Leg>, outs: seq<Leg>, ins: seq<Leg>)
    requires rest != [] && AllCleared(s, rest, outs, ins) && s.used <= s'.used
    ensures AllCleared(s', rest[1..], outs, ins)
  {
    forall k | 0 <= k < |rest[1..]| ensures rest[1..][k] in outs && Cleared(s', rest[1..][k], ins) {
      assert rest[1..][k] == rest[k + 1];
      ClearedLater(s, s', rest[k + 1], ins);
    }
  }

  lemma FirstOfTier1(s: State, rest: seq<Leg>, outs: seq<Leg>, ins: seq<Leg>, c: Config) returns (s1: State)
    requires rest != [] && Inv(s, outs, ins, c) && DistinctIds(ins) && AllCleared(s, rest, outs, ins)
    ensures Tier1(s, rest, ins, c) == Tier1(s1, rest[1..], ins, c)
    ensures Inv(s1, outs, ins, c) && Grows(s, s1) && Settled(s1, rest[0], ins, c) && AllCleared(s1, rest[1..], outs, ins)
  {
    s1 := Tier1Step(s, rest[0], ins, c);
    assert rest[0] in outs && Cleared(s, rest[0], ins);
    Tier1StepKeepsInv(s, rest[0], outs, ins, c);
    AllClearedLater(s, s1, rest, outs, ins);
  }

  ghost predicate AllSettled(s: State, rest: seq<Leg>, ins: seq<Leg>, c: Config) {
    forall k :: 0 <= k < |rest| ==> Settled(s, rest[k], ins, c)
  }

  lemma AllSettledLater(s: State, s': State, rest: seq<Leg>, ins: seq<Leg>, c: Config)
    requires rest != [] && Settled(s, rest[0], ins, c) && Grows(s, s') && AllSettled(s', rest[1..], ins, c)
    ensures AllSettled(s', rest, ins, c)
  {
    SettledLater(s, s', rest[0], ins, c);
    forall k | 0 < k < |rest| ensures Settled(s', rest[k], ins, c) { assert rest[1..][k - 1] == rest[k]; }
  }

  lemma {:induction false} Tier1KeepsInv(s: State, rest: seq<Leg>, outs: seq<Leg>, ins: seq<Leg>, c: Config)
    requires Inv(s, outs, ins, c) && DistinctIds(ins) && AllCleared(s, rest, outs, ins)
    ensures var s' := Tier1(s, rest, ins, c); Inv(s', outs, ins, c) && Grows(s, s') && AllSettled(s', rest, ins, c)
    decreases |rest|
  {
    if rest != [] {
      var s1 := FirstOfTier1(s, rest, outs, ins, c);
      Tier1KeepsInv(s1, rest[1..], outs, ins, c);
      AllSettledLater(s1, Tier1(s1, rest[1..], ins, c), rest, ins, c);
    }
  }

  // ------------------------------------------------------------------------------
  // Whole runs.

  lemma SideMembers(legs: seq<Leg>, d: Direction)
    ensures forall l :: l in Side(legs, d) <==> l in legs && l.direction == d
  {
    var chosen := Filter(legs, (l: Leg) => l.direction == d);
    FilterMembers(legs, (l: Leg) => l.direction == d);
    SortMembers(chosen, LegLeq);
  }

  lemma SideDistinct(legs: seq<Leg>, d: Direction)
    requires DistinctIds(legs)
    ensures DistinctIds(Side(legs, d))
  {
    var key := (l: Leg) => l.legId;
    var chosen := Filter(legs, (l: Leg) => l.direction == d);
    DistinctFilter(legs, key, (l: Leg) => l.direction == d);
    DistinctPermuted(chosen, SortBy(chosen, LegLeq), key);
    assert DistinctOn(Side(legs, d), key);
  }

  lemma SameIdSameLeg(legs: seq<Leg>, a: Leg, b: Leg)
    requires DistinctIds(legs) && a in legs && b in legs && a.legId == b.legId
    ensures a == b
  {
    var i :| 0 <= i < |legs| && legs[i] == a;
    var j :| 0 <= j < |legs| && legs[j] == b;
    assert i == j;
  }

  lemma SidesSeparated(legs: seq<Leg>)
    requires DistinctIds(legs)
    ensures Separated(Side(legs, Outflow), Side(legs, Inflow))
  {
    var outs, ins := Side(legs, Outflow), Side(legs, Inflow);
    SideDistinct(legs, Outflow);
    SideDistinct(legs, Inflow);
    SideMembers(legs, Outflow);
    SideMembers(legs, Inflow);
    forall o, i | o in outs && i in ins ensures o.legId != i.legId {
      if o.legId == i.legId { SameIdSameLeg(legs, o, i); }
    }
  }

  /** Each side is processed in the order of event times, equal times in the order of ids. */
  lemma SideInOrder(legs: seq<Leg>, d: Direction)
    ensures Chronological(Side(legs, d))
  {
    LegOrderIsTotal();
    SortBySorted(Filter(legs, (l: Leg) => l.direction == d), LegLeq);
    assert Sorted(Side(legs, d), LegLeq);
  }

  lemma Tier0Facts(legs: seq<Leg>, c: Config) returns (s0: State)
    requires DistinctIds(legs)
    ensures var outs, ins := Side(legs, Outflow), Side(legs, Inflow);
      && s0 == Tier0(State([], {}), outs, ins) && Separated(outs, ins) && Chronological(ins)
      && Inv(s0, outs, ins, c) && AllCleared(s0, outs, outs, ins)
  {
    var outs, ins := Side(legs, Outflow), Side(legs, Inflow);
    SidesSeparated(legs);
    SideInOrder(legs, Inflow);
    s0 := Tier0(State([], {}), outs, ins);
    Tier0KeepsInv(State([], {}), outs, outs, ins, c);
  }

  /** The invariant of the finished run, and what both passes leave behind. */
  lemma RunFacts(legs: seq<Leg>, c: Config)
    requires DistinctIds(legs)
    ensures var outs, ins, s := Side(legs, Outflow), Side(legs, Inflow), Pairing(legs, c);
      && Separated(outs, ins) && Inv(s, outs, ins, c)
      && (forall o :: o in outs ==> Settled(s, o, ins, c) && Cleared(s, o, ins))
  {
    var outs, ins := Side(legs, Outflow), Side(legs, Inflow);
    var s0 := Tier0Facts(legs, c);
    Tier1KeepsInv(s0, outs, outs, ins, c);
    EachIsThrough(s0, Pairing(legs, c), outs, ins, c);
  }

  lemma EachIsThrough(s0: State, s: State, outs: seq<Leg>, ins: seq<Leg>, c: Config)
    requires AllCleared(s0, outs, outs, ins) && AllSettled(s, outs, ins, c) && Grows(s0, s)
    ensures forall o :: o in outs ==> Settled(s, o, ins, c) && Cleared(s, o, ins)
  {
    forall o | o in outs ensures Settled(s, o, ins, c) && Cleared(s, o, ins) {
      var k :| 0 <= k < |outs| && outs[k] == o;
      ClearedLater(s0, s, o, ins);
    }
  }

  /** The pair `p` is made before `q`: tier 0 first, then by the time of the outflow. */
  ghost predicate Earlier(p: Pair, q: Pair) {
    (p.tier.Deterministic? && !q.tier.Deterministic?)
    || ((p.tier.Deterministic? <==> q.tier.Deterministic?) && NotLater(p.out, q.out))
  }

  ghost predicate InSequence(pairs: seq<Pair>) { forall j, k :: 0 <= j < k < |pairs| ==> Earlier(pairs[j], pairs[k]) }

  /** What has been made so far is earlier than anything made of these outflows. */
  ghost predicate Done(pairs: seq<Pair>, rest: seq<Leg>, tier0: bool) {
    forall j, k :: 0 <= j < |pairs| && 0 <= k < |rest| ==>
      if tier0 then pairs[j].tier.Deterministic? && NotLater(pairs[j].out, rest[k])
      else pairs[j].tier.Deterministic? || NotLater(pairs[j].out, rest[k])
  }

  lemma {:induction false} Tier0InSequence(s: State, rest: seq<Leg>, ins: seq<Leg>)
    requires InSequence(s.pairs) && Chronological(rest) && Done(s.pairs, rest, true)
    requires forall j :: 0 <= j < |s.pairs| ==> s.pairs[j].tier.Deterministic?
    ensures var pairs := Tier0(s, rest, ins).pairs;
      InSequence(pairs) && forall j :: 0 <= j < |pairs| ==> pairs[j].tier.Deterministic?
    decreases |rest|
  {
    if rest != [] {
      var s1, more := Tier0Step(s, rest[0], ins), rest[1..];
      assert forall k :: 0 <= k < |more| ==> more[k] == rest[k + 1];
      Tier0InSequence(s1, more, ins);
    }
  }

  lemma Tier1StepInSequence(s: State, out: Leg, more: seq<Leg>, ins: seq<Leg>, c: Config)
    requires InSequence(s.pairs) && Done(s.pairs, [out] + more, false) && forall k :: 0 <= k < |more| ==> NotLater(out, more[k])
    ensures var pairs := Tier1Step(s, out, ins, c).pairs; InSequence(pairs) && Done(pairs, more, false)
  {
    var rest := [out] + more;
    assert rest[0] == out && forall k :: 0 <= k < |more| ==> rest[k + 1] == more[k];
  }

  lemma {:induction false} Tier1InSequence(s: State, rest: seq<Leg>, ins: seq<Leg>, c: Config)
    requires InSequence(s.pairs) && Chronological(rest) && Done(s.pairs, rest, false)
    ensures InSequence(Tier1(s, rest, ins, c).pairs)
    decreases |rest|
  {
    if rest != [] {
      var out, more := rest[0], rest[1..];
      assert rest == [out] + more && forall k :: 0 <= k < |more| ==> more[k] == rest[k + 1];
      Tier1StepInSequence(s, out, more, ins, c);
      Tier1InSequence(Tier1Step(s, out, ins, c), more, ins, c);
    }
  }

  /** Proposals are made, and listed, tier 0 first and then by the time of the outflow. */
  lemma ProposalsInSequence(legs: seq<Leg>, c: Config)
    ensures InSequence(Pairing(legs, c).pairs)
  {
    var outs, ins := Side(legs, Outflow), Side(legs, Inflow);
    SideInOrder(legs, Outflow);
    Tier0InSequence(State([], {}), outs, ins);
    Tier1InSequence(Tier0(State([], {}), outs, ins), outs, ins, c);
  }

  /** No leg is consumed twice: two tier-0 or tier-1 proposals never share a leg. */
  lemma NoLegConsumedTwice(legs: seq<Leg>, c: Config, j: nat, k: nat)
    requires DistinctIds(legs) && MatchLegs(legs, c).Ok?
    requires var ps := MatchLegs(legs, c).value.proposals;
      j < k < |ps| && !ps[j].tier.Probabilistic? && !ps[k].tier.Probabilistic?
    ensures var ps := MatchLegs(legs, c).value.proposals;
      {ps[j].outLeg, ps[j].inLeg} !! {ps[k].outLeg, ps[k].inLeg}
  {
    RunFacts(legs, c);
    ConsumedApart(Pairing(legs, c), Side(legs, Outflow), Side(legs, Inflow), c, j, k);
  }

  lemma ConsumedApart(s: State, outs: seq<Leg>, ins: seq<Leg>, c: Config, j: nat, k: nat)
    requires Separated(outs, ins) && Inv(s, outs, ins, c) && j < k < |s.pairs|
    requires Consuming(s.pairs[j]) && Consuming(s.pairs[k])
    ensures {s.pairs[j].out.legId, s.pairs[j].inn.legId} !! {s.pairs[k].out.legId, s.pairs[k].inn.legId}
  {
    assert GoodPair(s.pairs[j], outs, ins, c) && GoodPair(s.pairs[k], outs, ins, c);
  }

  lemma IdsMembers(legs: seq<Leg>)
    ensures forall id :: id in Ids(legs) <==> exists l :: l in legs && l.legId == id
  {
    forall id | exists l :: l in legs && l.legId == id ensures id in Ids(legs) {
      var l :| l in legs && l.legId == id;
      var k :| 0 <= k < |legs| && legs[k] == l;
      assert Ids(legs)[k] == id;
    }
    forall id | id in Ids(legs) ensures exists l :: l in legs && l.legId == id {
      var k :| 0 <= k < |legs| && Ids(legs)[k] == id;
      assert legs[k] in legs;
    }
  }

  lemma UnmatchedMembers(legs: seq<Leg>, ps: seq<Proposal>)
    ensures forall id :: id in UnmatchedOf(legs, ps) <==>
      id !in Proposed(ps) && exists l :: l in legs && l.legId == id
  {
    var proposed := Proposed(ps);
    var left := Filter(legs, (l: Leg) => l.legId !in proposed);
    FilterMembers(legs, (l: Leg) => l.legId !in proposed);
    IdsMembers(left);
    SortMembers(Ids(left), IdLeq);
    forall id ensures id in Ids(left) <==> id !in proposed && exists l :: l in legs && l.legId == id {
      if id !in proposed && exists l :: l in legs && l.legId == id {
        var l :| l in legs && l.legId == id;
        assert l in left;
      }
    }
  }

  /** Every proposal is justified, in legs and numbers: it names an outflow and an inflow of
      the input, carries the configuration, has the evidence of its tier, and got that tier
      by what was free when its outflow was processed; only tier 0, or tier 1 below the
      materiality threshold, is netted without a human. */
  lemma EveryProposalJustified(legs: seq<Leg>, c: Config, k: nat) returns (p: Pair)
    requires DistinctIds(legs) && MatchLegs(legs, c).Ok? && k < |MatchLegs(legs, c).value.proposals|
    ensures var q := MatchLegs(legs, c).value.proposals[k];
      && q.outLeg == p.out.legId && q.inLeg == p.inn.legId && q.config == c
      && q.tier == p.tier && q.disposition == p.disposition
      && p.out in legs && p.out.direction == Outflow && p.inn in legs && p.inn.direction == Inflow
    ensures k < |Pairing(legs, c).pairs| && p == Pairing(legs, c).pairs[k]
    ensures Justified(p, c) && Earned(p, Pairing(legs, c).pairs[..k], Side(legs, Inflow), c)
  {
    RunFacts(legs, c);
    SideMembers(legs, Outflow);
    SideMembers(legs, Inflow);
    p := Pairing(legs, c).pairs[k];
    assert GoodPair(p, Side(legs, Outflow), Side(legs, Inflow), c);
  }

  /** The matcher refuses its input exactly when two legs are of different tenants. */
  lemma MixedTenantsIff(legs: seq<Leg>, c: Config)
    ensures MatchLegs(legs, c).Err? <==> exists a, b :: a in legs && b in legs && a.tenant != b.tenant
  {
    if !OneTenant(legs) {
      var i :| 0 <= i < |legs| && legs[i].tenant != legs[0].tenant;
      assert legs[i] in legs && legs[0] in legs;
    }
  }

  /** The decisions that block the close are those of the queued proposals, in order. */
  lemma {:induction false} QueuedExact(ps: seq<Proposal>)
    ensures QueuedOf(ps) == seq(|Filter(ps, IsQueued)|, i requires 0 <= i < |Filter(ps, IsQueued)| => DecisionHash(Filter(ps, IsQueued)[i]))
  {
    if ps != [] { QueuedExact(ps[1..]); }
  }

  ghost predicate IsQueued(p: Proposal) { p.disposition.Queue? }

  /** The unmatched legs are listed in the order of their ids. */
  lemma UnmatchedInOrder(legs: seq<Leg>, c: Config)
    requires DistinctIds(legs) && MatchLegs(legs, c).Ok?
    ensures var ids := MatchLegs(legs, c).value.unmatched; forall i, j :: 0 <= i < j < |ids| ==> ids[i] < ids[j]
  {
    var proposed := Proposed(MatchLegs(legs, c).value.proposals);
    var left := Filter(legs, (l: Leg) => l.legId !in proposed);
    DistinctFilter(legs, (l: Leg) => l.legId, (l: Leg) => l.legId !in proposed);
    assert DistinctOn(Ids(left), (x: LegId) => x) by {
      forall i, j | 0 <= i < j < |left| ensures Ids(left)[i] != Ids(left)[j] {
        assert ((l: Leg) => l.legId)(left[i]) != ((l: Leg) => l.legId)(left[j]);
      }
    }
    LegOrderIsTotal();
    SortBySorted(Ids(left), IdLeq);
    DistinctPermuted(Ids(left), SortBy(Ids(left), IdLeq), (x: LegId) => x);
    var ids := SortBy(Ids(left), IdLeq);
    forall i, j | 0 <= i < j < |ids| ensures ids[i] < ids[j] {
      assert IdLeq(ids[i], ids[j]) && ((x: LegId) => x)(ids[i]) != ((x: LegId) => x)(ids[j]);
    }
  }

  /** Every leg is accounted for: it is in a proposal or it blocks the close, never both,
      and nothing else blocks the close as unmatched. */
  lemma EveryLegAccountedFor(legs: seq<Leg>, c: Config, id: LegId)
    requires MatchLegs(legs, c).Ok?
    ensures var o := MatchLegs(legs, c).value;
      && (id in o.unmatched ==> id !in Proposed(o.proposals))
      && ((exists l :: l in legs && l.legId == id) ==> id in o.unmatched || id in Proposed(o.proposals))
      && (id in o.unmatched ==> exists l :: l in legs && l.legId == id)
  {
    UnmatchedMembers(legs, MatchLegs(legs, c).value.proposals);
  }

  lemma PairIsProposed(legs: seq<Leg>, c: Config, p: Pair)
    requires p in Pairing(legs, c).pairs
    ensures var ps := ToProposals(Pairing(legs, c).pairs, c);
      p.out.legId in Proposed(ps) && p.inn.legId in Proposed(ps)
  {
    var pairs := Pairing(legs, c).pairs;
    var k :| 0 <= k < |pairs| && pairs[k] == p;
    assert ToProposals(pairs, c)[k] in ToProposals(pairs, c);
  }

  /** Nothing pairable is left behind: of the inflows that tiers 0 and 1 left free, none
      shares a transaction and asset with an unmatched outflow, and none is what should have
      arrived of it within the window. */
  lemma NothingPairableLeftBehind(legs: seq<Leg>, c: Config, o: Leg, i: Leg)
    requires DistinctIds(legs) && MatchLegs(legs, c).Ok?
    requires o in legs && o.direction == Outflow && i in legs && i.direction == Inflow
    requires o.legId in MatchLegs(legs, c).value.unmatched && i.legId !in Pairing(legs, c).used
    ensures !SharesTx(o, i) && !Arrives(o, i, c)
  {
    RunFacts(legs, c);
    SideMembers(legs, Outflow);
    SideMembers(legs, Inflow);
    var s := Pairing(legs, c);
    EveryLegAccountedFor(legs, c, o.legId);
    if o.legId in s.used {
      UsedIsProposed(legs, c, o.legId);
    } else {
      assert Settled(s, o, Side(legs, Inflow), c) && Cleared(s, o, Side(legs, Inflow));
      if Arrives(o, i, c) { PairIsProposed(legs, c, Pair(o, i, Probabilistic, Queue)); }
    }
  }

  lemma UsedIsProposed(legs: seq<Leg>, c: Config, id: LegId)
    requires DistinctIds(legs) && id in Pairing(legs, c).used
    ensures id in Proposed(ToProposals(Pairing(legs, c).pairs, c))
  {
    RunFacts(legs, c);
    var pairs := Pairing(legs, c).pairs;
    assert id in UsedBy(pairs);
    var p :| p in pairs && (p.out.legId == id || p.inn.legId == id);
    PairIsProposed(legs, c, p);
  }

  // ------------------------------------------------------------------------------
  // A permitted close is a perfect pairing.

  ghost function OutsOf(pairs: seq<Pair>): seq<Leg> { seq(|pairs|, k requires 0 <= k < |pairs| => pairs[k].out) }
  ghost function InsOf(pairs: seq<Pair>): seq<Leg> { seq(|pairs|, k requires 0 <= k < |pairs| => pairs[k].inn) }

  /** Read down one side, the pairs are all legs of that side, each once; every pair is in
      one asset and netted automatically. */
  ghost predicate PerfectPairing(pairs: seq<Pair>, outs: seq<Leg>, ins: seq<Leg>) {
    && multiset(OutsOf(pairs)) == multiset(outs) && multiset(InsOf(pairs)) == multiset(ins)
    && forall k :: 0 <= k < |pairs| ==>
         pairs[k].out.amount.asset == pairs[k].inn.amount.asset && pairs[k].disposition.AutoNet?
  }

  lemma SameMembersPermute(a: seq<Leg>, b: seq<Leg>)
    requires DistinctIds(a) && DistinctIds(b) && forall l :: l in a <==> l in b
    ensures multiset(a) == multiset(b)
  {
    forall l ensures multiset(a)[l] == multiset(b)[l] {
      DistinctCount(a, (x: Leg) => x.legId, l);
      DistinctCount(b, (x: Leg) => x.legId, l);
    }
  }

  /** A leg with a proposal stands on its own side of a pair. */
  lemma ProposedHasPair(s: State, legs: seq<Leg>, outs: seq<Leg>, ins: seq<Leg>, c: Config, l: Leg)
    requires DistinctIds(legs) && Separated(outs, ins) && Inv(s, outs, ins, c)
    requires forall x :: x in outs || x in ins ==> x in legs
    requires l in legs && l.legId in Proposed(ToProposals(s.pairs, c))
    ensures l in outs ==> l in OutsOf(s.pairs)
    ensures l in ins ==> l in InsOf(s.pairs)
  {
    var ps := ToProposals(s.pairs, c);
    var p :| p in ps && (p.outLeg == l.legId || p.inLeg == l.legId);
    var k :| 0 <= k < |ps| && ps[k] == p;
    var pair := s.pairs[k];
    assert GoodPair(pair, outs, ins, c);
    assert OutsOf(s.pairs)[k] == pair.out && InsOf(s.pairs)[k] == pair.inn;
    if p.outLeg == l.legId { SameIdSameLeg(legs, pair.out, l); } else { SameIdSameLeg(legs, pair.inn, l); }
  }

  lemma CoveredIsPerfect(s: State, outs: seq<Leg>, ins: seq<Leg>, c: Config)
    requires Separated(outs, ins) && Inv(s, outs, ins, c)
    requires forall k :: 0 <= k < |s.pairs| ==> s.pairs[k].disposition.AutoNet?
    requires forall o :: o in outs ==> o in OutsOf(s.pairs)
    requires forall i :: i in ins ==> i in InsOf(s.pairs)
    ensures PerfectPairing(s.pairs, outs, ins)
  {
    var xs, ys := OutsOf(s.pairs), InsOf(s.pairs);
    forall k | 0 <= k < |s.pairs| ensures Consuming(s.pairs[k]) && xs[k] in outs && ys[k] in ins {
      assert GoodPair(s.pairs[k], outs, ins, c);
    }
    assert DistinctIds(xs) && DistinctIds(ys);
    SameMembersPermute(xs, outs);
    SameMembersPermute(ys, ins);
  }

  /** When the matcher permits the close, its proposals pair all outflows with all inflows
      one to one, in the same asset, and every one of them was netted automatically. */
  lemma PermittedCloseIsPerfect(legs: seq<Leg>, c: Config)
    requires DistinctIds(legs) && MatchLegs(legs, c).Ok? && ClosePermitted(MatchLegs(legs, c).value)
    ensures PerfectPairing(Pairing(legs, c).pairs, Side(legs, Outflow), Side(legs, Inflow))
  {
    var outs, ins, s := Side(legs, Outflow), Side(legs, Inflow), Pairing(legs, c);
    var ps := ToProposals(s.pairs, c);
    RunFacts(legs, c);
    QueuedNoneIff(ps);
    SideMembers(legs, Outflow);
    SideMembers(legs, Inflow);
    forall l | l in legs ensures (l in outs ==> l in OutsOf(s.pairs)) && (l in ins ==> l in InsOf(s.pairs)) {
      EveryLegAccountedFor(legs, c, l.legId);
      ProposedHasPair(s, legs, outs, ins, c, l);
    }
    forall k | 0 <= k < |s.pairs| ensures s.pairs[k].disposition.AutoNet? { assert ps[k] in ps && ps[k].disposition.AutoNet?; }
    CoveredIsPerfect(s, outs, ins, c);
  }

  ghost predicate Named(ps: seq<Proposal>, id: LegId) {
    exists i :: 0 <= i < |ps| && (ps[i].outLeg == id || ps[i].inLeg == id)
  }

  lemma ProposedIff(ps: seq<Proposal>, id: LegId)
    ensures id in Proposed(ps) <==> Named(ps, id)
  {
    if id in Proposed(ps) {
      var p :| p in ps && (p.outLeg == id || p.inLeg == id);
      var i :| 0 <= i < |ps| && ps[i] == p;
      assert Named(ps, id);
    }
  }

  lemma UnmatchedNoneIff(legs: seq<Leg>, ps: seq<Proposal>)
    ensures UnmatchedOf(legs, ps) == [] <==> forall i :: 0 <= i < |legs| ==> Named(ps, legs[i].legId)
  {
    var unmatched := UnmatchedOf(legs, ps);
    UnmatchedMembers(legs, ps);
    if unmatched == [] {
      forall i | 0 <= i < |legs| ensures Named(ps, legs[i].legId) {
        assert legs[i] in legs && legs[i].legId !in unmatched;
        ProposedIff(ps, legs[i].legId);
      }
    } else {
      assert unmatched[0] in unmatched;
      var l :| l in legs && l.legId == unmatched[0];
      var i :| 0 <= i < |legs| && legs[i] == l;
      ProposedIff(ps, legs[i].legId);
      assert !Named(ps, legs[i].legId);
    }
  }

  /** The close is permitted exactly when every leg is named by a proposal and every proposal
      nets by itself. */
  lemma ClosePermittedIff(legs: seq<Leg>, c: Config)
    requires MatchLegs(legs, c).Ok?
    ensures var o := MatchLegs(legs, c).value;
      ClosePermitted(o) <==>
        && (forall i :: 0 <= i < |legs| ==> Named(o.proposals, legs[i].legId))
        && (forall p :: p in o.proposals ==> p.disposition.AutoNet?)
  {
    var o := MatchLegs(legs, c).value;
    UnmatchedNoneIff(legs, o.proposals);
    QueuedNoneIff(o.proposals);
  }

  lemma {:induction false} QueuedNoneIff(ps: seq<Proposal>)
    ensures QueuedOf(ps) == [] <==> forall p :: p in ps ==> p.disposition.AutoNet?
  {
    if ps != [] {
      QueuedNoneIff(ps[1..]);
      assert ps == [ps[0]] + ps[1..];
    }
  }

  // ------------------------------------------------------------------------------
  // Input order.

  lemma LegOrderIsTotal()
    ensures TotalPreorder(LegLeq) && TotalPreorder(IdLeq)
  {
  }

  lemma SideForgetsOrder(a: seq<Leg>, b: seq<Leg>, d: Direction)
    requires multiset(a) == multiset(b) && DistinctIds(a)
    ensures Side(a, d) == Side(b, d)
  {
    var x := Filter(a, (l: Leg) => l.direction == d);
    var y := Filter(b, (l: Leg) => l.direction == d);
    FilterForgetsOrder(a, b, (l: Leg) => l.direction == d);
    FilterMembers(a, (l: Leg) => l.direction == d);
    LegOrderIsTotal();
    forall l, m | l in x && m in x && LegLeq(l, m) && LegLeq(m, l) ensures l == m { SameIdSameLeg(a, l, m); }
    SortForgetsOrder(x, y, LegLeq);
  }

  lemma {:induction false} IdsAppend(a: seq<Leg>, b: seq<Leg>)
    ensures Ids(a + b) == Ids(a) + Ids(b)
  {
  }

  lemma MovePast(a: LegId, x: LegId, rest: multiset<LegId>)
    ensures multiset{a} + (multiset{x} + rest) == multiset{x} + (multiset{a} + rest)
  {
  }

  lemma IdsCons(x: Leg, ys: seq<Leg>)
    ensures multiset(Ids([x] + ys)) == multiset{x.legId} + multiset(Ids(ys))
  {
    IdsAppend([x], ys);
    assert Ids([x]) == [x.legId];
  }

  lemma IdsBehind(y: Leg, x: Leg, inserted: seq<Leg>, rest: seq<Leg>)
    requires multiset(Ids(inserted)) == multiset{x.legId} + multiset(Ids(rest))
    ensures multiset(Ids([y] + inserted)) == multiset{x.legId} + multiset(Ids([y] + rest))
  {
    IdsCons(y, inserted);
    IdsCons(y, rest);
    MovePast(y.legId, x.legId, multiset(Ids(rest)));
  }

  lemma {:induction false} IdsOfInsert(x: Leg, ys: seq<Leg>)
    ensures multiset(Ids(Insert(x, ys, LegLeq))) == multiset{x.legId} + multiset(Ids(ys))
  {
    if ys == [] || LegLeq(x, ys[0]) {
      IdsCons(x, ys);
      assert Insert(x, ys, LegLeq) == [x] + ys;
    } else {
      IdsOfInsert(x, ys[1..]);
      IdsBehind(ys[0], x, Insert(x, ys[1..], LegLeq), ys[1..]);
      assert ys == [ys[0]] + ys[1..];
    }
  }

  lemma {:induction false} IdsOfSorted(legs: seq<Leg>)
    ensures multiset(Ids(SortBy(legs, LegLeq))) == multiset(Ids(legs))
  {
    if legs != [] {
      IdsOfSorted(legs[1..]);
      IdsOfInsert(legs[0], SortBy(legs[1..], LegLeq));
      assert Ids(legs) == [legs[0].legId] + Ids(legs[1..]);
    }
  }

  lemma UnmatchedForgetsOrder(a: seq<Leg>, b: seq<Leg>, ps: seq<Proposal>)
    requires multiset(a) == multiset(b) && DistinctIds(a)
    ensures UnmatchedOf(a, ps) == UnmatchedOf(b, ps)
  {
    var proposed := Proposed(ps);
    var x := Filter(a, (l: Leg) => l.legId !in proposed);
    var y := Filter(b, (l: Leg) => l.legId !in proposed);
    FilterForgetsOrder(a, b, (l: Leg) => l.legId !in proposed);
    FilterMembers(a, (l: Leg) => l.legId !in proposed);
    LegOrderIsTotal();
    forall l, m | l in x && m in x && LegLeq(l, m) && LegLeq(m, l) ensures l == m { SameIdSameLeg(a, l, m); }
    SortForgetsOrder(x, y, LegLeq);
    IdsOfSorted(x);
    IdsOfSorted(y);
    SortForgetsOrder(Ids(x), Ids(y), IdLeq);
  }

  lemma TenantsForgetOrder(a: seq<Leg>, b: seq<Leg>)
    requires multiset(a) == multiset(b) && OneTenant(a)
    ensures OneTenant(b)
  {
    forall i | 0 <= i < |b| ensures b[i].tenant == b[0].tenant {
      assert b[i] in multiset(a) && b[0] in multiset(a);
    }
  }

  /** The result is a function of the set of legs: with distinct ids, any permutation of
      the input gives the identical sequences of proposals, decisions and blockers. */
  lemma MatchForgetsOrder(a: seq<Leg>, b: seq<Leg>, c: Config)
    requires multiset(a) == multiset(b) && DistinctIds(a)
    ensures MatchLegs(a, c) == MatchLegs(b, c)
  {
    if OneTenant(a) { TenantsForgetOrder(a, b); }
    if OneTenant(b) { TenantsForgetOrder(b, a); }
    SideForgetsOrder(a, b, Outflow);
    SideForgetsOrder(a, b, Inflow);
    UnmatchedForgetsOrder(a, b, ToProposals(Pairing(a, c).pairs, c));
  }
}

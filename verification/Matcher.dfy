/** The tiered internal-transfer matcher. */
module Matcher {
  import opened Prelude
  import opened Amounts
  import opened Sorting
  import opened Filtering

  /** A digest, of which only equality and byte order matter here. */
  type LegId = nat

  datatype Direction = Outflow | Inflow

  datatype Leg = Leg(
    legId: LegId, tenant: string, venue: string, direction: Direction, amount: AssetAmount,
    fee: Option<AssetAmount>, txHash: Option<string>, address: Option<string>, eventTime: I64)

  datatype Config = Config(window: I64, materiality: map<AssetId, I128>)

  datatype Tier = Deterministic | StrongCorroboration | Probabilistic
  datatype Disposition = AutoNet | Queue

  /** Content hashes are collision free, so a config stands for its hash and a proposal
      for its decision hash. */
  datatype Proposal = Proposal(outLeg: LegId, inLeg: LegId, tier: Tier, disposition: Disposition, config: Config)
  datatype Decision = DecisionHash(of: Proposal)

  datatype Outcome = Outcome(proposals: seq<Proposal>, unmatched: seq<LegId>, queued: seq<Decision>)
  datatype MatchError = MixedTenants

  function ClosePermitted(o: Outcome): bool { o.unmatched == [] && o.queued == [] }

  // ------------------------------------------------------------------------------
  // Tests on a pair of legs.

  function Threshold(c: Config, asset: AssetId): I128 {
    if asset in c.materiality then c.materiality[asset] else 0
  }

  function ExpectedInflow(out: Leg): Option<AssetAmount> {
    match out.fee
    case None => Some(out.amount)
    case Some(fee) => match SubAmounts(out.amount, fee) case Ok(a) => Some(a) case Err(_) => None
  }

  predicate SameTx(out: Leg, inn: Leg) {
    out.txHash.Some? && inn.txHash == out.txHash && inn.amount.asset == out.amount.asset
  }

  predicate AmountAndWindow(out: Leg, inn: Leg, c: Config) {
    && ExpectedInflow(out) == Some(inn.amount)
    && var delta := CheckedSub64(inn.eventTime, out.eventTime);
      delta.Some? && 0 <= delta.value <= c.window
  }

  predicate Corroborates(out: Leg, inn: Leg) {
    out.address.Some? && inn.address.Some? && out.address.value == inn.address.value
  }

  predicate LegLeq(a: Leg, b: Leg) {
    a.eventTime < b.eventTime || (a.eventTime == b.eventTime && a.legId <= b.legId)
  }

  predicate IdLeq(a: LegId, b: LegId) { a <= b }

  // ------------------------------------------------------------------------------
  // The two passes, on legs; the proposals name the legs by id.

  datatype Pair = Pair(out: Leg, inn: Leg, tier: Tier, disposition: Disposition)

  datatype State = State(pairs: seq<Pair>, used: set<LegId>)

  function Side(legs: seq<Leg>, d: Direction): seq<Leg> {
    SortBy(Filter(legs, (l: Leg) => l.direction == d), LegLeq)
  }

  function FirstTx(out: Leg, ins: seq<Leg>, used: set<LegId>): (r: Option<Leg>)
    ensures r.Some? ==> r.value in ins && r.value.legId !in used && SameTx(out, r.value)
    ensures r.None? ==> forall i :: 0 <= i < |ins| ==> ins[i].legId in used || !SameTx(out, ins[i])
  {
    if ins == [] then None
    else if SameTx(out, ins[0]) && ins[0].legId !in used then Some(ins[0])
    else FirstTx(out, ins[1..], used)
  }

  function Consume(s: State, p: Pair): State {
    State(s.pairs + [p], s.used + {p.out.legId, p.inn.legId})
  }

  function Tier0Step(s: State, out: Leg, ins: seq<Leg>): State {
    match FirstTx(out, ins, s.used)
    case None => s
    case Some(inn) => Consume(s, Pair(out, inn, Deterministic, AutoNet))
  }

  function Tier0(s: State, outs: seq<Leg>, ins: seq<Leg>): State
    decreases |outs|
  {
    if outs == [] then s else Tier0(Tier0Step(s, outs[0], ins), outs[1..], ins)
  }

  function Candidates(out: Leg, ins: seq<Leg>, used: set<LegId>, c: Config): seq<Leg> {
    Filter(ins, (l: Leg) => l.legId !in used && AmountAndWindow(out, l, c))
  }

  function Corroborated(out: Leg, candidates: seq<Leg>): seq<Leg> {
    Filter(candidates, (l: Leg) => Corroborates(out, l))
  }

  function Tier1Pair(out: Leg, inn: Leg, c: Config): Pair {
    Pair(out, inn, StrongCorroboration, if out.amount.atoms < Threshold(c, out.amount.asset) then AutoNet else Queue)
  }

  function Tier2Pairs(out: Leg, candidates: seq<Leg>): (r: seq<Pair>)
    ensures |r| == |candidates|
    ensures forall i :: 0 <= i < |r| ==> r[i] == Pair(out, candidates[i], Probabilistic, Queue)
  {
    if candidates == [] then [] else [Pair(out, candidates[0], Probabilistic, Queue)] + Tier2Pairs(out, candidates[1..])
  }

  function Tier1Step(s: State, out: Leg, ins: seq<Leg>, c: Config): State {
    if out.legId in s.used then s
    else
      var candidates := Candidates(out, ins, s.used, c);
      var corroborated := Corroborated(out, candidates);
      if |corroborated| == 1 then Consume(s, Tier1Pair(out, corroborated[0], c))
      else s.(pairs := s.pairs + Tier2Pairs(out, candidates))
  }

  function Tier1(s: State, outs: seq<Leg>, ins: seq<Leg>, c: Config): State
    decreases |outs|
  {
    if outs == [] then s else Tier1(Tier1Step(s, outs[0], ins, c), outs[1..], ins, c)
  }

  function Pairing(legs: seq<Leg>, c: Config): State {
    var outs, ins := Side(legs, Outflow), Side(legs, Inflow);
    Tier1(Tier0(State([], {}), outs, ins), outs, ins, c)
  }

  function ToProposal(p: Pair, c: Config): Proposal {
    Proposal(p.out.legId, p.inn.legId, p.tier, p.disposition, c)
  }

  function ToProposals(pairs: seq<Pair>, c: Config): (r: seq<Proposal>)
    ensures |r| == |pairs| && forall i :: 0 <= i < |r| ==> r[i] == ToProposal(pairs[i], c)
  {
    if pairs == [] then [] else [ToProposal(pairs[0], c)] + ToProposals(pairs[1..], c)
  }

  function Proposed(ps: seq<Proposal>): set<LegId> {
    (set p | p in ps :: p.outLeg) + (set p | p in ps :: p.inLeg)
  }

  function QueuedOf(ps: seq<Proposal>): seq<Decision> {
    if ps == [] then []
    else (if ps[0].disposition == Queue then [DecisionHash(ps[0])] else []) + QueuedOf(ps[1..])
  }

  function Ids(legs: seq<Leg>): (r: seq<LegId>)
    ensures |r| == |legs| && forall i :: 0 <= i < |r| ==> r[i] == legs[i].legId
  {
    if legs == [] then [] else [legs[0].legId] + Ids(legs[1..])
  }

  predicate OneTenant(legs: seq<Leg>) {
    forall i :: 0 <= i < |legs| ==> legs[i].tenant == legs[0].tenant
  }

  function UnmatchedOf(legs: seq<Leg>, ps: seq<Proposal>): seq<LegId> {
    var proposed := Proposed(ps);
    SortBy(Ids(Filter(legs, (l: Leg) => l.legId !in proposed)), IdLeq)
  }

  function MatchLegs(legs: seq<Leg>, c: Config): Result<Outcome, MatchError> {
    if !OneTenant(legs) then Err(MixedTenants)
    else
      var ps := ToProposals(Pairing(legs, c).pairs, c);
      Ok(Outcome(ps, UnmatchedOf(legs, ps), QueuedOf(ps)))
  }

  // ------------------------------------------------------------------------------
  // The loops of the original.

  method FindSameTx(out: Leg, ins: seq<Leg>, used: set<LegId>) returns (r: Option<Leg>)
    ensures r == FirstTx(out, ins, used)
  {
    for i := 0 to |ins|
      invariant FirstTx(out, ins, used) == FirstTx(out, ins[i..], used)
    {
      assert ins[i..][1..] == ins[i + 1..];
      if SameTx(out, ins[i]) && ins[i].legId !in used { return Some(ins[i]); }
    }
    r := None;
  }

  method Select(legs: seq<Leg>, p: Leg -> bool) returns (r: seq<Leg>)
    ensures r == Filter(legs, p)
  {
    r := [];
    for i := 0 to |legs|
      invariant Filter(legs, p) == r + Filter(legs[i..], p)
    {
      assert legs[i..][1..] == legs[i + 1..];
      if p(legs[i]) { r := r + [legs[i]]; }
    }
  }

  /** The proposals so far name, by id, the pairs of the specification. */
  ghost predicate Tracks(proposals: seq<Proposal>, used: set<LegId>, s: State, c: Config) {
    proposals == ToProposals(s.pairs, c) && used == s.used
  }

  lemma TrackMore(proposals: seq<Proposal>, pairs: seq<Pair>, more: seq<Pair>, c: Config)
    requires proposals == ToProposals(pairs, c)
    ensures proposals + ToProposals(more, c) == ToProposals(pairs + more, c)
  {
  }

  method RunTier0(outs: seq<Leg>, ins: seq<Leg>, c: Config) returns (proposals: seq<Proposal>, used: set<LegId>)
    ensures Tracks(proposals, used, Tier0(State([], {}), outs, ins), c)
  {
    proposals, used := [], {};
    ghost var s := State([], {});
    for i := 0 to |outs|
      invariant Tracks(proposals, used, s, c) && Tier0(State([], {}), outs, ins) == Tier0(s, outs[i..], ins)
    {
      assert outs[i..][1..] == outs[i + 1..];
      s := Tier0Step(s, outs[i], ins);
      if outs[i].txHash.Some? {
        var matched := FindSameTx(outs[i], ins, used);
        if matched.Some? {
          used := used + {outs[i].legId, matched.value.legId};
          proposals := proposals + [Proposal(outs[i].legId, matched.value.legId, Deterministic, AutoNet, c)];
        }
      }
    }
  }

  method RunTier1(outs: seq<Leg>, ins: seq<Leg>, c: Config, before: seq<Proposal>, usedBefore: set<LegId>, ghost s0: State)
    returns (proposals: seq<Proposal>, used: set<LegId>)
    requires Tracks(before, usedBefore, s0, c)
    ensures Tracks(proposals, used, Tier1(s0, outs, ins, c), c)
  {
    proposals, used := before, usedBefore;
    ghost var s := s0;
    for i := 0 to |outs|
      invariant Tracks(proposals, used, s, c) && Tier1(s0, outs, ins, c) == Tier1(s, outs[i..], ins, c)
    {
      assert outs[i..][1..] == outs[i + 1..];
      var out := outs[i];
      ghost var was := s;
      s := Tier1Step(s, out, ins, c);
      if out.legId !in used {
        var taken := used;
        var candidates := Select(ins, (l: Leg) => l.legId !in taken && AmountAndWindow(out, l, c));
        var corroborated := Select(candidates, (l: Leg) => Corroborates(out, l));
        assert candidates == Candidates(out, ins, was.used, c) && corroborated == Corroborated(out, candidates);
        if |corroborated| == 1 {
          var below := out.amount.atoms < Threshold(c, out.amount.asset);
          used := used + {out.legId, corroborated[0].legId};
          proposals := proposals + [Proposal(out.legId, corroborated[0].legId, StrongCorroboration,
                                             if below then AutoNet else Queue, c)];
        } else {
          var more := QueueAll(out, candidates, c);
          TrackMore(proposals, was.pairs, Tier2Pairs(out, candidates), c);
          proposals := proposals + more;
        }
      }
    }
  }

  method QueueAll(out: Leg, candidates: seq<Leg>, c: Config) returns (r: seq<Proposal>)
    ensures r == ToProposals(Tier2Pairs(out, candidates), c)
  {
    r := [];
    for i := 0 to |candidates|
      invariant |r| == i
      invariant forall k :: 0 <= k < i ==> r[k] == Proposal(out.legId, candidates[k].legId, Probabilistic, Queue, c)
    {
      r := r + [Proposal(out.legId, candidates[i].legId, Probabilistic, Queue, c)];
    }
    QueueAllIs(out, candidates, c, r);
  }

  lemma QueueAllIs(out: Leg, candidates: seq<Leg>, c: Config, r: seq<Proposal>)
    requires |r| == |candidates|
    requires forall k :: 0 <= k < |r| ==> r[k] == Proposal(out.legId, candidates[k].legId, Probabilistic, Queue, c)
    ensures r == ToProposals(Tier2Pairs(out, candidates), c)
  {
  }

  /** What the scan has collected from the first `i` proposals. */
  ghost predicate Scanned(ps: seq<Proposal>, i: nat, proposed: set<LegId>, queued: seq<Decision>) {
    i <= |ps| && proposed == Proposed(ps[..i]) && QueuedOf(ps) == queued + QueuedOf(ps[i..])
  }

  lemma ProposedMore(ps: seq<Proposal>, i: nat)
    requires i < |ps|
    ensures Proposed(ps[..i + 1]) == Proposed(ps[..i]) + {ps[i].outLeg, ps[i].inLeg}
  {
    assert ps[..i + 1] == ps[..i] + [ps[i]];
    assert forall p :: p in ps[..i + 1] <==> p in ps[..i] || p == ps[i];
  }

  lemma QueuedMore(ps: seq<Proposal>, i: nat, queued: seq<Decision>)
    requires i < |ps|
    ensures queued + QueuedOf(ps[i..])
         == (if ps[i].disposition == Queue then queued + [DecisionHash(ps[i])] else queued) + QueuedOf(ps[i + 1..])
  {
    assert ps[i..][1..] == ps[i + 1..];
  }

  lemma ScanStep(ps: seq<Proposal>, i: nat, proposed: set<LegId>, queued: seq<Decision>)
    requires i < |ps| && Scanned(ps, i, proposed, queued)
    ensures Scanned(ps, i + 1, proposed + {ps[i].outLeg, ps[i].inLeg},
                    if ps[i].disposition == Queue then queued + [DecisionHash(ps[i])] else queued)
  {
    ProposedMore(ps, i);
    QueuedMore(ps, i, queued);
  }

  lemma ScanEnds(ps: seq<Proposal>, proposed: set<LegId>, queued: seq<Decision>)
    requires Scanned(ps, |ps|, proposed, queued)
    ensures proposed == Proposed(ps) && queued == QueuedOf(ps)
  {
    assert ps[..|ps|] == ps && ps[|ps|..] == [];
  }

  method ScanProposals(ps: seq<Proposal>) returns (proposed: set<LegId>, queued: seq<Decision>)
    ensures proposed == Proposed(ps) && queued == QueuedOf(ps)
  {
    proposed, queued := {}, [];
    for i := 0 to |ps|
      invariant Scanned(ps, i, proposed, queued)
    {
      ScanStep(ps, i, proposed, queued);
      proposed := proposed + {ps[i].outLeg, ps[i].inLeg};
      if ps[i].disposition == Queue { queued := queued + [DecisionHash(ps[i])]; }
    }
    ScanEnds(ps, proposed, queued);
  }

  method RunMatcher(legs: seq<Leg>, c: Config) returns (r: Result<Outcome, MatchError>)
    ensures r == MatchLegs(legs, c)
  {
    if !OneTenant(legs) { return Err(MixedTenants); }
    var outs := Select(legs, (l: Leg) => l.direction == Outflow);
    var ins := Select(legs, (l: Leg) => l.direction == Inflow);
    outs, ins := SortBy(outs, LegLeq), SortBy(ins, LegLeq);
    var proposals, used := RunTier0(outs, ins, c);
    proposals, used := RunTier1(outs, ins, c, proposals, used, Tier0(State([], {}), outs, ins));
    var proposed, queued := ScanProposals(proposals);
    var left := Select(legs, (l: Leg) => l.legId !in proposed);
    r := Ok(Outcome(proposals, SortBy(Ids(left), IdLeq), queued));
  }
}

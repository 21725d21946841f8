/** Aggregation of tree heads and inclusion proofs. The audit path is defined top-down
    (section 2.1.1 of RFC 6962) while the verifier climbs bottom-up by shifting two
    indices (section 2.1.3.2 of RFC 9162). What relates the two is the list of turns, left
    or right, that the climb takes: its last turn is the first split of the tree. */
module Inclusion {
  import opened Prelude
  import opened Hashing
  import opened Merkle

  datatype InclusionProof = InclusionProof(leafIndex: nat, treeSize: nat, auditPath: seq<ContentHash>)

  datatype Aggregation = Aggregation(root: ContentHash, proofs: seq<InclusionProof>)

  function AuditPath(m: nat, entries: seq<ContentHash>): seq<ContentHash> {
    if |entries| <= 1 then []
    else
      var k := SplitPoint(|entries|);
      if m < k then AuditPath(m, entries[..k]) + [MerkleRoot(entries[k..])]
      else AuditPath(m - k, entries[k..]) + [MerkleRoot(entries[..k])]
  }

  function ProofOf(heads: seq<ContentHash>, index: nat): InclusionProof {
    InclusionProof(index, |heads|, AuditPath(index, heads))
  }

  function Aggregate(heads: seq<ContentHash>): Option<Aggregation> {
    if heads == [] then None
    else Some(Aggregation(MerkleRoot(heads), seq(|heads|, i requires 0 <= i => ProofOf(heads, i))))
  }

  /** What the verifier computes, one tree level per call. A right child, or a last node
      without a right neighbour, is combined to the right of its sibling or promoted. */
  function Rebuild(index: nat, last: nat, hash: ContentHash, path: seq<ContentHash>): Option<ContentHash>
    decreases last
  {
    if last == 0 then (if path == [] then Some(hash) else None)
    else if path == [] then None
    else if index % 2 == 1 then Rebuild(index / 2, last / 2, NodeHash(path[0], hash), path[1..])
    else if index == last then Rebuild(index / 2, last / 2, hash, path)
    else Rebuild(index / 2, last / 2, NodeHash(hash, path[0]), path[1..])
  }

  ghost predicate Accepts(head: ContentHash, proof: InclusionProof, root: ContentHash) {
    && proof.leafIndex < proof.treeSize
    && Rebuild(proof.leafIndex, proof.treeSize - 1, LeafHash(head), proof.auditPath) == Some(root)
  }

  /** The bit-shifting loop of the original; it hashes first and shifts afterwards. */
  method VerifyInclusion(head: ContentHash, proof: InclusionProof, root: ContentHash) returns (ok: bool)
    ensures ok == Accepts(head, proof, root)
  {
    if proof.leafIndex >= proof.treeSize {
      return false;
    }
    var fn: nat, sn: nat, hash := proof.leafIndex, proof.treeSize - 1, LeafHash(head);
    ghost var target := Rebuild(fn, sn, hash, proof.auditPath);
    for i := 0 to |proof.auditPath|
      invariant fn <= sn
      invariant Rebuild(fn, sn, hash, proof.auditPath[i..]) == target
    {
      var sibling := proof.auditPath[i];
      assert proof.auditPath[i..][1..] == proof.auditPath[i + 1..];
      if sn == 0 {
        return false;
      }
      if fn % 2 == 1 || fn == sn {
        ghost var before := hash;
        hash := NodeHash(sibling, hash);
        while fn != 0 && fn % 2 == 0
          invariant 0 < fn <= sn
          invariant fn % 2 == 1 || fn == sn
          invariant Rebuild(fn, sn, before, proof.auditPath[i..]) == target
        {
          fn, sn := fn / 2, sn / 2;
        }
      } else {
        hash := NodeHash(hash, sibling);
      }
      fn, sn := fn / 2, sn / 2;
    }
    ok := sn == 0 && hash == root;
  }

  // ------------------------------------------------------------------------------
  // The climb as a list of turns.

  /** The turn taken on one level: true where the sibling stands on the left. The last
      node of a level, if it is without a neighbour, is promoted without a turn. */
  function Turn(index: nat, last: nat): seq<bool> {
    if index % 2 == 1 then [true] else if index == last then [] else [false]
  }

  /** The turns of the climb from `index` when the last index of the level is `last`. */
  function Turns(index: nat, last: nat): seq<bool>
    decreases last
  {
    if last == 0 then [] else Turn(index, last) + Turns(index / 2, last / 2)
  }

  function Join(right: bool, sibling: ContentHash, hash: ContentHash): ContentHash {
    if right then NodeHash(sibling, hash) else NodeHash(hash, sibling)
  }

  /** The hash reached by joining one sibling at each turn. */
  function Climb(turns: seq<bool>, hash: ContentHash, path: seq<ContentHash>): Option<ContentHash> {
    if turns == [] then (if path == [] then Some(hash) else None)
    else if path == [] then None
    else Climb(turns[1..], Join(turns[0], path[0], hash), path[1..])
  }

  lemma {:induction false} SomeTurn(index: nat, last: nat)
    requires index <= last && last > 0
    ensures Turns(index, last) != []
    decreases last
  {
    if index % 2 == 0 && index == last { SomeTurn(index / 2, last / 2); }
  }

  /** The verifier looks at its index and size only through their turns. */
  lemma {:induction false} RebuildIsClimb(index: nat, last: nat, hash: ContentHash, path: seq<ContentHash>)
    requires index <= last
    ensures Rebuild(index, last, hash, path) == Climb(Turns(index, last), hash, path)
    decreases last
  {
    if last > 0 {
      SomeTurn(index, last);
      if path != [] {
        if index % 2 == 1 {
          RebuildIsClimb(index / 2, last / 2, NodeHash(path[0], hash), path[1..]);
        } else if index == last {
          RebuildIsClimb(index / 2, last / 2, hash, path);
          assert Turns(index, last) == Turns(index / 2, last / 2);
        } else {
          RebuildIsClimb(index / 2, last / 2, NodeHash(hash, path[0]), path[1..]);
        }
      }
    }
  }

  /** The last turn is the one below the root. */
  lemma {:induction false} ClimbTop(turns: seq<bool>, top: bool, hash: ContentHash, path: seq<ContentHash>)
    ensures Climb(turns + [top], hash, path) ==
      if path == [] then None
      else match Climb(turns, hash, path[..|path| - 1])
        case None => None
        case Some(below) => Some(Join(top, path[|path| - 1], below))
  {
    var all := turns + [top];
    if turns == [] {
      assert all == [top] && all[1..] == [];
    } else if path != [] {
      var next := Join(turns[0], path[0], hash);
      assert all[0] == turns[0] && all[1..] == turns[1..] + [top];
      ClimbTop(turns[1..], top, next, path[1..]);
      if |path| > 1 {
        assert path[..|path| - 1][0] == path[0];
        assert path[1..][..|path| - 2] == path[..|path| - 1][1..];
      }
    }
  }

  /** The same turns, told from the top: which side of the split the index lies on decides
      the last turn, and the others are those of its place on that side. */
  function TurnsBelow(m: nat, n: nat): seq<bool>
    requires m < n
  {
    if n == 1 then []
    else
      var k := SplitPoint(n);
      if m < k then TurnsBelow(m, k) + [false] else TurnsBelow(m - k, n - k) + [true]
  }

  lemma Below(m: nat, n: nat, k: nat)
    requires n >= 2 && k == SplitPoint(n) && m < n
    ensures m < k ==> TurnsBelow(m, n) == TurnsBelow(m, k) + [false]
    ensures m >= k ==> TurnsBelow(m, n) == TurnsBelow(m - k, n - k) + [true]
  {
  }

  /** Whatever holds of the lowest turn on one side holds of it in the whole. */
  lemma LeftSide(m: nat, n: nat, k: nat, q: nat, up: nat, h: nat, turn: seq<bool>)
    requires n >= 2 && k == SplitPoint(n) && m < k && up >= 2 && h == SplitPoint(up) && q < h
    requires TurnsBelow(m, k) == turn + TurnsBelow(q, h)
    ensures TurnsBelow(m, n) == turn + TurnsBelow(q, up)
  {
    Below(m, n, k);
    Below(q, up, h);
    Regroup(turn, TurnsBelow(q, h), false);
  }

  lemma RightSide(m: nat, n: nat, k: nat, q: nat, up: nat, h: nat, turn: seq<bool>)
    requires n >= 2 && k == SplitPoint(n) && k <= m < n && up >= 2 && h == SplitPoint(up) && h <= q < up
    requires TurnsBelow(m - k, n - k) == turn + TurnsBelow(q - h, up - h)
    ensures TurnsBelow(m, n) == turn + TurnsBelow(q, up)
  {
    Below(m, n, k);
    Below(q, up, h);
    Regroup(turn, TurnsBelow(q - h, up - h), true);
  }

  /** Index `m` of `n` stands below index `q` of `up`. */
  ghost predicate Above(m: int, n: int, q: int, up: int) {
    0 <= m < n && 2 * q <= m <= 2 * q + 1 && 2 * up - 1 <= n <= 2 * up
  }

  lemma SplitPointHalves(n: nat, up: nat) returns (h: nat)
    requires n > 2 && 2 * up - 1 <= n <= 2 * up
    ensures 1 <= h < up <= 2 * h && h == SplitPoint(up) && SplitPoint(n) == 2 * h
  {
    h := SplitPoint(up);
    assert up == (n + 1) / 2;
  }

  /** The turn from index `m` of `n` up to index `q`. */
  ghost function TurnUp(m: int, n: int, q: int): seq<bool> {
    if m == 2 * q + 1 then [true] else if m == n - 1 then [] else [false]
  }

  lemma Regroup(turn: seq<bool>, turns: seq<bool>, top: bool)
    ensures turn + (turns + [top]) == (turn + turns) + [top]
  {
  }

  lemma BottomOfTwo(m: nat)
    requires m < 2
    ensures TurnsBelow(m, 2) == TurnUp(m, 2, 0) + TurnsBelow(0, 1)
  {
    assert SplitPoint(2) == 1 && TurnsBelow(0, 1) == [];
  }

  /** One level of the tree removed at the bottom. */
  lemma {:induction false} BottomTurn(m: nat, n: nat, q: nat, up: nat)
    requires Above(m, n, q, up)
    ensures q < up && TurnsBelow(m, n) == TurnUp(m, n, q) + TurnsBelow(q, up)
    decreases n
  {
    if n == 2 {
      BottomOfTwo(m);
    } else if n > 2 {
      var h := SplitPointHalves(n, up);
      var k := h + h;
      if m < k {
        BottomTurn(m, k, q, h);
        LeftSide(m, n, k, q, up, h, TurnUp(m, n, q));
      } else {
        BottomTurn(m - k, n - k, q - h, up - h);
        RightSide(m, n, k, q, up, h, TurnUp(m, n, q));
      }
    }
  }

  /** Bottom-up and top-down agree on the turns. */
  lemma {:induction false} TurnsFromTop(m: nat, n: nat)
    requires m < n
    ensures Turns(m, n - 1) == TurnsBelow(m, n)
    decreases n
  {
    if n > 1 {
      BottomTurn(m, n, m / 2, (n + 1) / 2);
      assert (n - 1) / 2 == (n + 1) / 2 - 1;
      TurnsFromTop(m / 2, (n + 1) / 2);
    }
  }

  lemma SameEnds(xs: seq<bool>, x: bool, ys: seq<bool>, y: bool)
    requires xs + [x] == ys + [y]
    ensures xs == ys && x == y
  {
    assert (xs + [x])[|xs|] == x && |xs| == |ys|;
    assert xs == (xs + [x])[..|xs|] && ys == (ys + [y])[..|ys|];
  }

  /** At one size the turns tell the index. */
  lemma {:induction false} TurnsTellIndex(m: nat, m': nat, n: nat)
    requires m < n && m' < n && TurnsBelow(m, n) == TurnsBelow(m', n)
    ensures m == m'
    decreases n
  {
    if n >= 2 {
      var k := SplitPoint(n);
      var ts := if m < k then TurnsBelow(m, k) else TurnsBelow(m - k, n - k);
      var ts' := if m' < k then TurnsBelow(m', k) else TurnsBelow(m' - k, n - k);
      SameEnds(ts, m >= k, ts', m' >= k);
      if m < k { TurnsTellIndex(m, m', k); } else { TurnsTellIndex(m - k, m' - k, n - k); }
    }
  }

  // ------------------------------------------------------------------------------
  // Climbing to a tree head.

  /** A head is reached through its last turn from the head of that side, with the head of
      the other side as the last sibling. */
  lemma TopOfTree(left: ContentHash, right: ContentHash, below: seq<bool>, top: bool, hash: ContentHash, path: seq<ContentHash>)
    ensures Climb(below + [top], hash, path) == Some(NodeHash(left, right)) <==>
        && path != [] && path[|path| - 1] == (if top then left else right)
        && Climb(below, hash, path[..|path| - 1]) == Some(if top then right else left)
  {
    ClimbTop(below, top, hash, path);
  }

  lemma SplitRoot(entries: seq<ContentHash>) returns (k: nat, left: ContentHash, right: ContentHash)
    requires |entries| >= 2
    ensures k == SplitPoint(|entries|) && 1 <= k < |entries|
    ensures left == MerkleRoot(entries[..k]) && right == MerkleRoot(entries[k..])
    ensures MerkleRoot(entries) == NodeHash(left, right)
  {
    k := SplitPoint(|entries|);
    left, right := MerkleRoot(entries[..k]), MerkleRoot(entries[k..]);
  }

  lemma SplitPath(m: nat, entries: seq<ContentHash>, k: nat, path: seq<ContentHash>)
    requires |entries| >= 2 && k == SplitPoint(|entries|)
    ensures path == AuditPath(m, entries) <==>
      && path != []
      && path[|path| - 1] == MerkleRoot(if m < k then entries[k..] else entries[..k])
      && path[..|path| - 1] == if m < k then AuditPath(m, entries[..k]) else AuditPath(m - k, entries[k..])
  {
    if path != [] { assert path == path[..|path| - 1] + [path[|path| - 1]]; }
  }

  /** Climbing by the turns of index `m` reaches the tree head exactly when it starts from
      the leaf hash that stands there and is given exactly its audit path. */
  lemma {:induction false} ClimbExact(m: nat, entries: seq<ContentHash>, hash: ContentHash, path: seq<ContentHash>)
    requires m < |entries|
    ensures Climb(TurnsBelow(m, |entries|), hash, path) == Some(MerkleRoot(entries))
       <==> hash == LeafHash(entries[m]) && path == AuditPath(m, entries)
    decreases |entries|
  {
    if |entries| >= 2 {
      var k, left, right := SplitRoot(entries);
      SplitPath(m, entries, k, path);
      if m < k {
        TopOfTree(left, right, TurnsBelow(m, k), false, hash, path);
        if path != [] { ClimbExact(m, entries[..k], hash, path[..|path| - 1]); }
      } else {
        TopOfTree(left, right, TurnsBelow(m - k, |entries| - k), true, hash, path);
        if path != [] { ClimbExact(m - k, entries[k..], hash, path[..|path| - 1]); }
      }
    }
  }

  lemma ClimbEndsInNode(turns: seq<bool>, hash: ContentHash, path: seq<ContentHash>) returns (below: seq<bool>, top: bool)
    requires turns != [] && Climb(turns, hash, path).Some?
    ensures turns == below + [top]
    ensures exists l, r :: Climb(turns, hash, path).value == NodeHash(l, r)
  {
    below, top := turns[..|turns| - 1], turns[|turns| - 1];
    ClimbTop(below, top, hash, path);
  }

  lemma NodeOnTop(entries: seq<ContentHash>, l: ContentHash, r: ContentHash)
    requires MerkleRoot(entries) == NodeHash(l, r)
    ensures |entries| >= 2
  {
  }

  lemma LeafOnTop(entries: seq<ContentHash>, head: ContentHash)
    requires MerkleRoot(entries) == LeafHash(head)
    ensures |entries| == 1
  {
  }

  /** Whatever turns it takes, a climb from a leaf hash to a tree head took the turns of
      one of the entries. */
  lemma {:induction false} ClimbStandsAtEntry(entries: seq<ContentHash>, turns: seq<bool>, head: ContentHash, path: seq<ContentHash>)
    returns (m: nat)
    requires Climb(turns, LeafHash(head), path) == Some(MerkleRoot(entries))
    ensures m < |entries| && TurnsBelow(m, |entries|) == turns
    decreases |turns|
  {
    if turns == [] {
      LeafOnTop(entries, head);
      m := 0;
    } else {
      var below, top := ClimbEndsInNode(turns, LeafHash(head), path);
      var l, r :| MerkleRoot(entries) == NodeHash(l, r);
      NodeOnTop(entries, l, r);
      var k, left, right := SplitRoot(entries);
      TopOfTree(left, right, below, top, LeafHash(head), path);
      if top {
        var right := ClimbStandsAtEntry(entries[k..], below, head, path[..|path| - 1]);
        m := k + right;
      } else {
        m := ClimbStandsAtEntry(entries[..k], below, head, path[..|path| - 1]);
      }
    }
  }

  // ------------------------------------------------------------------------------
  // Main results.

  /** The climb of the verifier reaches a tree head of the stated size exactly when it
      starts from the leaf hash at `index` and is given exactly that entry's audit path. */
  lemma RebuildExact(index: nat, entries: seq<ContentHash>, hash: ContentHash, path: seq<ContentHash>)
    requires index < |entries|
    ensures Rebuild(index, |entries| - 1, hash, path) == Some(MerkleRoot(entries))
       <==> hash == LeafHash(entries[index]) && path == AuditPath(index, entries)
  {
    RebuildIsClimb(index, |entries| - 1, hash, path);
    TurnsFromTop(index, |entries|);
    ClimbExact(index, entries, hash, path);
  }

  /** Index `index` of `size` and index `m` of `n` stand for the same climb. */
  ghost predicate SameClimb(index: nat, size: nat, m: nat, n: nat)
    requires index < size && m < n
  {
    Turns(index, size - 1) == Turns(m, n - 1)
  }

  /** Entry `m` explains a proof: its head, its audit path, and the turns claimed. */
  ghost predicate Explains(m: nat, heads: seq<ContentHash>, head: ContentHash, proof: InclusionProof)
    requires proof.leafIndex < proof.treeSize
  {
    && m < |heads| && head == heads[m] && proof.auditPath == AuditPath(m, heads)
    && SameClimb(proof.leafIndex, proof.treeSize, m, |heads|)
  }

  lemma ClimbLike(m: nat, heads: seq<ContentHash>, head: ContentHash, turns: seq<bool>, path: seq<ContentHash>)
    requires m < |heads| && turns == TurnsBelow(m, |heads|)
    ensures Climb(turns, LeafHash(head), path) == Some(MerkleRoot(heads))
       <==> head == heads[m] && path == AuditPath(m, heads)
  {
    ClimbExact(m, heads, LeafHash(head), path);
  }

  lemma ClimbAs(m: nat, n: nat, head: ContentHash, proof: InclusionProof) returns (turns: seq<bool>)
    requires proof.leafIndex < proof.treeSize && m < n && SameClimb(proof.leafIndex, proof.treeSize, m, n)
    ensures turns == TurnsBelow(m, n)
    ensures Rebuild(proof.leafIndex, proof.treeSize - 1, LeafHash(head), proof.auditPath)
         == Climb(turns, LeafHash(head), proof.auditPath)
  {
    turns := Turns(proof.leafIndex, proof.treeSize - 1);
    RebuildIsClimb(proof.leafIndex, proof.treeSize - 1, LeafHash(head), proof.auditPath);
    TurnsFromTop(m, n);
  }

  lemma ExplainedIsAccepted(m: nat, heads: seq<ContentHash>, head: ContentHash, proof: InclusionProof)
    requires proof.leafIndex < proof.treeSize && Explains(m, heads, head, proof)
    ensures Accepts(head, proof, MerkleRoot(heads))
  {
    var turns := ClimbAs(m, |heads|, head, proof);
    ClimbLike(m, heads, head, turns, proof.auditPath);
  }

  lemma EntryOfClimb(heads: seq<ContentHash>, head: ContentHash, index: nat, size: nat, path: seq<ContentHash>) returns (m: nat)
    requires index < size && Climb(Turns(index, size - 1), LeafHash(head), path) == Some(MerkleRoot(heads))
    ensures m < |heads| && SameClimb(index, size, m, |heads|)
  {
    m := ClimbStandsAtEntry(heads, Turns(index, size - 1), head, path);
    TurnsFromTop(m, |heads|);
  }

  lemma AcceptedIsExplained(heads: seq<ContentHash>, head: ContentHash, proof: InclusionProof) returns (m: nat)
    requires Accepts(head, proof, MerkleRoot(heads))
    ensures Explains(m, heads, head, proof)
  {
    RebuildIsClimb(proof.leafIndex, proof.treeSize - 1, LeafHash(head), proof.auditPath);
    m := EntryOfClimb(heads, head, proof.leafIndex, proof.treeSize, proof.auditPath);
    var turns := ClimbAs(m, |heads|, head, proof);
    ClimbLike(m, heads, head, turns, proof.auditPath);
  }

  /** Exactly which proofs are accepted, whatever index, size and path they claim: those
      that carry the head and the audit path of some entry and claim an index and a size
      with the turns of that entry. */
  lemma AcceptedIff(heads: seq<ContentHash>, head: ContentHash, proof: InclusionProof)
    ensures Accepts(head, proof, MerkleRoot(heads))
       <==> proof.leafIndex < proof.treeSize && exists m :: Explains(m, heads, head, proof)
  {
    if Accepts(head, proof, MerkleRoot(heads)) { var m := AcceptedIsExplained(heads, head, proof); }
    if proof.leafIndex < proof.treeSize && exists m :: Explains(m, heads, head, proof) {
      var m :| Explains(m, heads, head, proof);
      ExplainedIsAccepted(m, heads, head, proof);
    }
  }

  /** Exactness: for a proof that states the true tree size, the verifier accepts if and
      only if the head is the one at the claimed index and the path is its audit path. */
  lemma InclusionExact(heads: seq<ContentHash>, head: ContentHash, proof: InclusionProof)
    requires proof.treeSize == |heads|
    ensures Accepts(head, proof, MerkleRoot(heads))
       <==> && proof.leafIndex < |heads|
            && head == heads[proof.leafIndex]
            && proof.auditPath == AuditPath(proof.leafIndex, heads)
  {
    var index := proof.leafIndex;
    if Accepts(head, proof, MerkleRoot(heads)) {
      var m := AcceptedIsExplained(heads, head, proof);
      TurnsFromTop(m, |heads|);
      TurnsFromTop(index, |heads|);
      TurnsTellIndex(m, index, |heads|);
    } else if index < |heads| && head == heads[index] && proof.auditPath == AuditPath(index, heads) {
      ExplainedIsAccepted(index, heads, head, proof);
    }
  }

  /** An accepted proof with this index and size always speaks of the head that stands at
      this index. */
  ghost predicate Trustworthy(heads: seq<ContentHash>, index: nat, size: nat) {
    forall head, path :: Accepts(head, InclusionProof(index, size, path), MerkleRoot(heads)) ==>
      index < |heads| && head == heads[index]
  }

  /** When a claimed position can be relied on: exactly when every entry with the turns that
      the claimed index and size stand for is the head at that index. */
  lemma TrustworthyIff(heads: seq<ContentHash>, index: nat, size: nat)
    requires index < size
    ensures Trustworthy(heads, index, size) <==>
      forall m :: 0 <= m < |heads| && SameClimb(index, size, m, |heads|) ==> index < |heads| && heads[m] == heads[index]
  {
    if Trustworthy(heads, index, size) {
      forall m | 0 <= m < |heads| && SameClimb(index, size, m, |heads|)
        ensures index < |heads| && heads[m] == heads[index]
      {
        ExplainedIsAccepted(m, heads, heads[m], InclusionProof(index, size, AuditPath(m, heads)));
      }
    } else {
      var head, path :| Accepts(head, InclusionProof(index, size, path), MerkleRoot(heads))
        && !(index < |heads| && head == heads[index]);
      var m := AcceptedIsExplained(heads, head, InclusionProof(index, size, path));
    }
  }

  /** The true size is always good enough. */
  lemma TrueSizeIsTrustworthy(heads: seq<ContentHash>, index: nat)
    ensures Trustworthy(heads, index, |heads|)
  {
    forall head, path | Accepts(head, InclusionProof(index, |heads|, path), MerkleRoot(heads))
      ensures index < |heads| && head == heads[index]
    {
      InclusionExact(heads, head, InclusionProof(index, |heads|, path));
    }
  }

  /** Completeness of aggregation: there is nothing to aggregate exactly when there are no
      heads; otherwise the root is the tree head, and the proof handed out for each head
      states its own index and the true size, carries its audit path, and verifies. */
  lemma AggregateVerifies(heads: seq<ContentHash>)
    ensures Aggregate(heads).None? <==> heads == []
    ensures Aggregate(heads).Some? ==>
      var a := Aggregate(heads).value;
      && a.root == MerkleRoot(heads) && |a.proofs| == |heads|
      && forall i :: 0 <= i < |heads| ==>
           && a.proofs[i].leafIndex == i && a.proofs[i].treeSize == |heads|
           && a.proofs[i].auditPath == AuditPath(i, heads) && Accepts(heads[i], a.proofs[i], a.root)
  {
    if heads != [] {
      var a := Aggregate(heads).value;
      forall i | 0 <= i < |heads| ensures Accepts(heads[i], a.proofs[i], a.root) {
        InclusionExact(heads, heads[i], a.proofs[i]);
      }
    }
  }

  /** Soundness for an untrusted proof: whatever index, size and path it claims, an
      accepted head is one of the aggregated heads. */
  lemma InclusionSound(heads: seq<ContentHash>, head: ContentHash, proof: InclusionProof)
    requires Accepts(head, proof, MerkleRoot(heads))
    ensures head in heads
  {
    var m := AcceptedIsExplained(heads, head, proof);
  }

  /** A wrong size can misplace: over three heads a proof for index 1 of two is accepted
      for the head at index 2. A size of four cannot, at any index. */
  lemma WrongSizeMisplacesIndex(a: ContentHash, b: ContentHash, c: ContentHash)
    requires b != c
    ensures Accepts(c, InclusionProof(1, 2, [MerkleRoot([a, b])]), MerkleRoot([a, b, c])) && [a, b, c][1] != c
    ensures !Trustworthy([a, b, c], 1, 2)
    ensures forall index: nat :: index < 4 ==> Trustworthy([a, b, c], index, 4)
  {
    var heads := [a, b, c];
    assert SplitPoint(3) == 2 && heads[..2] == [a, b] && heads[2..] == [c];
    assert AuditPath(2, heads) == AuditPath(0, [c]) + [MerkleRoot([a, b])] == [MerkleRoot([a, b])];
    TurnsOverThree();
    ExplainedIsAccepted(2, heads, c, InclusionProof(1, 2, [MerkleRoot([a, b])]));
    forall index: nat | index < 4 ensures Trustworthy(heads, index, 4) { TrustworthyIff(heads, index, 4); }
  }

  lemma TurnsOverThree()
    ensures Turns(2, 2) == Turns(1, 1) == [true]
    ensures forall m, index: nat :: 0 <= m < 3 && index < 4 && Turns(m, 2) == Turns(index, 3) ==> m == index
  {
    assert Turns(0, 0) == [] && Turns(0, 1) == [false] && Turns(1, 1) == [true];
    assert Turns(0, 2) == [false, false] && Turns(1, 2) == [true, false] && Turns(2, 2) == [true];
    assert Turns(0, 3) == [false, false] && Turns(1, 3) == [true, false];
    assert Turns(2, 3) == [false, true] && Turns(3, 3) == [true, true];
  }
}

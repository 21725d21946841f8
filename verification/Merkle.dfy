/** Symbolic SHA-256. A digest is the message it was computed from, so two digests are
    equal exactly when the messages are (collision freedom). A message is raw bytes, or a
    prefix byte followed by one digest (33 bytes) or by two (65 bytes). */
module Hashing {
  type U8 = b: int | 0 <= b < 256

  datatype Message =
    | Raw(bytes: seq<U8>)
    | Prefixed1(prefix: U8, digest: ContentHash)
    | Prefixed2(prefix: U8, first: ContentHash, second: ContentHash)

  datatype ContentHash = Sha256(message: Message)

  const LEAF_PREFIX: U8 := 0x00
  const NODE_PREFIX: U8 := 0x01

  function LeafHash(entry: ContentHash): ContentHash {
    Sha256(Prefixed1(LEAF_PREFIX, entry))
  }

  function NodeHash(left: ContentHash, right: ContentHash): ContentHash {
    Sha256(Prefixed2(NODE_PREFIX, left, right))
  }
}

/** The RFC 6962 tree head over evidence hashes (section 2.1). */
module Merkle {
  import opened Prelude
  import opened Hashing

  /** Largest power of two strictly below `n`, defined by halving. */
  function SplitPoint(n: nat): (k: nat)
    requires n >= 2
    ensures 1 <= k < n <= 2 * k
  {
    if n == 2 then 1 else 2 * SplitPoint((n + 1) / 2)
  }

  ghost function Pow2(e: nat): nat { if e == 0 then 1 else 2 * Pow2(e - 1) }

  ghost predicate IsPow2(k: nat) { exists e: nat :: k == Pow2(e) }

  lemma {:induction false} SplitPointIsPow2(n: nat)
    requires n >= 2
    ensures IsPow2(SplitPoint(n))
  {
    if n == 2 {
      assert 1 == Pow2(0);
    } else {
      SplitPointIsPow2((n + 1) / 2);
      var e: nat :| SplitPoint((n + 1) / 2) == Pow2(e);
      assert SplitPoint(n) == Pow2(e + 1);
    }
  }

  lemma {:induction false} Pow2Monotone(a: nat, b: nat)
    requires a < b
    ensures 2 * Pow2(a) <= Pow2(b)
  {
    if a + 1 < b { Pow2Monotone(a, b - 1); }
  }

  /** A power of two with `k < n <= 2k` is the split point: the search has one answer. */
  lemma SplitPointUnique(n: nat, k: nat)
    requires n >= 2 && IsPow2(k) && k < n <= 2 * k
    ensures k == SplitPoint(n)
  {
    SplitPointIsPow2(n);
    var a: nat :| k == Pow2(a);
    var b: nat :| SplitPoint(n) == Pow2(b);
    if a < b { Pow2Monotone(a, b); } else if b < a { Pow2Monotone(b, a); }
  }

  function SaturatingMul(a: Usize, b: Usize): Usize {
    if a * b <= USIZE_MAX then a * b else USIZE_MAX
  }

  /** The doubling loop, on a machine word with saturating multiplication, finds the
      split point of every representable size: saturation never makes it stop early. */
  method LargestPowerOfTwoBelow(n: Usize) returns (k: Usize)
    requires n >= 2
    ensures k == SplitPoint(n)
  {
    k := 1;
    ghost var e: nat := 0;
    while SaturatingMul(k, 2) < n
      invariant k == Pow2(e) && 1 <= k < n
      decreases n - k
    {
      k := SaturatingMul(k, 2);
      e := e + 1;
    }
    SplitPointUnique(n, k);
  }

  function MerkleRoot(leaves: seq<ContentHash>): ContentHash {
    if |leaves| == 0 then Sha256(Raw([]))
    else if |leaves| == 1 then LeafHash(leaves[0])
    else
      var k := SplitPoint(|leaves|);
      NodeHash(MerkleRoot(leaves[..k]), MerkleRoot(leaves[k..]))
  }

  /** Reads the leaf entries back out of a tree head, left to right. */
  function Entries(root: ContentHash): seq<ContentHash> {
    match root.message
    case Prefixed1(LEAF_PREFIX, entry) => [entry]
    case Prefixed2(NODE_PREFIX, l, r) => Entries(l) + Entries(r)
    case _ => []
  }

  /** A tree head determines its ordered entries, for every number of entries. */
  lemma {:induction false} EntriesOfRoot(leaves: seq<ContentHash>)
    ensures Entries(MerkleRoot(leaves)) == leaves
  {
    if |leaves| >= 2 {
      var k := SplitPoint(|leaves|);
      EntriesOfRoot(leaves[..k]);
      EntriesOfRoot(leaves[k..]);
      assert leaves == leaves[..k] + leaves[k..];
    }
  }

  /** Tree heads are injective on ordered lists of any two lengths. */
  lemma RootInjective(a: seq<ContentHash>, b: seq<ContentHash>)
    requires MerkleRoot(a) == MerkleRoot(b)
    ensures a == b
  {
    EntriesOfRoot(a);
    EntriesOfRoot(b);
  }

  /** Tree heads written out: the hash of nothing, prefix byte 0 before a leaf, prefix byte 1
      before two subtrees, and the larger complete subtree on the left. */
  lemma SmallTrees(a: ContentHash, b: ContentHash, c: ContentHash, d: ContentHash, e: ContentHash)
    ensures MerkleRoot([]) == Sha256(Raw([]))
    ensures MerkleRoot([a]) == Sha256(Prefixed1(0, a))
    ensures MerkleRoot([a, b]) == Sha256(Prefixed2(1, MerkleRoot([a]), MerkleRoot([b])))
    ensures MerkleRoot([a, b, c]) == Sha256(Prefixed2(1, MerkleRoot([a, b]), MerkleRoot([c])))
    ensures MerkleRoot([a, b, c, d, e]) == Sha256(Prefixed2(1,
      Sha256(Prefixed2(1, MerkleRoot([a, b]), MerkleRoot([c, d]))), MerkleRoot([e])))
  {
    assert SplitPoint(2) == 1 && SplitPoint(3) == 2 && SplitPoint(4) == 2 && SplitPoint(5) == 4;
    assert [a, b][..1] == [a] && [a, b][1..] == [b];
    assert [a, b, c][..2] == [a, b] && [a, b, c][2..] == [c];
    var four, five := [a, b, c, d], [a, b, c, d, e];
    assert four[..2] == [a, b] && four[2..] == [c, d] && five[..4] == four && five[4..] == [e];
  }
}

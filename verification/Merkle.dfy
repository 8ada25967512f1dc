/** Merkle trees over byte strings and their inclusion proofs (`crypto/merkle/simple_proof.go`,
    `crypto/merkle/simple_tree.go`, `crypto/merkle/hash.go`).

    The digest is a parameter. Nothing bounds a byte here, so a digest of fixed size without
    collisions is no contradiction. */
module Merkle {
  import opened Options

  type Byte = nat
  type Bytes = seq<Byte>
  type Digest = Bytes -> Bytes

  const DIGEST_SIZE := 32

  ghost predicate CollisionFree(d: Digest) {
    && (forall b: Bytes :: |d(b)| == DIGEST_SIZE)
    && (forall a: Bytes, b: Bytes :: d(a) == d(b) ==> a == b)
  }

  /** Leaves and inner nodes are told apart by their first byte. */
  function LeafHash(d: Digest, leaf: Bytes): Bytes {
    d([0] + leaf)
  }

  function InnerHash(d: Digest, left: Bytes, right: Bytes): Bytes {
    d([1] + (left + right))
  }

  // ----- the tree --------------------------------------------------------------------------------

  function Pow2(n: nat): (p: nat)
    ensures p > 0
  {
    if n == 0 then 1 else 2 * Pow2(n - 1)
  }

  function BitLen(n: nat): nat {
    if n == 0 then 0 else 1 + BitLen(n / 2)
  }

  lemma {:induction false} BitLenBounds(n: nat)
    requires n > 0
    ensures BitLen(n) > 0 && Pow2(BitLen(n) - 1) <= n < 2 * Pow2(BitLen(n) - 1)
  {
    if n > 1 {
      BitLenBounds(n / 2);
    }
  }

  /** The largest power of two below the length. */
  function SplitPoint(length: nat): (k: nat)
    requires length >= 2
    ensures 0 < k < length <= 2 * k
  {
    BitLenBounds(length);
    var k := Pow2(BitLen(length) - 1);
    if k == length then
      assert BitLen(length) - 1 > 0;
      k / 2
    else k
  }

  function Root(d: Digest, items: seq<Bytes>): (r: Bytes)
    decreases |items|
  {
    if items == [] then []
    else if |items| == 1 then LeafHash(d, items[0])
    else
      var k := SplitPoint(|items|);
      InnerHash(d, Root(d, items[..k]), Root(d, items[k..]))
  }

  /** The hashes beside the path from an item up to the root. */
  function Aunts(d: Digest, items: seq<Bytes>, i: nat): seq<Bytes>
    requires i < |items|
    decreases |items|
  {
    if |items| == 1 then []
    else
      var k := SplitPoint(|items|);
      if i < k then Aunts(d, items[..k], i) + [Root(d, items[k..])]
      else Aunts(d, items[k..], i - k) + [Root(d, items[..k])]
  }

  // ----- proofs ----------------------------------------------------------------------------------

  datatype Proof = Proof(total: int, index: int, leafHash: Bytes, aunts: seq<Bytes>)

  function ProofOf(d: Digest, items: seq<Bytes>, i: nat): Proof
    requires i < |items|
  {
    Proof(|items|, i, LeafHash(d, items[i]), Aunts(d, items, i))
  }

  /** None where the code returns nil. */
  function HashFromAunts(d: Digest, index: int, total: int, leafHash: Bytes, aunts: seq<Bytes>): Option<Bytes>
    decreases |aunts|
  {
    if index >= total || index < 0 || total <= 0 then None
    else if total == 1 then
      if aunts != [] then None else Some(leafHash)
    else if aunts == [] then None
    else
      var k := SplitPoint(total);
      var last := |aunts| - 1;
      if index < k then
        var left := HashFromAunts(d, index, k, leafHash, aunts[..last]);
        if left.None? then None else Some(InnerHash(d, left.value, aunts[last]))
      else
        var right := HashFromAunts(d, index - k, total - k, leafHash, aunts[..last]);
        if right.None? then None else Some(InnerHash(d, aunts[last], right.value))
  }

  /** The total is never compared with the number of items the root stands for. */
  predicate Verifies(d: Digest, root: Bytes, leaf: Bytes, p: Proof) {
    && p.total >= 0 && p.index >= 0
    && p.leafHash == LeafHash(d, leaf)
    && var computed := HashFromAunts(d, p.index, p.total, p.leafHash, p.aunts);
       (if computed.None? then [] else computed.value) == root
  }

  lemma {:induction false} AuntsRebuildRoot(d: Digest, items: seq<Bytes>, i: nat)
    requires i < |items|
    ensures HashFromAunts(d, i, |items|, LeafHash(d, items[i]), Aunts(d, items, i)) == Some(Root(d, items))
    decreases |items|
  {
    hide SplitPoint, LeafHash, InnerHash;
    if |items| > 1 {
      var k := SplitPoint(|items|);
      if i < k {
        AuntsRebuildRoot(d, items[..k], i);
        HashStep(d, i, |items|, LeafHash(d, items[i]), Aunts(d, items[..k], i), Root(d, items[k..]));
      } else {
        AuntsRebuildRoot(d, items[k..], i - k);
        HashStep(d, i, |items|, LeafHash(d, items[i]), Aunts(d, items[k..], i - k), Root(d, items[..k]));
      }
    }
  }

  lemma HashStep(d: Digest, index: nat, total: nat, leafHash: Bytes, below: seq<Bytes>, aunt: Bytes)
    requires index < total && total >= 2
    ensures var k := SplitPoint(total);
            HashFromAunts(d, index, total, leafHash, below + [aunt]) ==
              if index < k then
                var left := HashFromAunts(d, index, k, leafHash, below);
                if left.None? then None else Some(InnerHash(d, left.value, aunt))
              else
                var right := HashFromAunts(d, index - k, total - k, leafHash, below);
                if right.None? then None else Some(InnerHash(d, aunt, right.value))
  {
    hide SplitPoint, InnerHash;
    assert (below + [aunt])[..|below|] == below;
  }

  /** Every proof made for an item verifies, with any digest. */
  lemma ProofsVerify(d: Digest, items: seq<Bytes>, i: nat)
    requires i < |items|
    ensures Verifies(d, Root(d, items), items[i], ProofOf(d, items, i))
  {
    AuntsRebuildRoot(d, items, i);
  }

  // ----- what verifies ---------------------------------------------------------------------------

  /** Where the turns a proof takes by its own index and total lead in a tree of n items. */
  function Reached(n: nat, index: nat, total: nat): (r: nat)
    requires n > 0 && index < total
    ensures r < n
    decreases total
  {
    if n == 1 || total == 1 then 0
    else
      var k := SplitPoint(total);
      var split := SplitPoint(n);
      if index < k then Reached(split, index, k) else split + Reached(n - split, index - k, total - k)
  }

  lemma {:induction false} OwnTotalReachesIndex(n: nat, index: nat)
    requires index < n
    ensures Reached(n, index, n) == index
    decreases n
  {
    if n > 1 {
      var k := SplitPoint(n);
      if index < k {
        OwnTotalReachesIndex(k, index);
      } else {
        OwnTotalReachesIndex(n - k, index - k);
      }
    }
  }

  lemma RootSize(d: Digest, items: seq<Bytes>)
    requires CollisionFree(d) && items != []
    ensures |Root(d, items)| == DIGEST_SIZE
  {
  }

  lemma {:induction false} HashSize(d: Digest, index: int, total: int, leafHash: Bytes, aunts: seq<Bytes>)
    requires CollisionFree(d) && |leafHash| == DIGEST_SIZE
    requires HashFromAunts(d, index, total, leafHash, aunts).Some?
    ensures |HashFromAunts(d, index, total, leafHash, aunts).value| == DIGEST_SIZE
  {
  }

  /** One half of known size is enough to take an inner hash apart, whatever the aunt. */
  lemma InnerApart(d: Digest, left: Bytes, right: Bytes, l: Bytes, r: Bytes)
    requires CollisionFree(d) && InnerHash(d, left, right) == InnerHash(d, l, r)
    requires |l| == |r| == DIGEST_SIZE && (|left| == DIGEST_SIZE || |right| == DIGEST_SIZE)
    ensures left == l && right == r
  {
    var a, b := [1] + (left + right), [1] + (l + r);
    assert a == b;
    assert a[1..] == left + right && b[1..] == l + r;
    assert |left| == DIGEST_SIZE;
    assert left == (left + right)[..DIGEST_SIZE] && right == (left + right)[DIGEST_SIZE..];
    assert l == (l + r)[..DIGEST_SIZE] && r == (l + r)[DIGEST_SIZE..];
  }

  lemma LeafApart(d: Digest, a: Bytes, b: Bytes, left: Bytes, right: Bytes)
    requires CollisionFree(d)
    ensures LeafHash(d, a) != InnerHash(d, left, right)
    ensures LeafHash(d, a) == LeafHash(d, b) ==> a == b
  {
    assert ([0] + a)[0] != ([1] + (left + right))[0];
    assert ([0] + a)[1..] == a && ([0] + b)[1..] == b;
  }

  /** A path to a root that takes a turn comes up from the half of the items on that side. */
  lemma PathTurns(d: Digest, items: seq<Bytes>, index: int, total: int, leafHash: Bytes, aunts: seq<Bytes>)
    requires CollisionFree(d) && items != [] && |leafHash| == DIGEST_SIZE && total >= 2
    requires HashFromAunts(d, index, total, leafHash, aunts) == Some(Root(d, items))
    ensures 0 <= index < total && aunts != [] && |items| >= 2
    ensures var k, split, below := SplitPoint(total), SplitPoint(|items|), aunts[..|aunts| - 1];
            if index < k then HashFromAunts(d, index, k, leafHash, below) == Some(Root(d, items[..split]))
                              && aunts[|aunts| - 1] == Root(d, items[split..])
            else HashFromAunts(d, index - k, total - k, leafHash, below) == Some(Root(d, items[split..]))
                 && aunts[|aunts| - 1] == Root(d, items[..split])
  {
    hide SplitPoint, LeafHash, InnerHash;
    var k, below, aunt := SplitPoint(total), aunts[..|aunts| - 1], aunts[|aunts| - 1];
    assert aunts == below + [aunt];
    HashStep(d, index, total, leafHash, below, aunt);
    var down := if index < k then HashFromAunts(d, index, k, leafHash, below)
                else HashFromAunts(d, index - k, total - k, leafHash, below);
    var left, right := if index < k then down.value else aunt, if index < k then aunt else down.value;
    if |items| == 1 {
      LeafApart(d, items[0], [], left, right);
    }
    var split := SplitPoint(|items|);
    RootSize(d, items[..split]);
    RootSize(d, items[split..]);
    if index < k {
      HashSize(d, index, k, leafHash, below);
    } else {
      HashSize(d, index - k, total - k, leafHash, below);
    }
    InnerApart(d, left, right, Root(d, items[..split]), Root(d, items[split..]));
  }

  /** Whatever leads to the root of some items is the hash of the item the proof's turns lead to. */
  lemma {:induction false} PathLeads(d: Digest, items: seq<Bytes>, index: int, total: int, leaf: Bytes, aunts: seq<Bytes>)
    requires CollisionFree(d) && items != []
    requires HashFromAunts(d, index, total, LeafHash(d, leaf), aunts) == Some(Root(d, items))
    ensures 0 <= index < total && leaf == items[Reached(|items|, index, total)]
    decreases |aunts|
  {
    hide SplitPoint, LeafHash, InnerHash, CollisionFree;
    if total >= 2 {
      LeafSize(d, leaf);
      PathTurns(d, items, index, total, LeafHash(d, leaf), aunts);
      var k, split, below := SplitPoint(total), SplitPoint(|items|), aunts[..|aunts| - 1];
      if index < k {
        PathLeads(d, items[..split], index, k, leaf, below);
      } else {
        PathLeads(d, items[split..], index - k, total - k, leaf, below);
      }
    } else if |items| == 1 {
      LeafApart(d, leaf, items[0], [], []);
    } else {
      var split := SplitPoint(|items|);
      LeafApart(d, leaf, leaf, Root(d, items[..split]), Root(d, items[split..]));
    }
  }

  lemma LeafSize(d: Digest, leaf: Bytes)
    requires CollisionFree(d)
    ensures |LeafHash(d, leaf)| == DIGEST_SIZE
  {
  }

  /** With a digest without collisions, what a proof verifies is the item its turns lead to, whatever
      index and total it claims. */
  lemma VerifiedItem(d: Digest, items: seq<Bytes>, leaf: Bytes, p: Proof)
    requires CollisionFree(d) && items != [] && Verifies(d, Root(d, items), leaf, p)
    ensures 0 <= p.index < p.total && leaf == items[Reached(|items|, p.index, p.total)]
  {
    RootSize(d, items);
    PathLeads(d, items, p.index, p.total, leaf, p.aunts);
  }

  lemma {:induction false} OwnTotalPath(d: Digest, items: seq<Bytes>, index: nat, leafHash: Bytes, aunts: seq<Bytes>)
    requires CollisionFree(d) && |leafHash| == DIGEST_SIZE && index < |items|
    requires HashFromAunts(d, index, |items|, leafHash, aunts) == Some(Root(d, items))
    ensures aunts == Aunts(d, items, index)
    decreases |items|
  {
    hide SplitPoint, LeafHash, InnerHash, CollisionFree;
    if |items| >= 2 {
      PathTurns(d, items, index, |items|, leafHash, aunts);
      var k, below := SplitPoint(|items|), aunts[..|aunts| - 1];
      assert aunts == below + [aunts[|aunts| - 1]];
      if index < k {
        OwnTotalPath(d, items[..k], index, leafHash, below);
      } else {
        OwnTotalPath(d, items[k..], index - k, leafHash, below);
      }
    }
  }

  /** A proof that claims the tree's own total verifies exactly when it is the one made for the item at
      its index. */
  lemma OwnTotalVerifiesExactly(d: Digest, items: seq<Bytes>, leaf: Bytes, p: Proof)
    requires CollisionFree(d) && items != [] && p.total == |items|
    ensures Verifies(d, Root(d, items), leaf, p)
            <==> 0 <= p.index < |items| && leaf == items[p.index] && p == ProofOf(d, items, p.index)
  {
    if Verifies(d, Root(d, items), leaf, p) {
      VerifiedItem(d, items, leaf, p);
      OwnTotalReachesIndex(|items|, p.index);
      RootSize(d, items);
      LeafSize(d, leaf);
      OwnTotalPath(d, items, p.index, p.leafHash, p.aunts);
    } else if 0 <= p.index < |items| {
      ProofsVerify(d, items, p.index);
    }
  }

  /** With another total a proof may verify an item that is not at its index: of three items the last
      one is verified as the second of two. */
  function LastOfThree(d: Digest, a: Bytes, b: Bytes, c: Bytes): Proof {
    Proof(2, 1, LeafHash(d, c), [InnerHash(d, LeafHash(d, a), LeafHash(d, b))])
  }

  lemma OtherTotalVerifies(d: Digest, a: Bytes, b: Bytes, c: Bytes)
    ensures Verifies(d, Root(d, [a, b, c]), c, LastOfThree(d, a, b, c))
    ensures Reached(3, 1, 2) == 2
  {
    hide LeafHash, InnerHash;
    Splits();
    var items := [a, b, c];
    assert items[..2] == [a, b] && items[2..] == [c];
    assert [a, b][..1] == [a] && [a, b][1..] == [b];
    assert Root(d, [a, b]) == InnerHash(d, LeafHash(d, a), LeafHash(d, b));
    var p := LastOfThree(d, a, b, c);
    HashStep(d, 1, 2, p.leafHash, [], p.aunts[0]);
    assert p.aunts == [] + [p.aunts[0]];
  }

  lemma Splits()
    ensures SplitPoint(2) == 1 && SplitPoint(3) == 2
  {
    assert BitLen(1) == 1 && BitLen(2) == 2 && BitLen(3) == 2;
    assert Pow2(1) == 2;
  }

  // ----- digests without collisions exist --------------------------------------------------------

  /** An odd number doubled x times. */
  function Doubled(x: nat, a: nat): (r: nat)
    ensures r > 0
  {
    if x == 0 then 2 * a + 1 else 2 * Doubled(x - 1, a)
  }

  lemma {:induction false} DoubledApart(x: nat, a: nat, y: nat, b: nat)
    requires Doubled(x, a) == Doubled(y, b)
    ensures x == y && a == b
  {
    if x > 0 && y > 0 {
      DoubledApart(x - 1, a, y - 1, b);
    }
  }

  /** One number for a list of numbers. */
  function Numbered(b: Bytes): nat {
    if b == [] then 0 else Doubled(b[0], Numbered(b[1..]))
  }

  lemma {:induction false} NumbersApart(a: Bytes, b: Bytes)
    requires Numbered(a) == Numbered(b)
    ensures a == b
  {
    if a != [] && b != [] {
      DoubledApart(a[0], Numbered(a[1..]), b[0], Numbered(b[1..]));
      NumbersApart(a[1..], b[1..]);
      assert a == [a[0]] + a[1..] && b == [b[0]] + b[1..];
    }
  }

  function IdealDigest(b: Bytes): Bytes {
    [Numbered(b)] + seq(DIGEST_SIZE - 1, i => 0)
  }

  lemma IdealDigestIsCollisionFree()
    ensures CollisionFree(IdealDigest)
  {
    forall a: Bytes, b: Bytes | IdealDigest(a) == IdealDigest(b)
      ensures a == b
    {
      assert IdealDigest(a)[0] == Numbered(a) && IdealDigest(b)[0] == Numbered(b);
      NumbersApart(a, b);
    }
  }
}

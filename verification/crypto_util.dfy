/**
 * The hashing primitives of the chain. SHA-256 is modelled as an ideal hash: a digest
 * is a term that records what was hashed, so two digests are equal exactly when their
 * preimages are. `Raw` is any other text a peer may put where a hash is expected.
 */
module CryptoUtil {

  datatype Digest =
    | OfEmpty
    | OfTransaction(sender: string, to: string, amount: int, fee: int, timestamp: int)
    | OfPair(left: Digest, right: Digest)
    | OfHeader(index: int, previous: Digest, minedAt: int, merkle: Digest, nonce: int, difficulty: int)
    | Raw(text: string)

  /** One level of the tree: neighbours are hashed together, an odd last node with itself. */
  function Parents(level: seq<Digest>): (next: seq<Digest>)
    ensures |next| == (|level| + 1) / 2
  {
    if |level| == 0 then []
    else if |level| == 1 then [OfPair(level[0], level[0])]
    else [OfPair(level[0], level[1])] + Parents(level[2..])
  }

  function MerkleRoot(hashes: seq<Digest>): Digest
    decreases |hashes|
  {
    if |hashes| == 0 then OfEmpty
    else if |hashes| == 1 then hashes[0]
    else MerkleRoot(Parents(hashes))
  }

  /** Node k of the next level is made of nodes 2k and 2k+1, the last node standing in for a missing one. */
  lemma {:induction false} ParentsAt(level: seq<Digest>, k: nat)
    requires k < |Parents(level)|
    ensures 2 * k < |level|
    ensures Parents(level)[k] ==
            OfPair(level[2 * k], if 2 * k + 1 < |level| then level[2 * k + 1] else level[2 * k])
  {
    if k > 0 {
      ParentsAt(level[2..], k - 1);
    }
  }

  /** The inner loop of the source: one pass over a level. */
  method NextLevel(level: seq<Digest>) returns (next: seq<Digest>)
    ensures next == Parents(level)
  {
    ghost var parents := Parents(level);
    next := [];
    var i := 0;
    while i < |level|
      invariant i == 2 * |next| && |next| <= |parents|
      invariant forall k :: 0 <= k < |next| ==> next[k] == parents[k]
    {
      ParentsAt(level, |next|);
      var left := level[i];
      var right := if i + 1 < |level| then level[i + 1] else left;
      next := next + [OfPair(left, right)];
      i := i + 2;
    }
  }

  method ComputeMerkleRoot(txHashes: seq<Digest>) returns (root: Digest)
    ensures root == MerkleRoot(txHashes)
  {
    if |txHashes| == 0 {
      return OfEmpty;
    }
    var level := txHashes;
    while |level| > 1
      invariant |level| >= 1
      invariant MerkleRoot(level) == MerkleRoot(txHashes)
      decreases |level|
    {
      level := NextLevel(level);
    }
    root := level[0];
  }

  lemma {:induction false} ParentsInjective(a: seq<Digest>, b: seq<Digest>)
    requires |a| == |b| && Parents(a) == Parents(b)
    ensures a == b
  {
    forall i | 0 <= i < |a|
      ensures a[i] == b[i]
    {
      ParentsAt(a, i / 2);
      ParentsAt(b, i / 2);
    }
  }

  /** The root commits to the whole list, among lists of one length. */
  lemma {:induction false} MerkleRootInjective(a: seq<Digest>, b: seq<Digest>)
    requires |a| == |b| && MerkleRoot(a) == MerkleRoot(b)
    ensures a == b
    decreases |a|
  {
    if |a| > 1 {
      MerkleRootInjective(Parents(a), Parents(b));
      ParentsInjective(a, b);
    }
  }

  /** Among lists of different lengths it does not: an odd list and the same list with its last hash repeated agree. */
  lemma {:induction false} MerkleRootDuplicatesLast(a: seq<Digest>)
    requires |a| > 1 && |a| % 2 == 1
    ensures MerkleRoot(a) == MerkleRoot(a + [a[|a| - 1]])
  {
    var b := a + [a[|a| - 1]];
    forall k | 0 <= k < |Parents(a)|
      ensures Parents(a)[k] == Parents(b)[k]
    {
      ParentsAt(a, k);
      ParentsAt(b, k);
    }
    assert Parents(a) == Parents(b);
  }

  // ---- Exactly which lists share a root ----

  /** One level of padding: neighbouring blocks are joined, an odd last block with a copy of itself. */
  function Join(blocks: seq<seq<Digest>>): (next: seq<seq<Digest>>)
    ensures |next| == (|blocks| + 1) / 2
  {
    if |blocks| == 0 then []
    else if |blocks| == 1 then [blocks[0] + blocks[0]]
    else [blocks[0] + blocks[1]] + Join(blocks[2..])
  }

  function JoinAll(blocks: seq<seq<Digest>>): seq<Digest>
    decreases |blocks|
  {
    if |blocks| == 0 then []
    else if |blocks| == 1 then blocks[0]
    else JoinAll(Join(blocks))
  }

  function Singles(a: seq<Digest>): (blocks: seq<seq<Digest>>)
    ensures |blocks| == |a|
    ensures forall i :: 0 <= i < |a| ==> blocks[i] == [a[i]]
  {
    seq(|a|, i requires 0 <= i < |a| => [a[i]])
  }

  /** The list padded level by level: while there is an odd number of blocks, the last one is repeated. */
  function Padded(a: seq<Digest>): seq<Digest> {
    JoinAll(Singles(a))
  }

  /** A hash of transactions, as opposed to a hash of two hashes or the root of nothing. */
  predicate IsLeaf(d: Digest) {
    !d.OfPair? && !d.OfEmpty?
  }

  function LeavesOf(d: Digest): seq<Digest> {
    match d
    case OfPair(l, r) => LeavesOf(l) + LeavesOf(r)
    case _ => [d]
  }

  function LeafBlocks(level: seq<Digest>): (blocks: seq<seq<Digest>>)
    ensures |blocks| == |level|
    ensures forall i :: 0 <= i < |level| ==> blocks[i] == LeavesOf(level[i])
  {
    seq(|level|, i requires 0 <= i < |level| => LeavesOf(level[i]))
  }

  lemma {:induction false} ParentsJoin(level: seq<Digest>)
    ensures LeafBlocks(Parents(level)) == Join(LeafBlocks(level))
  {
    var blocks := LeafBlocks(level);
    if |level| == 1 {
      assert LeafBlocks(Parents(level)) == [LeavesOf(level[0]) + LeavesOf(level[0])];
    } else if |level| > 1 {
      ParentsJoin(level[2..]);
      assert blocks[2..] == LeafBlocks(level[2..]);
      var next := Parents(level);
      assert LeafBlocks(next) == [LeavesOf(next[0])] + LeafBlocks(next[1..]);
      assert next[1..] == Parents(level[2..]);
    }
  }

  /** The leaves of the tree are the padded list. */
  lemma {:induction false} LeavesOfRoot(level: seq<Digest>)
    requires |level| > 0
    ensures LeavesOf(MerkleRoot(level)) == JoinAll(LeafBlocks(level))
    decreases |level|
  {
    if |level| > 1 {
      LeavesOfRoot(Parents(level));
      ParentsJoin(level);
    }
  }

  lemma {:induction false} RootOfLeaves(a: seq<Digest>)
    requires |a| > 0 && forall i :: 0 <= i < |a| ==> IsLeaf(a[i])
    ensures LeavesOf(MerkleRoot(a)) == Padded(a)
  {
    LeavesOfRoot(a);
    var singles := Singles(a);
    assert LeafBlocks(a) == singles;
  }

  /** A tree all of whose leaves lie `h` levels down. */
  predicate Perfect(d: Digest, h: nat) {
    if h == 0 then IsLeaf(d) else d.OfPair? && Perfect(d.left, h - 1) && Perfect(d.right, h - 1)
  }

  function Pow2(n: nat): (p: nat)
    ensures p >= 1
  {
    if n == 0 then 1 else 2 * Pow2(n - 1)
  }

  lemma {:induction false} Pow2Grows(m: nat, n: nat)
    requires m < n
    ensures Pow2(m) < Pow2(n)
  {
    if m + 1 < n {
      Pow2Grows(m, n - 1);
    }
  }

  lemma {:induction false} PerfectSize(d: Digest, h: nat)
    requires Perfect(d, h)
    ensures |LeavesOf(d)| == Pow2(h)
    decreases h
  {
    if h > 0 {
      PerfectSize(d.left, h - 1);
      PerfectSize(d.right, h - 1);
    }
  }

  lemma SameHalves(a: seq<Digest>, b: seq<Digest>, c: seq<Digest>, d: seq<Digest>)
    requires |a| == |c| && a + b == c + d
    ensures a == c && b == d
  {
    assert (a + b)[..|a|] == a && (c + d)[..|c|] == c;
    assert (a + b)[|a|..] == b && (c + d)[|c|..] == d;
  }

  lemma {:induction false} PerfectFromLeaves(x: Digest, y: Digest, h: nat)
    requires Perfect(x, h) && Perfect(y, h) && LeavesOf(x) == LeavesOf(y)
    ensures x == y
    decreases h
  {
    if h > 0 {
      PerfectSize(x.left, h - 1);
      PerfectSize(y.left, h - 1);
      SameHalves(LeavesOf(x.left), LeavesOf(x.right), LeavesOf(y.left), LeavesOf(y.right));
      PerfectFromLeaves(x.left, y.left, h - 1);
      PerfectFromLeaves(x.right, y.right, h - 1);
    } else {
      assert LeavesOf(x)[0] == LeavesOf(y)[0];
    }
  }

  /** Every level of the tree is a row of perfect trees, so the root is one. */
  lemma {:induction false} RootIsPerfect(level: seq<Digest>, h: nat) returns (k: nat)
    requires |level| > 0 && forall i :: 0 <= i < |level| ==> Perfect(level[i], h)
    ensures Perfect(MerkleRoot(level), k)
    decreases |level|
  {
    if |level| == 1 {
      k := h;
    } else {
      var next := Parents(level);
      forall i | 0 <= i < |next|
        ensures Perfect(next[i], h + 1)
      {
        ParentsAt(level, i);
      }
      k := RootIsPerfect(next, h + 1);
    }
  }

  lemma {:induction false} EmptyRootIsAlone(a: seq<Digest>)
    requires |a| > 0 && forall i :: 0 <= i < |a| ==> IsLeaf(a[i])
    ensures MerkleRoot(a) != MerkleRoot([]) && Padded(a) != Padded([])
  {
    RootOfLeaves(a);
    var k := RootIsPerfect(a, 0);
    PerfectSize(MerkleRoot(a), k);
  }

  /**
   * Two lists of transaction hashes share a root exactly if padding makes them the same list;
   * PaddedExtends says what padding does to a list.
   */
  lemma {:induction false} RootsAgreeExactlyWhenPaddingAgrees(a: seq<Digest>, b: seq<Digest>)
    requires forall i :: 0 <= i < |a| ==> IsLeaf(a[i])
    requires forall i :: 0 <= i < |b| ==> IsLeaf(b[i])
    ensures MerkleRoot(a) == MerkleRoot(b) <==> Padded(a) == Padded(b)
  {
    if |a| == 0 || |b| == 0 {
      if |a| > 0 {
        EmptyRootIsAlone(a);
        assert b == [];
      } else if |b| > 0 {
        EmptyRootIsAlone(b);
        assert a == [];
      } else {
        assert a == b;
      }
    } else {
      RootOfLeaves(a);
      RootOfLeaves(b);
      if Padded(a) == Padded(b) {
        var h := RootIsPerfect(a, 0);
        var k := RootIsPerfect(b, 0);
        SameHeight(MerkleRoot(a), h, MerkleRoot(b), k);
        PerfectFromLeaves(MerkleRoot(a), MerkleRoot(b), h);
      }
    }
  }

  lemma {:induction false} SameHeight(x: Digest, h: nat, y: Digest, k: nat)
    requires Perfect(x, h) && Perfect(y, k) && |LeavesOf(x)| == |LeavesOf(y)|
    ensures h == k
  {
    PerfectSize(x, h);
    PerfectSize(y, k);
    if h < k {
      Pow2Grows(h, k);
    } else if k < h {
      Pow2Grows(k, h);
    }
  }

  /** What padding keeps: the list is where it was, and what is added repeats it up to a power of two. */
  lemma {:induction false} JoinAllExtends(blocks: seq<seq<Digest>>, size: nat) returns (k: nat)
    requires |blocks| > 0 && forall i :: 0 <= i < |blocks| ==> |blocks[i]| == size
    ensures |JoinAll(blocks)| == Pow2(k) * size && Flat(blocks) <= JoinAll(blocks)
    ensures forall d :: d in JoinAll(blocks) ==> d in Flat(blocks)
    decreases |blocks|
  {
    if |blocks| == 1 {
      k := 0;
      assert blocks[1..] == [];
    } else {
      var next := Join(blocks);
      JoinExtends(blocks, size);
      var m := JoinAllExtends(next, 2 * size);
      k := m + 1;
      Regrouped(Pow2(m), size);
    }
  }

  lemma Regrouped(p: nat, size: nat)
    ensures p * (2 * size) == 2 * p * size
  {
  }

  function Flat(blocks: seq<seq<Digest>>): seq<Digest> {
    if |blocks| == 0 then [] else blocks[0] + Flat(blocks[1..])
  }

  lemma {:induction false} JoinExtends(blocks: seq<seq<Digest>>, size: nat)
    requires forall i :: 0 <= i < |blocks| ==> |blocks[i]| == size
    ensures forall i :: 0 <= i < |Join(blocks)| ==> |Join(blocks)[i]| == 2 * size
    ensures Flat(blocks) <= Flat(Join(blocks))
    ensures forall d :: d in Flat(Join(blocks)) ==> d in Flat(blocks)
  {
    if |blocks| == 1 {
      assert blocks[1..] == [] && Join(blocks)[1..] == [];
    } else if |blocks| > 1 {
      JoinExtends(blocks[2..], size);
      assert blocks[1..][1..] == blocks[2..];
      assert Join(blocks)[1..] == Join(blocks[2..]);
      assert Flat(blocks) == blocks[0] + blocks[1] + Flat(blocks[2..]);
    }
  }

  lemma {:induction false} FlatSingles(a: seq<Digest>)
    ensures Flat(Singles(a)) == a
  {
    var singles := Singles(a);
    if |a| > 0 {
      FlatSingles(a[1..]);
      assert singles[1..] == Singles(a[1..]);
    }
  }

  lemma PaddedExtends(a: seq<Digest>) returns (k: nat)
    requires |a| > 0
    ensures |Padded(a)| == Pow2(k) && a <= Padded(a)
    ensures forall d :: d in Padded(a) ==> d in a
  {
    FlatSingles(a);
    k := JoinAllExtends(Singles(a), 1);
  }

  /** Even lists collide too: six hashes, and the same six with the last two repeated. */
  lemma {:induction false} SixAndEightAgree(a: seq<Digest>)
    requires |a| == 6
    ensures MerkleRoot(a) == MerkleRoot(a + a[4..])
  {
    var b := a + a[4..];
    var pa, pb := Parents(a), Parents(b);
    forall k | 0 <= k < 4
      ensures pb[k] == if k < 3 then pa[k] else pa[2]
    {
      ParentsAt(b, k);
      ParentsAt(a, if k < 3 then k else 2);
    }
    assert pb == pa + [pa[2]];
    MerkleRootDuplicatesLast(pa);
  }
}

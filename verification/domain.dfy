/** Transactions and blocks, and when they are valid (src/blockchain/domain). */
module Domain {
  import opened Wrappers
  import opened CryptoUtil

  datatype Transaction = Transaction(
    id: string,
    from: Option<string>,
    to: string,
    amount: int,
    fee: int,
    timestamp: int,
    signature: Option<string>)

  /** A block as it is stored and as it travels: its own hash and root are claims to be checked. */
  datatype Block = Block(
    index: int,
    timestamp: int,
    previousHash: Digest,
    hash: Digest,
    merkleRoot: Digest,
    nonce: int,
    difficulty: int,
    miner: Option<string>,
    transactions: seq<Transaction>)

  /** The two things only real cryptography can answer: leading zeros of a hash, and whether a signature verifies. */
  datatype Crypto = Crypto(zeros: Digest -> nat, verify: (string, Digest, string) -> bool)

  function TxHash(t: Transaction): Digest {
    OfTransaction(t.from.GetOr("COINBASE"), t.to, t.amount, t.fee, t.timestamp)
  }

  predicate ValidTx(c: Crypto, t: Transaction) {
    t.from.None? ||
    (&& t.signature.Some? && t.signature.value != ""
     && t.amount > 0 && t.fee >= 0
     && t.from.value != t.to
     && c.verify(t.from.value, TxHash(t), t.signature.value))
  }

  function TxHashes(ts: seq<Transaction>): (r: seq<Digest>)
    ensures |r| == |ts|
    ensures forall i :: 0 <= i < |r| ==> r[i] == TxHash(ts[i])
  {
    seq(|ts|, i requires 0 <= i < |ts| => TxHash(ts[i]))
  }

  function HeaderHash(b: Block): Digest {
    OfHeader(b.index, b.previousHash, b.timestamp, b.merkleRoot, b.nonce, b.difficulty)
  }

  /** A negative difficulty makes the source's repeat() throw; its callers treat that like a failed proof. */
  predicate MeetsTarget(c: Crypto, hash: Digest, difficulty: int) {
    0 <= difficulty <= c.zeros(hash)
  }

  /** What the receiving side recomputes from a snapshot before it trusts it. */
  function Rebuild(b: Block): Block {
    var withRoot := b.(merkleRoot := MerkleRoot(TxHashes(b.transactions)));
    withRoot.(hash := HeaderHash(withRoot))
  }

  predicate ValidTransactions(c: Crypto, ts: seq<Transaction>) {
    forall i :: 0 <= i < |ts| ==> ValidTx(c, ts[i])
  }

  /** The block claims exactly what rebuilding it yields, its hash meets its own difficulty, its transactions are valid. */
  predicate ValidBlock(c: Crypto, b: Block) {
    && Rebuild(b) == b
    && MeetsTarget(c, b.hash, b.difficulty)
    && ValidTransactions(c, b.transactions)
  }

  predicate HasNonce(c: Crypto, b: Block, nonce: nat) {
    MeetsTarget(c, HeaderHash(b.(nonce := nonce)), b.difficulty)
  }

  ghost predicate Minable(c: Crypto, b: Block) {
    exists n: nat :: HasNonce(c, b, n)
  }

  /**
   * Proof of work. The search ends when some nonce meets the target, and then it returns
   * the least one: two nodes that start from the same block mine the same block.
   */
  method Mine(c: Crypto, unmined: Block) returns (mined: Block, iterations: nat)
    requires unmined.nonce == 0 && unmined.hash == HeaderHash(unmined)
    requires Minable(c, unmined)
    ensures mined == unmined.(nonce := iterations).(hash := mined.hash)
    ensures mined.hash == HeaderHash(mined)
    ensures HasNonce(c, unmined, iterations)
    ensures forall n: nat :: n < iterations ==> !HasNonce(c, unmined, n)
  {
    ghost var enough: nat :| HasNonce(c, unmined, enough);
    mined := unmined;
    iterations := 0;
    while !MeetsTarget(c, mined.hash, mined.difficulty)
      invariant mined == unmined.(nonce := iterations).(hash := mined.hash)
      invariant mined.hash == HeaderHash(mined)
      invariant forall n: nat :: n < iterations ==> !HasNonce(c, unmined, n)
      invariant iterations <= enough
      decreases enough - iterations
    {
      assert HeaderHash(unmined.(nonce := iterations)) == mined.hash;
      mined := mined.(nonce := mined.nonce + 1);
      iterations := iterations + 1;
      mined := mined.(hash := HeaderHash(mined));
    }
    assert HeaderHash(unmined.(nonce := iterations)) == mined.hash;
  }
}

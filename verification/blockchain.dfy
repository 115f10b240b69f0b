/** The stored chain and mempool of one node (src/blockchain/blockchain.service.ts). */
module Blockchain {
  import opened Wrappers
  import opened CryptoUtil
  import opened Domain

  const GENESIS_TIMESTAMP := 1700000000000
  const PREMINE := 1_000_000
  const ZERO_HASH := Raw("0000000000000000000000000000000000000000000000000000000000000000")

  datatype Config = Config(crypto: Crypto, difficulty: nat, miningReward: int, premineTo: Option<string>)

  /** The block and transaction tables: the chain with each block's transactions, and the pending rows. */
  datatype Store = Store(chain: seq<Block>, mempool: seq<Transaction>)

  datatype AppendStatus = Accepted | Ignored | Mismatch | Rejected
  datatype ReplaceStatus = Replaced | NotLonger | BadChain
  datatype AddStatus = Added | AlreadyKnown | BadTransaction
  datatype SubmitStatus = Submitted | InvalidTransaction | InsufficientFunds(available: int, cost: int)

  // ---- Genesis ----

  function GenesisTransactions(cfg: Config): seq<Transaction> {
    match cfg.premineTo
    case None => []
    case Some(a) => [Transaction("genesis-premine", None, a, PREMINE, 0, GENESIS_TIMESTAMP, None)]
  }

  function UnminedGenesis(cfg: Config): Block {
    Rebuild(Block(0, GENESIS_TIMESTAMP, ZERO_HASH, OfEmpty, OfEmpty, 0, cfg.difficulty, None, GenesisTransactions(cfg)))
  }

  ghost predicate IsGenesis(cfg: Config, b: Block) {
    var unmined := UnminedGenesis(cfg);
    && b.nonce >= 0
    && b == Rebuild(unmined.(nonce := b.nonce))
    && HasNonce(cfg.crypto, unmined, b.nonce)
    && forall n: nat :: n < b.nonce ==> !HasNonce(cfg.crypto, unmined, n)
  }

  /** Block 0 is the same on every node that shares the configuration. */
  lemma GenesisIsUnique(cfg: Config, a: Block, b: Block)
    requires IsGenesis(cfg, a) && IsGenesis(cfg, b)
    ensures a == b
  {
    var unmined := UnminedGenesis(cfg);
    assert HasNonce(cfg.crypto, unmined, a.nonce) && HasNonce(cfg.crypto, unmined, b.nonce);
  }

  lemma GenesisIsValid(cfg: Config, b: Block)
    requires IsGenesis(cfg, b)
    ensures ValidBlock(cfg.crypto, b) && b.index == 0
  {
    var unmined := UnminedGenesis(cfg);
    assert HeaderHash(unmined.(nonce := b.nonce)) == b.hash;
  }

  // ---- Validity of chains ----

  /** The check made on a chain received from the network: only the first index is looked at. */
  predicate ValidSnapshots(c: Crypto, snaps: seq<Block>) {
    && (|snaps| > 0 ==> snaps[0].index == 0)
    && (forall i :: 0 <= i < |snaps| ==> ValidBlock(c, snaps[i]))
    && (forall i :: 0 < i < |snaps| ==> snaps[i].previousHash == snaps[i - 1].hash)
  }

  lemma NextSnapshot(c: Crypto, snaps: seq<Block>, i: nat)
    requires i < |snaps| && ValidSnapshots(c, snaps[..i])
    ensures ValidSnapshots(c, snaps[..i + 1]) <==>
              && (i == 0 ==> snaps[i].index == 0) && ValidBlock(c, snaps[i])
              && (i > 0 ==> snaps[i].previousHash == snaps[i - 1].hash)
    ensures ValidSnapshots(c, snaps) ==> ValidSnapshots(c, snaps[..i + 1])
  {
    var shorter, longer := snaps[..i], snaps[..i + 1];
    assert longer == shorter + [snaps[i]];
    if ValidSnapshots(c, longer) {
      assert longer[0].index == 0 && ValidBlock(c, longer[i]) && (i > 0 ==> longer[i].previousHash == longer[i - 1].hash);
    }
  }

  /** What the chains of honest nodes satisfy besides: they start at one genesis block and number their blocks consecutively. */
  predicate HonestChain(c: Crypto, genesis: Block, chain: seq<Block>) {
    && |chain| >= 1
    && chain[0] == genesis
    && ValidSnapshots(c, chain)
    && forall i :: 0 <= i < |chain| ==> chain[i].index == i
  }

  lemma HonestChainGrows(c: Crypto, genesis: Block, chain: seq<Block>, b: Block)
    requires HonestChain(c, genesis, chain) && ValidBlock(c, b)
    requires b.index == |chain| && b.previousHash == chain[|chain| - 1].hash
    ensures HonestChain(c, genesis, chain + [b])
  {
    var longer := chain + [b];
    assert forall i :: 0 <= i < |chain| ==> longer[i] == chain[i];
    assert longer[|chain|] == b;
  }

  function RebuildAll(snaps: seq<Block>): (r: seq<Block>)
    ensures |r| == |snaps|
    ensures forall i :: 0 <= i < |r| ==> r[i] == Rebuild(snaps[i])
  {
    seq(|snaps|, i requires 0 <= i < |snaps| => Rebuild(snaps[i]))
  }

  /** Storing the rebuilt blocks of a chain that passed validation stores the chain itself. */
  lemma RebuildAllIsIdentity(c: Crypto, snaps: seq<Block>)
    requires ValidSnapshots(c, snaps)
    ensures RebuildAll(snaps) == snaps
  {
    forall i | 0 <= i < |snaps|
      ensures RebuildAll(snaps)[i] == snaps[i]
    {
      assert ValidBlock(c, snaps[i]);
    }
  }

  function WithId(b: Block, i: nat, id: string): Block
    requires i < |b.transactions|
  {
    b.(transactions := b.transactions[i := b.transactions[i].(id := id)])
  }

  /** No hash covers a transaction id: any id in a valid chain may be exchanged for any other, such as one that occurs in an earlier block. */
  lemma IdsAreNotHashed(c: Crypto, chain: seq<Block>, k: nat, i: nat, id: string)
    requires ValidSnapshots(c, chain) && k < |chain| && i < |chain[k].transactions|
    ensures ValidSnapshots(c, chain[k := WithId(chain[k], i, id)])
    ensures WithId(chain[k], i, id).hash == chain[k].hash == HeaderHash(WithId(chain[k], i, id))
  {
    var changed := WithId(chain[k], i, id);
    assert ValidBlock(c, chain[k]);
    assert TxHashes(changed.transactions) == TxHashes(chain[k].transactions);
    assert ValidBlock(c, changed);
  }

  lemma SameRootSamePadding(a: Block, b: Block)
    requires MerkleRoot(TxHashes(a.transactions)) == MerkleRoot(TxHashes(b.transactions))
    ensures Padded(TxHashes(a.transactions)) == Padded(TxHashes(b.transactions))
  {
    RootsAgreeExactlyWhenPaddingAgrees(TxHashes(a.transactions), TxHashes(b.transactions));
  }

  /**
   * With an ideal hash the tip commits to every header below it: two valid chains of one
   * length and one tip hash agree on every block header, and on the transaction hashes of each
   * block up to the padding of its tree; with equally many transactions, altogether.
   */
  lemma {:induction false} TipCommitsToChain(c: Crypto, a: seq<Block>, b: seq<Block>, k: nat)
    requires ValidSnapshots(c, a) && ValidSnapshots(c, b)
    requires k < |a| == |b| && a[|a| - 1].hash == b[|b| - 1].hash
    ensures a[k].hash == b[k].hash
    ensures a[k].index == b[k].index && a[k].previousHash == b[k].previousHash
    ensures a[k].timestamp == b[k].timestamp && a[k].merkleRoot == b[k].merkleRoot
    ensures a[k].nonce == b[k].nonce && a[k].difficulty == b[k].difficulty
    ensures Padded(TxHashes(a[k].transactions)) == Padded(TxHashes(b[k].transactions))
    ensures |a[k].transactions| == |b[k].transactions| ==>
              TxHashes(a[k].transactions) == TxHashes(b[k].transactions)
    decreases |a| - k
  {
    assert ValidBlock(c, a[k]) && ValidBlock(c, b[k]);
    if k + 1 < |a| {
      TipCommitsToChain(c, a, b, k + 1);
    }
    assert a[k].hash == HeaderHash(a[k]) && b[k].hash == HeaderHash(b[k]);
    SameRootSamePadding(a[k], b[k]);
    if |a[k].transactions| == |b[k].transactions| {
      MerkleRootInjective(TxHashes(a[k].transactions), TxHashes(b[k].transactions));
    }
  }

  // ---- What the operations do to the store ----

  function Ids(ts: seq<Transaction>): set<string> {
    set t | t in ts :: t.id
  }

  function ChainIds(chain: seq<Block>): set<string> {
    set b, t | b in chain && t in b.transactions :: t.id
  }

  function WithoutIds(ts: seq<Transaction>, ids: set<string>): (r: seq<Transaction>)
    ensures forall t :: t in r <==> t in ts && t.id !in ids
  {
    if |ts| == 0 then []
    else if ts[0].id in ids then WithoutIds(ts[1..], ids)
    else [ts[0]] + WithoutIds(ts[1..], ids)
  }

  function Append(c: Crypto, s: Store, b: Block): (Store, AppendStatus)
    requires |s.chain| >= 1
  {
    var latest := s.chain[|s.chain| - 1];
    if b.index <= latest.index then (s, Ignored)
    else if b.index != latest.index + 1 || b.previousHash != latest.hash then (s, Mismatch)
    else if !ValidBlock(c, b) then (s, Rejected)
    else (Store(s.chain + [b], WithoutIds(s.mempool, Ids(b.transactions))), Accepted)
  }

  function Replace(c: Crypto, s: Store, snaps: seq<Block>): (Store, ReplaceStatus) {
    if |snaps| == 0 then (s, BadChain)
    else if |snaps| <= |s.chain| then (s, NotLonger)
    else if !ValidSnapshots(c, snaps) then (s, BadChain)
    else (Store(snaps, WithoutIds(s.mempool, ChainIds(snaps))), Replaced)
  }

  function AddExternal(c: Crypto, s: Store, t: Transaction): (Store, AddStatus) {
    if t.id in Ids(s.mempool) || t.id in ChainIds(s.chain) then (s, AlreadyKnown)
    else if !ValidTx(c, t) then (s, BadTransaction)
    else (s.(mempool := s.mempool + [t]), Added)
  }

  // ---- Balances ----

  datatype Row = Row(tx: Transaction, mined: bool)

  /** Incoming money counts once mined; outgoing money is spent as soon as it is pending. */
  function RowEffect(r: Row, address: string): int {
    (if r.tx.to == address && r.mined then r.tx.amount else 0)
    - (if r.tx.from == Some(address) then r.tx.amount + r.tx.fee else 0)
  }

  function SumRows(rows: seq<Row>, address: string): int {
    if |rows| == 0 then 0
    else SumRows(rows[..|rows| - 1], address) + RowEffect(rows[|rows| - 1], address)
  }

  function AsRows(ts: seq<Transaction>, mined: bool): (r: seq<Row>)
    ensures |r| == |ts|
    ensures forall i :: 0 <= i < |r| ==> r[i] == Row(ts[i], mined)
  {
    seq(|ts|, i requires 0 <= i < |ts| => Row(ts[i], mined))
  }

  function MinedRows(chain: seq<Block>): seq<Row> {
    if |chain| == 0 then []
    else MinedRows(chain[..|chain| - 1]) + AsRows(chain[|chain| - 1].transactions, true)
  }

  function Confirmed(s: Store, address: string): int {
    SumRows(MinedRows(s.chain), address)
  }

  function Available(s: Store, address: string): int {
    SumRows(MinedRows(s.chain) + AsRows(s.mempool, false), address)
  }

  function Submit(c: Crypto, s: Store, t: Transaction): (Store, SubmitStatus)
    requires t.from.Some?
  {
    if !ValidTx(c, t) then (s, InvalidTransaction)
    else
      var available := Available(s, t.from.value);
      if available < t.amount + t.fee then (s, InsufficientFunds(available, t.amount + t.fee))
      else (s.(mempool := s.mempool + [t]), Submitted)
  }

  // ---- Mining ----

  function TotalFees(ts: seq<Transaction>): int {
    if |ts| == 0 then 0 else TotalFees(ts[..|ts| - 1]) + ts[|ts| - 1].fee
  }

  predicate OrderedByTime(ts: seq<Transaction>) {
    forall i, j :: 0 <= i < j < |ts| ==> ts[i].timestamp <= ts[j].timestamp
  }

  /** The block that mining the whole mempool puts on the chain: a coinbase, then every pending transaction by time. */
  predicate MinedOn(cfg: Config, s: Store, b: Block)
    requires |s.chain| >= 1
  {
    var latest := s.chain[|s.chain| - 1];
    && b.index == latest.index + 1
    && b.previousHash == latest.hash
    && b.difficulty == cfg.difficulty
    && |b.transactions| >= 1 && b.miner.Some?
    && var coinbase, pending := b.transactions[0], b.transactions[1..];
    && multiset(pending) == multiset(s.mempool) && OrderedByTime(pending)
    && coinbase.from == None && coinbase.to == b.miner.value && coinbase.fee == 0
    && coinbase.amount == cfg.miningReward + TotalFees(pending)
    && ValidBlock(cfg.crypto, b)
  }

  ghost predicate EveryBlockMinable(cfg: Config) {
    forall b: Block {:trigger Minable(cfg.crypto, b)} :: b.difficulty == cfg.difficulty ==> Minable(cfg.crypto, b)
  }

  // ---- The audit of the node's own chain ----

  datatype ChainError = BadHash(index: int) | BadProof(index: int) | BadTransactions(index: int) | BrokenLink(index: int)

  function BlockErrors(c: Crypto, chain: seq<Block>, i: nat): seq<ChainError>
    requires i < |chain|
  {
    var stored, rebuilt := chain[i], Rebuild(chain[i]);
    (if rebuilt.hash != stored.hash then [BadHash(stored.index)] else [])
    + (if stored.index > 0 && !MeetsTarget(c, rebuilt.hash, rebuilt.difficulty) then [BadProof(stored.index)] else [])
    + (if !ValidTransactions(c, stored.transactions) then [BadTransactions(stored.index)] else [])
    + (if i > 0 && stored.previousHash != chain[i - 1].hash then [BrokenLink(stored.index)] else [])
  }

  function AuditErrors(c: Crypto, chain: seq<Block>, n: nat): seq<ChainError>
    requires n <= |chain|
  {
    if n == 0 then [] else AuditErrors(c, chain, n - 1) + BlockErrors(c, chain, n - 1)
  }

  predicate AuditedBlock(c: Crypto, chain: seq<Block>, i: nat)
    requires i < |chain|
  {
    && Rebuild(chain[i]).hash == chain[i].hash && ValidTransactions(c, chain[i].transactions)
    && (chain[i].index > 0 ==> MeetsTarget(c, chain[i].hash, chain[i].difficulty))
    && (i > 0 ==> chain[i].previousHash == chain[i - 1].hash)
  }

  /** What the audit looks at: neither the stored Merkle root, nor the first block's proof, nor the indices. */
  predicate Audited(c: Crypto, chain: seq<Block>) {
    forall i :: 0 <= i < |chain| ==> AuditedBlock(c, chain, i)
  }

  lemma NoBlockErrors(c: Crypto, chain: seq<Block>, i: nat)
    requires i < |chain|
    ensures BlockErrors(c, chain, i) == [] <==> AuditedBlock(c, chain, i)
  {
  }

  lemma {:induction false} NoErrorsMeansAudited(c: Crypto, chain: seq<Block>, n: nat)
    requires n <= |chain|
    ensures AuditErrors(c, chain, n) == [] <==> forall i :: 0 <= i < n ==> AuditedBlock(c, chain, i)
  {
    if n > 0 {
      NoErrorsMeansAudited(c, chain, n - 1);
      NoBlockErrors(c, chain, n - 1);
      EmptyJoin(AuditErrors(c, chain, n - 1), BlockErrors(c, chain, n - 1), AuditErrors(c, chain, n));
    }
  }

  /** Each fault by its own name and no other, with the index that the block claims. */
  predicate Faulty(c: Crypto, chain: seq<Block>, i: nat, e: ChainError)
    requires i < |chain|
  {
    var b := chain[i];
    var trueHash := OfHeader(b.index, b.previousHash, b.timestamp, MerkleRoot(TxHashes(b.transactions)), b.nonce, b.difficulty);
    match e
    case BadHash(k) => k == b.index && b.hash != trueHash
    case BadProof(k) => k == b.index && b.index > 0 && !(0 <= b.difficulty <= c.zeros(trueHash))
    case BadTransactions(k) => k == b.index && exists j :: 0 <= j < |b.transactions| && !ValidTx(c, b.transactions[j])
    case BrokenLink(k) => k == b.index && i > 0 && b.previousHash != chain[i - 1].hash
  }

  lemma BlockFaultsAreNamed(c: Crypto, chain: seq<Block>, i: nat, e: ChainError)
    requires i < |chain|
    ensures e in BlockErrors(c, chain, i) <==> Faulty(c, chain, i, e)
  {
  }

  function Joined(parts: nat -> seq<ChainError>, n: nat): seq<ChainError> {
    if n == 0 then [] else Joined(parts, n - 1) + parts(n - 1)
  }

  lemma {:induction false} InSomePart(parts: nat -> seq<ChainError>, n: nat, e: ChainError)
    ensures e in Joined(parts, n) <==> exists i: nat :: i < n && e in parts(i)
  {
    if n > 0 {
      InSomePart(parts, n - 1, e);
    }
  }

  lemma {:induction false} AuditIsJoined(c: Crypto, chain: seq<Block>, n: nat, parts: nat -> seq<ChainError>)
    requires n <= |chain| && forall i: nat :: i < n ==> parts(i) == BlockErrors(c, chain, i)
    ensures AuditErrors(c, chain, n) == Joined(parts, n)
  {
    if n > 0 {
      AuditIsJoined(c, chain, n - 1, parts);
    }
  }

  /** The audit reports exactly the faults of the stored blocks. */
  lemma {:induction false} FaultsAreNamed(c: Crypto, chain: seq<Block>, n: nat, e: ChainError)
    requires n <= |chain|
    ensures e in AuditErrors(c, chain, n) <==> exists i :: 0 <= i < n && Faulty(c, chain, i, e)
  {
    var parts := (i: nat) => if i < |chain| then BlockErrors(c, chain, i) else [];
    AuditIsJoined(c, chain, n, parts);
    InSomePart(parts, n, e);
    forall i: nat | i < n
      ensures e in parts(i) <==> Faulty(c, chain, i, e)
    {
      BlockFaultsAreNamed(c, chain, i, e);
    }
  }

  lemma {:induction false} AuditedWithoutErrors(c: Crypto, chain: seq<Block>)
    ensures AuditErrors(c, chain, |chain|) == [] <==> Audited(c, chain)
  {
    NoErrorsMeansAudited(c, chain, |chain|);
  }

  lemma EmptyJoin(x: seq<ChainError>, y: seq<ChainError>, joined: seq<ChainError>)
    requires joined == x + y
    ensures joined == [] <==> x == [] && y == []
  {
  }

  lemma BlockAgainstNetworkCheck(c: Crypto, chain: seq<Block>, i: nat)
    requires i < |chain|
    ensures ValidBlock(c, chain[i]) && (i > 0 ==> chain[i].previousHash == chain[i - 1].hash) <==>
              AuditedBlock(c, chain, i) && Unaudited(c, chain[i])
  {
    assert Rebuild(chain[i]) == chain[i] <==>
           chain[i].merkleRoot == Rebuild(chain[i]).merkleRoot && chain[i].hash == Rebuild(chain[i]).hash;
  }

  /** What the audit leaves out of the network check on a block: the stored Merkle root, and the proof below index 1. */
  predicate Unaudited(c: Crypto, b: Block) {
    b.merkleRoot == Rebuild(b).merkleRoot && (b.index <= 0 ==> MeetsTarget(c, b.hash, b.difficulty))
  }

  /** The audit of one's own chain against the check on a chain from the network: exactly what the audit leaves out. */
  lemma AuditAgainstNetworkCheck(c: Crypto, chain: seq<Block>)
    ensures ValidSnapshots(c, chain) <==>
              && Audited(c, chain) && (|chain| > 0 ==> chain[0].index == 0)
              && (forall i :: 0 <= i < |chain| ==> Unaudited(c, chain[i]))
  {
    if ValidSnapshots(c, chain) {
      forall i: nat | i < |chain|
        ensures AuditedBlock(c, chain, i) && Unaudited(c, chain[i])
      {
        BlockAgainstNetworkCheck(c, chain, i);
      }
    }
    if Audited(c, chain) && forall i :: 0 <= i < |chain| ==> Unaudited(c, chain[i]) {
      forall i: nat | i < |chain|
        ensures ValidBlock(c, chain[i]) && (i > 0 ==> chain[i].previousHash == chain[i - 1].hash)
      {
        assert AuditedBlock(c, chain, i) && Unaudited(c, chain[i]);
        BlockAgainstNetworkCheck(c, chain, i);
      }
    }
  }

  /** A false Merkle root stored in any block of a valid chain: the audit still passes, the check on received chains does not. */
  lemma AuditMissesFalseRoot(c: Crypto, chain: seq<Block>, k: nat, root: Digest)
    requires ValidSnapshots(c, chain) && k < |chain| && root != chain[k].merkleRoot
    ensures var altered := chain[k := chain[k].(merkleRoot := root)]; Audited(c, altered) && !ValidSnapshots(c, altered)
  {
    var altered := chain[k := chain[k].(merkleRoot := root)];
    AuditAgainstNetworkCheck(c, chain);
    assert Rebuild(altered[k]) == Rebuild(chain[k]);
    forall i: nat | i < |altered|
      ensures AuditedBlock(c, altered, i)
    {
      assert AuditedBlock(c, chain, i);
    }
    assert ValidBlock(c, chain[k]) && !ValidBlock(c, altered[k]);
  }

  /** A first block whose hash misses its own target: the audit passes it, whatever else it holds, the check on received chains does not. */
  lemma AuditMissesFirstProof(c: Crypto, b: Block)
    requires Rebuild(b) == b && ValidTransactions(c, b.transactions) && b.index == 0 && !MeetsTarget(c, b.hash, b.difficulty)
    ensures Audited(c, [b]) && !ValidSnapshots(c, [b])
  {
    assert [b][0] == b;
  }

  /** An honest chain with its first blocks cut off: the audit passes it, the check on received chains does not. */
  lemma AuditMissesCutChain(c: Crypto, genesis: Block, chain: seq<Block>, k: nat)
    requires HonestChain(c, genesis, chain) && 0 < k < |chain|
    ensures Audited(c, chain[k..]) && !ValidSnapshots(c, chain[k..])
  {
    var cut := chain[k..];
    forall i | 0 <= i < |cut|
      ensures AuditedBlock(c, cut, i)
    {
      assert cut[i] == chain[k + i] && ValidBlock(c, chain[k + i]);
      assert i > 0 ==> cut[i - 1] == chain[k + i - 1];
    }
    assert cut[0] == chain[k] && chain[k].index == k;
  }

  /** Under one tip hash an audited chain cannot have been altered: the transaction hashes of each block are fixed up to padding. */
  lemma {:induction false} AuditDetectsTampering(c: Crypto, a: seq<Block>, b: seq<Block>, k: nat)
    requires Audited(c, a) && Audited(c, b)
    requires k < |a| == |b| && a[|a| - 1].hash == b[|b| - 1].hash
    ensures a[k].hash == b[k].hash
    ensures Padded(TxHashes(a[k].transactions)) == Padded(TxHashes(b[k].transactions))
    ensures |a[k].transactions| == |b[k].transactions| ==> TxHashes(a[k].transactions) == TxHashes(b[k].transactions)
    decreases |a| - k
  {
    assert AuditedBlock(c, a, k) && AuditedBlock(c, b, k);
    if k + 1 < |a| {
      AuditDetectsTampering(c, a, b, k + 1);
      assert AuditedBlock(c, a, k + 1) && AuditedBlock(c, b, k + 1);
    }
    assert Rebuild(a[k]).hash == Rebuild(b[k]).hash;
    assert Rebuild(a[k]).merkleRoot == Rebuild(b[k]).merkleRoot;
    SameRootSamePadding(a[k], b[k]);
    if |a[k].transactions| == |b[k].transactions| {
      MerkleRootInjective(TxHashes(a[k].transactions), TxHashes(b[k].transactions));
    }
  }

  class BlockchainService {
    const cfg: Config
    var chain: seq<Block>
    var mempool: seq<Transaction>

    ghost predicate Valid()
      reads this
    {
      |chain| >= 1 && EveryBlockMinable(cfg)
    }

    function Rows(): Store
      reads this
    {
      Store(chain, mempool)
    }

    /** Start-up on an empty database: the deterministic genesis block. */
    constructor (cfg: Config)
      requires EveryBlockMinable(cfg)
      ensures Valid() && this.cfg == cfg
      ensures |chain| == 1 && IsGenesis(cfg, chain[0]) && mempool == []
    {
      var unmined := UnminedGenesis(cfg);
      var mined, iterations := Mine(cfg.crypto, unmined);
      this.cfg := cfg;
      chain := [mined];
      mempool := [];
    }

    /** The checks on one received block: rebuild it and compare. */
    method CheckBlock(snap: Block) returns (ok: bool)
      ensures ok <==> ValidBlock(cfg.crypto, snap)
    {
      var block := Rebuild(snap);
      if block.hash != snap.hash { return false; }
      if block.merkleRoot != snap.merkleRoot { return false; }
      if !MeetsTarget(cfg.crypto, block.hash, block.difficulty) { return false; }
      ok := HasValidTransactions(block.transactions);
    }

    method ValidateChainSnapshots(snaps: seq<Block>) returns (ok: bool)
      ensures ok <==> ValidSnapshots(cfg.crypto, snaps)
    {
      for i := 0 to |snaps|
        invariant ValidSnapshots(cfg.crypto, snaps[..i])
      {
        NextSnapshot(cfg.crypto, snaps, i);
        if i == 0 && snaps[i].index != 0 { return false; }
        var valid := CheckBlock(snaps[i]);
        if !valid { return false; }
        if i > 0 && snaps[i].previousHash != snaps[i - 1].hash { return false; }
      }
      assert snaps[..|snaps|] == snaps;
      return true;
    }

    method AuditBlock(i: nat) returns (found: seq<ChainError>)
      requires i < |chain|
      ensures found == BlockErrors(cfg.crypto, chain, i)
    {
      var stored, rebuilt := chain[i], Rebuild(chain[i]);
      found := [];
      if rebuilt.hash != stored.hash {
        found := found + [BadHash(stored.index)];
      }
      if stored.index > 0 && !MeetsTarget(cfg.crypto, rebuilt.hash, rebuilt.difficulty) {
        found := found + [BadProof(stored.index)];
      }
      var signed := HasValidTransactions(rebuilt.transactions);
      if !signed {
        found := found + [BadTransactions(stored.index)];
      }
      if i > 0 && stored.previousHash != chain[i - 1].hash {
        found := found + [BrokenLink(stored.index)];
      }
    }

    method ValidateChain() returns (valid: bool, height: nat, errors: seq<ChainError>)
      ensures height == |chain| && errors == AuditErrors(cfg.crypto, chain, |chain|)
      ensures valid <==> Audited(cfg.crypto, chain)
    {
      errors := [];
      for i := 0 to |chain|
        invariant errors == AuditErrors(cfg.crypto, chain, i)
      {
        var found := AuditBlock(i);
        errors := errors + found;
      }
      valid, height := |errors| == 0, |chain|;
      AuditedWithoutErrors(cfg.crypto, chain);
    }

    method HasValidTransactions(ts: seq<Transaction>) returns (ok: bool)
      ensures ok <==> ValidTransactions(cfg.crypto, ts)
    {
      for i := 0 to |ts|
        invariant forall k :: 0 <= k < i ==> ValidTx(cfg.crypto, ts[k])
      {
        if !ValidTx(cfg.crypto, ts[i]) { return false; }
      }
      return true;
    }

    method AppendExternalBlock(snap: Block) returns (status: AppendStatus)
      requires Valid()
      modifies this
      ensures Valid()
      ensures (Rows(), status) == Append(cfg.crypto, old(Rows()), snap)
    {
      var latest := chain[|chain| - 1];
      if snap.index <= latest.index {
        return Ignored;
      }
      if snap.index != latest.index + 1 || snap.previousHash != latest.hash {
        return Mismatch;
      }
      var valid := CheckBlock(snap);
      if !valid {
        return Rejected;
      }
      var block := Rebuild(snap);
      chain := chain + [block];
      mempool := WithoutIds(mempool, Ids(block.transactions));
      return Accepted;
    }

    /** The longest valid chain wins; pending transactions it does not contain are kept. */
    method ReplaceChain(snaps: seq<Block>) returns (status: ReplaceStatus)
      requires Valid()
      modifies this
      ensures Valid()
      ensures (Rows(), status) == Replace(cfg.crypto, old(Rows()), snaps)
    {
      if |snaps| == 0 {
        return BadChain;
      }
      if |snaps| <= |chain| {
        return NotLonger;
      }
      var ok := ValidateChainSnapshots(snaps);
      if !ok {
        return BadChain;
      }
      RebuildAllIsIdentity(cfg.crypto, snaps);
      var keepPending := WithoutIds(mempool, ChainIds(snaps));
      chain := [];
      mempool := [];
      for i := 0 to |snaps|
        invariant chain == RebuildAll(snaps)[..i]
      {
        chain := chain + [Rebuild(snaps[i])];
      }
      assert chain == snaps;
      mempool := keepPending;
      return Replaced;
    }

    method AddExternalTransaction(snap: Transaction) returns (status: AddStatus)
      requires Valid()
      modifies this
      ensures Valid()
      ensures (Rows(), status) == AddExternal(cfg.crypto, old(Rows()), snap)
    {
      if snap.id in Ids(mempool) || snap.id in ChainIds(chain) {
        return AlreadyKnown;
      }
      if !ValidTx(cfg.crypto, snap) {
        return BadTransaction;
      }
      mempool := mempool + [snap];
      return Added;
    }

    method ComputeBalance(address: string, includePending: bool) returns (balance: int)
      ensures balance == if includePending then Available(Rows(), address) else Confirmed(Rows(), address)
    {
      var rows := MinedRows(chain) + if includePending then AsRows(mempool, false) else [];
      assert !includePending ==> rows == MinedRows(chain);
      balance := 0;
      for i := 0 to |rows|
        invariant balance == SumRows(rows[..i], address)
      {
        assert rows[..i + 1][..i] == rows[..i];
        if rows[i].tx.to == address && rows[i].mined {
          balance := balance + rows[i].tx.amount;
        }
        if rows[i].tx.from == Some(address) {
          balance := balance - (rows[i].tx.amount + rows[i].tx.fee);
        }
      }
      assert rows[..|rows|] == rows;
    }

    /** The request body always names a sender; `tx` is the transaction built from it with a new id. */
    method SubmitTransaction(tx: Transaction) returns (status: SubmitStatus)
      requires Valid() && tx.from.Some?
      modifies this
      ensures Valid()
      ensures (Rows(), status) == Submit(cfg.crypto, old(Rows()), tx)
    {
      if !ValidTx(cfg.crypto, tx) {
        return InvalidTransaction;
      }
      var available := ComputeBalance(tx.from.value, true);
      var cost := tx.amount + tx.fee;
      if available < cost {
        return InsufficientFunds(available, cost);
      }
      mempool := mempool + [tx];
      return Submitted;
    }

    /** The database's ORDER BY timestamp. */
    method GetPending() returns (rows: seq<Transaction>)
      ensures multiset(rows) == multiset(mempool) && OrderedByTime(rows)
    {
      rows := [];
      for i := 0 to |mempool|
        invariant multiset(rows) == multiset(mempool[..i]) && OrderedByTime(rows)
      {
        assert mempool[..i + 1] == mempool[..i] + [mempool[i]];
        InsertByTimeSorts(rows, mempool[i]);
        rows := InsertByTime(rows, mempool[i]);
      }
      assert mempool[..|mempool|] == mempool;
    }

    method SumFees(ts: seq<Transaction>) returns (total: int)
      ensures total == TotalFees(ts)
    {
      total := 0;
      for i := 0 to |ts|
        invariant total == TotalFees(ts[..i])
      {
        assert ts[..i + 1][..i] == ts[..i];
        total := total + ts[i].fee;
      }
      assert ts[..|ts|] == ts;
    }

    /** Mines every pending transaction into one block, or none if one of them is invalid. */
    method MinePending(miner: string, coinbaseId: string, now: int) returns (mined: Option<Block>)
      requires Valid()
      modifies this
      ensures Valid()
      ensures mined.Some? ==> MinedOn(cfg, old(Rows()), mined.value)
                              && Rows() == Store(old(chain) + [mined.value], [])
      ensures mined.None? <==> !ValidTransactions(cfg.crypto, old(mempool))
      ensures mined.None? ==> Rows() == old(Rows())
    {
      var pending := GetPending();
      var totalFees := SumFees(pending);
      var coinbase := Transaction(coinbaseId, None, miner, cfg.miningReward + totalFees, 0, now, None);
      var block := Candidate(cfg, Rows(), miner, coinbase, pending, now);
      var valid := HasValidTransactions(block.transactions);
      SameMembersSameValidity(cfg.crypto, coinbase, pending, mempool);
      if !valid {
        return None;
      }
      var b, iterations := Mine(cfg.crypto, block);
      MiningCandidate(cfg, Rows(), miner, coinbase, pending, now, iterations, b);
      chain := chain + [b];
      mempool := [];
      return Some(b);
    }
  }

  function InsertByTime(rows: seq<Transaction>, t: Transaction): seq<Transaction> {
    if |rows| == 0 || rows[|rows| - 1].timestamp <= t.timestamp then rows + [t]
    else InsertByTime(rows[..|rows| - 1], t) + [rows[|rows| - 1]]
  }

  lemma {:induction false} InsertByTimeAdds(rows: seq<Transaction>, t: Transaction)
    ensures multiset(InsertByTime(rows, t)) == multiset(rows) + multiset{t}
    ensures forall i :: 0 <= i < |InsertByTime(rows, t)| ==>
              InsertByTime(rows, t)[i] in rows || InsertByTime(rows, t)[i] == t
  {
    if |rows| > 0 && rows[|rows| - 1].timestamp > t.timestamp {
      var shorter, last := rows[..|rows| - 1], rows[|rows| - 1];
      assert rows == shorter + [last];
      InsertByTimeAdds(shorter, t);
    }
  }

  lemma {:induction false} InsertByTimeSorts(rows: seq<Transaction>, t: Transaction)
    requires OrderedByTime(rows)
    ensures multiset(InsertByTime(rows, t)) == multiset(rows) + multiset{t}
    ensures OrderedByTime(InsertByTime(rows, t))
  {
    InsertByTimeAdds(rows, t);
    if |rows| > 0 && rows[|rows| - 1].timestamp > t.timestamp {
      var shorter, last := rows[..|rows| - 1], rows[|rows| - 1];
      InsertByTimeSorts(shorter, t);
      InsertByTimeAdds(shorter, t);
      var inner := InsertByTime(shorter, t);
      assert forall i :: 0 <= i < |inner| ==> inner[i].timestamp <= last.timestamp;
    }
  }

  /** The block the miner starts from: everything but the proof of work. */
  function Candidate(cfg: Config, s: Store, miner: string, coinbase: Transaction, pending: seq<Transaction>, now: int): Block
    requires |s.chain| >= 1
  {
    var latest := s.chain[|s.chain| - 1];
    Rebuild(Block(latest.index + 1, now, latest.hash, OfEmpty, OfEmpty, 0, cfg.difficulty, Some(miner), [coinbase] + pending))
  }

  lemma {:induction false} MiningCandidate(cfg: Config, s: Store, miner: string, coinbase: Transaction, pending: seq<Transaction>, now: int, nonce: nat, b: Block)
    requires |s.chain| >= 1
    requires multiset(pending) == multiset(s.mempool) && OrderedByTime(pending)
    requires coinbase.from == None && coinbase.to == miner && coinbase.fee == 0
    requires coinbase.amount == cfg.miningReward + TotalFees(pending)
    requires ValidTransactions(cfg.crypto, [coinbase] + pending)
    requires var c := Candidate(cfg, s, miner, coinbase, pending, now);
             b == c.(nonce := nonce).(hash := b.hash) && b.hash == HeaderHash(b) && HasNonce(cfg.crypto, c, nonce)
    ensures MinedOn(cfg, s, b)
  {
    assert b.transactions[1..] == pending;
    assert HeaderHash(Candidate(cfg, s, miner, coinbase, pending, now).(nonce := nonce)) == b.hash;
    assert ValidBlock(cfg.crypto, b);
  }

  lemma SameMembersSameValidity(c: Crypto, coinbase: Transaction, pending: seq<Transaction>, mempool: seq<Transaction>)
    requires coinbase.from == None && multiset(pending) == multiset(mempool)
    ensures ValidTransactions(c, [coinbase] + pending) <==> ValidTransactions(c, mempool)
  {
    forall t
      ensures t in pending <==> t in mempool
    {
      assert t in multiset(pending) <==> t in multiset(mempool);
    }
    var all := [coinbase] + pending;
    assert forall i :: 0 <= i < |pending| ==> all[i + 1] == pending[i];
    assert (forall t :: t in pending ==> ValidTx(c, t)) <==> ValidTransactions(c, mempool);
    assert (forall t :: t in pending ==> ValidTx(c, t)) <==> ValidTransactions(c, pending);
    if ValidTransactions(c, all) {
      forall i | 0 <= i < |pending|
        ensures ValidTx(c, pending[i])
      {
        assert ValidTx(c, all[i + 1]);
      }
    }
  }
}

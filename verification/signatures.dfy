/**
 * What signatures protect (src/blockchain/domain/transaction.ts,
 * src/blockchain/blockchain.service.ts): a network in which anybody may put any message in
 * flight stores and passes on nothing that its sender's key did not sign.
 */
module Signatures {
  import opened Wrappers
  import opened CryptoUtil
  import opened Domain
  import opened Blockchain
  import opened P2p
  import opened Gossip
  import Supply

  /** A sender's key signed recipient, amount, fee and time; the amount is positive, the fee not negative, the recipient another. */
  predicate Signed(c: Crypto, t: Transaction) {
    t.from.Some? ==>
      && t.signature.Some? && t.signature.value != ""
      && c.verify(t.from.value, OfTransaction(t.from.value, t.to, t.amount, t.fee, t.timestamp), t.signature.value)
      && t.amount > 0 && t.fee >= 0 && t.to != t.from.value
  }

  predicate SignedBlock(c: Crypto, b: Block) {
    forall i :: 0 <= i < |b.transactions| ==> Signed(c, b.transactions[i])
  }

  /** The hash that is signed fixes everything but the id and the signature. */
  lemma HashFixesFields(a: Transaction, b: Transaction)
    requires TxHash(a) == TxHash(b) && a.from.Some? && b.from.Some?
    ensures a == b.(id := a.id, signature := a.signature)
  {
  }

  // ---- What each operation accepts ----

  predicate KnownId(s: Store, id: string) {
    (exists t :: t in s.mempool && t.id == id) || (exists b, t :: b in s.chain && t in b.transactions && t.id == id)
  }

  lemma SubmittedExactlyWhen(c: Crypto, s: Store, t: Transaction)
    requires t.from.Some?
    ensures var after, status := Blockchain.Submit(c, s, t).0, Blockchain.Submit(c, s, t).1;
            && (status == Submitted <==> Signed(c, t) && Available(s, t.from.value) >= t.amount + t.fee)
            && (status == InvalidTransaction <==> !Signed(c, t))
            && after == if status == Submitted then s.(mempool := s.mempool + [t]) else s
  {
  }

  lemma AddedExactlyWhen(c: Crypto, s: Store, t: Transaction)
    ensures var after, status := AddExternal(c, s, t).0, AddExternal(c, s, t).1;
            && (status == Added <==> Signed(c, t) && !KnownId(s, t.id))
            && (status == AlreadyKnown <==> KnownId(s, t.id))
            && after == if status == Added then s.(mempool := s.mempool + [t]) else s
  {
  }

  /** What a block must be by itself. */
  predicate Sound(c: Crypto, b: Block) {
    && b.merkleRoot == MerkleRoot(TxHashes(b.transactions))
    && b.hash == OfHeader(b.index, b.previousHash, b.timestamp, b.merkleRoot, b.nonce, b.difficulty)
    && 0 <= b.difficulty <= c.zeros(b.hash)
    && SignedBlock(c, b)
  }

  /** The pending transactions that are left: those, each as often as before, whose id is not among the new ones. */
  ghost predicate Survive(before: seq<Transaction>, after: seq<Transaction>, blocks: seq<Block>) {
    && (forall t :: t in after <==> t in before && forall b, u :: b in blocks && u in b.transactions ==> u.id != t.id)
    && (forall t :: t in after ==> multiset(after)[t] == multiset(before)[t])
  }

  lemma SoundExactlyWhenValid(c: Crypto, b: Block)
    ensures ValidBlock(c, b) <==> Sound(c, b)
  {
    var rebuilt := Rebuild(b);
    assert rebuilt == b <==> rebuilt.merkleRoot == b.merkleRoot && rebuilt.hash == b.hash;
    assert forall i :: 0 <= i < |b.transactions| ==> (ValidTx(c, b.transactions[i]) <==> Signed(c, b.transactions[i]));
  }

  lemma {:induction false} WithoutIdsKeeps(ts: seq<Transaction>, ids: set<string>, t: Transaction)
    requires t.id !in ids
    ensures multiset(WithoutIds(ts, ids))[t] == multiset(ts)[t]
  {
    if |ts| > 0 {
      WithoutIdsKeeps(ts[1..], ids, t);
      assert ts == [ts[0]] + ts[1..];
    }
  }

  lemma AcceptedExactlyWhen(c: Crypto, s: Store, b: Block)
    requires |s.chain| >= 1
    ensures var after, status, latest := Append(c, s, b).0, Append(c, s, b).1, s.chain[|s.chain| - 1];
            && (status == Accepted <==> b.index == latest.index + 1 && b.previousHash == latest.hash && Sound(c, b))
            && (status == Ignored <==> b.index <= latest.index)
            && (status == Mismatch <==> b.index > latest.index && (b.index != latest.index + 1 || b.previousHash != latest.hash))
            && if status == Accepted then after.chain == s.chain + [b] && Survive(s.mempool, after.mempool, [b]) else after == s
  {
    SoundExactlyWhenValid(c, b);
    forall t | t in WithoutIds(s.mempool, Ids(b.transactions))
      ensures multiset(WithoutIds(s.mempool, Ids(b.transactions)))[t] == multiset(s.mempool)[t]
    {
      WithoutIdsKeeps(s.mempool, Ids(b.transactions), t);
    }
  }

  lemma ReplacedExactlyWhen(c: Crypto, s: Store, blocks: seq<Block>)
    ensures var after, status := Replace(c, s, blocks).0, Replace(c, s, blocks).1;
            && (status == Replaced <==>
                  && |blocks| > |s.chain| && blocks[0].index == 0 && (forall i :: 0 <= i < |blocks| ==> Sound(c, blocks[i]))
                  && forall i :: 0 < i < |blocks| ==> blocks[i].previousHash == blocks[i - 1].hash)
            && if status == Replaced then after.chain == blocks && Survive(s.mempool, after.mempool, blocks) else after == s
  {
    forall b
      ensures ValidBlock(c, b) <==> Sound(c, b)
    {
      SoundExactlyWhenValid(c, b);
    }
    forall t | t in WithoutIds(s.mempool, ChainIds(blocks))
      ensures multiset(WithoutIds(s.mempool, ChainIds(blocks)))[t] == multiset(s.mempool)[t]
    {
      WithoutIdsKeeps(s.mempool, ChainIds(blocks), t);
    }
  }

  // ---- A network in which anybody may send anything ----

  /** An event of the network, or an envelope that somebody puts in flight, with any sender and any content. */
  datatype Deed = Act(ev: Event) | Forge(e: Envelope)

  predicate Possible(cfg: Config, net: Net, d: Deed) {
    d.Act? ==> Enabled(cfg, net, d.ev)
  }

  function Do(cfg: Config, net: Net, d: Deed): Net
    requires Possible(cfg, net, d)
  {
    match d
    case Act(ev) => Next(cfg, net, ev)
    case Forge(e) => net.(flight := net.flight + [e])
  }

  predicate AllPossible(cfg: Config, net: Net, deeds: seq<Deed>)
    decreases |deeds|
  {
    |deeds| == 0 || (Possible(cfg, net, deeds[0]) && AllPossible(cfg, Do(cfg, net, deeds[0]), deeds[1..]))
  }

  function DoAll(cfg: Config, net: Net, deeds: seq<Deed>): Net
    requires AllPossible(cfg, net, deeds)
    decreases |deeds|
  {
    if |deeds| == 0 then net else DoAll(cfg, Do(cfg, net, deeds[0]), deeds[1..])
  }

  predicate SignedStore(c: Crypto, s: Store) {
    (forall i :: 0 <= i < |s.mempool| ==> Signed(c, s.mempool[i])) && (forall i :: 0 <= i < |s.chain| ==> SignedBlock(c, s.chain[i]))
  }

  predicate SignedMessage(c: Crypto, msg: Message) {
    match msg
    case NewTransaction(t) => Signed(c, t)
    case NewBlock(b) => SignedBlock(c, b)
    case Chain(blocks) => forall i :: 0 <= i < |blocks| ==> SignedBlock(c, blocks[i])
    case _ => true
  }

  /** Every stored transaction is signed, and every message in flight that was not forged carries signed ones only. */
  predicate SignedNet(c: Crypto, net: Net, forged: set<Envelope>) {
    && (forall i :: 0 <= i < |net.nodes| ==> SignedStore(c, net.nodes[i].store))
    && (forall i :: 0 <= i < |net.flight| ==> net.flight[i] in forged || SignedMessage(c, net.flight[i].msg))
  }

  lemma {:induction false} FewerStillSigned(c: Crypto, ts: seq<Transaction>, ids: set<string>)
    requires forall i :: 0 <= i < |ts| ==> Signed(c, ts[i])
    ensures forall i :: 0 <= i < |WithoutIds(ts, ids)| ==> Signed(c, WithoutIds(ts, ids)[i])
  {
    assert forall t :: t in ts ==> Signed(c, t);
    assert forall i :: 0 <= i < |WithoutIds(ts, ids)| ==> WithoutIds(ts, ids)[i] in WithoutIds(ts, ids);
  }

  /** Whatever a node receives from whomever: it stores and sends signed transactions only. */
  lemma HandleSigned(c: Crypto, n: Node, e: Envelope)
    requires n.Height() >= 1 && SignedStore(c, n.store)
    ensures SignedStore(c, Handle(c, n, e).0.store) && Handle(c, n, e).0.Height() >= 1
    ensures forall m :: m in Handle(c, n, e).1 ==> SignedMessage(c, m.msg)
  {
    match e.msg
    case NewBlock(b) =>
      AcceptedExactlyWhen(c, n.store, b);
      FewerStillSigned(c, n.store.mempool, Ids(b.transactions));
    case Chain(blocks) =>
      ReplacedExactlyWhen(c, n.store, blocks);
      FewerStillSigned(c, n.store.mempool, ChainIds(blocks));
    case NewTransaction(t) => AddedExactlyWhen(c, n.store, t);
    case _ =>
  }

  lemma DeliverSigned(cfg: Config, net: Net, k: nat, forged: set<Envelope>)
    requires SignedNet(cfg.crypto, net, forged) && Enabled(cfg, net, Deliver(k))
    ensures SignedNet(cfg.crypto, Next(cfg, net, Deliver(k)), forged)
  {
    HandleSigned(cfg.crypto, net.nodes[net.flight[k].dst], net.flight[k]);
  }

  lemma MineSigned(cfg: Config, net: Net, i: nat, b: Block, forged: set<Envelope>)
    requires SignedNet(cfg.crypto, net, forged) && Enabled(cfg, net, Mine(i, b))
    ensures SignedNet(cfg.crypto, Next(cfg, net, Mine(i, b)), forged)
  {
    SoundExactlyWhenValid(cfg.crypto, b);
  }

  lemma SubmitSigned(cfg: Config, net: Net, i: nat, t: Transaction, forged: set<Envelope>)
    requires SignedNet(cfg.crypto, net, forged) && Enabled(cfg, net, Submit(i, t))
    ensures SignedNet(cfg.crypto, Next(cfg, net, Submit(i, t)), forged)
  {
    SubmittedExactlyWhen(cfg.crypto, net.nodes[i].store, t);
  }

  lemma LinksSigned(cfg: Config, net: Net, ev: Event, forged: set<Envelope>)
    requires SignedNet(cfg.crypto, net, forged) && Enabled(cfg, net, ev) && (ev.Connect? || ev.Drop? || ev.Restart?)
    ensures SignedNet(cfg.crypto, Next(cfg, net, ev), forged)
  {
    var after := Next(cfg, net, ev);
    assert forall i :: 0 <= i < |after.flight| ==> after.flight[i] in after.flight;
    assert forall e :: e in net.flight ==> e in forged || SignedMessage(cfg.crypto, e.msg);
  }

  lemma DeedSigned(cfg: Config, net: Net, d: Deed, forged: set<Envelope>)
    requires SignedNet(cfg.crypto, net, forged) && Possible(cfg, net, d)
    ensures SignedNet(cfg.crypto, Do(cfg, net, d), forged + if d.Forge? then {d.e} else {})
  {
    match d
    case Forge(e) =>
    case Act(ev) =>
      match ev {
        case Mine(i, b) => MineSigned(cfg, net, i, b, forged);
        case Submit(i, t) => SubmitSigned(cfg, net, i, t, forged);
        case Deliver(k) => DeliverSigned(cfg, net, k, forged);
        case _ => LinksSigned(cfg, net, ev, forged);
      }
  }

  function ForgedIn(deeds: seq<Deed>): set<Envelope> {
    set d | d in deeds && d.Forge? :: d.e
  }

  lemma {:induction false} DeedsSigned(cfg: Config, net: Net, deeds: seq<Deed>, forged: set<Envelope>)
    requires SignedNet(cfg.crypto, net, forged) && AllPossible(cfg, net, deeds)
    ensures SignedNet(cfg.crypto, DoAll(cfg, net, deeds), forged + ForgedIn(deeds))
    decreases |deeds|
  {
    if |deeds| > 0 {
      var now := forged + if deeds[0].Forge? then {deeds[0].e} else {};
      DeedSigned(cfg, net, deeds[0], forged);
      DeedsSigned(cfg, Do(cfg, net, deeds[0]), deeds[1..], now);
      assert now + ForgedIn(deeds[1..]) == forged + ForgedIn(deeds) by {
        assert forall d :: d in deeds <==> d == deeds[0] || d in deeds[1..];
      }
    }
  }

  predicate StoredAt(s: Store, t: Transaction) {
    t in s.mempool || exists b :: b in s.chain && t in b.transactions
  }

  predicate Carries(msg: Message, t: Transaction) {
    match msg
    case NewTransaction(u) => u == t
    case NewBlock(b) => t in b.transactions
    case Chain(blocks) => exists b :: b in blocks && t in b.transactions
    case _ => false
  }

  /**
   * Any run from genesis, in which anybody forges any messages: every transaction in a mempool
   * or on a chain is signed by its sender, and so is every one in flight, unless that very
   * message was forged.
   */
  lemma {:induction false} EverythingStoredIsSigned(cfg: Config, genesis: Block, n: nat, deeds: seq<Deed>)
    requires IsGenesis(cfg, genesis) && AllPossible(cfg, Start(genesis, n), deeds)
    ensures var net := DoAll(cfg, Start(genesis, n), deeds);
            && (forall i, t :: 0 <= i < |net.nodes| && StoredAt(net.nodes[i].store, t) ==> Signed(cfg.crypto, t))
            && (forall e, t :: e in net.flight && Carries(e.msg, t) ==> Signed(cfg.crypto, t) || Forge(e) in deeds)
  {
    GenesisIsValid(cfg, genesis);
    SoundExactlyWhenValid(cfg.crypto, genesis);
    DeedsSigned(cfg, Start(genesis, n), deeds, {});
  }

  ghost predicate NeverSigns(c: Crypto, address: string) {
    forall h, signature :: !c.verify(address, h, signature)
  }

  lemma KeylessIsUnsigned(c: Crypto, address: string, t: Transaction)
    requires NeverSigns(c, address) && t.from == Some(address)
    ensures !Signed(c, t)
  {
    if t.signature.Some? {
      assert !c.verify(address, OfTransaction(address, t.to, t.amount, t.fee, t.timestamp), t.signature.value);
    }
  }

  /** So nothing from an address for which no signature verifies is ever stored, or sent by a node. */
  lemma {:induction false} NothingFromKeylessAddresses(cfg: Config, genesis: Block, n: nat, deeds: seq<Deed>, address: string)
    requires IsGenesis(cfg, genesis) && AllPossible(cfg, Start(genesis, n), deeds) && NeverSigns(cfg.crypto, address)
    ensures var net := DoAll(cfg, Start(genesis, n), deeds);
            && (forall i, t :: 0 <= i < |net.nodes| && StoredAt(net.nodes[i].store, t) ==> t.from != Some(address))
            && (forall e, t :: e in net.flight && Carries(e.msg, t) && t.from == Some(address) ==> Forge(e) in deeds)
  {
    EverythingStoredIsSigned(cfg, genesis, n, deeds);
    forall t: Transaction | t.from == Some(address)
      ensures !Signed(cfg.crypto, t)
    {
      KeylessIsUnsigned(cfg.crypto, address, t);
    }
  }

  // ---- One standalone node ----

  lemma {:induction false} OnlyIncoming(ts: seq<Transaction>, address: string)
    requires forall i :: 0 <= i < |ts| ==> ts[i].amount >= 0 && ts[i].from != Some(address)
    ensures Supply.SumTxs(ts, true, address) >= 0
  {
    if |ts| > 0 {
      var t, shorter := ts[|ts| - 1], ts[..|ts| - 1];
      assert ts == shorter + [t];
      OnlyIncoming(shorter, address);
      Supply.SumTxsAppend(shorter, [t], true, address);
      Supply.SumTxsOne(t, true, address);
    }
  }

  lemma MinedTransactionsPay(cfg: Config, s: Store, b: Block, i: nat)
    requires Supply.Solvent(cfg, s) && MinedOn(cfg, s, b) && 1 <= i < |b.transactions|
    ensures b.transactions[i].from.Some? && Signed(cfg.crypto, b.transactions[i])
  {
    SoundExactlyWhenValid(cfg.crypto, b);
    Supply.PendingHaveSenders(cfg, s, b, i);
  }

  lemma CoinbasePays(cfg: Config, s: Store, b: Block)
    requires Supply.Solvent(cfg, s) && MinedOn(cfg, s, b) && cfg.miningReward >= 0
    ensures b.transactions[0].from.None? && b.transactions[0].amount >= 0
  {
    var pending := b.transactions[1..];
    forall i | 0 <= i < |pending|
      ensures pending[i].fee >= 0
    {
      MinedTransactionsPay(cfg, s, b, i + 1);
      assert pending[i] == b.transactions[i + 1];
    }
    Supply.FeesNonNegative(pending);
  }

  lemma MiningPaysKeyless(cfg: Config, s: Store, b: Block, address: string)
    requires Supply.Solvent(cfg, s) && MinedOn(cfg, s, b) && cfg.miningReward >= 0 && NeverSigns(cfg.crypto, address)
    ensures Confirmed(Store(s.chain + [b], []), address) >= Confirmed(s, address)
  {
    CoinbasePays(cfg, s, b);
    forall i | 0 <= i < |b.transactions|
      ensures b.transactions[i].amount >= 0 && b.transactions[i].from != Some(address)
    {
      if i > 0 {
        MinedTransactionsPay(cfg, s, b, i);
        if b.transactions[i].from == Some(address) {
          KeylessIsUnsigned(cfg.crypto, address, b.transactions[i]);
        }
      }
    }
    OnlyIncoming(b.transactions, address);
    assert (s.chain + [b])[..|s.chain|] == s.chain;
    Supply.SumRowsAppend(MinedRows(s.chain), AsRows(b.transactions, true), address);
  }

  lemma {:induction false} KeylessBalanceGrows(cfg: Config, s: Store, ops: seq<Supply.Op>, address: string)
    requires Supply.Solvent(cfg, s) && Supply.LegalOps(cfg, s, ops) && cfg.miningReward >= 0 && NeverSigns(cfg.crypto, address)
    ensures Confirmed(Supply.RunOps(cfg, s, ops), address) >= Confirmed(s, address)
    decreases |ops|
  {
    if |ops| > 0 {
      var next := Supply.Apply(cfg, s, ops[0]);
      if ops[0].MineOp? {
        MiningPaysKeyless(cfg, s, ops[0].block, address);
      }
      Supply.OneOpIssues(cfg, s, ops[0]);
      KeylessBalanceGrows(cfg, next, ops[1..], address);
    }
  }

  /** At no point of any run of a standalone node does the confirmed balance of such an address fall. */
  lemma {:induction false} KeylessBalanceNeverFalls(cfg: Config, genesis: Block, before: seq<Supply.Op>, ops: seq<Supply.Op>, address: string)
    requires IsGenesis(cfg, genesis) && cfg.miningReward >= 0 && NeverSigns(cfg.crypto, address)
    requires Supply.LegalOps(cfg, Store([genesis], []), before)
    requires Supply.LegalOps(cfg, Supply.RunOps(cfg, Store([genesis], []), before), ops)
    ensures var s := Supply.RunOps(cfg, Store([genesis], []), before);
            Confirmed(Supply.RunOps(cfg, s, ops), address) >= Confirmed(s, address)
  {
    Supply.GenesisSolvent(cfg, genesis);
    Supply.IssuanceOverRun(cfg, Store([genesis], []), before);
    KeylessBalanceGrows(cfg, Supply.RunOps(cfg, Store([genesis], []), before), ops, address);
  }
}

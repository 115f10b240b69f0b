/**
 * Transaction ids (src/blockchain/domain/transaction.ts, src/blockchain/blockchain.service.ts):
 * no hash covers them, so a node may end with one id in two blocks. It cannot if blocks with
 * one hash are one block.
 */
module TransactionIds {
  import opened Wrappers
  import opened CryptoUtil
  import opened Domain
  import opened Blockchain
  import opened P2p
  import opened Gossip
  import opened Agreement
  import opened Tips

  // ---- Lists without repeated ids ----

  predicate DistinctIds(ts: seq<Transaction>) {
    |ts| == 0 || (ts[0].id !in Ids(ts[1..]) && DistinctIds(ts[1..]))
  }

  predicate NoIdTwice(chain: seq<Block>) {
    && (forall k :: 0 <= k < |chain| ==> DistinctIds(chain[k].transactions))
    && (forall k, l :: 0 <= k < l < |chain| ==> Ids(chain[k].transactions) !! Ids(chain[l].transactions))
  }

  lemma IdsOfFirst(ts: seq<Transaction>)
    requires |ts| > 0
    ensures Ids(ts) == {ts[0].id} + Ids(ts[1..])
  {
    assert ts == [ts[0]] + ts[1..];
  }

  /** A list repeats no id exactly if it has as many ids as transactions, so its order does not matter. */
  lemma {:induction false} DistinctIdsAreCounted(ts: seq<Transaction>)
    ensures |Ids(ts)| <= |ts|
    ensures DistinctIds(ts) <==> |Ids(ts)| == |ts|
  {
    if |ts| > 0 {
      IdsOfFirst(ts);
      DistinctIdsAreCounted(ts[1..]);
    }
  }

  lemma {:induction false} SameMembersSameIds(a: seq<Transaction>, b: seq<Transaction>)
    requires multiset(a) == multiset(b)
    ensures Ids(a) == Ids(b) && (DistinctIds(a) <==> DistinctIds(b))
  {
    forall t: Transaction
      ensures t in a <==> t in b
    {
      assert t in a <==> t in multiset(a);
      assert t in b <==> t in multiset(b);
    }
    assert |a| == |multiset(a)| && |b| == |multiset(b)|;
    DistinctIdsAreCounted(a);
    DistinctIdsAreCounted(b);
  }

  lemma {:induction false} DistinctAppend(ts: seq<Transaction>, t: Transaction)
    requires DistinctIds(ts) && t.id !in Ids(ts)
    ensures DistinctIds(ts + [t]) && Ids(ts + [t]) == Ids(ts) + {t.id}
  {
    if |ts| > 0 {
      var longer := ts + [t];
      assert longer[1..] == ts[1..] + [t];
      IdsOfFirst(ts);
      DistinctAppend(ts[1..], t);
      IdsOfFirst(longer);
    } else {
      assert ts + [t] == [t] && [t][1..] == [];
    }
  }

  lemma {:induction false} DistinctWithout(ts: seq<Transaction>, ids: set<string>)
    requires DistinctIds(ts)
    ensures DistinctIds(WithoutIds(ts, ids)) && Ids(WithoutIds(ts, ids)) == Ids(ts) - ids
  {
    if |ts| > 0 {
      IdsOfFirst(ts);
      DistinctWithout(ts[1..], ids);
      var rest := WithoutIds(ts[1..], ids);
      if ts[0].id !in ids {
        assert ([ts[0]] + rest)[1..] == rest;
        IdsOfFirst([ts[0]] + rest);
      }
    }
  }

  lemma ChainIdsAppend(chain: seq<Block>, b: Block)
    ensures ChainIds(chain + [b]) == ChainIds(chain) + Ids(b.transactions)
  {
  }

  /** One more block repeats no id exactly if it repeats none itself and none of the chain below. */
  lemma NoIdTwiceAppend(chain: seq<Block>, b: Block)
    ensures NoIdTwice(chain + [b]) <==> NoIdTwice(chain) && DistinctIds(b.transactions) && ChainIds(chain) !! Ids(b.transactions)
  {
    var longer := chain + [b];
    assert longer[|chain|] == b && forall k :: 0 <= k < |chain| ==> longer[k] == chain[k];
    if NoIdTwice(longer) {
      assert NoIdTwice(chain);
    }
  }

  // ---- A node accepts blocks whose ids it has ----

  /** Any id in an acceptable block exchanged for any id of the chain: the node accepts the block all the same, and has that id twice. */
  lemma RepeatedIdIsAccepted(c: Crypto, s: Store, b: Block, i: nat, k: nat, j: nat)
    requires |s.chain| >= 1 && Append(c, s, b).1 == Accepted
    requires i < |b.transactions| && k < |s.chain| && j < |s.chain[k].transactions|
    ensures var appended := Append(c, s, WithId(b, i, s.chain[k].transactions[j].id));
            appended.1 == Accepted && !NoIdTwice(appended.0.chain)
  {
    var t := s.chain[k].transactions[j];
    var twin := WithId(b, i, t.id);
    assert TxHashes(twin.transactions) == TxHashes(b.transactions);
    assert ValidBlock(c, twin);
    assert t in s.chain[k].transactions && s.chain[k] in s.chain;
    assert t.id in ChainIds(s.chain);
    assert twin.transactions[i] in twin.transactions && t.id in Ids(twin.transactions);
    NoIdTwiceAppend(s.chain, twin);
  }

  // ---- When ids stay unique: what each node keeps of its pending transactions ----

  /** The pending transactions repeat no id, neither among themselves nor of the chain. */
  predicate PoolApart(s: Store) {
    DistinctIds(s.mempool) && Ids(s.mempool) !! ChainIds(s.chain)
  }

  ghost predicate PoolsApart(net: Net) {
    forall i :: 0 <= i < |net.nodes| ==> PoolApart(net.nodes[i].store)
  }

  lemma AppendKeepsApart(c: Crypto, s: Store, b: Block)
    requires |s.chain| >= 1 && PoolApart(s)
    ensures PoolApart(Append(c, s, b).0)
  {
    DistinctWithout(s.mempool, Ids(b.transactions));
    ChainIdsAppend(s.chain, b);
  }

  lemma ReplaceKeepsApart(c: Crypto, s: Store, snaps: seq<Block>)
    requires PoolApart(s)
    ensures PoolApart(Replace(c, s, snaps).0)
  {
    DistinctWithout(s.mempool, ChainIds(snaps));
  }

  lemma AddExternalKeepsApart(c: Crypto, s: Store, t: Transaction)
    requires PoolApart(s)
    ensures PoolApart(AddExternal(c, s, t).0)
  {
    if AddExternal(c, s, t).1 == Added {
      DistinctAppend(s.mempool, t);
    }
  }

  lemma HandleKeepsApart(c: Crypto, n: Node, e: Envelope)
    requires n.Height() >= 1 && PoolApart(n.store)
    ensures PoolApart(Handle(c, n, e).0.store)
  {
    match e.msg
    case Chain(blocks) => ReplaceKeepsApart(c, n.store, blocks);
    case NewBlock(b) => AppendKeepsApart(c, n.store, b);
    case NewTransaction(t) => AddExternalKeepsApart(c, n.store, t);
    case _ =>
  }

  /** An id that a node makes up, for a submitted transaction or a coinbase, is one it does not have. */
  predicate NewId(net: Net, ev: Event) {
    match ev
    case Mine(i, b) =>
      i < |net.nodes| && |b.transactions| >= 1
      && b.transactions[0].id !in ChainIds(net.nodes[i].store.chain) + Ids(net.nodes[i].store.mempool)
    case Submit(i, t) => i < |net.nodes| && t.id !in ChainIds(net.nodes[i].store.chain) + Ids(net.nodes[i].store.mempool)
    case _ => true
  }

  lemma NextKeepsApart(cfg: Config, net: Net, ev: Event)
    requires Enabled(cfg, net, ev) && NewId(net, ev) && PoolsApart(net)
    ensures PoolsApart(Next(cfg, net, ev))
  {
    match ev
    case Submit(i, t) => DistinctAppend(net.nodes[i].store.mempool, t);
    case Deliver(k) => HandleKeepsApart(cfg.crypto, net.nodes[net.flight[k].dst], net.flight[k]);
    case _ =>
  }

  // ---- When ids stay unique: one chain below every block ----

  ghost predicate HashesTellApart(blocks: set<Block>) {
    forall a, b :: a in blocks && b in blocks && a.hash == b.hash ==> a == b
  }

  /** Honest chains of known blocks with one tip are one chain, if hashes tell the blocks apart. */
  lemma {:induction false} SameTipSameChain(c: Crypto, genesis: Block, a: seq<Block>, b: seq<Block>, known: set<Block>)
    requires HashesTellApart(known) && KnownChain(a, known) && KnownChain(b, known)
    requires HonestChain(c, genesis, a) && HonestChain(c, genesis, b) && a[|a| - 1] == b[|b| - 1]
    ensures a == b
    decreases |a|
  {
    var n := |a|;
    assert a[n - 1].index == n - 1 && b[|b| - 1].index == |b| - 1;
    if n > 1 {
      assert a[n - 1].previousHash == a[n - 2].hash && b[n - 1].previousHash == b[n - 2].hash;
      assert a[n - 2] in known && b[n - 2] in known;
      SameTipSameChain(c, genesis, a[..n - 1], b[..n - 1], known);
      assert a == a[..n - 1] + [a[n - 1]] && b == b[..n - 1] + [b[n - 1]];
    }
  }

  ghost predicate CleanRoot(c: Crypto, genesis: Block, known: set<Block>, chain: seq<Block>, b: Block) {
    HonestChain(c, genesis, chain) && KnownChain(chain, known) && chain[|chain| - 1] == b && NoIdTwice(chain)
  }

  /** Below every known block lies an honest chain of known blocks without a repeated id. */
  ghost predicate Rooted(c: Crypto, genesis: Block, known: set<Block>) {
    forall b :: b in known ==> exists chain :: CleanRoot(c, genesis, known, chain, b)
  }

  lemma KnownChainsAreClean(c: Crypto, genesis: Block, known: set<Block>, chain: seq<Block>)
    requires Rooted(c, genesis, known) && HashesTellApart(known)
    requires HonestChain(c, genesis, chain) && KnownChain(chain, known)
    ensures NoIdTwice(chain)
  {
    var tip := chain[|chain| - 1];
    var root :| CleanRoot(c, genesis, known, root, tip);
    SameTipSameChain(c, genesis, chain, root, known);
  }

  /** What is mined on a clean chain is clean. */
  lemma MinedChainIsClean(cfg: Config, s: Store, b: Block)
    requires |s.chain| >= 1 && NoIdTwice(s.chain) && PoolApart(s) && MinedOn(cfg, s, b)
    requires b.transactions[0].id !in ChainIds(s.chain) + Ids(s.mempool)
    ensures NoIdTwice(s.chain + [b])
  {
    SameMembersSameIds(s.mempool, b.transactions[1..]);
    IdsOfFirst(b.transactions);
    NoIdTwiceAppend(s.chain, b);
  }

  lemma MinedBlockIsRooted(cfg: Config, genesis: Block, net: Net, i: nat, b: Block, known: set<Block>)
    requires Inv(cfg.crypto, genesis, net) && Enabled(cfg, net, Mine(i, b)) && NewId(net, Mine(i, b)) && PoolsApart(net)
    requires Known(net, known) && Rooted(cfg.crypto, genesis, known) && HashesTellApart(known)
    ensures CleanRoot(cfg.crypto, genesis, known + {b}, net.nodes[i].store.chain + [b], b)
  {
    var s := net.nodes[i].store;
    KnownChainsAreClean(cfg.crypto, genesis, known, s.chain);
    MinedChainIsClean(cfg, s, b);
    HonestChainGrows(cfg.crypto, genesis, s.chain, b);
  }

  lemma RootsStay(c: Crypto, genesis: Block, known: set<Block>, b: Block, chain: seq<Block>)
    requires Rooted(c, genesis, known) && CleanRoot(c, genesis, known + {b}, chain, b)
    ensures Rooted(c, genesis, known + {b})
  {
    forall d | d in known
      ensures exists root :: CleanRoot(c, genesis, known + {b}, root, d)
    {
      var root :| CleanRoot(c, genesis, known, root, d);
      assert CleanRoot(c, genesis, known + {b}, root, d);
    }
  }

  ghost predicate NewIds(cfg: Config, net: Net, evs: seq<Event>)
    requires Legal(cfg, net, evs)
    decreases |evs|
  {
    |evs| == 0 || (NewId(net, evs[0]) && NewIds(cfg, Next(cfg, net, evs[0]), evs[1..]))
  }

  lemma MoreIsKnown(cfg: Config, net: Net, ev: Event, known: set<Block>, more: set<Block>)
    requires Enabled(cfg, net, ev) && Known(net, known) && known <= more && (ev.Mine? ==> ev.block in more)
    ensures Known(Next(cfg, net, ev), more)
  {
    assert Known(net, more);
    NextInventsOnlyByMining(cfg, net, ev, more);
  }

  lemma MinedSoFar(evs: seq<Event>, known: set<Block>, more: set<Block>)
    requires |evs| > 0 && more == if evs[0].Mine? then known + {evs[0].block} else known
    requires HashesTellApart(known + MinedBlocks(evs))
    ensures HashesTellApart(known) && HashesTellApart(more + MinedBlocks(evs[1..]))
  {
    assert evs[0].Mine? ==> evs[0].block in MinedBlocks(evs);
    forall b | b in MinedBlocks(evs[1..])
      ensures b in MinedBlocks(evs)
    {
      var k :| 0 <= k < |evs| - 1 && evs[1..][k].Mine? && evs[1..][k].block == b;
      assert evs[k + 1] == evs[1..][k];
    }
  }

  ghost predicate Clean(cfg: Config, genesis: Block, net: Net, known: set<Block>) {
    Inv(cfg.crypto, genesis, net) && PoolsApart(net) && Known(net, known) && Rooted(cfg.crypto, genesis, known)
  }

  lemma NextKeepsClean(cfg: Config, genesis: Block, net: Net, ev: Event, known: set<Block>, more: set<Block>)
    requires Clean(cfg, genesis, net, known) && Enabled(cfg, net, ev) && NewId(net, ev) && HashesTellApart(known)
    requires more == if ev.Mine? then known + {ev.block} else known
    ensures Clean(cfg, genesis, Next(cfg, net, ev), more)
  {
    NextKeepsInv(cfg, genesis, net, ev);
    NextKeepsApart(cfg, net, ev);
    MoreIsKnown(cfg, net, ev, known, more);
    if ev.Mine? {
      MinedBlockIsRooted(cfg, genesis, net, ev.i, ev.block, known);
      RootsStay(cfg.crypto, genesis, known, ev.block, net.nodes[ev.i].store.chain + [ev.block]);
    }
  }

  lemma CleanChains(cfg: Config, genesis: Block, net: Net, known: set<Block>)
    requires Clean(cfg, genesis, net, known) && HashesTellApart(known)
    ensures forall i :: 0 <= i < |net.nodes| ==> NoIdTwice(net.nodes[i].store.chain)
  {
    forall i | 0 <= i < |net.nodes|
      ensures NoIdTwice(net.nodes[i].store.chain)
    {
      KnownChainsAreClean(cfg.crypto, genesis, known, net.nodes[i].store.chain);
    }
  }

  lemma {:induction false} RunKeepsClean(cfg: Config, genesis: Block, net: Net, evs: seq<Event>, known: set<Block>) returns (more: set<Block>)
    requires Clean(cfg, genesis, net, known) && Legal(cfg, net, evs) && NewIds(cfg, net, evs)
    requires HashesTellApart(known + MinedBlocks(evs))
    ensures Clean(cfg, genesis, Run(cfg, net, evs), more) && HashesTellApart(more)
    decreases |evs|
  {
    if |evs| == 0 {
      more := known;
      assert known + MinedBlocks(evs) == known;
    } else {
      var next := if evs[0].Mine? then known + {evs[0].block} else known;
      MinedSoFar(evs, known, next);
      NextKeepsClean(cfg, genesis, net, evs[0], known, next);
      more := RunKeepsClean(cfg, genesis, Next(cfg, net, evs[0]), evs[1..], next);
    }
  }

  /**
   * Over any legal run in which nodes make up only ids they do not have, and no two different
   * blocks were mined with one hash, no chain has an id twice.
   */
  lemma {:induction false} IdsOccurOnce(cfg: Config, genesis: Block, n: nat, evs: seq<Event>)
    requires IsGenesis(cfg, genesis) && Legal(cfg, Start(genesis, n), evs) && NewIds(cfg, Start(genesis, n), evs)
    requires HashesTellApart({genesis} + MinedBlocks(evs))
    ensures var net := Run(cfg, Start(genesis, n), evs);
            forall i :: 0 <= i < |net.nodes| ==> NoIdTwice(net.nodes[i].store.chain)
  {
    var start := Start(genesis, n);
    StartInv(cfg, genesis, n);
    GenesisIsClean(cfg, genesis);
    var known := RunKeepsClean(cfg, genesis, start, evs, {genesis});
    CleanChains(cfg, genesis, Run(cfg, start, evs), known);
  }

  lemma GenesisIsClean(cfg: Config, genesis: Block)
    requires IsGenesis(cfg, genesis)
    ensures Rooted(cfg.crypto, genesis, {genesis})
  {
    GenesisIsValid(cfg, genesis);
    var ts := genesis.transactions;
    assert ts == GenesisTransactions(cfg) && |ts| <= 1;
    assert |ts| == 1 ==> ts[1..] == [];
    assert CleanRoot(cfg.crypto, genesis, {genesis}, [genesis], genesis);
  }

  // ---- A run that ends with one id twice ----

  ghost predicate Goes(cfg: Config, net: Net, evs: seq<Event>, last: Net) {
    Legal(cfg, net, evs) && NewIds(cfg, net, evs) && Run(cfg, net, evs) == last
  }

  lemma Stays(cfg: Config, net: Net)
    ensures Goes(cfg, net, [], net)
  {
  }

  lemma {:induction false} Goes1(cfg: Config, net: Net, ev: Event, next: Net, evs: seq<Event>, last: Net)
    requires Enabled(cfg, net, ev) && NewId(net, ev) && Next(cfg, net, ev) == next && Goes(cfg, next, evs, last)
    ensures Goes(cfg, net, [ev] + evs, last)
  {
    assert ([ev] + evs)[1..] == evs;
  }

  /** Two transactions equal in all that is hashed, a block with the first, and one mined on its twin with the second. */
  ghost predicate Twins(cfg: Config, genesis: Block, x: Transaction, y: Transaction, b: Block, twin: Block, next: Block) {
    && x.from.Some? && y == x.(id := y.id) && Blockchain.Submit(cfg.crypto, Store([genesis], []), x).1 == Submitted
    && MinedOn(cfg, Store([genesis], [x]), b) && |b.transactions| == |twin.transactions| == 2
    && twin == b.(transactions := [b.transactions[0].(id := twin.transactions[0].id), y])
    && MinedOn(cfg, Store([genesis, twin], [x]), next) && |next.transactions| == 2
  }

  /** The ids made up in the run, all different and none of them in the genesis block. */
  predicate MadeUp(genesis: Block, x: Transaction, y: Transaction, b: Block, twin: Block, next: Block)
    requires |b.transactions| == |twin.transactions| == |next.transactions| == 2
  {
    var ids := [x.id, y.id, b.transactions[0].id, twin.transactions[0].id, next.transactions[0].id];
    && (forall i, j :: 0 <= i < j < |ids| ==> ids[i] != ids[j])
    && (forall i :: 0 <= i < |ids| ==> ids[i] !in Ids(genesis.transactions))
  }

  /** Node 0 and node 1, connected to each other. */
  function Pair(s0: Store, seen0: set<Digest>, s1: Store, seen1: set<Digest>, txs0: set<string>, txs1: set<string>, flight: seq<Envelope>, top: int): Net {
    Net([Node(s0, [1], seen0, txs0), Node(s1, [0], seen1, txs1)], flight, top)
  }

  lemma IdsOfGenesisChain(genesis: Block)
    ensures ChainIds([genesis]) == Ids(genesis.transactions)
  {
    assert [] + [genesis] == [genesis];
    ChainIdsAppend([], genesis);
  }

  lemma {:induction false} OnePeer(me: nat, peer: nat, except: Option<nat>, msg: Message)
    ensures Broadcast(me, [peer], except, msg) == if Some(peer) == except then [] else [Envelope(me, peer, msg)]
  {
    assert [peer][1..] == [];
  }

  lemma SubmitStep(cfg: Config, net: Net, i: nat, j: nat, t: Transaction)
    requires Enabled(cfg, net, Submit(i, t)) && net.nodes[i].sockets == [j]
    ensures var n := net.nodes[i];
            Next(cfg, net, Submit(i, t))
            == net.(nodes := net.nodes[i := Node(Store(n.store.chain, n.store.mempool + [t]), [j], n.seenBlocks, n.seenTxs + {t.id})],
                    flight := net.flight + [Envelope(i, j, NewTransaction(t))])
  {
    OnePeer(i, j, None, NewTransaction(t));
  }

  lemma MineStep(cfg: Config, net: Net, i: nat, j: nat, b: Block)
    requires Enabled(cfg, net, Mine(i, b)) && net.nodes[i].sockets == [j] && b.index + 1 >= net.top
    ensures var n := net.nodes[i];
            Next(cfg, net, Mine(i, b))
            == Net(net.nodes[i := Node(Store(n.store.chain + [b], []), [j], n.seenBlocks + {b.hash}, n.seenTxs)],
                   net.flight + [Envelope(i, j, NewBlock(b))], b.index + 1)
  {
    OnePeer(i, j, None, NewBlock(b));
  }

  /** Node 0 submits the one transaction, and node 1 the other before it hears of the first. */
  lemma FirstSubmits(cfg: Config, genesis: Block, x: Transaction, evs: seq<Event>, last: Net) returns (all: seq<Event>)
    requires x.from.Some? && x.id !in Ids(genesis.transactions)
    requires Blockchain.Submit(cfg.crypto, Store([genesis], []), x).1 == Submitted
    requires Goes(cfg, Pair(Store([genesis], [x]), {}, Store([genesis], []), {}, {x.id}, {}, [Envelope(0, 1, NewTransaction(x))], 1), evs, last)
    ensures Goes(cfg, Connected(genesis), all, last)
  {
    IdsOfGenesisChain(genesis);
    var e0 := Envelope(0, 1, NewTransaction(x));
    var net1 := Pair(Store([genesis], [x]), {}, Store([genesis], []), {}, {x.id}, {}, [e0], 1);
    SubmitStep(cfg, Connected(genesis), 0, 1, x);
    assert [] + [x] == [x] && {} + {x.id} == {x.id} && [] + [e0] == [e0];
    Goes1(cfg, Connected(genesis), Submit(0, x), net1, evs, last);
    all := [Submit(0, x)] + evs;
  }

  lemma SecondSubmits(cfg: Config, genesis: Block, x: Transaction, y: Transaction, evs: seq<Event>, last: Net) returns (all: seq<Event>)
    requires y.from.Some? && y.id !in Ids(genesis.transactions)
    requires Blockchain.Submit(cfg.crypto, Store([genesis], []), y).1 == Submitted
    requires Goes(cfg, Pair(Store([genesis], [x]), {}, Store([genesis], [y]), {}, {x.id}, {y.id},
                            [Envelope(0, 1, NewTransaction(x)), Envelope(1, 0, NewTransaction(y))], 1), evs, last)
    ensures Goes(cfg, Pair(Store([genesis], [x]), {}, Store([genesis], []), {}, {x.id}, {}, [Envelope(0, 1, NewTransaction(x))], 1), all, last)
  {
    IdsOfGenesisChain(genesis);
    var e0, e1 := Envelope(0, 1, NewTransaction(x)), Envelope(1, 0, NewTransaction(y));
    var net1 := Pair(Store([genesis], [x]), {}, Store([genesis], []), {}, {x.id}, {}, [e0], 1);
    var net2 := Pair(Store([genesis], [x]), {}, Store([genesis], [y]), {}, {x.id}, {y.id}, [e0, e1], 1);
    SubmitStep(cfg, net1, 1, 0, y);
    assert [] + [y] == [y] && {} + {y.id} == {y.id} && [e0] + [e1] == [e0, e1];
    Goes1(cfg, net1, Submit(1, y), net2, evs, last);
    all := [Submit(1, y)] + evs;
  }

  /** Each mines its own pending transaction before it hears of the other's block: one hash, two blocks. */
  lemma FirstMines(cfg: Config, genesis: Block, x: Transaction, s1: Store, b: Block, txs0: set<string>, txs1: set<string>,
                   flight: seq<Envelope>, evs: seq<Event>, last: Net) returns (all: seq<Event>)
    requires genesis.index == 0 && |b.transactions| == 2 && MinedOn(cfg, Store([genesis], [x]), b)
    requires b.transactions[0].id !in ChainIds([genesis]) + Ids([x])
    requires Goes(cfg, Pair(Store([genesis, b], []), {b.hash}, s1, {}, txs0, txs1, flight + [Envelope(0, 1, NewBlock(b))], 2), evs, last)
    ensures Goes(cfg, Pair(Store([genesis], [x]), {}, s1, {}, txs0, txs1, flight, 1), all, last)
  {
    var net0 := Pair(Store([genesis], [x]), {}, s1, {}, txs0, txs1, flight, 1);
    var net1 := Pair(Store([genesis, b], []), {b.hash}, s1, {}, txs0, txs1, flight + [Envelope(0, 1, NewBlock(b))], 2);
    MineStep(cfg, net0, 0, 1, b);
    assert [genesis] + [b] == [genesis, b] && {} + {b.hash} == {b.hash};
    Goes1(cfg, net0, Mine(0, b), net1, evs, last);
    all := [Mine(0, b)] + evs;
  }

  lemma TwinMines(cfg: Config, genesis: Block, s0: Store, y: Transaction, twin: Block, seen: set<Digest>, txs0: set<string>, txs1: set<string>,
                  flight: seq<Envelope>, evs: seq<Event>, last: Net) returns (all: seq<Event>)
    requires genesis.index == 0 && |twin.transactions| == 2 && MinedOn(cfg, Store([genesis], [y]), twin)
    requires twin.transactions[0].id !in ChainIds([genesis]) + Ids([y])
    requires Goes(cfg, Pair(s0, seen, Store([genesis, twin], []), {twin.hash}, txs0, txs1, flight + [Envelope(1, 0, NewBlock(twin))], 2), evs, last)
    ensures Goes(cfg, Pair(s0, seen, Store([genesis], [y]), {}, txs0, txs1, flight, 2), all, last)
  {
    var net1 := Pair(s0, seen, Store([genesis], [y]), {}, txs0, txs1, flight, 2);
    var net2 := Pair(s0, seen, Store([genesis, twin], []), {twin.hash}, txs0, txs1, flight + [Envelope(1, 0, NewBlock(twin))], 2);
    MineStep(cfg, net1, 1, 0, twin);
    assert [genesis] + [twin] == [genesis, twin] && {} + {twin.hash} == {twin.hash};
    Goes1(cfg, net1, Mine(1, twin), net2, evs, last);
    all := [Mine(1, twin)] + evs;
  }

  lemma TwinIsMinable(cfg: Config, genesis: Block, x: Transaction, y: Transaction, b: Block, twin: Block)
    requires x.from.Some? && y == x.(id := y.id) && MinedOn(cfg, Store([genesis], [x]), b) && |b.transactions| == |twin.transactions| == 2
    requires twin == b.(transactions := [b.transactions[0].(id := twin.transactions[0].id), y])
    ensures b.transactions[1] == x && twin.hash == b.hash && MinedOn(cfg, Store([genesis], [y]), twin)
  {
    var pending := b.transactions[1..];
    assert pending == [b.transactions[1]] && b.transactions[1] in multiset(pending);
    assert b.transactions[1] in [x];
    assert twin.transactions[1..] == [y] && [x][..0] == [] && [y][..0] == [];
    assert TxHashes(twin.transactions) == TxHashes(b.transactions);
  }

  lemma HearStep(cfg: Config, net: Net, i: nat, j: nat, t: Transaction, rest: seq<Envelope>)
    requires j < |net.nodes| && net.nodes[j].Height() >= 1 && net.nodes[j].sockets == [i] && net.flight == [Envelope(i, j, NewTransaction(t))] + rest
    requires t.id !in net.nodes[j].seenTxs && AddExternal(cfg.crypto, net.nodes[j].store, t).1 == Added
    ensures Enabled(cfg, net, Deliver(0))
    ensures var n := net.nodes[j];
            Next(cfg, net, Deliver(0))
            == net.(nodes := net.nodes[j := Node(Store(n.store.chain, n.store.mempool + [t]), [i], n.seenBlocks, n.seenTxs + {t.id})],
                    flight := rest)
  {
    OnePeer(j, i, Some(i), NewTransaction(t));
    assert net.flight[..0] + net.flight[1..] + [] == rest;
  }

  lemma IdsOfTwinChain(genesis: Block, twin: Block, y: Transaction)
    requires |twin.transactions| == 2 && twin.transactions[1] == y
    ensures ChainIds([genesis, twin]) == Ids(genesis.transactions) + {twin.transactions[0].id, y.id}
  {
    IdsOfGenesisChain(genesis);
    assert [genesis] + [twin] == [genesis, twin];
    ChainIdsAppend([genesis], twin);
    assert twin.transactions == [twin.transactions[0], y];
  }

  /** Node 1 hears of the first transaction. */
  lemma HearsOfFirst(cfg: Config, genesis: Block, x: Transaction, y: Transaction, b: Block, twin: Block, rest: seq<Envelope>, evs: seq<Event>, last: Net)
    returns (all: seq<Event>)
    requires |twin.transactions| == 2 && twin.transactions[1] == y && ValidTx(cfg.crypto, x)
    requires x.id !in Ids(genesis.transactions) + {twin.transactions[0].id, y.id}
    requires Goes(cfg, Pair(Store([genesis, b], []), {b.hash}, Store([genesis, twin], [x]), {b.hash}, {x.id}, {y.id, x.id}, rest, 2), evs, last)
    ensures Goes(cfg, Pair(Store([genesis, b], []), {b.hash}, Store([genesis, twin], []), {b.hash}, {x.id}, {y.id},
                           [Envelope(0, 1, NewTransaction(x))] + rest, 2), all, last)
  {
    var net0 := Pair(Store([genesis, b], []), {b.hash}, Store([genesis, twin], []), {b.hash}, {x.id}, {y.id},
                     [Envelope(0, 1, NewTransaction(x))] + rest, 2);
    var net1 := Pair(Store([genesis, b], []), {b.hash}, Store([genesis, twin], [x]), {b.hash}, {x.id}, {y.id, x.id}, rest, 2);
    IdsOfTwinChain(genesis, twin, y);
    HearStep(cfg, net0, 0, 1, x, rest);
    assert [] + [x] == [x] && {y.id} + {x.id} == {y.id, x.id};
    Goes1(cfg, net0, Deliver(0), net1, evs, last);
    all := [Deliver(0)] + evs;
  }

  /** It mines that transaction on top of its own block. */
  lemma MinesItAgain(cfg: Config, genesis: Block, x: Transaction, s0: Store, twin: Block, next: Block, seen: set<Digest>, txs0: set<string>, txs1: set<string>,
                     rest: seq<Envelope>, evs: seq<Event>, last: Net) returns (all: seq<Event>)
    requires twin.index == 1 && |next.transactions| == 2 && MinedOn(cfg, Store([genesis, twin], [x]), next)
    requires next.transactions[0].id !in ChainIds([genesis, twin]) + Ids([x])
    requires Goes(cfg, Pair(s0, seen, Store([genesis, twin, next], []), seen + {next.hash}, txs0, txs1,
                            rest + [Envelope(1, 0, NewBlock(next))], 3), evs, last)
    ensures Goes(cfg, Pair(s0, seen, Store([genesis, twin], [x]), seen, txs0, txs1, rest, 2), all, last)
  {
    var net1 := Pair(s0, seen, Store([genesis, twin], [x]), seen, txs0, txs1, rest, 2);
    var net2 := Pair(s0, seen, Store([genesis, twin, next], []), seen + {next.hash}, txs0, txs1, rest + [Envelope(1, 0, NewBlock(next))], 3);
    MineStep(cfg, net1, 1, 0, next);
    assert [genesis, twin] + [next] == [genesis, twin, next];
    Goes1(cfg, net1, Mine(1, next), net2, evs, last);
    all := [Mine(1, next)] + evs;
  }

  /** And node 0 takes that block. */
  lemma TakesTheBlock(cfg: Config, genesis: Block, b: Block, twin: Block, next: Block, txs0: set<string>, txs1: set<string>, rest: seq<Envelope>)
    returns (last: Net)
    requires |rest| == 3 && ValidBlock(cfg.crypto, b) && ValidBlock(cfg.crypto, next) && b.index == 1 && next.index == 2
    requires next.previousHash == b.hash
    ensures Goes(cfg, Pair(Store([genesis, b], []), {b.hash}, Store([genesis, twin, next], []), {b.hash, next.hash}, txs0, txs1,
                           rest + [Envelope(1, 0, NewBlock(next))], 3), [Deliver(3)], last)
    ensures |last.nodes| == 2 && last.nodes[0].store.chain == [genesis, b, next]
  {
    var net2 := Pair(Store([genesis, b], []), {b.hash}, Store([genesis, twin, next], []), {b.hash, next.hash}, txs0, txs1,
                     rest + [Envelope(1, 0, NewBlock(next))], 3);
    assert net2.flight[3] == Envelope(1, 0, NewBlock(next));
    last := Next(cfg, net2, Deliver(3));
    assert b.hash == HeaderHash(b) && next.hash == HeaderHash(next);
    assert [genesis, b] + [next] == [genesis, b, next];
    Stays(cfg, last);
    Goes1(cfg, net2, Deliver(3), last, [], last);
    assert [Deliver(3)] + [] == [Deliver(3)];
  }

  lemma TheyMeet(cfg: Config, genesis: Block, evs: seq<Event>, last: Net) returns (all: seq<Event>)
    requires Goes(cfg, Connected(genesis), evs, last)
    ensures Goes(cfg, Start(genesis, 2), all, last)
  {
    var h01, h10 := Envelope(0, 1, Hello(1)), Envelope(1, 0, Hello(1));
    TheyConnect(cfg, genesis);
    GreetingChangesNothing(cfg, genesis, [h01, h10], 0, 1);
    GreetingChangesNothing(cfg, genesis, [h10], 1, 0);
    assert [h01, h10][1..] == [h10] && [h10][1..] == [];
    Goes1(cfg, Greeting(genesis, [h10]), Deliver(0), Connected(genesis), evs, last);
    Goes1(cfg, Greeting(genesis, [h01, h10]), Deliver(0), Greeting(genesis, [h10]), [Deliver(0)] + evs, last);
    Goes1(cfg, Start(genesis, 2), Connect(0, 1), Greeting(genesis, [h01, h10]), [Deliver(0)] + ([Deliver(0)] + evs), last);
    all := [Connect(0, 1)] + ([Deliver(0)] + ([Deliver(0)] + evs));
  }

  /** So every node makes up only ids it does not have. */
  lemma MadeUpApart(genesis: Block, x: Transaction, y: Transaction, b: Block, twin: Block, next: Block)
    requires |b.transactions| == |twin.transactions| == |next.transactions| == 2 && MadeUp(genesis, x, y, b, twin, next)
    requires twin.transactions[1] == y
    ensures x.id !in Ids(genesis.transactions) + {twin.transactions[0].id, y.id} && y.id !in Ids(genesis.transactions)
    ensures b.transactions[0].id !in ChainIds([genesis]) + Ids([x]) && twin.transactions[0].id !in ChainIds([genesis]) + Ids([y])
    ensures next.transactions[0].id !in ChainIds([genesis, twin]) + Ids([x])
  {
    IdsOfGenesisChain(genesis);
    IdsOfTwinChain(genesis, twin, y);
    assert Ids([x]) == {x.id} && Ids([y]) == {y.id};
    var ids := [x.id, y.id, b.transactions[0].id, twin.transactions[0].id, next.transactions[0].id];
    assert ids[0] != ids[1] && ids[0] != ids[2] && ids[0] != ids[3] && ids[0] != ids[4] && ids[1] != ids[3] && ids[1] != ids[4] && ids[3] != ids[4];
    assert forall i :: 0 <= i < |ids| ==> ids[i] !in Ids(genesis.transactions);
  }

  /** The end of the run, once node 1 has heard of the first transaction. */
  lemma TwinIsExtended(cfg: Config, genesis: Block, x: Transaction, y: Transaction, b: Block, twin: Block, next: Block,
                       txs0: set<string>, txs1: set<string>, rest: seq<Envelope>) returns (all: seq<Event>, last: Net)
    requires genesis.index == 0 && |rest| == 3 && Twins(cfg, genesis, x, y, b, twin, next) && twin.hash == b.hash
    requires next.transactions[0].id !in ChainIds([genesis, twin]) + Ids([x])
    ensures Goes(cfg, Pair(Store([genesis, b], []), {b.hash}, Store([genesis, twin], [x]), {b.hash}, txs0, txs1, rest, 2), all, last)
    ensures |last.nodes| == 2 && last.nodes[0].store.chain == [genesis, b, next]
  {
    last := TakesTheBlock(cfg, genesis, b, twin, next, txs0, txs1, rest);
    assert {b.hash} + {next.hash} == {b.hash, next.hash};
    all := MinesItAgain(cfg, genesis, x, Store([genesis, b], []), twin, next, {b.hash}, txs0, txs1, rest, [Deliver(3)], last);
  }

  /** The second half of the run, from the two twin blocks on. */
  lemma TwinGrows(cfg: Config, genesis: Block, x: Transaction, y: Transaction, b: Block, twin: Block, next: Block, rest: seq<Envelope>)
    returns (all: seq<Event>, last: Net)
    requires genesis.index == 0 && |rest| == 3 && Twins(cfg, genesis, x, y, b, twin, next) && MadeUp(genesis, x, y, b, twin, next)
    ensures Goes(cfg, Pair(Store([genesis, b], []), {b.hash}, Store([genesis, twin], []), {b.hash}, {x.id}, {y.id},
                           [Envelope(0, 1, NewTransaction(x))] + rest, 2), all, last)
    ensures |last.nodes| == 2 && last.nodes[0].store.chain == [genesis, b, next]
  {
    TwinIsMinable(cfg, genesis, x, y, b, twin);
    MadeUpApart(genesis, x, y, b, twin, next);
    all, last := TwinIsExtended(cfg, genesis, x, y, b, twin, next, {x.id}, {y.id, x.id}, rest);
    all := HearsOfFirst(cfg, genesis, x, y, b, twin, rest, all, last);
  }

  /** The middle of the run: the twins are mined. */
  lemma TwinsAreMined(cfg: Config, genesis: Block, x: Transaction, y: Transaction, b: Block, twin: Block, next: Block,
                      flight: seq<Envelope>, evs: seq<Event>, last: Net) returns (all: seq<Event>)
    requires genesis.index == 0 && Twins(cfg, genesis, x, y, b, twin, next) && MadeUp(genesis, x, y, b, twin, next)
    requires Goes(cfg, Pair(Store([genesis, b], []), {b.hash}, Store([genesis, twin], []), {b.hash}, {x.id}, {y.id},
                            flight + [Envelope(0, 1, NewBlock(b))] + [Envelope(1, 0, NewBlock(twin))], 2), evs, last)
    ensures Goes(cfg, Pair(Store([genesis], [x]), {}, Store([genesis], [y]), {}, {x.id}, {y.id}, flight, 1), all, last)
  {
    TwinIsMinable(cfg, genesis, x, y, b, twin);
    MadeUpApart(genesis, x, y, b, twin, next);
    all := TwinMines(cfg, genesis, Store([genesis, b], []), y, twin, {b.hash}, {x.id}, {y.id}, flight + [Envelope(0, 1, NewBlock(b))], evs, last);
    all := FirstMines(cfg, genesis, x, Store([genesis], [y]), b, {x.id}, {y.id}, flight, all, last);
  }

  /** The beginning of the run: both submit before they hear of each other's transaction. */
  lemma TwinsAreSubmitted(cfg: Config, genesis: Block, x: Transaction, y: Transaction, evs: seq<Event>, last: Net) returns (all: seq<Event>)
    requires x.from.Some? && y == x.(id := y.id) && x.id !in Ids(genesis.transactions) && y.id !in Ids(genesis.transactions)
    requires Blockchain.Submit(cfg.crypto, Store([genesis], []), x).1 == Submitted
    requires Goes(cfg, Pair(Store([genesis], [x]), {}, Store([genesis], [y]), {}, {x.id}, {y.id},
                            [Envelope(0, 1, NewTransaction(x)), Envelope(1, 0, NewTransaction(y))], 1), evs, last)
    ensures Goes(cfg, Start(genesis, 2), all, last)
  {
    all := SecondSubmits(cfg, genesis, x, y, evs, last);
    all := FirstSubmits(cfg, genesis, x, all, last);
    all := TheyMeet(cfg, genesis, all, last);
  }

  /** The whole run. */
  lemma TwinsRun(cfg: Config, genesis: Block, x: Transaction, y: Transaction, b: Block, twin: Block, next: Block) returns (evs: seq<Event>, last: Net)
    requires genesis.index == 0 && Twins(cfg, genesis, x, y, b, twin, next) && MadeUp(genesis, x, y, b, twin, next)
    ensures Goes(cfg, Start(genesis, 2), evs, last)
    ensures |last.nodes| == 2 && last.nodes[0].store.chain == [genesis, b, next]
  {
    var e0, e1 := Envelope(0, 1, NewTransaction(x)), Envelope(1, 0, NewTransaction(y));
    var m0, m1 := Envelope(0, 1, NewBlock(b)), Envelope(1, 0, NewBlock(twin));
    evs, last := TwinGrows(cfg, genesis, x, y, b, twin, next, [e1, m0, m1]);
    assert [e0] + [e1, m0, m1] == [e0, e1] + [m0] + [m1];
    evs := TwinsAreMined(cfg, genesis, x, y, b, twin, next, [e0, e1], evs, last);
    SubmittedApart(genesis, x, y, b, twin, next);
    evs := TwinsAreSubmitted(cfg, genesis, x, y, evs, last);
  }

  lemma SubmittedApart(genesis: Block, x: Transaction, y: Transaction, b: Block, twin: Block, next: Block)
    requires |b.transactions| == |twin.transactions| == |next.transactions| == 2 && MadeUp(genesis, x, y, b, twin, next)
    ensures x.id !in Ids(genesis.transactions) && y.id !in Ids(genesis.transactions)
  {
    var ids := [x.id, y.id, b.transactions[0].id, twin.transactions[0].id, next.transactions[0].id];
    assert ids[0] !in Ids(genesis.transactions) && ids[1] !in Ids(genesis.transactions);
  }

  /**
   * Two nodes submit transactions that differ in their id alone and mine them at once, in
   * blocks that differ in ids alone. One of them then mines the other's transaction on top, and
   * the other takes the block: it has that transaction, under one id, twice.
   */
  lemma IdCanRepeat(cfg: Config, genesis: Block, x: Transaction, y: Transaction, b: Block, twin: Block, next: Block) returns (evs: seq<Event>)
    requires IsGenesis(cfg, genesis) && Twins(cfg, genesis, x, y, b, twin, next) && MadeUp(genesis, x, y, b, twin, next)
    ensures Legal(cfg, Start(genesis, 2), evs) && NewIds(cfg, Start(genesis, 2), evs)
    ensures var net := Run(cfg, Start(genesis, 2), evs);
            && |net.nodes| == 2 && net.nodes[0].store.chain == [genesis, b, next]
            && x in b.transactions && x in next.transactions && !NoIdTwice(net.nodes[0].store.chain)
  {
    GenesisIsValid(cfg, genesis);
    var last: Net;
    evs, last := TwinsRun(cfg, genesis, x, y, b, twin, next);
    TwinIsMinable(cfg, genesis, x, y, b, twin);
    PendingIsMined(cfg, Store([genesis, twin], [x]), next, x);
    SharedTransaction([genesis, b, next], x, 1, 2);
  }

  lemma SharedTransaction(chain: seq<Block>, t: Transaction, k: nat, l: nat)
    requires k < l < |chain| && t in chain[k].transactions && t in chain[l].transactions
    ensures !NoIdTwice(chain)
  {
    assert t.id in Ids(chain[k].transactions) && t.id in Ids(chain[l].transactions);
  }

  lemma PendingIsMined(cfg: Config, s: Store, b: Block, x: Transaction)
    requires |s.chain| >= 1 && s.mempool == [x] && MinedOn(cfg, s, b) && |b.transactions| == 2
    ensures b.transactions[1] == x
  {
    var pending := b.transactions[1..];
    assert pending == [b.transactions[1]] && b.transactions[1] in multiset(pending);
    assert b.transactions[1] in [x];
  }
}

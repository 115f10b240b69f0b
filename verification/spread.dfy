/**
 * What is announced reaches everybody (src/p2p/p2p.service.ts): over any connected topology, not
 * only a full mesh, because a node passes an accepted block or transaction on to its other peers.
 */
module Spread {
  import opened Wrappers
  import opened CryptoUtil
  import opened Domain
  import opened Blockchain
  import opened P2p
  import opened Gossip
  import opened Agreement

  // ---- Connected topologies ----

  /** A walk along open sockets. */
  ghost predicate IsWalk(net: Net, walk: seq<nat>) {
    |walk| > 0 && forall k :: 0 <= k < |walk| - 1 ==> Linked(net, walk[k], walk[k + 1])
  }

  ghost predicate Reaches(net: Net, i: nat, j: nat) {
    exists walk :: IsWalk(net, walk) && walk[0] == i && walk[|walk| - 1] == j
  }

  ghost predicate ConnectedTopology(net: Net) {
    forall i: nat, j: nat :: i < |net.nodes| && j < |net.nodes| ==> Reaches(net, i, j)
  }

  ghost predicate SameLinks(a: Net, b: Net) {
    |a.nodes| == |b.nodes| && forall i :: 0 <= i < |a.nodes| ==> a.nodes[i].sockets == b.nodes[i].sockets
  }

  /** What holds of one node and, with a node, of its peers, holds along every walk. */
  lemma {:induction false} AlongWalk(net: Net, has: set<nat>, walk: seq<nat>)
    requires IsWalk(net, walk) && walk[0] in has
    requires forall p: nat, q: nat :: p in has && Linked(net, p, q) ==> q in has
    ensures walk[|walk| - 1] in has
    decreases |walk|
  {
    if |walk| > 1 {
      var shorter := walk[..|walk| - 1];
      AlongWalk(net, has, shorter);
      assert Linked(net, walk[|walk| - 2], walk[|walk| - 1]);
    }
  }

  /** Only messages are delivered and transactions submitted: nobody mines, and no socket opens or closes. */
  predicate Calm(evs: seq<Event>) {
    forall k :: 0 <= k < |evs| ==> evs[k].Deliver? || evs[k].Submit?
  }

  // ---- A mined block ----

  predicate Has(net: Net, j: nat, chain: seq<Block>, b: Block) {
    j < |net.nodes| && net.nodes[j].store.chain == chain + [b] && b.hash in net.nodes[j].seenBlocks
  }

  predicate Lacks(net: Net, j: nat, chain: seq<Block>, b: Block) {
    j < |net.nodes| && net.nodes[j].store.chain == chain && b.hash !in net.nodes[j].seenBlocks
  }

  /** Everybody is on the old chain or on the new one, and whoever has the block has told each peer that lacks it. */
  ghost predicate Spreading(net: Net, chain: seq<Block>, b: Block) {
    && (forall j: nat :: j < |net.nodes| ==> Has(net, j, chain, b) || Lacks(net, j, chain, b))
    && (forall e :: e in net.flight ==> e.msg.NewTransaction? || (e.msg == NewBlock(b) && Has(net, e.src, chain, b)))
    && (forall p: nat, q: nat :: Has(net, p, chain, b) && Linked(net, p, q) ==>
          Has(net, q, chain, b) || Envelope(p, q, NewBlock(b)) in net.flight)
  }

  /** The block fits on the chain. */
  predicate Fits(cfg: Config, chain: seq<Block>, b: Block) {
    |chain| >= 1 && b.index == chain[|chain| - 1].index + 1 && b.previousHash == chain[|chain| - 1].hash && ValidBlock(cfg.crypto, b)
  }

  lemma TakesBlock(cfg: Config, n: Node, e: Envelope, chain: seq<Block>, b: Block)
    requires Fits(cfg, chain, b) && n.store.chain == chain && b.hash !in n.seenBlocks && e.msg == NewBlock(b)
    ensures var after, out := Handle(cfg.crypto, n, e).0, Handle(cfg.crypto, n, e).1;
            && after.store.chain == chain + [b] && b.hash in after.seenBlocks && after.sockets == n.sockets
            && forall m :: m in out <==> m.src == e.dst && m.msg == NewBlock(b) && m.dst in n.sockets && m.dst != e.src
  {
  }

  lemma KeepsBlocks(cfg: Config, n: Node, e: Envelope)
    requires n.Height() >= 1 && (e.msg.NewTransaction? || (e.msg.NewBlock? && e.msg.block.hash in n.seenBlocks))
    ensures var after, out := Handle(cfg.crypto, n, e).0, Handle(cfg.crypto, n, e).1;
            && after.store.chain == n.store.chain && after.seenBlocks == n.seenBlocks && after.sockets == n.sockets
            && forall m :: m in out ==> m.msg.NewTransaction?
  {
  }

  lemma DeliverSpreads(cfg: Config, net: Net, k: nat, chain: seq<Block>, b: Block)
    requires Fits(cfg, chain, b) && Spreading(net, chain, b) && Enabled(cfg, net, Deliver(k))
    ensures Spreading(Next(cfg, net, Deliver(k)), chain, b) && SameLinks(net, Next(cfg, net, Deliver(k)))
  {
    var e := net.flight[k];
    var out := Handle(cfg.crypto, net.nodes[e.dst], e).1;
    var after := Next(cfg, net, Deliver(k));
    assert e in net.flight;
    forall m
      ensures m in net.flight && m != e ==> m in after.flight
      ensures m in out ==> m in after.flight
      ensures m in after.flight ==> m in net.flight || m in out
    {
      DeliveredFlight(net.flight, k, out, m);
    }
    if e.msg.NewBlock? && Lacks(net, e.dst, chain, b) {
      TakesBlock(cfg, net.nodes[e.dst], e, chain, b);
      BlockArrived(net, after, e, out, chain, b);
    } else {
      KeepsBlocks(cfg, net.nodes[e.dst], e);
      NothingArrived(net, after, e, out, chain, b);
    }
  }

  lemma BlockArrived(net: Net, after: Net, e: Envelope, out: seq<Envelope>, chain: seq<Block>, b: Block)
    requires Spreading(net, chain, b) && e in net.flight && e.msg == NewBlock(b) && Lacks(net, e.dst, chain, b)
    requires SameLinks(net, after) && Has(after, e.dst, chain, b)
    requires forall j :: 0 <= j < |net.nodes| && j != e.dst ==> after.nodes[j] == net.nodes[j]
    requires forall m :: m in net.flight && m != e ==> m in after.flight
    requires forall m :: m in out ==> m in after.flight
    requires forall m :: m in after.flight ==> m in net.flight || m in out
    requires forall m :: m in out <==> m.src == e.dst && m.msg == NewBlock(b) && m.dst in net.nodes[e.dst].sockets && m.dst != e.src
    ensures Spreading(after, chain, b)
  {
    assert forall j: nat :: j < |net.nodes| && j != e.dst ==> Has(after, j, chain, b) == Has(net, j, chain, b);
    assert forall p: nat, q: nat :: Linked(after, p, q) == Linked(net, p, q);
    forall p: nat, q: nat | Has(after, p, chain, b) && Linked(after, p, q)
      ensures Has(after, q, chain, b) || Envelope(p, q, NewBlock(b)) in after.flight
    {
      if p == e.dst && q != e.src {
        assert Envelope(p, q, NewBlock(b)) in out;
      } else if p == e.dst {
        assert Has(net, e.src, chain, b);
      } else {
        assert Has(net, p, chain, b) && Linked(net, p, q);
      }
    }
  }

  lemma NothingArrived(net: Net, after: Net, e: Envelope, out: seq<Envelope>, chain: seq<Block>, b: Block)
    requires Spreading(net, chain, b) && e in net.flight && (e.msg == NewBlock(b) ==> Has(net, e.dst, chain, b))
    requires SameLinks(net, after)
    requires forall j :: 0 <= j < |net.nodes| ==>
               after.nodes[j].store.chain == net.nodes[j].store.chain && after.nodes[j].seenBlocks == net.nodes[j].seenBlocks
    requires forall m :: m in net.flight && m != e ==> m in after.flight
    requires forall m :: m in after.flight ==> m in net.flight || m in out
    requires forall m :: m in out ==> m.msg.NewTransaction?
    ensures Spreading(after, chain, b)
  {
    assert forall j: nat :: Has(after, j, chain, b) == Has(net, j, chain, b) && Lacks(after, j, chain, b) == Lacks(net, j, chain, b);
    assert forall p: nat, q: nat :: Linked(after, p, q) == Linked(net, p, q);
  }

  lemma SubmitSpreads(cfg: Config, net: Net, i: nat, t: Transaction, chain: seq<Block>, b: Block)
    requires Spreading(net, chain, b) && Enabled(cfg, net, Submit(i, t))
    ensures Spreading(Next(cfg, net, Submit(i, t)), chain, b) && SameLinks(net, Next(cfg, net, Submit(i, t)))
  {
    var after := Next(cfg, net, Submit(i, t));
    assert forall j: nat :: Has(after, j, chain, b) == Has(net, j, chain, b) && Lacks(after, j, chain, b) == Lacks(net, j, chain, b);
    assert forall p: nat, q: nat :: Linked(after, p, q) == Linked(net, p, q);
  }

  lemma {:induction false} RunSpreads(cfg: Config, net: Net, evs: seq<Event>, chain: seq<Block>, b: Block)
    requires Fits(cfg, chain, b) && Spreading(net, chain, b) && Legal(cfg, net, evs) && Calm(evs)
    ensures Spreading(Run(cfg, net, evs), chain, b) && SameLinks(net, Run(cfg, net, evs))
    decreases |evs|
  {
    if |evs| > 0 {
      match evs[0] {
        case Deliver(k) => DeliverSpreads(cfg, net, k, chain, b);
        case Submit(i, t) => SubmitSpreads(cfg, net, i, t, chain, b);
      }
      RunSpreads(cfg, Next(cfg, net, evs[0]), evs[1..], chain, b);
    }
  }

  /** Once nothing but transactions is in flight, the block has reached whoever can be reached from one who has it. */
  lemma QuietMeansSpread(net: Net, i: nat, j: nat, chain: seq<Block>, b: Block)
    requires Spreading(net, chain, b) && Quiet(net) && Has(net, i, chain, b) && Reaches(net, i, j)
    ensures Has(net, j, chain, b)
  {
    var has := set p: nat | p < |net.nodes| && Has(net, p, chain, b);
    var walk :| IsWalk(net, walk) && walk[0] == i && walk[|walk| - 1] == j;
    forall p: nat, q: nat | p in has && Linked(net, p, q)
      ensures q in has
    {
      assert Has(net, p, chain, b);
    }
    AlongWalk(net, has, walk);
  }

  ghost predicate SameChains(net: Net) {
    forall i, j :: 0 <= i < |net.nodes| && 0 <= j < |net.nodes| ==> net.nodes[i].store.chain == net.nodes[j].store.chain
  }

  /** Where all are at one height, nobody has seen a block of the next. */
  lemma NewBlockIsUnseen(cfg: Config, genesis: Block, net: Net, i: nat, b: Block, j: nat)
    requires Inv(cfg.crypto, genesis, net) && SameChains(net) && Enabled(cfg, net, Mine(i, b)) && j < |net.nodes|
    ensures b.hash !in net.nodes[j].seenBlocks
  {
    assert HonestChain(cfg.crypto, genesis, net.nodes[i].store.chain);
    assert b.hash == HeaderHash(b) && b.index == net.nodes[i].Height();
  }

  lemma MinerTellsPeers(cfg: Config, net: Net, i: nat, b: Block)
    requires Quiet(net) && Enabled(cfg, net, Mine(i, b))
    requires forall j: nat :: j < |net.nodes| ==> Lacks(net, j, net.nodes[i].store.chain, b)
    ensures var after, chain := Next(cfg, net, Mine(i, b)), net.nodes[i].store.chain;
            Spreading(after, chain, b) && Has(after, i, chain, b) && SameLinks(net, after)
  {
    var after, chain := Next(cfg, net, Mine(i, b)), net.nodes[i].store.chain;
    assert after.nodes[i].store.chain == chain + [b] && |chain + [b]| > |chain|;
    forall j: nat | j < |net.nodes| && j != i
      ensures Lacks(after, j, chain, b) && !Has(after, j, chain, b)
    {
      assert Lacks(net, j, chain, b);
      assert after.nodes[j].store == net.nodes[j].store && after.nodes[j].seenBlocks == net.nodes[j].seenBlocks;
    }
    assert Has(after, i, chain, b);
    forall p: nat, q: nat | Has(after, p, chain, b) && Linked(after, p, q)
      ensures Envelope(p, q, NewBlock(b)) in after.flight
    {
      assert p == i && q in net.nodes[i].sockets;
    }
  }

  lemma MiningStartsSpread(cfg: Config, genesis: Block, net: Net, i: nat, b: Block)
    requires Inv(cfg.crypto, genesis, net) && Quiet(net) && SameChains(net) && Enabled(cfg, net, Mine(i, b))
    ensures Fits(cfg, net.nodes[i].store.chain, b)
    ensures var after, chain := Next(cfg, net, Mine(i, b)), net.nodes[i].store.chain;
            Spreading(after, chain, b) && Has(after, i, chain, b) && SameLinks(net, after)
  {
    forall j: nat | j < |net.nodes|
      ensures Lacks(net, j, net.nodes[i].store.chain, b)
    {
      NewBlockIsUnseen(cfg, genesis, net, i, b, j);
    }
    MinerTellsPeers(cfg, net, i, b);
  }

  lemma LinkedAlike(a: Net, b: Net, i: nat, j: nat)
    requires SameLinks(a, b) && Reaches(a, i, j)
    ensures Reaches(b, i, j)
  {
    var walk :| IsWalk(a, walk) && walk[0] == i && walk[|walk| - 1] == j;
    assert forall k :: 0 <= k < |walk| - 1 ==> Linked(a, walk[k], walk[k + 1]);
    assert IsWalk(b, walk);
  }

  /**
   * Any reachable network that is quiet, connected and agreed on one chain: a block is mined,
   * after which only messages are delivered and transactions submitted. Once quiet again, every
   * node has that block on top of that chain.
   */
  lemma {:induction false} MinedBlockReachesEverybody(cfg: Config, genesis: Block, n: nat, before: seq<Event>, i: nat, b: Block, evs: seq<Event>)
    requires IsGenesis(cfg, genesis) && Legal(cfg, Start(genesis, n), before)
    requires var net := Run(cfg, Start(genesis, n), before);
             && Quiet(net) && ConnectedTopology(net) && SameChains(net) && Enabled(cfg, net, Mine(i, b))
             && Calm(evs) && Legal(cfg, Next(cfg, net, Mine(i, b)), evs)
             && Quiet(Run(cfg, Next(cfg, net, Mine(i, b)), evs))
    ensures var net := Run(cfg, Start(genesis, n), before);
            var last := Run(cfg, Next(cfg, net, Mine(i, b)), evs);
            && |last.nodes| == |net.nodes|
            && forall j :: 0 <= j < |last.nodes| ==> last.nodes[j].store.chain == net.nodes[i].store.chain + [b]
  {
    var net := Run(cfg, Start(genesis, n), before);
    StartInv(cfg, genesis, n);
    RunKeepsInv(cfg, genesis, Start(genesis, n), before);
    MiningStartsSpread(cfg, genesis, net, i, b);
    SpreadEnds(cfg, net, i, b, evs);
  }

  lemma {:induction false} SpreadEnds(cfg: Config, net: Net, i: nat, b: Block, evs: seq<Event>)
    requires Enabled(cfg, net, Mine(i, b)) && ConnectedTopology(net)
    requires var mined, chain := Next(cfg, net, Mine(i, b)), net.nodes[i].store.chain;
             && Fits(cfg, chain, b) && Spreading(mined, chain, b) && Has(mined, i, chain, b) && SameLinks(net, mined)
             && Calm(evs) && Legal(cfg, mined, evs) && Quiet(Run(cfg, mined, evs))
    ensures var last := Run(cfg, Next(cfg, net, Mine(i, b)), evs);
            && |last.nodes| == |net.nodes|
            && forall j :: 0 <= j < |last.nodes| ==> last.nodes[j].store.chain == net.nodes[i].store.chain + [b]
  {
    var mined, chain := Next(cfg, net, Mine(i, b)), net.nodes[i].store.chain;
    var last := Run(cfg, mined, evs);
    RunSpreads(cfg, mined, evs, chain, b);
    HoldersStay(cfg, mined, evs, chain, b, i);
    forall j: nat | j < |last.nodes|
      ensures last.nodes[j].store.chain == chain + [b]
    {
      LinkedAlike(net, last, i, j);
      QuietMeansSpread(last, i, j, chain, b);
    }
  }

  /** Whoever has the block keeps it. */
  lemma {:induction false} HoldersStay(cfg: Config, net: Net, evs: seq<Event>, chain: seq<Block>, b: Block, i: nat)
    requires Fits(cfg, chain, b) && Spreading(net, chain, b) && Legal(cfg, net, evs) && Calm(evs) && Has(net, i, chain, b)
    ensures Has(Run(cfg, net, evs), i, chain, b)
    decreases |evs|
  {
    if |evs| > 0 {
      var next := Next(cfg, net, evs[0]);
      match evs[0] {
        case Deliver(k) =>
          DeliverSpreads(cfg, net, k, chain, b);
          HandleNeverForgets(cfg, net.nodes[net.flight[k].dst], net.flight[k]);
        case Submit(j, t) => SubmitSpreads(cfg, net, j, t, chain, b);
      }
      assert Has(next, i, chain, b) || Lacks(next, i, chain, b);
      HoldersStay(cfg, next, evs[1..], chain, b, i);
    }
  }

  lemma HandleNeverForgets(cfg: Config, n: Node, e: Envelope)
    requires n.Height() >= 1
    ensures n.seenBlocks <= Handle(cfg.crypto, n, e).0.seenBlocks
  {
  }

  // ---- A submitted transaction ----

  /** The node holds what it held in the first network, and the transaction behind it. */
  predicate Holds(first: Net, net: Net, j: nat, t: Transaction) {
    && j < |net.nodes| && j < |first.nodes| && t.id in net.nodes[j].seenTxs
    && net.nodes[j].store == Store(first.nodes[j].store.chain, first.nodes[j].store.mempool + [t])
  }

  /** The node holds what it held, and does not know the transaction. */
  predicate Unaware(first: Net, net: Net, j: nat, t: Transaction) {
    && j < |net.nodes| && j < |first.nodes| && t.id !in net.nodes[j].seenTxs && net.nodes[j].store == first.nodes[j].store
    && net.nodes[j].Height() >= 1
    && (forall u :: u in net.nodes[j].store.mempool ==> u.id != t.id)
    && (forall b, u :: b in net.nodes[j].store.chain && u in b.transactions ==> u.id != t.id)
  }

  ghost predicate SpreadingTx(first: Net, net: Net, t: Transaction) {
    && |net.nodes| == |first.nodes|
    && (forall j: nat :: j < |net.nodes| ==> Holds(first, net, j, t) || Unaware(first, net, j, t))
    && (forall e :: e in net.flight ==> e.msg == NewTransaction(t) && Holds(first, net, e.src, t))
    && (forall p: nat, q: nat :: Holds(first, net, p, t) && Linked(net, p, q) ==>
          Holds(first, net, q, t) || Envelope(p, q, NewTransaction(t)) in net.flight)
  }

  lemma TakesTx(cfg: Config, n: Node, e: Envelope, t: Transaction)
    requires n.Height() >= 1 && ValidTx(cfg.crypto, t) && t.id !in n.seenTxs && e.msg == NewTransaction(t)
    requires (forall u :: u in n.store.mempool ==> u.id != t.id) && (forall b, u :: b in n.store.chain && u in b.transactions ==> u.id != t.id)
    ensures var after, out := Handle(cfg.crypto, n, e).0, Handle(cfg.crypto, n, e).1;
            && after == n.(store := Store(n.store.chain, n.store.mempool + [t]), seenTxs := n.seenTxs + {t.id})
            && forall m :: m in out <==> m.src == e.dst && m.msg == NewTransaction(t) && m.dst in n.sockets && m.dst != e.src
  {
  }

  lemma DeliverSpreadsTx(cfg: Config, first: Net, net: Net, k: nat, t: Transaction)
    requires ValidTx(cfg.crypto, t) && SpreadingTx(first, net, t) && Enabled(cfg, net, Deliver(k))
    ensures SpreadingTx(first, Next(cfg, net, Deliver(k)), t) && SameLinks(net, Next(cfg, net, Deliver(k)))
  {
    var e := net.flight[k];
    var out := Handle(cfg.crypto, net.nodes[e.dst], e).1;
    var after := Next(cfg, net, Deliver(k));
    assert e in net.flight;
    forall m
      ensures m in net.flight && m != e ==> m in after.flight
      ensures m in out ==> m in after.flight
      ensures m in after.flight ==> m in net.flight || m in out
    {
      DeliveredFlight(net.flight, k, out, m);
    }
    if Unaware(first, net, e.dst, t) {
      TakesTx(cfg, net.nodes[e.dst], e, t);
      TxArrived(first, net, after, e, out, t);
    } else {
      TxKnown(first, net, after, e, t);
    }
  }

  lemma TxArrived(first: Net, net: Net, after: Net, e: Envelope, out: seq<Envelope>, t: Transaction)
    requires SpreadingTx(first, net, t) && e in net.flight && Unaware(first, net, e.dst, t)
    requires SameLinks(net, after) && Holds(first, after, e.dst, t)
    requires forall j :: 0 <= j < |net.nodes| && j != e.dst ==> after.nodes[j] == net.nodes[j]
    requires forall m :: m in net.flight && m != e ==> m in after.flight
    requires forall m :: m in out ==> m in after.flight
    requires forall m :: m in after.flight ==> m in net.flight || m in out
    requires forall m :: m in out <==> m.src == e.dst && m.msg == NewTransaction(t) && m.dst in net.nodes[e.dst].sockets && m.dst != e.src
    ensures SpreadingTx(first, after, t)
  {
    assert forall j: nat :: j < |net.nodes| && j != e.dst ==> Holds(first, after, j, t) == Holds(first, net, j, t);
    assert forall j: nat :: j < |net.nodes| && j != e.dst ==> Unaware(first, after, j, t) == Unaware(first, net, j, t);
    assert forall p: nat, q: nat :: Linked(after, p, q) == Linked(net, p, q);
    forall p: nat, q: nat | Holds(first, after, p, t) && Linked(after, p, q)
      ensures Holds(first, after, q, t) || Envelope(p, q, NewTransaction(t)) in after.flight
    {
      if p == e.dst && q != e.src {
        assert Envelope(p, q, NewTransaction(t)) in out;
      } else if p == e.dst {
        assert Holds(first, net, e.src, t);
      } else {
        assert Holds(first, net, p, t) && Linked(net, p, q);
      }
    }
  }

  lemma TxKnown(first: Net, net: Net, after: Net, e: Envelope, t: Transaction)
    requires SpreadingTx(first, net, t) && e in net.flight && Holds(first, net, e.dst, t)
    requires after.nodes == net.nodes
    requires forall m :: m in net.flight && m != e ==> m in after.flight
    requires forall m :: m in after.flight ==> m in net.flight
    ensures SpreadingTx(first, after, t)
  {
    assert forall j: nat :: Holds(first, after, j, t) == Holds(first, net, j, t) && Unaware(first, after, j, t) == Unaware(first, net, j, t);
    assert forall p: nat, q: nat :: Linked(after, p, q) == Linked(net, p, q);
  }

  predicate OnlyDeliveries(evs: seq<Event>) {
    forall k :: 0 <= k < |evs| ==> evs[k].Deliver?
  }

  lemma {:induction false} RunSpreadsTx(cfg: Config, first: Net, net: Net, evs: seq<Event>, t: Transaction, i: nat)
    requires ValidTx(cfg.crypto, t) && SpreadingTx(first, net, t) && Legal(cfg, net, evs) && OnlyDeliveries(evs) && Holds(first, net, i, t)
    ensures var last := Run(cfg, net, evs); SpreadingTx(first, last, t) && SameLinks(net, last) && Holds(first, last, i, t)
    decreases |evs|
  {
    if |evs| > 0 {
      var k := evs[0].k;
      var next := Next(cfg, net, evs[0]);
      DeliverSpreadsTx(cfg, first, net, k, t);
      TxNeverForgotten(cfg, net.nodes[net.flight[k].dst], net.flight[k]);
      assert Holds(first, next, i, t) || Unaware(first, next, i, t);
      RunSpreadsTx(cfg, first, next, evs[1..], t, i);
    }
  }

  lemma TxNeverForgotten(cfg: Config, n: Node, e: Envelope)
    requires n.Height() >= 1
    ensures n.seenTxs <= Handle(cfg.crypto, n, e).0.seenTxs
  {
  }

  lemma SubmissionStartsSpread(cfg: Config, net: Net, i: nat, t: Transaction)
    requires net.flight == [] && Enabled(cfg, net, Submit(i, t)) && forall j: nat :: j < |net.nodes| ==> Unaware(net, net, j, t)
    ensures var after := Next(cfg, net, Submit(i, t));
            ValidTx(cfg.crypto, t) && SpreadingTx(net, after, t) && Holds(net, after, i, t) && SameLinks(net, after)
  {
    var after := Next(cfg, net, Submit(i, t));
    assert Unaware(net, net, i, t);
    forall j: nat | j < |net.nodes| && j != i
      ensures Unaware(net, after, j, t)
    {
      assert Unaware(net, net, j, t);
    }
    assert Holds(net, after, i, t);
    forall p: nat, q: nat | Holds(net, after, p, t) && Linked(after, p, q)
      ensures Envelope(p, q, NewTransaction(t)) in after.flight
    {
      assert p != i ==> Unaware(net, after, p, t);
      assert q in net.nodes[i].sockets;
    }
  }

  lemma TxSpreadEnds(first: Net, last: Net, i: nat, j: nat, t: Transaction)
    requires SpreadingTx(first, last, t) && last.flight == [] && Holds(first, last, i, t) && Reaches(last, i, j)
    ensures Holds(first, last, j, t)
  {
    var has := set p: nat | p < |last.nodes| && Holds(first, last, p, t);
    var walk :| IsWalk(last, walk) && walk[0] == i && walk[|walk| - 1] == j;
    forall p: nat, q: nat | p in has && Linked(last, p, q)
      ensures q in has
    {
      assert Holds(first, last, p, t);
    }
    AlongWalk(last, has, walk);
  }

  /**
   * In a connected network with nothing in flight a transaction that nobody knows is submitted,
   * and only messages are delivered. Once nothing is in flight, every mempool has grown by
   * exactly that transaction, and no chain has changed.
   */
  lemma {:induction false} SubmittedTransactionReachesEverybody(cfg: Config, net: Net, i: nat, t: Transaction, evs: seq<Event>)
    requires net.flight == [] && ConnectedTopology(net) && Enabled(cfg, net, Submit(i, t))
    requires forall j: nat :: j < |net.nodes| ==> Unaware(net, net, j, t)
    requires OnlyDeliveries(evs) && Legal(cfg, Next(cfg, net, Submit(i, t)), evs)
    requires Run(cfg, Next(cfg, net, Submit(i, t)), evs).flight == []
    ensures var last := Run(cfg, Next(cfg, net, Submit(i, t)), evs);
            && |last.nodes| == |net.nodes|
            && forall j :: 0 <= j < |net.nodes| ==>
                 last.nodes[j].store == Store(net.nodes[j].store.chain, net.nodes[j].store.mempool + [t])
  {
    var submitted := Next(cfg, net, Submit(i, t));
    var last := Run(cfg, submitted, evs);
    SubmissionStartsSpread(cfg, net, i, t);
    RunSpreadsTx(cfg, net, submitted, evs, t, i);
    forall j | 0 <= j < |net.nodes|
      ensures last.nodes[j].store == Store(net.nodes[j].store.chain, net.nodes[j].store.mempool + [t])
    {
      LinkedAlike(net, last, i, j);
      TxSpreadEnds(net, last, i, j, t);
    }
  }
}

/** Which tips a quiet network ends with: exactly the blocks that were mined at the greatest height. */
module Tips {
  import opened Wrappers
  import opened CryptoUtil
  import opened Domain
  import opened Blockchain
  import opened P2p
  import opened Gossip
  import opened Agreement

  function MinedBlocks(evs: seq<Event>): set<Block> {
    set k | 0 <= k < |evs| && evs[k].Mine? :: evs[k].block
  }

  ghost predicate KnownChain(chain: seq<Block>, known: set<Block>) {
    forall i :: 0 <= i < |chain| ==> chain[i] in known
  }

  ghost predicate KnownMessage(m: Message, known: set<Block>) {
    && (m.Chain? ==> KnownChain(m.blocks, known))
    && (m.NewBlock? ==> m.block in known)
  }

  /** Every block stored or in flight is one of these. */
  ghost predicate Known(net: Net, known: set<Block>) {
    && (forall i :: 0 <= i < |net.nodes| ==> KnownChain(net.nodes[i].store.chain, known))
    && (forall e :: e in net.flight ==> KnownMessage(e.msg, known))
  }

  /** A valid block rebuilds to itself, so nothing a handler stores or sends is new. */
  lemma HandleInventsNothing(c: Crypto, n: Node, e: Envelope, known: set<Block>)
    requires n.Height() >= 1 && KnownChain(n.store.chain, known) && KnownMessage(e.msg, known)
    ensures KnownChain(Handle(c, n, e).0.store.chain, known)
    ensures forall m :: m in Handle(c, n, e).1 ==> KnownMessage(m.msg, known)
  {
  }

  lemma DeliverInventsNothing(cfg: Config, net: Net, k: nat, known: set<Block>)
    requires Enabled(cfg, net, Deliver(k)) && Known(net, known)
    ensures Known(Next(cfg, net, Deliver(k)), known)
  {
    var e := net.flight[k];
    var (node, out) := Handle(cfg.crypto, net.nodes[e.dst], e);
    assert e in net.flight;
    HandleInventsNothing(cfg.crypto, net.nodes[e.dst], e, known);
    forall m | m in Next(cfg, net, Deliver(k)).flight
      ensures KnownMessage(m.msg, known)
    {
      DeliveredFlight(net.flight, k, out, m);
    }
  }

  lemma NextInventsOnlyByMining(cfg: Config, net: Net, ev: Event, known: set<Block>)
    requires Enabled(cfg, net, ev) && Known(net, known) && (ev.Mine? ==> ev.block in known)
    ensures Known(Next(cfg, net, ev), known)
  {
    if ev.Deliver? {
      DeliverInventsNothing(cfg, net, ev.k, known);
    }
  }

  lemma {:induction false} OnlyMinedBlocks(cfg: Config, net: Net, evs: seq<Event>, known: set<Block>)
    requires Legal(cfg, net, evs) && Known(net, known) && MinedBlocks(evs) <= known
    ensures Known(Run(cfg, net, evs), known)
    decreases |evs|
  {
    if |evs| > 0 {
      NextInventsOnlyByMining(cfg, net, evs[0], known);
      assert MinedBlocks(evs[1..]) <= MinedBlocks(evs);
      OnlyMinedBlocks(cfg, Next(cfg, net, evs[0]), evs[1..], known);
    }
  }

  // ---- A chain at the greatest height never changes again ----

  /** A handler changes a chain only by making it longer. */
  lemma SameHeightSameChain(cfg: Config, net: Net, ev: Event, i: nat)
    requires Enabled(cfg, net, ev) && i < |net.nodes| && i < |Next(cfg, net, ev).nodes|
    requires Next(cfg, net, ev).nodes[i].Height() == net.nodes[i].Height()
    ensures Next(cfg, net, ev).nodes[i].store.chain == net.nodes[i].store.chain
  {
  }

  lemma {:induction false} TopNeverFalls(evs: seq<Event>, top: int)
    ensures GreatestMined(evs, top) >= top
  {
    if |evs| > 0 {
      TopNeverFalls(evs[1..], if evs[0].Mine? && evs[0].block.index + 1 > top then evs[0].block.index + 1 else top);
    }
  }

  lemma {:induction false} TopChainStays(cfg: Config, genesis: Block, net: Net, evs: seq<Event>, i: nat)
    requires Inv(cfg.crypto, genesis, net) && Legal(cfg, net, evs)
    requires i < |net.nodes| && net.nodes[i].Height() == GreatestMined(evs, net.top)
    ensures i < |Run(cfg, net, evs).nodes| && Run(cfg, net, evs).nodes[i].store.chain == net.nodes[i].store.chain
    decreases |evs|
  {
    if |evs| > 0 {
      var next := Next(cfg, net, evs[0]);
      NextKeepsInv(cfg, genesis, net, evs[0]);
      NextKeepsHeights(cfg, genesis, net, evs[0]);
      TopNeverFalls(evs[1..], next.top);
      SameHeightSameChain(cfg, net, evs[0], i);
      TopChainStays(cfg, genesis, next, evs[1..], i);
    }
  }

  function TipHash(net: Net, i: nat): Digest
    requires i < |net.nodes| && net.nodes[i].Height() >= 1
  {
    net.nodes[i].store.chain[net.nodes[i].Height() - 1].hash
  }

  ghost predicate AtTop(evs: seq<Event>, top: int, k: nat) {
    k < |evs| && evs[k].Mine? && evs[k].block.index + 1 == top
  }

  lemma {:induction false} FirstMinerKeepsTip(cfg: Config, genesis: Block, net: Net, evs: seq<Event>)
    requires Inv(cfg.crypto, genesis, net) && Legal(cfg, net, evs) && AtTop(evs, GreatestMined(evs, net.top), 0)
    ensures var after, i := Run(cfg, net, evs), evs[0].i;
            i < |after.nodes| && after.nodes[i].Height() >= 1 && TipHash(after, i) == evs[0].block.hash
  {
    NextKeepsInv(cfg, genesis, net, evs[0]);
    MineEvolves(cfg, genesis, net, evs[0].i, evs[0].block);
    TopChainStays(cfg, genesis, Next(cfg, net, evs[0]), evs[1..], evs[0].i);
  }

  /** Who mines at the greatest height keeps that block as its tip. */
  lemma {:induction false} TopMinerKeepsTip(cfg: Config, genesis: Block, net: Net, evs: seq<Event>, k: nat)
    requires Inv(cfg.crypto, genesis, net) && Legal(cfg, net, evs) && AtTop(evs, GreatestMined(evs, net.top), k)
    ensures var after, i := Run(cfg, net, evs), evs[k].i;
            i < |after.nodes| && after.nodes[i].Height() >= 1 && TipHash(after, i) == evs[k].block.hash
    decreases |evs|
  {
    if k == 0 {
      FirstMinerKeepsTip(cfg, genesis, net, evs);
    } else {
      NextKeepsInv(cfg, genesis, net, evs[0]);
      assert evs[1..][k - 1] == evs[k];
      TopMinerKeepsTip(cfg, genesis, Next(cfg, net, evs[0]), evs[1..], k - 1);
    }
  }

  // ---- The tips ----

  lemma TipWasMinedAtTop(cfg: Config, genesis: Block, n: nat, evs: seq<Event>, i: nat) returns (k: nat)
    requires IsGenesis(cfg, genesis) && Legal(cfg, Start(genesis, n), evs)
    requires var net := Run(cfg, Start(genesis, n), evs); Quiet(net) && Mesh(net) && i < |net.nodes|
    ensures Run(cfg, Start(genesis, n), evs).nodes[i].Height() >= 1
    ensures var tip, top := TipHash(Run(cfg, Start(genesis, n), evs), i), GreatestMined(evs, 1);
            if top == 1 then tip == genesis.hash else AtTop(evs, top, k) && tip == evs[k].block.hash
  {
    var start := Start(genesis, n);
    var net := Run(cfg, start, evs);
    AgreementAtQuiescence(cfg, genesis, n, evs, i);
    ChainsAreHonest(cfg, genesis, n, evs);
    TopNeverFalls(evs, 1);
    OnlyMinedBlocks(cfg, start, evs, {genesis} + MinedBlocks(evs));
    var chain := net.nodes[i].store.chain;
    var tip := chain[|chain| - 1];
    assert HonestChain(cfg.crypto, genesis, chain) && KnownChain(chain, {genesis} + MinedBlocks(evs));
    k := 0;
    if |chain| > 1 {
      assert tip.index == |chain| - 1 && tip != genesis;
      assert tip in MinedBlocks(evs);
      k :| k < |evs| && evs[k].Mine? && evs[k].block == tip;
    }
  }

  ghost predicate SameTips(net: Net) {
    forall i: nat, j: nat :: i < |net.nodes| && j < |net.nodes| ==>
      net.nodes[i].Height() >= 1 && net.nodes[j].Height() >= 1 && TipHash(net, i) == TipHash(net, j)
  }

  /** Of the blocks mined at the greatest height all are the same, up to their hash. */
  ghost predicate OneTopBlock(evs: seq<Event>) {
    forall k: nat, l: nat :: AtTop(evs, GreatestMined(evs, 1), k) && AtTop(evs, GreatestMined(evs, 1), l) ==>
      evs[k].block.hash == evs[l].block.hash
  }

  lemma {:induction false} SameTipsMeanOneTopBlock(cfg: Config, genesis: Block, n: nat, evs: seq<Event>)
    requires IsGenesis(cfg, genesis) && Legal(cfg, Start(genesis, n), evs) && SameTips(Run(cfg, Start(genesis, n), evs))
    ensures OneTopBlock(evs)
  {
    StartInv(cfg, genesis, n);
    forall k: nat, l: nat | AtTop(evs, GreatestMined(evs, 1), k) && AtTop(evs, GreatestMined(evs, 1), l)
      ensures evs[k].block.hash == evs[l].block.hash
    {
      TopMinerKeepsTip(cfg, genesis, Start(genesis, n), evs, k);
      TopMinerKeepsTip(cfg, genesis, Start(genesis, n), evs, l);
    }
  }

  lemma {:induction false} OneTopBlockMeansSameTips(cfg: Config, genesis: Block, n: nat, evs: seq<Event>)
    requires IsGenesis(cfg, genesis) && Legal(cfg, Start(genesis, n), evs) && OneTopBlock(evs)
    requires var net := Run(cfg, Start(genesis, n), evs); Quiet(net) && Mesh(net)
    ensures SameTips(Run(cfg, Start(genesis, n), evs))
  {
    var net := Run(cfg, Start(genesis, n), evs);
    forall i: nat, j: nat | i < |net.nodes| && j < |net.nodes|
      ensures net.nodes[i].Height() >= 1 && net.nodes[j].Height() >= 1 && TipHash(net, i) == TipHash(net, j)
    {
      var k := TipWasMinedAtTop(cfg, genesis, n, evs, i);
      var l := TipWasMinedAtTop(cfg, genesis, n, evs, j);
    }
  }

  /**
   * In a full mesh with nothing about the chain in flight all nodes have one tip exactly if all
   * blocks mined at the greatest height carry one hash: no node ever gives up a tip at that
   * height, and every tip was mined there.
   */
  lemma {:induction false} TipsAgreeExactlyWhen(cfg: Config, genesis: Block, n: nat, evs: seq<Event>)
    requires IsGenesis(cfg, genesis) && Legal(cfg, Start(genesis, n), evs)
    requires var net := Run(cfg, Start(genesis, n), evs); Quiet(net) && Mesh(net)
    ensures SameTips(Run(cfg, Start(genesis, n), evs)) <==> OneTopBlock(evs)
  {
    if SameTips(Run(cfg, Start(genesis, n), evs)) {
      SameTipsMeanOneTopBlock(cfg, genesis, n, evs);
    }
    if OneTopBlock(evs) {
      OneTopBlockMeansSameTips(cfg, genesis, n, evs);
    }
  }
}

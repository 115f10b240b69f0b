/** What the network as a whole promises, and what it does not. */
module Agreement {
  import opened CryptoUtil
  import opened Domain
  import opened Blockchain
  import opened P2p
  import opened Gossip

  /** Nothing about the chain is on its way. */
  predicate Quiet(net: Net) {
    forall e :: e in net.flight ==> e.msg.NewTransaction?
  }

  ghost predicate Mesh(net: Net) {
    forall a: nat, b: nat :: a < |net.nodes| && b < |net.nodes| && a != b ==> Linked(net, a, b)
  }

  ghost predicate Agreed(net: Net) {
    forall i, j :: 0 <= i < |net.nodes| && 0 <= j < |net.nodes| ==> net.nodes[i].Height() == net.nodes[j].Height()
  }

  /** The greatest height among the blocks mined in a run. */
  function GreatestMined(evs: seq<Event>, top: int): int {
    if |evs| == 0 then top
    else GreatestMined(evs[1..], if evs[0].Mine? && evs[0].block.index + 1 > top then evs[0].block.index + 1 else top)
  }

  lemma {:induction false} TopIsGreatestMined(cfg: Config, net: Net, evs: seq<Event>)
    requires Legal(cfg, net, evs)
    ensures Run(cfg, net, evs).top == GreatestMined(evs, net.top)
    decreases |evs|
  {
    if |evs| > 0 {
      TopIsGreatestMined(cfg, Next(cfg, net, evs[0]), evs[1..]);
    }
  }

  /**
   * Safety. In every run every node's chain, and every chain on the wire, starts at the common
   * genesis, numbers its blocks consecutively, links their hashes, and carries valid proofs and
   * transactions; every announced block is valid by itself.
   */
  lemma {:induction false} ChainsAreHonest(cfg: Config, genesis: Block, n: nat, evs: seq<Event>)
    requires IsGenesis(cfg, genesis) && Legal(cfg, Start(genesis, n), evs)
    ensures var net := Run(cfg, Start(genesis, n), evs);
            && (forall i :: 0 <= i < |net.nodes| ==> HonestChain(cfg.crypto, genesis, net.nodes[i].store.chain))
            && (forall e :: e in net.flight && e.msg.Chain? ==> HonestChain(cfg.crypto, genesis, e.msg.blocks))
            && (forall e :: e in net.flight && e.msg.NewBlock? ==> ValidBlock(cfg.crypto, e.msg.block))
  {
    StartInv(cfg, genesis, n);
    RunKeepsInv(cfg, genesis, Start(genesis, n), evs);
    var net := Run(cfg, Start(genesis, n), evs);
    assert forall e :: e in net.flight ==> HonestMessage(cfg.crypto, genesis, net, e);
  }

  lemma NextKeepsHeights(cfg: Config, genesis: Block, net: Net, ev: Event)
    requires Inv(cfg.crypto, genesis, net) && Enabled(cfg, net, ev)
    ensures var after := Next(cfg, net, ev);
            && |after.nodes| == |net.nodes|
            && forall i :: 0 <= i < |net.nodes| ==> after.nodes[i].Height() >= net.nodes[i].Height()
  {
    if ev.Deliver? {
      DeliveredHeight(cfg, genesis, net, ev.k);
    }
  }

  /** No node's height ever decreases, and no node disappears. */
  lemma {:induction false} HeightsNeverDecrease(cfg: Config, genesis: Block, net: Net, evs: seq<Event>)
    requires Inv(cfg.crypto, genesis, net) && Legal(cfg, net, evs)
    ensures var after := Run(cfg, net, evs);
            && |after.nodes| == |net.nodes|
            && forall i :: 0 <= i < |net.nodes| ==> after.nodes[i].Height() >= net.nodes[i].Height()
    decreases |evs|
  {
    if |evs| > 0 {
      NextKeepsHeights(cfg, genesis, net, evs[0]);
      NextKeepsInv(cfg, genesis, net, evs[0]);
      HeightsNeverDecrease(cfg, genesis, Next(cfg, net, evs[0]), evs[1..]);
    }
  }

  /**
   * Agreement. Whatever was mined, dropped, reconnected, restarted or reordered before: once
   * every pair of nodes is connected and nothing about the chain is in flight, every node has
   * the height of the longest chain ever mined.
   */
  lemma {:induction false} AgreementAtQuiescence(cfg: Config, genesis: Block, n: nat, evs: seq<Event>, i: nat)
    requires IsGenesis(cfg, genesis) && Legal(cfg, Start(genesis, n), evs)
    requires var net := Run(cfg, Start(genesis, n), evs); Quiet(net) && Mesh(net) && i < |net.nodes|
    ensures Run(cfg, Start(genesis, n), evs).nodes[i].Height() == GreatestMined(evs, 1)
  {
    var net := Run(cfg, Start(genesis, n), evs);
    StartInv(cfg, genesis, n);
    RunKeepsInv(cfg, genesis, Start(genesis, n), evs);
    TopIsGreatestMined(cfg, Start(genesis, n), evs);
    var longest: nat :| longest < |net.nodes| && net.nodes[longest].Height() == net.top;
    QuietMeshSettles(net, longest, i);
  }

  lemma QuietMeshSettles(net: Net, i: nat, j: nat)
    requires Quiet(net) && Mesh(net) && i < |net.nodes| && j < |net.nodes|
    requires Owes(net, j, net.nodes[i].Height()) || Announced(net, j, net.nodes[i].Height())
    ensures net.nodes[j].Height() >= net.nodes[i].Height()
  {
    var x := net.nodes[i].Height();
    assert forall k: nat :: WillServe(net, k, j, x) ==> k == j;
  }

  predicate SameHeader(a: Block, b: Block) {
    && a.hash == b.hash && a.index == b.index && a.previousHash == b.previousHash && a.timestamp == b.timestamp
    && a.merkleRoot == b.merkleRoot && a.nonce == b.nonce && a.difficulty == b.difficulty
  }

  /** Nodes whose tips carry the same hash hold the same headers at every height. */
  lemma {:induction false} SameTipSameHeaders(cfg: Config, genesis: Block, n: nat, evs: seq<Event>, i: nat, j: nat, k: nat)
    requires IsGenesis(cfg, genesis) && Legal(cfg, Start(genesis, n), evs)
    requires var net := Run(cfg, Start(genesis, n), evs);
             && i < |net.nodes| && j < |net.nodes|
             && net.nodes[i].Height() >= 1 && net.nodes[j].Height() >= 1
             && var a, b := net.nodes[i].store.chain, net.nodes[j].store.chain;
                a[|a| - 1].hash == b[|b| - 1].hash && k < |a|
    ensures var net := Run(cfg, Start(genesis, n), evs);
            && net.nodes[i].Height() == net.nodes[j].Height()
            && SameHeader(net.nodes[i].store.chain[k], net.nodes[j].store.chain[k])
  {
    ChainsAreHonest(cfg, genesis, n, evs);
    var net := Run(cfg, Start(genesis, n), evs);
    var a, b := net.nodes[i].store.chain, net.nodes[j].store.chain;
    assert ValidBlock(cfg.crypto, a[|a| - 1]) && ValidBlock(cfg.crypto, b[|b| - 1]);
    assert a[|a| - 1].hash == HeaderHash(a[|a| - 1]) && b[|b| - 1].hash == HeaderHash(b[|b| - 1]);
    TipCommitsToChain(cfg.crypto, a, b, k);
  }

  // ---- Equal heights do not mean equal chains ----

  function Connected(genesis: Block): Net {
    Net([Node(Store([genesis], []), [1], {}, {}), Node(Store([genesis], []), [0], {}, {})], [], 1)
  }

  /** Two nodes that know the genesis block alone exchange their heights and stay silent. */
  function Greeting(genesis: Block, flight: seq<Envelope>): Net {
    Connected(genesis).(flight := flight)
  }

  lemma TheyConnect(cfg: Config, genesis: Block)
    ensures Next(cfg, Start(genesis, 2), Connect(0, 1)) == Greeting(genesis, [Envelope(0, 1, Hello(1)), Envelope(1, 0, Hello(1))])
  {
    var after := Next(cfg, Start(genesis, 2), Connect(0, 1));
    assert after.nodes[0].sockets == [1] && after.nodes[1].sockets == [0];
    assert after.nodes == Connected(genesis).nodes;
  }

  lemma GreetingChangesNothing(cfg: Config, genesis: Block, flight: seq<Envelope>, src: nat, dst: nat)
    requires src < 2 && dst < 2 && |flight| > 0 && flight[0] == Envelope(src, dst, Hello(1))
    ensures Enabled(cfg, Greeting(genesis, flight), Deliver(0))
    ensures Next(cfg, Greeting(genesis, flight), Deliver(0)) == Greeting(genesis, flight[1..])
  {
    assert flight[..0] + flight[1..] == flight[1..];
  }

  lemma TwoNodesConnect(cfg: Config, genesis: Block) returns (evs: seq<Event>)
    ensures Legal(cfg, Start(genesis, 2), evs) && Run(cfg, Start(genesis, 2), evs) == Connected(genesis)
  {
    var h01, h10 := Envelope(0, 1, Hello(1)), Envelope(1, 0, Hello(1));
    TheyConnect(cfg, genesis);
    GreetingChangesNothing(cfg, genesis, [h01, h10], 0, 1);
    GreetingChangesNothing(cfg, genesis, [h10], 1, 0);
    assert [h01, h10][1..] == [h10] && [h10][1..] == [];
    RunStep(cfg, Greeting(genesis, [h10]), Deliver(0), []);
    RunStep(cfg, Greeting(genesis, [h01, h10]), Deliver(0), [Deliver(0)]);
    RunStep(cfg, Start(genesis, 2), Connect(0, 1), [Deliver(0), Deliver(0)]);
    evs := [Connect(0, 1), Deliver(0), Deliver(0)];
  }

  function MinedBoth(genesis: Block, b0: Block, b1: Block): Net {
    Net([Node(Store([genesis, b0], []), [1], {b0.hash}, {}), Node(Store([genesis, b1], []), [0], {b1.hash}, {})],
        [Envelope(0, 1, NewBlock(b0)), Envelope(1, 0, NewBlock(b1))], 2)
  }

  lemma BothMine(cfg: Config, genesis: Block, b0: Block, b1: Block) returns (evs: seq<Event>)
    requires genesis.index == 0
    requires MinedOn(cfg, Store([genesis], []), b0) && MinedOn(cfg, Store([genesis], []), b1)
    ensures Legal(cfg, Connected(genesis), evs) && Run(cfg, Connected(genesis), evs) == MinedBoth(genesis, b0, b1)
  {
    var net3, net5 := Connected(genesis), MinedBoth(genesis, b0, b1);
    var net4 := Net([net5.nodes[0], net3.nodes[1]], [net5.flight[0]], 2);
    var first := Next(cfg, net3, Mine(0, b0)).nodes;
    assert first[0].store.chain == [genesis, b0] && first[0].seenBlocks == {b0.hash};
    assert first == net4.nodes && Next(cfg, net3, Mine(0, b0)).flight == net4.flight;
    var second := Next(cfg, net4, Mine(1, b1)).nodes;
    assert second[1].store.chain == [genesis, b1] && second[1].seenBlocks == {b1.hash};
    assert second == net5.nodes && Next(cfg, net4, Mine(1, b1)).flight == net5.flight;
    RunStep(cfg, net4, Mine(1, b1), []);
    RunStep(cfg, net3, Mine(0, b0), [Mine(1, b1)]);
    evs := [Mine(0, b0), Mine(1, b1)];
  }

  lemma BothIgnore(cfg: Config, genesis: Block, b0: Block, b1: Block) returns (evs: seq<Event>)
    requires b0.index == 1 && b1.index == 1 && b0.hash != b1.hash
    ensures && Legal(cfg, MinedBoth(genesis, b0, b1), evs)
            && var net := Run(cfg, MinedBoth(genesis, b0, b1), evs);
               && net.flight == [] && |net.nodes| == 2
               && net.nodes[0].sockets == [1] && net.nodes[1].sockets == [0]
               && net.nodes[0].store.chain == [genesis, b0] && net.nodes[1].store.chain == [genesis, b1]
  {
    var net5 := MinedBoth(genesis, b0, b1);
    var net6 := Next(cfg, net5, Deliver(0));
    assert net6.flight == [Envelope(1, 0, NewBlock(b1))];
    var net7 := Next(cfg, net6, Deliver(0));
    RunStep(cfg, net6, Deliver(0), []);
    RunStep(cfg, net5, Deliver(0), [Deliver(0)]);
    evs := [Deliver(0), Deliver(0)];
  }

  /** Two connected nodes mine different blocks at once; each ignores the other's, and nothing more is ever sent. */
  lemma TipsMayDiffer(cfg: Config, genesis: Block, b0: Block, b1: Block) returns (evs: seq<Event>)
    requires IsGenesis(cfg, genesis)
    requires MinedOn(cfg, Store([genesis], []), b0) && MinedOn(cfg, Store([genesis], []), b1) && b0.hash != b1.hash
    ensures Legal(cfg, Start(genesis, 2), evs)
    ensures var net := Run(cfg, Start(genesis, 2), evs);
            && net.flight == [] && |net.nodes| == 2
            && net.nodes[0].sockets == [1] && net.nodes[1].sockets == [0]
            && net.nodes[0].store.chain == [genesis, b0] && net.nodes[1].store.chain == [genesis, b1]
  {
    GenesisIsValid(cfg, genesis);
    var connect := TwoNodesConnect(cfg, genesis);
    var mine := BothMine(cfg, genesis, b0, b1);
    var deliver := BothIgnore(cfg, genesis, b0, b1);
    ThreeParts(cfg, Start(genesis, 2), connect, mine, deliver);
    evs := connect + mine + deliver;
  }

  lemma {:induction false} ThreeParts(cfg: Config, net: Net, a: seq<Event>, b: seq<Event>, c: seq<Event>)
    requires Legal(cfg, net, a) && Legal(cfg, Run(cfg, net, a), b)
    requires Legal(cfg, Run(cfg, Run(cfg, net, a), b), c)
    ensures Legal(cfg, net, a + b + c)
    ensures Run(cfg, net, a + b + c) == Run(cfg, Run(cfg, Run(cfg, net, a), b), c)
  {
    RunAppend(cfg, net, a, b);
    RunAppend(cfg, net, a + b, c);
  }

  lemma {:induction false} RunStep(cfg: Config, net: Net, ev: Event, rest: seq<Event>)
    requires Enabled(cfg, net, ev) && Legal(cfg, Next(cfg, net, ev), rest)
    ensures Legal(cfg, net, [ev] + rest)
    ensures Run(cfg, net, [ev] + rest) == Run(cfg, Next(cfg, net, ev), rest)
  {
    assert ([ev] + rest)[1..] == rest;
  }

  lemma {:induction false} LeadsAppend(cfg: Config, net: Net, evs: seq<Event>, mid: Net, more: seq<Event>, last: Net)
    requires Leads(cfg, net, evs, mid) && Leads(cfg, mid, more, last)
    ensures Leads(cfg, net, evs + more, last)
    decreases |evs|
  {
    if |evs| == 0 {
      assert evs + more == more;
    } else {
      var all := evs + more;
      assert all[0] == evs[0] && all[1..] == evs[1..] + more;
      var after := FirstStep(cfg, net, evs, mid);
      LeadsAppend(cfg, after, evs[1..], mid, more, last);
      OneMoreStep(cfg, net, all, after, last);
    }
  }

  lemma {:induction false} RunAppend(cfg: Config, net: Net, evs: seq<Event>, more: seq<Event>)
    requires Legal(cfg, net, evs) && Legal(cfg, Run(cfg, net, evs), more)
    ensures Legal(cfg, net, evs + more)
    ensures Run(cfg, net, evs + more) == Run(cfg, Run(cfg, net, evs), more)
  {
    var mid := Run(cfg, net, evs);
    LeadsAppend(cfg, net, evs, mid, more, Run(cfg, mid, more));
  }
}

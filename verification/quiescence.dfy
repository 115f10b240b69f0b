/** Gossip terminates: with no new local events every delivery lowers a measure, and each hash is relayed once. */
module Quiescence {
  import opened Wrappers
  import opened CryptoUtil
  import opened Domain
  import opened Blockchain
  import opened P2p
  import opened Gossip

  /** How many further answers a message can set off, counting itself. */
  function Weight(m: Message): nat {
    match m
    case Hello(_) => 3
    case GetChain => 2
    case _ => 1
  }

  function FlightWeight(s: seq<Envelope>): nat {
    if |s| == 0 then 0 else Weight(s[0].msg) + FlightWeight(s[1..])
  }

  function UnseenBy(n: Node, hashes: set<Digest>, ids: set<string>): nat {
    |hashes - n.seenBlocks| + |ids - n.seenTxs|
  }

  function Unseen(nodes: seq<Node>, hashes: set<Digest>, ids: set<string>): nat {
    if |nodes| == 0 then 0 else UnseenBy(nodes[0], hashes, ids) + Unseen(nodes[1..], hashes, ids)
  }

  /** The network talks about these hashes and ids only, over at most `degree` sockets a node. */
  ghost predicate Bounded(net: Net, hashes: set<Digest>, ids: set<string>, degree: nat) {
    && (forall e :: e in net.flight ==>
          && (e.msg.NewBlock? ==> e.msg.block.hash in hashes)
          && (e.msg.NewTransaction? ==> e.msg.tx.id in ids))
    && (forall i :: 0 <= i < |net.nodes| ==> |net.nodes[i].sockets| <= degree)
  }

  function Measure(net: Net, hashes: set<Digest>, ids: set<string>, degree: nat): nat {
    Unseen(net.nodes, hashes, ids) * (degree + 2) + FlightWeight(net.flight)
  }

  lemma {:induction false} FlightWeightAppend(a: seq<Envelope>, b: seq<Envelope>)
    ensures FlightWeight(a + b) == FlightWeight(a) + FlightWeight(b)
  {
    if |a| == 0 {
      assert a + b == b;
    } else {
      FlightWeightAppend(a[1..], b);
      assert (a + b)[1..] == a[1..] + b;
    }
  }

  lemma {:induction false} FlightWeightSplit(flight: seq<Envelope>, k: nat)
    requires k < |flight|
    ensures FlightWeight(flight) == FlightWeight(flight[..k]) + Weight(flight[k].msg) + FlightWeight(flight[k + 1..])
  {
    var front, back := flight[..k], flight[k..];
    assert flight == front + back && back[0] == flight[k] && back[1..] == flight[k + 1..];
    FlightWeightAppend(front, back);
  }

  lemma {:induction false} FlightWeightDelivered(flight: seq<Envelope>, k: nat, out: seq<Envelope>)
    requires k < |flight|
    ensures FlightWeight(flight[..k] + flight[k + 1..] + out)
            == FlightWeight(flight) - Weight(flight[k].msg) + FlightWeight(out)
  {
    FlightWeightAppend(flight[..k] + flight[k + 1..], out);
    FlightWeightAppend(flight[..k], flight[k + 1..]);
    FlightWeightSplit(flight, k);
  }

  lemma {:induction false} LightFlight(s: seq<Envelope>)
    requires forall e :: e in s ==> Weight(e.msg) == 1
    ensures FlightWeight(s) == |s|
  {
    if |s| > 0 {
      LightFlight(s[1..]);
    }
  }

  lemma {:induction false} UnseenUpdate(nodes: seq<Node>, j: nat, n: Node, hashes: set<Digest>, ids: set<string>)
    requires j < |nodes|
    ensures Unseen(nodes[j := n], hashes, ids)
            == Unseen(nodes, hashes, ids) - UnseenBy(nodes[j], hashes, ids) + UnseenBy(n, hashes, ids)
  {
    if j == 0 {
      assert nodes[j := n][1..] == nodes[1..];
    } else {
      UnseenUpdate(nodes[1..], j - 1, n, hashes, ids);
      assert nodes[j := n][1..] == nodes[1..][j - 1 := n];
    }
  }

  lemma SmallerDifference<T>(all: set<T>, less: set<T>, more: set<T>)
    requires less <= more
    ensures |all - more| <= |all - less|
    ensures forall x :: x in all && x in more && x !in less ==> |all - more| < |all - less|
  {
    Subsets(all - more, all - less);
    forall x | x in all && x in more && x !in less
      ensures |all - more| < |all - less|
    {
      Subsets(all - more, all - less - {x});
    }
  }

  lemma {:induction false} Subsets<T>(a: set<T>, b: set<T>)
    requires a <= b
    ensures |a| <= |b|
  {
    if x :| x in a {
      Subsets(a - {x}, b - {x});
    }
  }

  /** What one handler can do to the measure: either nothing new is learnt and little is answered, or something new is. */
  lemma HandleLowers(c: Crypto, n: Node, e: Envelope, hashes: set<Digest>, ids: set<string>, degree: nat)
    requires n.Height() >= 1 && |n.sockets| <= degree
    requires e.msg.NewBlock? ==> e.msg.block.hash in hashes
    requires e.msg.NewTransaction? ==> e.msg.tx.id in ids
    ensures var node, out := Handle(c, n, e).0, Handle(c, n, e).1;
            && UnseenBy(node, hashes, ids) <= UnseenBy(n, hashes, ids)
            && FlightWeight(out) <= degree + 2
            && (UnseenBy(node, hashes, ids) < UnseenBy(n, hashes, ids) || FlightWeight(out) < Weight(e.msg))
  {
    var (node, out) := Handle(c, n, e);
    SmallerDifference(hashes, n.seenBlocks, node.seenBlocks);
    SmallerDifference(ids, n.seenTxs, node.seenTxs);
    if forall o :: o in out ==> Weight(o.msg) == 1 {
      LightFlight(out);
    }
    if |out| == 1 {
      assert out[1..] == [];
    }
  }

  lemma DeliveryKeepsBounded(cfg: Config, net: Net, k: nat, hashes: set<Digest>, ids: set<string>, degree: nat)
    requires Enabled(cfg, net, Deliver(k)) && Bounded(net, hashes, ids, degree)
    ensures Bounded(Next(cfg, net, Deliver(k)), hashes, ids, degree)
  {
    var e := net.flight[k];
    var (node, out) := Handle(cfg.crypto, net.nodes[e.dst], e);
    assert e in net.flight && node.sockets == net.nodes[e.dst].sockets;
    forall m | m in Next(cfg, net, Deliver(k)).flight
      ensures (m.msg.NewBlock? ==> m.msg.block.hash in hashes) && (m.msg.NewTransaction? ==> m.msg.tx.id in ids)
    {
      DeliveredFlight(net.flight, k, out, m);
    }
  }

  lemma LexicographicDrop(before: nat, now: nat, unit: nat, weight: int, handled: nat, sent: nat)
    requires now <= before && 1 <= handled && sent <= unit && (now < before || sent < handled)
    ensures now * unit + (weight - handled + sent) < before * unit + weight
  {
    if now < before {
      Multiples(now, before, unit);
    }
  }

  lemma {:induction false} Multiples(now: nat, before: nat, unit: nat)
    requires now < before
    ensures now * unit + unit <= before * unit
  {
    if now + 1 < before {
      Multiples(now, before - 1, unit);
      assert before * unit == (before - 1) * unit + unit;
    } else {
      assert before * unit == now * unit + unit;
    }
  }

  /** A delivery takes one message out and puts some in: fewer pairs are unseen, or less is put in than taken out. */
  lemma DeliveryEffect(cfg: Config, net: Net, k: nat, hashes: set<Digest>, ids: set<string>, degree: nat) returns (handled: nat, sent: nat)
    requires Enabled(cfg, net, Deliver(k)) && Bounded(net, hashes, ids, degree)
    ensures var after := Next(cfg, net, Deliver(k));
            && 1 <= handled && sent <= degree + 2
            && Unseen(after.nodes, hashes, ids) <= Unseen(net.nodes, hashes, ids)
            && (Unseen(after.nodes, hashes, ids) < Unseen(net.nodes, hashes, ids) || sent < handled)
            && FlightWeight(after.flight) == FlightWeight(net.flight) - handled + sent
  {
    var e := net.flight[k];
    var (node, out) := Handle(cfg.crypto, net.nodes[e.dst], e);
    assert e in net.flight;
    HandleLowers(cfg.crypto, net.nodes[e.dst], e, hashes, ids, degree);
    FlightWeightDelivered(net.flight, k, out);
    UnseenUpdate(net.nodes, e.dst, node, hashes, ids);
    handled, sent := Weight(e.msg), FlightWeight(out);
  }

  lemma DeliveryLowersMeasure(cfg: Config, net: Net, k: nat, hashes: set<Digest>, ids: set<string>, degree: nat)
    requires Enabled(cfg, net, Deliver(k)) && Bounded(net, hashes, ids, degree)
    ensures Measure(Next(cfg, net, Deliver(k)), hashes, ids, degree) < Measure(net, hashes, ids, degree)
  {
    var after := Next(cfg, net, Deliver(k));
    var handled, sent := DeliveryEffect(cfg, net, k, hashes, ids, degree);
    LexicographicDrop(Unseen(net.nodes, hashes, ids), Unseen(after.nodes, hashes, ids), degree + 2,
                      FlightWeight(net.flight), handled, sent);
  }

  predicate OnlyDeliveries(evs: seq<Event>) {
    forall i :: 0 <= i < |evs| ==> evs[i].Deliver?
  }

  /** No run of deliveries is longer than the measure of its first state, honest messages or not. */
  lemma {:induction false} GossipTerminates(cfg: Config, net: Net, evs: seq<Event>, hashes: set<Digest>, ids: set<string>, degree: nat)
    requires Legal(cfg, net, evs) && OnlyDeliveries(evs) && Bounded(net, hashes, ids, degree)
    ensures |evs| <= Measure(net, hashes, ids, degree)
    decreases |evs|
  {
    if |evs| > 0 {
      DeliveryLowersMeasure(cfg, net, evs[0].k, hashes, ids, degree);
      DeliveryKeepsBounded(cfg, net, evs[0].k, hashes, ids, degree);
      GossipTerminates(cfg, Next(cfg, net, evs[0]), evs[1..], hashes, ids, degree);
    }
  }

  lemma FirstDelivery(cfg: Config, genesis: Block, net: Net, hashes: set<Digest>, ids: set<string>, degree: nat)
    requires Inv(cfg.crypto, genesis, net) && Bounded(net, hashes, ids, degree) && |net.flight| > 0
    ensures Enabled(cfg, net, Deliver(0))
    ensures var next := Next(cfg, net, Deliver(0));
            && Inv(cfg.crypto, genesis, next) && Bounded(next, hashes, ids, degree)
            && Measure(next, hashes, ids, degree) < Measure(net, hashes, ids, degree)
  {
    var e := net.flight[0];
    assert Linked(net, e.src, e.dst) && Linked(net, e.dst, e.src);
    assert HonestChain(cfg.crypto, genesis, net.nodes[e.dst].store.chain);
    DeliveryLowersMeasure(cfg, net, 0, hashes, ids, degree);
    DeliveryKeepsBounded(cfg, net, 0, hashes, ids, degree);
    DeliverKeepsInv(cfg, genesis, net, 0);
  }

  /** Every reachable network can be run until nothing is in flight. */
  lemma {:induction false} GossipGoesQuiet(cfg: Config, genesis: Block, net: Net, hashes: set<Digest>, ids: set<string>, degree: nat)
    returns (evs: seq<Event>)
    requires Inv(cfg.crypto, genesis, net) && Bounded(net, hashes, ids, degree)
    ensures Legal(cfg, net, evs) && OnlyDeliveries(evs) && Run(cfg, net, evs).flight == []
    decreases Measure(net, hashes, ids, degree)
  {
    if |net.flight| == 0 {
      evs := [];
    } else {
      FirstDelivery(cfg, genesis, net, hashes, ids, degree);
      var next := Next(cfg, net, Deliver(0));
      var rest := GossipGoesQuiet(cfg, genesis, next, hashes, ids, degree);
      evs := [Deliver(0)] + rest;
      assert evs[1..] == rest;
      OneMoreStep(cfg, net, evs, next, Run(cfg, next, rest));
    }
  }

  lemma {:induction false} SocketBound(nodes: seq<Node>) returns (degree: nat)
    ensures forall i :: 0 <= i < |nodes| ==> |nodes[i].sockets| <= degree
  {
    if |nodes| == 0 {
      degree := 0;
    } else {
      var rest := SocketBound(nodes[1..]);
      degree := if |nodes[0].sockets| > rest then |nodes[0].sockets| else rest;
      assert forall i :: 1 <= i < |nodes| ==> nodes[i] == nodes[1..][i - 1];
    }
  }

  /** Any network is bounded by what it has in flight. */
  lemma IsBounded(net: Net) returns (hashes: set<Digest>, ids: set<string>, degree: nat)
    ensures Bounded(net, hashes, ids, degree)
  {
    hashes := set e | e in net.flight && e.msg.NewBlock? :: e.msg.block.hash;
    ids := set e | e in net.flight && e.msg.NewTransaction? :: e.msg.tx.id;
    degree := SocketBound(net.nodes);
  }

  // ---- Each node relays a hash at most once ----

  /** Node j passes block hash d on to its peers. */
  predicate RelaysBlock(cfg: Config, net: Net, ev: Event, j: nat, d: Digest)
    requires Enabled(cfg, net, ev)
  {
    ev.Deliver? && net.flight[ev.k].dst == j
    && var (node, out) := Handle(cfg.crypto, net.nodes[j], net.flight[ev.k]);
       exists e :: e in out && e.msg.NewBlock? && e.msg.block.hash == d
  }

  predicate RelaysTx(cfg: Config, net: Net, ev: Event, j: nat, id: string)
    requires Enabled(cfg, net, ev)
  {
    ev.Deliver? && net.flight[ev.k].dst == j
    && var (node, out) := Handle(cfg.crypto, net.nodes[j], net.flight[ev.k]);
       exists e :: e in out && e.msg.NewTransaction? && e.msg.tx.id == id
  }

  function BlockRelays(cfg: Config, net: Net, evs: seq<Event>, j: nat, d: Digest): nat
    requires Legal(cfg, net, evs)
    decreases |evs|
  {
    if |evs| == 0 then 0
    else (if RelaysBlock(cfg, net, evs[0], j, d) then 1 else 0) + BlockRelays(cfg, Next(cfg, net, evs[0]), evs[1..], j, d)
  }

  function TxRelays(cfg: Config, net: Net, evs: seq<Event>, j: nat, id: string): nat
    requires Legal(cfg, net, evs)
    decreases |evs|
  {
    if |evs| == 0 then 0
    else (if RelaysTx(cfg, net, evs[0], j, id) then 1 else 0) + TxRelays(cfg, Next(cfg, net, evs[0]), evs[1..], j, id)
  }

  /** Between restarts a node forgets nothing it has seen. */
  lemma SeenOnlyGrows(cfg: Config, net: Net, ev: Event, j: nat)
    requires Enabled(cfg, net, ev) && ev != Restart(j) && j < |net.nodes|
    ensures var after := Next(cfg, net, ev);
            && |after.nodes| == |net.nodes|
            && net.nodes[j].seenBlocks <= after.nodes[j].seenBlocks
            && net.nodes[j].seenTxs <= after.nodes[j].seenTxs
  {
  }

  lemma RelayMarksSeen(cfg: Config, net: Net, ev: Event, j: nat, d: Digest, id: string)
    requires Enabled(cfg, net, ev) && j < |net.nodes|
    ensures var after := Next(cfg, net, ev);
            && (RelaysBlock(cfg, net, ev, j, d) ==> d !in net.nodes[j].seenBlocks && d in after.nodes[j].seenBlocks)
            && (RelaysTx(cfg, net, ev, j, id) ==> id !in net.nodes[j].seenTxs && id in after.nodes[j].seenTxs)
  {
  }

  lemma {:induction false} BlockRelayedOnce(cfg: Config, net: Net, evs: seq<Event>, j: nat, d: Digest)
    requires Legal(cfg, net, evs) && Restart(j) !in evs && j < |net.nodes|
    ensures BlockRelays(cfg, net, evs, j, d) <= if d in net.nodes[j].seenBlocks then 0 else 1
    decreases |evs|
  {
    if |evs| > 0 {
      var after, rest := Next(cfg, net, evs[0]), evs[1..];
      SeenOnlyGrows(cfg, net, evs[0], j);
      RelayMarksSeen(cfg, net, evs[0], j, d, "");
      BlockRelayedOnce(cfg, after, rest, j, d);
    }
  }

  lemma {:induction false} TxRelayedOnce(cfg: Config, net: Net, evs: seq<Event>, j: nat, id: string)
    requires Legal(cfg, net, evs) && Restart(j) !in evs && j < |net.nodes|
    ensures TxRelays(cfg, net, evs, j, id) <= if id in net.nodes[j].seenTxs then 0 else 1
    decreases |evs|
  {
    if |evs| > 0 {
      var after, rest := Next(cfg, net, evs[0]), evs[1..];
      SeenOnlyGrows(cfg, net, evs[0], j);
      RelayMarksSeen(cfg, net, evs[0], j, OfEmpty, id);
      TxRelayedOnce(cfg, after, rest, j, id);
    }
  }

  /** A node has seen every block of its chain but the first, as when it has only just started. */
  predicate ChainSeen(n: Node) {
    forall k :: 0 < k < |n.store.chain| ==> n.store.chain[k].hash in n.seenBlocks
  }

  lemma StepKeepsChainSeen(cfg: Config, net: Net, ev: Event, j: nat)
    requires Enabled(cfg, net, ev) && ev != Restart(j) && j < |net.nodes| && ChainSeen(net.nodes[j])
    ensures j < |Next(cfg, net, ev).nodes| && ChainSeen(Next(cfg, net, ev).nodes[j])
  {
    var was, now := net.nodes[j], Next(cfg, net, ev).nodes[j];
    if ev.Deliver? && net.flight[ev.k].dst == j && net.flight[ev.k].msg.Chain? {
      assert forall b :: b in net.flight[ev.k].msg.blocks ==> b.hash in BlockHashes(net.flight[ev.k].msg.blocks);
    }
  }

  /** Over any run in which it does not restart, a node relays no block that it got with a whole chain: it counts as seen. */
  lemma {:induction false} ChainBlocksAreSeen(cfg: Config, net: Net, evs: seq<Event>, j: nat)
    requires Legal(cfg, net, evs) && j < |net.nodes| && forall i :: 0 <= i < |evs| ==> evs[i] != Restart(j)
    requires ChainSeen(net.nodes[j])
    ensures j < |Run(cfg, net, evs).nodes| && ChainSeen(Run(cfg, net, evs).nodes[j])
    decreases |evs|
  {
    if |evs| > 0 {
      StepKeepsChainSeen(cfg, net, evs[0], j);
      ChainBlocksAreSeen(cfg, Next(cfg, net, evs[0]), evs[1..], j);
    }
  }
}

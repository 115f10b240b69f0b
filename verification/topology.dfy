/** Agreement needs every pair of nodes connected: a chain that is adopted is not passed on. */
module Topology {
  import opened Domain
  import opened Blockchain
  import opened P2p
  import opened Gossip
  import opened Agreement
  import opened Quiescence

  type Edge = (nat, nat)

  predicate HasEdge(edges: seq<Edge>, p: nat, q: nat) {
    (p, q) in edges || (q, p) in edges
  }

  predicate SimpleGraph(edges: seq<Edge>, n: nat) {
    && (forall i :: 0 <= i < |edges| ==> edges[i].0 < n && edges[i].1 < n && edges[i].0 != edges[i].1)
    && (forall i, j :: 0 <= i < j < |edges| ==> edges[i] != edges[j] && edges[i] != (edges[j].1, edges[j].0))
  }

  predicate Complete(edges: seq<Edge>, n: nat) {
    forall p: nat, q: nat :: p < n && q < n && p != q ==> HasEdge(edges, p, q)
  }

  ghost predicate Shaped(net: Net, edges: seq<Edge>) {
    forall p: nat, q: nat :: Linked(net, p, q) <==> HasEdge(edges, p, q)
  }

  /** Over any run that ends quiet on this topology, all heights are equal. */
  ghost predicate AgreesOn(cfg: Config, genesis: Block, n: nat, edges: seq<Edge>) {
    forall evs :: Legal(cfg, Start(genesis, n), evs) ==>
      var net := Run(cfg, Start(genesis, n), evs);
      Quiet(net) && Shaped(net, edges) ==> Agreed(net)
  }

  /** Node a alone has a second block; only a talks about it, and b is not among a's peers. */
  ghost predicate Aside(net: Net, a: nat, b: nat) {
    && a < |net.nodes| && b < |net.nodes| && a != b
    && net.nodes[a].Height() == 2 && net.nodes[b].Height() == 1
    && (forall i :: 0 <= i < |net.nodes| ==> net.nodes[i].Height() >= 1)
    && !Linked(net, a, b)
    && forall e :: e in net.flight ==>
         match e.msg
         case Hello(h) => h <= 2 && (h == 2 ==> e.src == a)
         case GetChain => e.dst == a
         case Chain(_) => e.src == a
         case _ => false
  }

  lemma DeliverKeepsAside(cfg: Config, net: Net, k: nat, a: nat, b: nat)
    requires Shape(net) && Aside(net, a, b) && Enabled(cfg, net, Deliver(k))
    ensures Aside(Next(cfg, net, Deliver(k)), a, b)
  {
    var e := net.flight[k];
    assert e in net.flight && Linked(net, e.src, e.dst);
    var (node, out) := Handle(cfg.crypto, net.nodes[e.dst], e);
    var after := Next(cfg, net, Deliver(k));
    forall m | m in after.flight
      ensures m in net.flight || m in out
    {
      DeliveredFlight(net.flight, k, out, m);
    }
  }

  lemma DeliverKeepsLinks(cfg: Config, net: Net, k: nat, edges: seq<Edge>)
    requires Shaped(net, edges) && Enabled(cfg, net, Deliver(k))
    ensures Shaped(Next(cfg, net, Deliver(k)), edges)
  {
    var after := Next(cfg, net, Deliver(k));
    assert after.nodes[net.flight[k].dst].sockets == net.nodes[net.flight[k].dst].sockets;
    assert forall p: nat, q: nat :: Linked(after, p, q) == Linked(net, p, q);
  }

  lemma {:induction false} DeliveriesKeepAside(cfg: Config, genesis: Block, net: Net, evs: seq<Event>, a: nat, b: nat, edges: seq<Edge>)
    requires Inv(cfg.crypto, genesis, net) && Aside(net, a, b) && Shaped(net, edges)
    requires Legal(cfg, net, evs) && OnlyDeliveries(evs)
    ensures Aside(Run(cfg, net, evs), a, b) && Shaped(Run(cfg, net, evs), edges)
    decreases |evs|
  {
    if |evs| > 0 {
      var after, rest := Next(cfg, net, evs[0]), evs[1..];
      DeliverKeepsAside(cfg, net, evs[0].k, a, b);
      DeliverKeepsLinks(cfg, net, evs[0].k, edges);
      DeliverKeepsInv(cfg, genesis, net, evs[0].k);
      DeliveriesKeepAside(cfg, genesis, after, rest, a, b, edges);
    }
  }

  /** Only a is ahead: nobody has received anything yet. */
  ghost predicate OnlyAhead(net: Net, a: nat) {
    forall i :: 0 <= i < |net.nodes| && i != a ==> net.nodes[i].Height() == 1
  }

  lemma ConnectLinks(cfg: Config, net: Net, p: nat, q: nat)
    requires Enabled(cfg, net, Connect(p, q))
    ensures var after := Next(cfg, net, Connect(p, q));
            forall s: nat, t: nat {:trigger Linked(after, s, t)} {:trigger Linked(net, s, t)} ::
              Linked(after, s, t) <==> Linked(net, s, t) || (s == p && t == q) || (s == q && t == p)
  {
  }

  lemma OneMoreEdge(edges: seq<Edge>, p: nat, q: nat)
    ensures forall s: nat, t: nat ::
              HasEdge(edges + [(p, q)], s, t) <==> HasEdge(edges, s, t) || (s == p && t == q) || (s == q && t == p)
  {
  }

  lemma ConnectOne(cfg: Config, net: Net, p: nat, q: nat, a: nat, b: nat, edges: seq<Edge>)
    requires Shape(net) && Aside(net, a, b) && OnlyAhead(net, a) && Shaped(net, edges)
    requires p < |net.nodes| && q < |net.nodes| && p != q && !HasEdge(edges, p, q)
    requires !(p == a && q == b) && !(p == b && q == a)
    ensures Enabled(cfg, net, Connect(p, q))
    ensures var after := Next(cfg, net, Connect(p, q));
            Aside(after, a, b) && OnlyAhead(after, a) && Shaped(after, edges + [(p, q)])
  {
    assert !Linked(net, p, q) && !Linked(net, q, p);
    var after := Next(cfg, net, Connect(p, q));
    OneMoreEdge(edges, p, q);
    ConnectLinks(cfg, net, p, q);
  }

  lemma {:induction false} ConnectAll(cfg: Config, genesis: Block, net: Net, done: seq<Edge>, rest: seq<Edge>, a: nat, b: nat)
    returns (evs: seq<Event>)
    requires Inv(cfg.crypto, genesis, net) && Aside(net, a, b) && OnlyAhead(net, a) && Shaped(net, done)
    requires SimpleGraph(done + rest, |net.nodes|) && !HasEdge(done + rest, a, b)
    ensures Legal(cfg, net, evs)
    ensures var after := Run(cfg, net, evs);
            Inv(cfg.crypto, genesis, after) && Aside(after, a, b) && Shaped(after, done + rest)
    decreases |rest|
  {
    if |rest| == 0 {
      evs := [];
      assert done + rest == done;
    } else {
      var (p, q) := rest[0];
      NewEdge(done, rest, |net.nodes|, a, b);
      ConnectOne(cfg, net, p, q, a, b, done);
      ConnectKeepsInv(cfg, genesis, net, p, q);
      assert done + rest == done + [(p, q)] + rest[1..];
      var more := ConnectAll(cfg, genesis, Next(cfg, net, Connect(p, q)), done + [(p, q)], rest[1..], a, b);
      RunStep(cfg, net, Connect(p, q), more);
      evs := [Connect(p, q)] + more;
    }
  }

  lemma NewEdge(done: seq<Edge>, rest: seq<Edge>, n: nat, a: nat, b: nat)
    requires |rest| > 0 && SimpleGraph(done + rest, n) && !HasEdge(done + rest, a, b)
    ensures var p, q := rest[0].0, rest[0].1;
            && p < n && q < n && p != q && !HasEdge(done, p, q)
            && !(p == a && q == b) && !(p == b && q == a)
  {
    var all, i := done + rest, |done|;
    assert all[i] == rest[0] && rest[0] in all;
    assert forall k :: 0 <= k < |done| ==> done[k] == all[k];
  }

  /** Node a mines while it is alone, then the topology comes up and the gossip runs dry: b never hears of the block. */
  lemma NoAgreementWithoutMesh(cfg: Config, genesis: Block, n: nat, edges: seq<Edge>, a: nat, b: nat, block: Block)
    returns (evs: seq<Event>)
    requires IsGenesis(cfg, genesis) && MinedOn(cfg, Store([genesis], []), block)
    requires SimpleGraph(edges, n) && a < n && b < n && a != b && !HasEdge(edges, a, b)
    ensures Legal(cfg, Start(genesis, n), evs)
    ensures var net := Run(cfg, Start(genesis, n), evs);
            && net.flight == [] && Shaped(net, edges) && |net.nodes| > a && |net.nodes| > b
            && net.nodes[a].Height() == 2 && net.nodes[b].Height() == 1
  {
    var start := Start(genesis, n);
    StartInv(cfg, genesis, n);
    var ahead := Next(cfg, start, Mine(a, block));
    MineKeepsInv(cfg, genesis, start, a, block);
    assert forall p: nat, q: nat :: !Linked(ahead, p, q);
    assert [] + edges == edges;
    var connects := ConnectAll(cfg, genesis, ahead, [], edges, a, b);
    var wired := Run(cfg, ahead, connects);
    var hashes, ids, degree := IsBounded(wired);
    var deliveries := GossipGoesQuiet(cfg, genesis, wired, hashes, ids, degree);
    DeliveriesKeepAside(cfg, genesis, wired, deliveries, a, b, edges);
    RunAppend(cfg, ahead, connects, deliveries);
    RunStep(cfg, start, Mine(a, block), connects + deliveries);
    evs := [Mine(a, block)] + (connects + deliveries);
  }

  /** All quiet runs on a topology agree exactly when the topology is a full mesh. */
  lemma AgreementExactlyOnMesh(cfg: Config, genesis: Block, n: nat, edges: seq<Edge>, block: Block)
    requires IsGenesis(cfg, genesis) && MinedOn(cfg, Store([genesis], []), block) && SimpleGraph(edges, n)
    ensures AgreesOn(cfg, genesis, n, edges) <==> Complete(edges, n)
  {
    if Complete(edges, n) {
      forall evs | Legal(cfg, Start(genesis, n), evs)
        ensures var net := Run(cfg, Start(genesis, n), evs); Quiet(net) && Shaped(net, edges) ==> Agreed(net)
      {
        var net := Run(cfg, Start(genesis, n), evs);
        if Quiet(net) && Shaped(net, edges) {
          MeshFromComplete(cfg, genesis, n, evs, edges);
          forall i: nat | i < |net.nodes|
            ensures net.nodes[i].Height() == GreatestMined(evs, 1)
          {
            AgreementAtQuiescence(cfg, genesis, n, evs, i);
          }
        }
      }
    } else {
      var a: nat, b: nat :| a < n && b < n && a != b && !HasEdge(edges, a, b);
      var evs := NoAgreementWithoutMesh(cfg, genesis, n, edges, a, b, block);
      assert Legal(cfg, Start(genesis, n), evs);
    }
  }

  lemma {:induction false} MeshFromComplete(cfg: Config, genesis: Block, n: nat, evs: seq<Event>, edges: seq<Edge>)
    requires IsGenesis(cfg, genesis) && Legal(cfg, Start(genesis, n), evs)
    requires Complete(edges, n) && Shaped(Run(cfg, Start(genesis, n), evs), edges)
    ensures Mesh(Run(cfg, Start(genesis, n), evs))
  {
    StartInv(cfg, genesis, n);
    HeightsNeverDecrease(cfg, genesis, Start(genesis, n), evs);
  }
}

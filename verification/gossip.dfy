/**
 * A network of nodes. Messages in flight may be delivered in any order; sockets may close,
 * losing what is in flight on them, and open again; a node may restart, keeping its database
 * and forgetting what it has seen. Each event is atomic.
 */
module Gossip {
  import opened Wrappers
  import opened CryptoUtil
  import opened Domain
  import opened Blockchain
  import opened P2p

  /** `top` is the greatest height ever mined. */
  datatype Net = Net(nodes: seq<Node>, flight: seq<Envelope>, top: int)

  datatype Event =
    | Mine(i: nat, block: Block)
    | Submit(i: nat, tx: Transaction)
    | Deliver(k: nat)
    | Connect(a: nat, b: nat)
    | Drop(a: nat, b: nat)
    | Restart(i: nat)

  predicate Linked(net: Net, a: nat, b: nat) {
    a < |net.nodes| && b in net.nodes[a].sockets
  }

  function Keep<T(!new)>(s: seq<T>, f: T -> bool): (r: seq<T>)
    ensures forall x :: x in r <==> x in s && f(x)
    ensures |r| <= |s|
  {
    if |s| == 0 then [] else (if f(s[0]) then [s[0]] else []) + Keep(s[1..], f)
  }

  predicate Enabled(cfg: Config, net: Net, ev: Event) {
    var n := |net.nodes|;
    match ev
    case Mine(i, b) => i < n && net.nodes[i].Height() >= 1 && MinedOn(cfg, net.nodes[i].store, b)
    case Submit(i, t) => i < n && t.from.Some? && Blockchain.Submit(cfg.crypto, net.nodes[i].store, t).1 == Submitted
    case Deliver(k) => k < |net.flight| && net.flight[k].dst < n && net.nodes[net.flight[k].dst].Height() >= 1
    case Connect(a, b) => a < n && b < n && a != b && !Linked(net, a, b) && !Linked(net, b, a)
    case Drop(a, b) => a < n && b < n && a != b
    case Restart(i) => i < n
  }

  function Next(cfg: Config, net: Net, ev: Event): Net
    requires Enabled(cfg, net, ev)
  {
    match ev
    case Mine(i, b) =>
      var n := net.nodes[i];
      var (node, out) := AnnounceBlock(i, n.(store := Store(n.store.chain + [b], [])), b);
      Net(net.nodes[i := node], net.flight + out, if b.index + 1 > net.top then b.index + 1 else net.top)
    case Submit(i, t) =>
      var n := net.nodes[i];
      var (node, out) := AnnounceTx(i, n.(store := Blockchain.Submit(cfg.crypto, n.store, t).0), t);
      net.(nodes := net.nodes[i := node], flight := net.flight + out)
    case Deliver(k) =>
      var e := net.flight[k];
      var (node, out) := Handle(cfg.crypto, net.nodes[e.dst], e);
      net.(nodes := net.nodes[e.dst := node], flight := net.flight[..k] + net.flight[k + 1..] + out)
    case Connect(a, b) =>
      var na, nb := net.nodes[a], net.nodes[b];
      net.(nodes := net.nodes[a := na.(sockets := na.sockets + [b])][b := nb.(sockets := nb.sockets + [a])],
           flight := net.flight + [Envelope(a, b, Hello(na.Height())), Envelope(b, a, Hello(nb.Height()))])
    case Drop(a, b) =>
      var na, nb := net.nodes[a], net.nodes[b];
      net.(nodes := net.nodes[a := na.(sockets := Keep(na.sockets, s => s != b))]
                             [b := nb.(sockets := Keep(nb.sockets, s => s != a))],
           flight := Keep(net.flight, (e: Envelope) => !Between(e, a, b)))
    case Restart(i) =>
      net.(nodes := seq(|net.nodes|, k requires 0 <= k < |net.nodes| =>
                        if k == i then Node(net.nodes[i].store, [], {}, {})
                        else net.nodes[k].(sockets := Keep(net.nodes[k].sockets, s => s != i))),
           flight := Keep(net.flight, (e: Envelope) => e.src != i && e.dst != i))
  }

  predicate Between(e: Envelope, a: nat, b: nat) {
    (e.src == a && e.dst == b) || (e.src == b && e.dst == a)
  }

  predicate Legal(cfg: Config, net: Net, evs: seq<Event>)
    decreases |evs|
  {
    |evs| == 0 || (Enabled(cfg, net, evs[0]) && Legal(cfg, Next(cfg, net, evs[0]), evs[1..]))
  }

  function Run(cfg: Config, net: Net, evs: seq<Event>): Net
    requires Legal(cfg, net, evs)
    decreases |evs|
  {
    if |evs| == 0 then net else Run(cfg, Next(cfg, net, evs[0]), evs[1..])
  }

  /** `last` is where a legal run ends. */
  ghost predicate Leads(cfg: Config, net: Net, evs: seq<Event>, last: Net) {
    Legal(cfg, net, evs) && Run(cfg, net, evs) == last
  }

  lemma FirstStep(cfg: Config, net: Net, evs: seq<Event>, last: Net) returns (mid: Net)
    requires |evs| > 0 && Leads(cfg, net, evs, last)
    ensures Enabled(cfg, net, evs[0]) && mid == Next(cfg, net, evs[0]) && Leads(cfg, mid, evs[1..], last)
  {
    mid := Next(cfg, net, evs[0]);
  }

  lemma OneMoreStep(cfg: Config, net: Net, evs: seq<Event>, mid: Net, last: Net)
    requires |evs| > 0 && Enabled(cfg, net, evs[0]) && mid == Next(cfg, net, evs[0]) && Leads(cfg, mid, evs[1..], last)
    ensures Leads(cfg, net, evs, last)
  {
  }

  /** Every node has just created its genesis block; nobody is connected. */
  function Start(genesis: Block, n: nat): Net {
    Net(seq(n, _ => Node(Store([genesis], []), [], {}, {})), [], 1)
  }

  // ---- What every run keeps ----

  /** Sockets come in pairs and messages travel on open sockets. */
  ghost predicate Shape(net: Net) {
    && (forall a: nat, b: nat :: Linked(net, a, b) ==> b != a && Linked(net, b, a))
    && (forall e :: e in net.flight ==> Linked(net, e.src, e.dst))
  }

  /** What a message claims about its sender's chain is and stays true. */
  ghost predicate HonestMessage(c: Crypto, genesis: Block, net: Net, e: Envelope) {
    e.src < |net.nodes| &&
    var height := net.nodes[e.src].Height();
    match e.msg
    case Hello(h) => h <= height
    case Chain(blocks) => HonestChain(c, genesis, blocks) && |blocks| <= height
    case NewBlock(b) => ValidBlock(c, b) && b.index < height
    case _ => true
  }

  ghost predicate Honest(c: Crypto, genesis: Block, net: Net) {
    && (forall i :: 0 <= i < |net.nodes| ==> HonestChain(c, genesis, net.nodes[i].store.chain))
    && (forall e :: e in net.flight ==> HonestMessage(c, genesis, net, e))
  }

  /** Message `e` leads to node j learning a chain of height x from node k. */
  predicate Serves(e: Envelope, k: nat, j: nat, x: int) {
    match e.msg
    case Hello(h) => e.src == k && e.dst == j && h >= x
    case Chain(blocks) => e.src == k && e.dst == j && |blocks| >= x
    case GetChain => e.src == j && e.dst == k
    case _ => false
  }

  /** Some node at height x or more will still hand its chain to j: by a message on the way, or when they connect. */
  ghost predicate WillServe(net: Net, k: nat, j: nat, x: int) {
    && k < |net.nodes| && net.nodes[k].Height() >= x
    && (!Linked(net, k, j) || exists e :: e in net.flight && Serves(e, k, j, x))
  }

  ghost predicate Owes(net: Net, j: nat, x: int) {
    j < |net.nodes| && (net.nodes[j].Height() >= x || exists k: nat :: WillServe(net, k, j, x))
  }

  /** A block that takes j to height x, and that j has not seen, is on its way to j. */
  ghost predicate Announced(net: Net, j: nat, x: int) {
    j < |net.nodes| &&
    exists e :: e in net.flight && e.dst == j && e.msg.NewBlock?
                && e.msg.block.index + 1 >= x && e.msg.block.hash !in net.nodes[j].seenBlocks
  }

  ghost predicate SeenIsOwed(net: Net) {
    forall j: nat, d :: j < |net.nodes| && d in net.nodes[j].seenBlocks ==> d.OfHeader? && Owes(net, j, d.index + 1)
  }

  /** Every node has, or is still owed, the height of every other node. */
  ghost predicate Covered(net: Net) {
    forall i: nat, j: nat :: i < |net.nodes| && j < |net.nodes| ==>
      Owes(net, j, net.nodes[i].Height()) || Announced(net, j, net.nodes[i].Height())
  }

  ghost predicate TopReached(net: Net) {
    && (forall i :: 0 <= i < |net.nodes| ==> net.nodes[i].Height() <= net.top)
    && (|net.nodes| > 0 ==> exists i :: 0 <= i < |net.nodes| && net.nodes[i].Height() == net.top)
  }

  ghost predicate Inv(c: Crypto, genesis: Block, net: Net) {
    Shape(net) && Honest(c, genesis, net) && SeenIsOwed(net) && Covered(net) && TopReached(net)
  }

  lemma StartInv(cfg: Config, genesis: Block, n: nat)
    requires IsGenesis(cfg, genesis)
    ensures Inv(cfg.crypto, genesis, Start(genesis, n))
  {
    GenesisIsValid(cfg, genesis);
    if n > 0 {
      assert Start(genesis, n).nodes[0].Height() == 1;
    }
  }

  // ---- Delivery ----

  lemma DeliveredFlight(flight: seq<Envelope>, k: nat, out: seq<Envelope>, e: Envelope)
    requires k < |flight|
    ensures e in flight && e != flight[k] ==> e in flight[..k] + flight[k + 1..] + out
    ensures e in flight[..k] + flight[k + 1..] + out ==> e in flight || e in out
  {
    var after := flight[..k] + flight[k + 1..] + out;
    if e in flight && e != flight[k] {
      var i :| 0 <= i < |flight| && flight[i] == e;
      assert after[if i < k then i else i - 1] == e;
    }
  }

  lemma AppendHonest(c: Crypto, genesis: Block, s: Store, b: Block)
    requires HonestChain(c, genesis, s.chain)
    ensures HonestChain(c, genesis, Append(c, s, b).0.chain) && |Append(c, s, b).0.chain| >= |s.chain|
  {
    if Append(c, s, b).1 == Accepted {
      HonestChainGrows(c, genesis, s.chain, b);
    }
  }

  /** No handler lowers a node's height, and a chain that is adopted or extended stays honest. */
  lemma HandleHonest(c: Crypto, genesis: Block, n: Node, e: Envelope)
    requires HonestChain(c, genesis, n.store.chain)
    requires e.msg.Chain? ==> HonestChain(c, genesis, e.msg.blocks)
    ensures var node := Handle(c, n, e).0;
            && HonestChain(c, genesis, node.store.chain)
            && node.Height() >= n.Height()
            && node.sockets == n.sockets
            && n.seenBlocks <= node.seenBlocks
  {
    match e.msg
    case NewBlock(b) => AppendHonest(c, genesis, n.store, b);
    case _ =>
  }

  /** Answers go to the sender, relays to the open sockets. */
  lemma HandleSendsOnSockets(c: Crypto, n: Node, e: Envelope, m: Envelope)
    requires n.Height() >= 1 && m in Handle(c, n, e).1
    ensures m.src == e.dst && (m.dst == e.src || m.dst in n.sockets)
  {
  }

  lemma DeliverLinks(cfg: Config, net: Net, k: nat, p: nat, q: nat)
    requires Enabled(cfg, net, Deliver(k))
    ensures Linked(Next(cfg, net, Deliver(k)), p, q) == Linked(net, p, q)
  {
    var e := net.flight[k];
    assert Handle(cfg.crypto, net.nodes[e.dst], e).0.sockets == net.nodes[e.dst].sockets;
  }

  lemma DeliverKeepsShape(cfg: Config, genesis: Block, net: Net, k: nat)
    requires Shape(net) && Enabled(cfg, net, Deliver(k))
    ensures Shape(Next(cfg, net, Deliver(k)))
  {
    var e := net.flight[k];
    var out := Handle(cfg.crypto, net.nodes[e.dst], e).1;
    var after := Next(cfg, net, Deliver(k));
    forall a: nat, b: nat
      ensures Linked(after, a, b) == Linked(net, a, b)
    {
      DeliverLinks(cfg, net, k, a, b);
    }
    assert Linked(net, e.src, e.dst);
    forall m | m in after.flight
      ensures Linked(after, m.src, m.dst)
    {
      DeliveredFlight(net.flight, k, out, m);
      if m in out {
        HandleSendsOnSockets(cfg.crypto, net.nodes[e.dst], e, m);
      }
    }
  }

  lemma HonestMessageStays(c: Crypto, genesis: Block, net: Net, after: Net, m: Envelope)
    requires HonestMessage(c, genesis, net, m) && |after.nodes| == |net.nodes|
    requires after.nodes[m.src].Height() >= net.nodes[m.src].Height()
    ensures HonestMessage(c, genesis, after, m)
  {
  }

  /** What a handler sends is true of its own node. */
  lemma HandleSendsTruth(c: Crypto, genesis: Block, n: Node, e: Envelope, m: Envelope)
    requires HonestChain(c, genesis, n.store.chain) && m in Handle(c, n, e).1
    ensures m.src == e.dst && !m.msg.Hello?
    ensures m.msg.Chain? ==> m.msg.blocks == n.store.chain
    ensures m.msg.NewBlock? ==> ValidBlock(c, m.msg.block) && m.msg.block.index < Handle(c, n, e).0.Height()
  {
  }

  lemma DeliverKeepsHonest(cfg: Config, genesis: Block, net: Net, k: nat)
    requires Inv(cfg.crypto, genesis, net) && Enabled(cfg, net, Deliver(k))
    ensures Honest(cfg.crypto, genesis, Next(cfg, net, Deliver(k)))
  {
    var c, e := cfg.crypto, net.flight[k];
    var (node, out) := Handle(c, net.nodes[e.dst], e);
    var after := Next(cfg, net, Deliver(k));
    assert HonestMessage(c, genesis, net, e);
    HandleHonest(c, genesis, net.nodes[e.dst], e);
    forall m | m in after.flight
      ensures HonestMessage(c, genesis, after, m)
    {
      DeliveredFlight(net.flight, k, out, m);
      if m in net.flight {
        HonestMessageStays(c, genesis, net, after, m);
      } else {
        HandleSendsTruth(c, genesis, net.nodes[e.dst], e, m);
      }
    }
  }

  /** What is used of the invariant about one delivery. */
  ghost predicate Deliverable(cfg: Config, genesis: Block, net: Net, k: nat) {
    && Enabled(cfg, net, Deliver(k))
    && HonestMessage(cfg.crypto, genesis, net, net.flight[k])
    && HonestChain(cfg.crypto, genesis, net.nodes[net.flight[k].dst].store.chain)
  }

  /** The one message whose delivery matters hands the debt on to its answer, or settles it. */
  lemma DeliverKeepsOwes(cfg: Config, genesis: Block, net: Net, k: nat, j: nat, x: int)
    requires Deliverable(cfg, genesis, net, k)
    requires Owes(net, j, x)
    ensures Owes(Next(cfg, net, Deliver(k)), j, x)
  {
    var c, e := cfg.crypto, net.flight[k];
    var (node, out) := Handle(c, net.nodes[e.dst], e);
    var after := Next(cfg, net, Deliver(k));
    HandleHonest(c, genesis, net.nodes[e.dst], e);
    if net.nodes[j].Height() < x {
      var s: nat :| WillServe(net, s, j, x);
      if !Linked(net, s, j) {
        assert WillServe(after, s, j, x);
      } else {
        var m :| m in net.flight && Serves(m, s, j, x);
        if m != e {
          DeliveredFlight(net.flight, k, out, m);
          assert WillServe(after, s, j, x);
        } else if !e.msg.Chain? {
          assert out[0] in after.flight && Serves(out[0], s, j, x);
          assert WillServe(after, s, j, x);
        }
      }
    }
  }

  /** A node marks a block as seen when its chain reaches that height, or when it asks the sender for the chain. */
  lemma HandleSees(c: Crypto, n: Node, e: Envelope, d: Digest)
    requires n.Height() >= 1 && HonestTip(n)
    requires e.msg.NewBlock? ==> ValidBlock(c, e.msg.block)
    requires e.msg.Chain? ==> forall i :: 0 <= i < |e.msg.blocks| ==>
               e.msg.blocks[i].index == i && e.msg.blocks[i].hash == HeaderHash(e.msg.blocks[i])
    requires d in Handle(c, n, e).0.seenBlocks && d !in n.seenBlocks
    ensures d.OfHeader?
    ensures Handle(c, n, e).0.Height() > d.index || (e.msg.NewBlock? && Handle(c, n, e).1 == [Envelope(e.dst, e.src, GetChain)])
    ensures e.msg.NewBlock? ==> d == e.msg.block.hash
  {
    if e.msg.Chain? {
      var i :| 0 <= i < |e.msg.blocks| && e.msg.blocks[i].hash == d;
    }
  }

  predicate HonestTip(n: Node)
    requires n.Height() >= 1
  {
    n.store.chain[n.Height() - 1].index == n.Height() - 1
  }

  /** A hash that becomes seen by a delivery is owed from then on. */
  lemma NewlySeenIsOwed(cfg: Config, genesis: Block, net: Net, k: nat, d: Digest)
    requires Deliverable(cfg, genesis, net, k)
    requires var j := net.flight[k].dst;
             d in Next(cfg, net, Deliver(k)).nodes[j].seenBlocks && d !in net.nodes[j].seenBlocks
    ensures d.OfHeader? && Owes(Next(cfg, net, Deliver(k)), net.flight[k].dst, d.index + 1)
  {
    var c, e := cfg.crypto, net.flight[k];
    var (node, out) := Handle(c, net.nodes[e.dst], e);
    var after := Next(cfg, net, Deliver(k));
    HandleSees(c, net.nodes[e.dst], e, d);
    if node.Height() <= d.index {
      HandleHonest(c, genesis, net.nodes[e.dst], e);
      assert out[0] in after.flight && Serves(out[0], e.src, e.dst, d.index + 1);
      assert WillServe(after, e.src, e.dst, d.index + 1);
    }
  }

  lemma DeliverKeepsSeen(cfg: Config, genesis: Block, net: Net, k: nat)
    requires Deliverable(cfg, genesis, net, k) && SeenIsOwed(net)
    ensures SeenIsOwed(Next(cfg, net, Deliver(k)))
  {
    var after := Next(cfg, net, Deliver(k));
    forall j: nat, d | j < |after.nodes| && d in after.nodes[j].seenBlocks
      ensures d.OfHeader? && Owes(after, j, d.index + 1)
    {
      if d in net.nodes[j].seenBlocks {
        DeliverKeepsOwes(cfg, genesis, net, k, j, d.index + 1);
      } else {
        NewlySeenIsOwed(cfg, genesis, net, k, d);
      }
    }
  }

  lemma DeliverKeepsAnnouncement(cfg: Config, genesis: Block, net: Net, k: nat, m: Envelope, x: int)
    requires Deliverable(cfg, genesis, net, k)
    requires m in net.flight && HonestMessage(cfg.crypto, genesis, net, m) && m.dst < |net.nodes|
    requires m.msg.NewBlock? && m.msg.block.index + 1 >= x && m.msg.block.hash !in net.nodes[m.dst].seenBlocks
    ensures var after := Next(cfg, net, Deliver(k)); Owes(after, m.dst, x) || Announced(after, m.dst, x)
  {
    var e := net.flight[k];
    var after := Next(cfg, net, Deliver(k));
    if m.msg.block.hash in after.nodes[m.dst].seenBlocks {
      assert m.msg.block.hash == HeaderHash(m.msg.block);
      NewlySeenIsOwed(cfg, genesis, net, k, m.msg.block.hash);
      OwesLess(after, m.dst, m.msg.block.index + 1, x);
    } else {
      var out := Handle(cfg.crypto, net.nodes[e.dst], e).1;
      assert m != e;
      DeliveredFlight(net.flight, k, out, m);
      assert m in after.flight;
    }
  }

  lemma DeliverKeepsCoverage(cfg: Config, genesis: Block, net: Net, k: nat, j: nat, x: int)
    requires Deliverable(cfg, genesis, net, k)
    requires forall e :: e in net.flight ==> HonestMessage(cfg.crypto, genesis, net, e)
    requires Owes(net, j, x) || Announced(net, j, x)
    ensures var after := Next(cfg, net, Deliver(k)); Owes(after, j, x) || Announced(after, j, x)
  {
    if Owes(net, j, x) {
      DeliverKeepsOwes(cfg, genesis, net, k, j, x);
    } else {
      var m :| m in net.flight && m.dst == j && m.msg.NewBlock?
               && m.msg.block.index + 1 >= x && m.msg.block.hash !in net.nodes[j].seenBlocks;
      DeliverKeepsAnnouncement(cfg, genesis, net, k, m, x);
    }
  }

  lemma OwesLess(net: Net, j: nat, x: int, y: int)
    requires Owes(net, j, x) && y <= x
    ensures Owes(net, j, y)
  {
    if net.nodes[j].Height() < y {
      var k: nat :| WillServe(net, k, j, x);
      if Linked(net, k, j) {
        var e :| e in net.flight && Serves(e, k, j, x);
        assert Serves(e, k, j, y);
      }
      assert WillServe(net, k, j, y);
    }
  }

  lemma CoverageLess(net: Net, j: nat, x: int, y: int)
    requires (Owes(net, j, x) || Announced(net, j, x)) && y <= x
    ensures Owes(net, j, y) || Announced(net, j, y)
  {
    if Owes(net, j, x) {
      OwesLess(net, j, x, y);
    }
  }

  lemma DeliverKeepsCovered(cfg: Config, genesis: Block, net: Net, k: nat)
    requires Inv(cfg.crypto, genesis, net) && Deliverable(cfg, genesis, net, k)
    ensures Covered(Next(cfg, net, Deliver(k)))
  {
    var after, e := Next(cfg, net, Deliver(k)), net.flight[k];
    DeliveredHeight(cfg, genesis, net, k);
    forall i: nat, j: nat | i < |after.nodes| && j < |after.nodes|
      ensures Owes(after, j, after.nodes[i].Height()) || Announced(after, j, after.nodes[i].Height())
    {
      if after.nodes[i].Height() == net.nodes[i].Height() {
        DeliverKeepsCoverage(cfg, genesis, net, k, j, net.nodes[i].Height());
      } else {
        DeliverKeepsCoverage(cfg, genesis, net, k, j, net.nodes[e.src].Height());
        CoverageLess(after, j, net.nodes[e.src].Height(), after.nodes[i].Height());
      }
    }
  }

  lemma DeliverKeepsInv(cfg: Config, genesis: Block, net: Net, k: nat)
    requires Inv(cfg.crypto, genesis, net) && Enabled(cfg, net, Deliver(k))
    ensures Inv(cfg.crypto, genesis, Next(cfg, net, Deliver(k)))
  {
    var after, e := Next(cfg, net, Deliver(k)), net.flight[k];
    assert HonestMessage(cfg.crypto, genesis, net, e);
    DeliverKeepsShape(cfg, genesis, net, k);
    DeliverKeepsHonest(cfg, genesis, net, k);
    DeliverKeepsSeen(cfg, genesis, net, k);
    DeliverKeepsCovered(cfg, genesis, net, k);
    DeliveredHeight(cfg, genesis, net, k);
    assert TopReached(after) by {
      var i :| 0 <= i < |net.nodes| && net.nodes[i].Height() == net.top;
      assert after.nodes[i].Height() == net.top;
    }
  }

  /** A delivery raises a height only up to that of the sender. */
  lemma DeliveredHeight(cfg: Config, genesis: Block, net: Net, k: nat)
    requires Inv(cfg.crypto, genesis, net) && Enabled(cfg, net, Deliver(k))
    ensures var e, after := net.flight[k], Next(cfg, net, Deliver(k));
            && |after.nodes| == |net.nodes| && e.src < |net.nodes|
            && forall i :: 0 <= i < |net.nodes| ==>
                 && after.nodes[i].Height() >= net.nodes[i].Height()
                 && (after.nodes[i].Height() != net.nodes[i].Height() ==>
                       i == e.dst && after.nodes[i].Height() <= net.nodes[e.src].Height())
  {
    var c, e := cfg.crypto, net.flight[k];
    assert HonestMessage(c, genesis, net, e);
    HandleHonest(c, genesis, net.nodes[e.dst], e);
  }

  // ---- Everything else that can happen ----

  /**
   * What the other events have in common: heights only grow, a message is lost only with its
   * socket, and a new socket carries both heights.
   */
  ghost predicate Evolves(net: Net, after: Net) {
    && |after.nodes| == |net.nodes|
    && (forall i :: 0 <= i < |net.nodes| ==> after.nodes[i].Height() >= net.nodes[i].Height())
    && (forall m :: m in net.flight ==> m in after.flight || (!Linked(after, m.src, m.dst) && !Linked(after, m.dst, m.src)))
    && (forall a: nat, b: nat {:trigger Linked(after, a, b)} :: !Linked(net, a, b) && Linked(after, a, b) ==>
          Envelope(a, b, Hello(after.nodes[a].Height())) in after.flight)
    && (forall j, d :: 0 <= j < |net.nodes| && d in after.nodes[j].seenBlocks && d !in net.nodes[j].seenBlocks ==>
          d.OfHeader? && after.nodes[j].Height() > d.index)
  }

  lemma EvolveKeepsOwes(net: Net, after: Net, j: nat, x: int)
    requires Evolves(net, after) && Owes(net, j, x)
    ensures Owes(after, j, x)
  {
    if after.nodes[j].Height() < x {
      var k: nat :| WillServe(net, k, j, x);
      if Linked(after, k, j) {
        if !Linked(net, k, j) {
          var hello := Envelope(k, j, Hello(after.nodes[k].Height()));
          assert hello in after.flight && Serves(hello, k, j, x);
        } else {
          var e :| e in net.flight && Serves(e, k, j, x);
          assert e in after.flight;
        }
      }
      assert WillServe(after, k, j, x);
    }
  }

  lemma EvolveKeepsCoverage(c: Crypto, genesis: Block, net: Net, after: Net, j: nat, x: int)
    requires Evolves(net, after) && Honest(c, genesis, net)
    requires Owes(net, j, x) || Announced(net, j, x)
    ensures Owes(after, j, x) || Announced(after, j, x)
  {
    if Owes(net, j, x) {
      EvolveKeepsOwes(net, after, j, x);
    } else {
      var m :| m in net.flight && m.dst == j && m.msg.NewBlock?
               && m.msg.block.index + 1 >= x && m.msg.block.hash !in net.nodes[j].seenBlocks;
      assert HonestMessage(c, genesis, net, m);
      if !Linked(after, m.src, j) {
        assert WillServe(after, m.src, j, x);
      } else if m.msg.block.hash in after.nodes[j].seenBlocks {
        assert m.msg.block.hash == HeaderHash(m.msg.block);
      } else {
        assert m in after.flight;
      }
    }
  }

  lemma EvolveKeepsSeen(net: Net, after: Net)
    requires SeenIsOwed(net) && Evolves(net, after)
    ensures SeenIsOwed(after)
  {
    forall j: nat, d | j < |after.nodes| && d in after.nodes[j].seenBlocks
      ensures d.OfHeader? && Owes(after, j, d.index + 1)
    {
      if d in net.nodes[j].seenBlocks {
        EvolveKeepsOwes(net, after, j, d.index + 1);
      }
    }
  }

  /** Events that change no chain keep the whole coverage part of the invariant. */
  lemma EvolveKeepsInv(c: Crypto, genesis: Block, net: Net, after: Net)
    requires Inv(c, genesis, net) && Evolves(net, after) && Shape(after) && after.top == net.top
    requires forall i :: 0 <= i < |net.nodes| ==> after.nodes[i].store.chain == net.nodes[i].store.chain
    requires forall e :: e in after.flight ==> e in net.flight || HonestMessage(c, genesis, after, e)
    ensures Inv(c, genesis, after)
  {
    forall e | e in after.flight
      ensures HonestMessage(c, genesis, after, e)
    {
      if e in net.flight {
        assert HonestMessage(c, genesis, net, e);
      }
    }
    EvolveKeepsSeen(net, after);
    forall i: nat, j: nat | i < |after.nodes| && j < |after.nodes|
      ensures Owes(after, j, after.nodes[i].Height()) || Announced(after, j, after.nodes[i].Height())
    {
      EvolveKeepsCoverage(c, genesis, net, after, j, net.nodes[i].Height());
    }
    if |net.nodes| > 0 {
      var i :| 0 <= i < |net.nodes| && net.nodes[i].Height() == net.top;
      assert after.nodes[i].Height() == after.top;
    }
  }

  lemma SubmitEvolves(cfg: Config, net: Net, i: nat, t: Transaction)
    requires Shape(net) && Enabled(cfg, net, Submit(i, t))
    ensures Shape(Next(cfg, net, Submit(i, t))) && Evolves(net, Next(cfg, net, Submit(i, t)))
  {
    var after := Next(cfg, net, Submit(i, t));
    assert forall a: nat, b: nat :: Linked(after, a, b) == Linked(net, a, b);
  }

  lemma SubmitTellsNoHeights(cfg: Config, genesis: Block, net: Net, i: nat, t: Transaction)
    requires Enabled(cfg, net, Submit(i, t))
    ensures var after := Next(cfg, net, Submit(i, t));
            && |after.nodes| == |net.nodes|
            && (forall j :: 0 <= j < |net.nodes| ==> after.nodes[j].store.chain == net.nodes[j].store.chain)
            && forall e :: e in after.flight ==> e in net.flight || HonestMessage(cfg.crypto, genesis, after, e)
  {
  }

  lemma SubmitKeepsInv(cfg: Config, genesis: Block, net: Net, i: nat, t: Transaction)
    requires Inv(cfg.crypto, genesis, net) && Enabled(cfg, net, Submit(i, t))
    ensures Inv(cfg.crypto, genesis, Next(cfg, net, Submit(i, t)))
  {
    SubmitEvolves(cfg, net, i, t);
    SubmitTellsNoHeights(cfg, genesis, net, i, t);
    EvolveKeepsInv(cfg.crypto, genesis, net, Next(cfg, net, Submit(i, t)));
  }

  lemma ConnectEvolves(cfg: Config, net: Net, a: nat, b: nat)
    requires Shape(net) && Enabled(cfg, net, Connect(a, b))
    ensures Shape(Next(cfg, net, Connect(a, b))) && Evolves(net, Next(cfg, net, Connect(a, b)))
  {
    var after := Next(cfg, net, Connect(a, b));
    var na, nb := net.nodes[a], net.nodes[b];
    assert after.nodes[a] == na.(sockets := na.sockets + [b]);
    assert after.nodes[b] == nb.(sockets := nb.sockets + [a]);
    assert forall p: nat, q: nat {:trigger Linked(after, p, q)} {:trigger Linked(net, p, q)} ::
        Linked(after, p, q) <==> Linked(net, p, q) || (p == a && q == b) || (p == b && q == a);
    assert forall e :: e in after.flight <==>
        e in net.flight || e == Envelope(a, b, Hello(na.Height())) || e == Envelope(b, a, Hello(nb.Height()));
  }

  lemma DropEffect(cfg: Config, net: Net, a: nat, b: nat)
    requires Enabled(cfg, net, Drop(a, b))
    ensures var after := Next(cfg, net, Drop(a, b));
            && |after.nodes| == |net.nodes|
            && (forall p: nat, q: nat {:trigger Linked(after, p, q)} ::
                  Linked(after, p, q) <==> Linked(net, p, q) && !(p == a && q == b) && !(p == b && q == a))
            && (forall j :: 0 <= j < |net.nodes| ==>
                  after.nodes[j].store == net.nodes[j].store && after.nodes[j].seenBlocks == net.nodes[j].seenBlocks)
            && (forall e :: e in after.flight <==> e in net.flight && !Between(e, a, b))
  {
  }

  lemma DropEvolves(cfg: Config, net: Net, a: nat, b: nat)
    requires Shape(net) && Enabled(cfg, net, Drop(a, b))
    ensures Shape(Next(cfg, net, Drop(a, b))) && Evolves(net, Next(cfg, net, Drop(a, b)))
  {
    DropEffect(cfg, net, a, b);
  }

  lemma RestartLinks(cfg: Config, net: Net, i: nat, p: nat, q: nat)
    requires Enabled(cfg, net, Restart(i))
    ensures Linked(Next(cfg, net, Restart(i)), p, q) <==> Linked(net, p, q) && p != i && q != i
  {
  }

  lemma RestartEvolves(cfg: Config, net: Net, i: nat)
    requires Shape(net) && Enabled(cfg, net, Restart(i))
    ensures Shape(Next(cfg, net, Restart(i))) && Evolves(net, Next(cfg, net, Restart(i)))
  {
    var after := Next(cfg, net, Restart(i));
    forall p: nat, q: nat
      ensures Linked(after, p, q) <==> Linked(net, p, q) && p != i && q != i
    {
      RestartLinks(cfg, net, i, p, q);
    }
  }

  lemma MineKeepsLinks(cfg: Config, net: Net, i: nat, b: Block)
    requires Shape(net) && Enabled(cfg, net, Mine(i, b))
    ensures forall p: nat, q: nat {:trigger Linked(Next(cfg, net, Mine(i, b)), p, q)} {:trigger Linked(net, p, q)} ::
              Linked(Next(cfg, net, Mine(i, b)), p, q) == Linked(net, p, q)
  {
  }

  lemma MinedChain(cfg: Config, genesis: Block, net: Net, i: nat, b: Block)
    requires Shape(net) && Enabled(cfg, net, Mine(i, b))
    requires HonestChain(cfg.crypto, genesis, net.nodes[i].store.chain)
    ensures var after := Next(cfg, net, Mine(i, b));
            && after.nodes[i].store.chain == net.nodes[i].store.chain + [b]
            && HonestChain(cfg.crypto, genesis, after.nodes[i].store.chain)
            && after.nodes[i].Height() == b.index + 1
            && b.hash == HeaderHash(b)
  {
  }

  lemma MineEvolves(cfg: Config, genesis: Block, net: Net, i: nat, b: Block)
    requires Shape(net) && Enabled(cfg, net, Mine(i, b))
    requires HonestChain(cfg.crypto, genesis, net.nodes[i].store.chain)
    ensures var after := Next(cfg, net, Mine(i, b));
            && Shape(after) && Evolves(net, after)
            && HonestChain(cfg.crypto, genesis, after.nodes[i].store.chain)
            && after.nodes[i].Height() == b.index + 1
            && b.hash == HeaderHash(b)
  {
    MinedChain(cfg, genesis, net, i, b);
    MineKeepsLinks(cfg, net, i, b);
  }

  lemma MineKeepsHonest(cfg: Config, genesis: Block, net: Net, i: nat, b: Block)
    requires Shape(net) && Honest(cfg.crypto, genesis, net) && Enabled(cfg, net, Mine(i, b))
    ensures Honest(cfg.crypto, genesis, Next(cfg, net, Mine(i, b)))
  {
    var c, after := cfg.crypto, Next(cfg, net, Mine(i, b));
    MineEvolves(cfg, genesis, net, i, b);
    forall e | e in after.flight
      ensures HonestMessage(c, genesis, after, e)
    {
      if e in net.flight {
        assert HonestMessage(c, genesis, net, e);
      }
    }
  }

  lemma MineKeepsCovered(cfg: Config, genesis: Block, net: Net, i: nat, b: Block)
    requires Inv(cfg.crypto, genesis, net) && Enabled(cfg, net, Mine(i, b))
    ensures Covered(Next(cfg, net, Mine(i, b)))
  {
    var after := Next(cfg, net, Mine(i, b));
    MineEvolves(cfg, genesis, net, i, b);
    forall p: nat, j: nat | p < |after.nodes| && j < |after.nodes|
      ensures Owes(after, j, after.nodes[p].Height()) || Announced(after, j, after.nodes[p].Height())
    {
      if p != i {
        EvolveKeepsCoverage(cfg.crypto, genesis, net, after, j, net.nodes[p].Height());
      } else {
        MinedBlockIsCovered(cfg, genesis, net, i, b, j);
      }
    }
  }

  lemma MineKeepsTop(cfg: Config, genesis: Block, net: Net, i: nat, b: Block)
    requires Inv(cfg.crypto, genesis, net) && Enabled(cfg, net, Mine(i, b))
    ensures TopReached(Next(cfg, net, Mine(i, b)))
  {
    var after := Next(cfg, net, Mine(i, b));
    MineEvolves(cfg, genesis, net, i, b);
    var p :| 0 <= p < |net.nodes| && net.nodes[p].Height() == net.top;
    assert after.nodes[p].Height() == after.top || after.nodes[i].Height() == after.top;
  }

  lemma MineKeepsInv(cfg: Config, genesis: Block, net: Net, i: nat, b: Block)
    requires Inv(cfg.crypto, genesis, net) && Enabled(cfg, net, Mine(i, b))
    ensures Inv(cfg.crypto, genesis, Next(cfg, net, Mine(i, b)))
  {
    MineEvolves(cfg, genesis, net, i, b);
    MineKeepsHonest(cfg, genesis, net, i, b);
    EvolveKeepsSeen(net, Next(cfg, net, Mine(i, b)));
    MineKeepsCovered(cfg, genesis, net, i, b);
    MineKeepsTop(cfg, genesis, net, i, b);
  }

  /** A peer is told of the new block, or has seen it and is owed it; anyone else will be told the height on connecting. */
  lemma MinedBlockIsCovered(cfg: Config, genesis: Block, net: Net, i: nat, b: Block, j: nat)
    requires Inv(cfg.crypto, genesis, net) && Enabled(cfg, net, Mine(i, b)) && j < |net.nodes|
    requires Evolves(net, Next(cfg, net, Mine(i, b)))
    ensures var after := Next(cfg, net, Mine(i, b));
            Owes(after, j, after.nodes[i].Height()) || Announced(after, j, after.nodes[i].Height())
  {
    var after := Next(cfg, net, Mine(i, b));
    var x := after.nodes[i].Height();
    assert HonestChain(cfg.crypto, genesis, net.nodes[i].store.chain);
    assert b.index + 1 == x && b.hash == HeaderHash(b);
    if j != i {
      if !Linked(net, i, j) {
        assert WillServe(after, i, j, x);
      } else if b.hash in net.nodes[j].seenBlocks {
        EvolveKeepsOwes(net, after, j, x);
      } else {
        var m := Envelope(i, j, NewBlock(b));
        assert m in after.flight;
      }
    }
  }

  /** Connecting leaves the stored chains and tells both ends true heights. */
  lemma ConnectTellsHeights(cfg: Config, genesis: Block, net: Net, a: nat, b: nat)
    requires Enabled(cfg, net, Connect(a, b))
    ensures var after := Next(cfg, net, Connect(a, b));
            && |after.nodes| == |net.nodes|
            && (forall i :: 0 <= i < |net.nodes| ==> after.nodes[i].store.chain == net.nodes[i].store.chain)
            && forall e :: e in after.flight ==> e in net.flight || HonestMessage(cfg.crypto, genesis, after, e)
  {
  }

  lemma ConnectKeepsInv(cfg: Config, genesis: Block, net: Net, a: nat, b: nat)
    requires Inv(cfg.crypto, genesis, net) && Enabled(cfg, net, Connect(a, b))
    ensures Inv(cfg.crypto, genesis, Next(cfg, net, Connect(a, b)))
  {
    ConnectEvolves(cfg, net, a, b);
    ConnectTellsHeights(cfg, genesis, net, a, b);
    EvolveKeepsInv(cfg.crypto, genesis, net, Next(cfg, net, Connect(a, b)));
  }

  lemma DropKeepsInv(cfg: Config, genesis: Block, net: Net, a: nat, b: nat)
    requires Inv(cfg.crypto, genesis, net) && Enabled(cfg, net, Drop(a, b))
    ensures Inv(cfg.crypto, genesis, Next(cfg, net, Drop(a, b)))
  {
    DropEvolves(cfg, net, a, b);
    EvolveKeepsInv(cfg.crypto, genesis, net, Next(cfg, net, Drop(a, b)));
  }

  lemma RestartKeepsInv(cfg: Config, genesis: Block, net: Net, i: nat)
    requires Inv(cfg.crypto, genesis, net) && Enabled(cfg, net, Restart(i))
    ensures Inv(cfg.crypto, genesis, Next(cfg, net, Restart(i)))
  {
    RestartEvolves(cfg, net, i);
    EvolveKeepsInv(cfg.crypto, genesis, net, Next(cfg, net, Restart(i)));
  }

  /** One step keeps the invariant, whatever happens. */
  lemma NextKeepsInv(cfg: Config, genesis: Block, net: Net, ev: Event)
    requires Inv(cfg.crypto, genesis, net) && Enabled(cfg, net, ev)
    ensures Inv(cfg.crypto, genesis, Next(cfg, net, ev))
  {
    match ev
    case Mine(i, b) => MineKeepsInv(cfg, genesis, net, i, b);
    case Submit(i, t) => SubmitKeepsInv(cfg, genesis, net, i, t);
    case Deliver(k) => DeliverKeepsInv(cfg, genesis, net, k);
    case Connect(a, b) => ConnectKeepsInv(cfg, genesis, net, a, b);
    case Drop(a, b) => DropKeepsInv(cfg, genesis, net, a, b);
    case Restart(i) => RestartKeepsInv(cfg, genesis, net, i);
  }

  lemma {:induction false} RunKeepsInv(cfg: Config, genesis: Block, net: Net, evs: seq<Event>)
    requires Inv(cfg.crypto, genesis, net) && Legal(cfg, net, evs)
    ensures Inv(cfg.crypto, genesis, Run(cfg, net, evs))
    decreases |evs|
  {
    if |evs| > 0 {
      NextKeepsInv(cfg, genesis, net, evs[0]);
      RunKeepsInv(cfg, genesis, Next(cfg, net, evs[0]), evs[1..]);
    }
  }
}

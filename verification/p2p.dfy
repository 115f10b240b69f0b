/** The gossip handlers of one node (src/p2p/p2p.service.ts). Peers are named by number, one socket a peer. */
module P2p {
  import opened Wrappers
  import opened CryptoUtil
  import opened Domain
  import opened Blockchain

  datatype Message =
    | Hello(height: nat)
    | GetChain
    | Chain(blocks: seq<Block>)
    | NewBlock(block: Block)
    | NewTransaction(tx: Transaction)

  datatype Envelope = Envelope(src: nat, dst: nat, msg: Message)

  datatype Node = Node(store: Store, sockets: seq<nat>, seenBlocks: set<Digest>, seenTxs: set<string>) {
    function Height(): nat { |store.chain| }
  }

  /** One copy for every open socket except, if given, the one the message came from. */
  function Broadcast(me: nat, sockets: seq<nat>, except: Option<nat>, msg: Message): (out: seq<Envelope>)
    ensures |out| <= |sockets|
    ensures forall e :: e in out <==> e.src == me && e.msg == msg && e.dst in sockets && Some(e.dst) != except
  {
    if |sockets| == 0 then []
    else
      var rest := Broadcast(me, sockets[1..], except, msg);
      if Some(sockets[0]) == except then rest else [Envelope(me, sockets[0], msg)] + rest
  }

  function BlockHashes(blocks: seq<Block>): set<Digest> {
    set b | b in blocks :: b.hash
  }

  /** The effect of one delivered message on the receiving node, and what it sends. */
  function Handle(c: Crypto, n: Node, e: Envelope): (Node, seq<Envelope>)
    requires n.Height() >= 1
  {
    match e.msg
    case Hello(height) =>
      (n, if height > n.Height() then [Envelope(e.dst, e.src, GetChain)] else [])
    case GetChain =>
      (n, [Envelope(e.dst, e.src, Chain(n.store.chain))])
    case Chain(blocks) =>
      var (store, status) := Replace(c, n.store, blocks);
      if status == Replaced then (n.(store := store, seenBlocks := n.seenBlocks + BlockHashes(blocks)), []) else (n, [])
    case NewBlock(block) =>
      if block.hash in n.seenBlocks then (n, [])
      else
        var seen := n.(seenBlocks := n.seenBlocks + {block.hash});
        var (store, status) := Append(c, n.store, block);
        match status {
          case Accepted => (seen.(store := store), Broadcast(e.dst, n.sockets, Some(e.src), e.msg))
          case Mismatch => (seen, [Envelope(e.dst, e.src, GetChain)])
          case _ => (seen, [])
        }
    case NewTransaction(tx) =>
      if tx.id in n.seenTxs then (n, [])
      else
        var seen := n.(seenTxs := n.seenTxs + {tx.id});
        var (store, status) := AddExternal(c, n.store, tx);
        if status == Added then (seen.(store := store), Broadcast(e.dst, n.sockets, Some(e.src), e.msg)) else (seen, [])
  }

  /** A block mined here: marked as seen and sent to every peer. */
  function AnnounceBlock(me: nat, n: Node, b: Block): (Node, seq<Envelope>) {
    (n.(seenBlocks := n.seenBlocks + {b.hash}), Broadcast(me, n.sockets, None, NewBlock(b)))
  }

  function AnnounceTx(me: nat, n: Node, t: Transaction): (Node, seq<Envelope>) {
    (n.(seenTxs := n.seenTxs + {t.id}), Broadcast(me, n.sockets, None, NewTransaction(t)))
  }

  class P2pService {
    const me: nat
    const blockchain: BlockchainService
    var sockets: seq<nat>
    var seenBlocks: set<Digest>
    var seenTxs: set<string>

    ghost predicate Valid()
      reads this, blockchain
    {
      blockchain.Valid()
    }

    function State(): Node
      reads this, blockchain
    {
      Node(blockchain.Rows(), sockets, seenBlocks, seenTxs)
    }

    constructor (me: nat, blockchain: BlockchainService)
      requires blockchain.Valid()
      ensures Valid() && this.me == me && this.blockchain == blockchain
      ensures sockets == [] && seenBlocks == {} && seenTxs == {}
    {
      this.me := me;
      this.blockchain := blockchain;
      sockets, seenBlocks, seenTxs := [], {}, {};
    }

    /** A socket opens: the other side is told this node's height. */
    method RegisterSocket(peer: nat) returns (out: seq<Envelope>)
      requires Valid()
      modifies this`sockets
      ensures Valid()
      ensures State() == old(State()).(sockets := old(sockets) + [peer])
      ensures out == [Envelope(me, peer, Hello(old(State()).Height()))]
    {
      sockets := sockets + [peer];
      out := [Envelope(me, peer, Hello(|blockchain.chain|))];
    }

    method SendAll(msg: Message, except: Option<nat>) returns (out: seq<Envelope>)
      ensures out == Broadcast(me, sockets, except, msg)
    {
      out := [];
      var i := |sockets|;
      while i > 0
        invariant 0 <= i <= |sockets|
        invariant out == Broadcast(me, sockets[i..], except, msg)
      {
        i := i - 1;
        assert sockets[i..][1..] == sockets[i + 1..];
        if Some(sockets[i]) != except {
          out := [Envelope(me, sockets[i], msg)] + out;
        }
      }
      assert sockets[0..] == sockets;
    }

    method HandleMessage(from: nat, msg: Message) returns (out: seq<Envelope>)
      requires Valid()
      modifies this, blockchain
      ensures Valid()
      ensures (State(), out) == Handle(blockchain.cfg.crypto, old(State()), Envelope(from, me, msg))
    {
      match msg
      case Hello(height) =>
        out := if height > |blockchain.chain| then [Envelope(me, from, GetChain)] else [];
      case GetChain =>
        out := [Envelope(me, from, Chain(blockchain.chain))];
      case Chain(blocks) =>
        OnChain(blocks);
        out := [];
      case NewBlock(block) =>
        out := OnNewBlock(from, block);
      case NewTransaction(tx) =>
        out := OnNewTransaction(from, tx);
    }

    method OnChain(blocks: seq<Block>)
      requires Valid()
      modifies this, blockchain
      ensures Valid()
      ensures forall from: nat :: (State(), []) == Handle(blockchain.cfg.crypto, old(State()), Envelope(from, me, Chain(blocks)))
    {
      var status := blockchain.ReplaceChain(blocks);
      if status == Replaced {
        MarkSeen(blocks);
      }
    }

    method MarkSeen(blocks: seq<Block>)
      modifies this`seenBlocks
      ensures seenBlocks == old(seenBlocks) + BlockHashes(blocks)
    {
      for i := 0 to |blocks|
        invariant seenBlocks == old(seenBlocks) + BlockHashes(blocks[..i])
      {
        assert blocks[..i + 1] == blocks[..i] + [blocks[i]];
        seenBlocks := seenBlocks + {blocks[i].hash};
      }
      assert blocks[..|blocks|] == blocks;
    }

    method OnNewBlock(from: nat, block: Block) returns (out: seq<Envelope>)
      requires Valid()
      modifies this, blockchain
      ensures Valid()
      ensures (State(), out) == Handle(blockchain.cfg.crypto, old(State()), Envelope(from, me, NewBlock(block)))
    {
      out := [];
      if block.hash in seenBlocks {
        return;
      }
      seenBlocks := seenBlocks + {block.hash};
      var status := blockchain.AppendExternalBlock(block);
      if status == Accepted {
        out := SendAll(NewBlock(block), Some(from));
      } else if status == Mismatch {
        out := [Envelope(me, from, GetChain)];
      }
    }

    method OnNewTransaction(from: nat, tx: Transaction) returns (out: seq<Envelope>)
      requires Valid()
      modifies this, blockchain
      ensures Valid()
      ensures (State(), out) == Handle(blockchain.cfg.crypto, old(State()), Envelope(from, me, NewTransaction(tx)))
    {
      out := [];
      if tx.id in seenTxs {
        return;
      }
      seenTxs := seenTxs + {tx.id};
      var status := blockchain.AddExternalTransaction(tx);
      if status == Added {
        out := SendAll(NewTransaction(tx), Some(from));
      }
    }

    method OnLocalBlockMined(block: Block) returns (out: seq<Envelope>)
      requires Valid()
      modifies this`seenBlocks
      ensures Valid()
      ensures (State(), out) == AnnounceBlock(me, old(State()), block)
    {
      seenBlocks := seenBlocks + {block.hash};
      out := SendAll(NewBlock(block), None);
    }

    method OnLocalTxAdded(tx: Transaction) returns (out: seq<Envelope>)
      requires Valid()
      modifies this`seenTxs
      ensures Valid()
      ensures (State(), out) == AnnounceTx(me, old(State()), tx)
    {
      seenTxs := seenTxs + {tx.id};
      out := SendAll(NewTransaction(tx), None);
    }
  }
}

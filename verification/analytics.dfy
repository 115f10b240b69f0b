/**
 * The graph of mined transfers and the search for a route of funds in it
 * (src/analytics/cross-chain.service.ts). Amounts are integers.
 */
module Analytics {
  import opened Wrappers

  datatype Transfer = Transfer(from: string, to: string, amount: int)
  datatype Edge = Edge(from: string, to: string, volume: int, count: nat)
  datatype GraphNode = GraphNode(inDegree: nat, outDegree: nat, volumeIn: int, volumeOut: int)

  /** The text under which an edge is filed. A recipient is free text, so two pairs may share one. */
  function EdgeKey(from: string, to: string): string {
    from + "->" + to
  }

  function KeyOf(e: Edge): string {
    EdgeKey(e.from, e.to)
  }

  function FindEdge(edges: seq<Edge>, key: string): (r: Option<nat>)
    ensures r.Some? ==> r.value < |edges| && KeyOf(edges[r.value]) == key
    ensures r.None? ==> forall i :: 0 <= i < |edges| ==> KeyOf(edges[i]) != key
  {
    if |edges| == 0 then None
    else
      var last := edges[|edges| - 1];
      if KeyOf(last) == key then Some(|edges| - 1) else FindEdge(edges[..|edges| - 1], key)
  }

  function AddTransfer(edges: seq<Edge>, t: Transfer): seq<Edge> {
    match FindEdge(edges, EdgeKey(t.from, t.to))
    case Some(k) => edges[k := edges[k].(volume := edges[k].volume + t.amount, count := edges[k].count + 1)]
    case None => edges + [Edge(t.from, t.to, t.amount, 1)]
  }

  /** The edges in the order in which their keys first occur. */
  function EdgesOf(ts: seq<Transfer>): seq<Edge> {
    if |ts| == 0 then [] else AddTransfer(EdgesOf(ts[..|ts| - 1]), ts[|ts| - 1])
  }

  function NodeOf(ts: seq<Transfer>, a: string): GraphNode {
    if |ts| == 0 then GraphNode(0, 0, 0, 0)
    else
      var node, t := NodeOf(ts[..|ts| - 1], a), ts[|ts| - 1];
      var sent := if t.from == a then node.(outDegree := node.outDegree + 1, volumeOut := node.volumeOut + t.amount) else node;
      if t.to == a then sent.(inDegree := sent.inDegree + 1, volumeIn := sent.volumeIn + t.amount) else sent
  }

  /** What the transfers bring to an address, and what they take from it. */
  function Brought(ts: seq<Transfer>, a: string): int {
    if |ts| == 0 then 0 else (if ts[0].to == a then ts[0].amount else 0) + Brought(ts[1..], a)
  }

  function Taken(ts: seq<Transfer>, a: string): int {
    if |ts| == 0 then 0 else (if ts[0].from == a then ts[0].amount else 0) + Taken(ts[1..], a)
  }

  lemma {:induction false} VolumesSnoc(ts: seq<Transfer>, t: Transfer, a: string)
    ensures Brought(ts + [t], a) == Brought(ts, a) + if t.to == a then t.amount else 0
    ensures Taken(ts + [t], a) == Taken(ts, a) + if t.from == a then t.amount else 0
  {
    if |ts| == 0 {
      assert ts + [t] == [t] && [t][1..] == [];
    } else {
      assert (ts + [t])[1..] == ts[1..] + [t];
      VolumesSnoc(ts[1..], t, a);
    }
  }

  function TransfersTo(ts: seq<Transfer>, a: string): set<int> {
    set k | 0 <= k < |ts| && ts[k].to == a
  }

  function TransfersFrom(ts: seq<Transfer>, a: string): set<int> {
    set k | 0 <= k < |ts| && ts[k].from == a
  }

  lemma TransfersToSnoc(ts: seq<Transfer>, t: Transfer, a: string)
    ensures |TransfersTo(ts + [t], a)| == |TransfersTo(ts, a)| + if t.to == a then 1 else 0
  {
    var before, after := TransfersTo(ts, a), TransfersTo(ts + [t], a);
    assert forall k :: 0 <= k < |ts| ==> (ts + [t])[k] == ts[k];
    if t.to == a {
      assert after == before + {|ts|};
    } else {
      assert after == before;
    }
  }

  lemma TransfersFromSnoc(ts: seq<Transfer>, t: Transfer, a: string)
    ensures |TransfersFrom(ts + [t], a)| == |TransfersFrom(ts, a)| + if t.from == a then 1 else 0
  {
    var before, after := TransfersFrom(ts, a), TransfersFrom(ts + [t], a);
    assert forall k :: 0 <= k < |ts| ==> (ts + [t])[k] == ts[k];
    if t.from == a {
      assert after == before + {|ts|};
    } else {
      assert after == before;
    }
  }

  /** A node counts the transfers to its address and those from it, each with their volume. */
  lemma {:induction false} NodeCountsTransfers(ts: seq<Transfer>, a: string)
    ensures NodeOf(ts, a) == GraphNode(|TransfersTo(ts, a)|, |TransfersFrom(ts, a)|, Brought(ts, a), Taken(ts, a))
  {
    if |ts| > 0 {
      var shorter, t := ts[..|ts| - 1], ts[|ts| - 1];
      assert ts == shorter + [t];
      NodeCountsTransfers(shorter, a);
      VolumesSnoc(shorter, t, a);
      TransfersToSnoc(shorter, t, a);
      TransfersFromSnoc(shorter, t, a);
    }
  }

  predicate Linked(edges: seq<Edge>, from: string, to: string) {
    exists i :: 0 <= i < |edges| && edges[i].from == from && edges[i].to == to
  }

  predicate Sent(ts: seq<Transfer>, from: string, to: string) {
    exists i :: 0 <= i < |ts| && ts[i].from == from && ts[i].to == to
  }

  // ---- The edges are the transfers, up to shared keys ----

  ghost predicate DistinctKeys(edges: seq<Edge>) {
    forall i, j :: 0 <= i < j < |edges| ==> KeyOf(edges[i]) != KeyOf(edges[j])
  }

  lemma AddKeepsDistinct(edges: seq<Edge>, t: Transfer)
    requires DistinctKeys(edges)
    ensures DistinctKeys(AddTransfer(edges, t))
  {
    var after := AddTransfer(edges, t);
    assert forall i :: 0 <= i < |edges| ==> KeyOf(after[i]) == KeyOf(edges[i]);
  }

  lemma {:induction false} KeysAreDistinct(ts: seq<Transfer>)
    ensures DistinctKeys(EdgesOf(ts))
  {
    if |ts| > 0 {
      KeysAreDistinct(ts[..|ts| - 1]);
      AddKeepsDistinct(EdgesOf(ts[..|ts| - 1]), ts[|ts| - 1]);
    }
  }

  /** An edge never joins two addresses that no transfer joins. */
  lemma {:induction false} EdgesAreTransfers(ts: seq<Transfer>, i: nat)
    requires i < |EdgesOf(ts)|
    ensures Sent(ts, EdgesOf(ts)[i].from, EdgesOf(ts)[i].to)
  {
    var shorter, t := ts[..|ts| - 1], ts[|ts| - 1];
    if i < |EdgesOf(shorter)| {
      EdgesAreTransfers(shorter, i);
      var k :| 0 <= k < |shorter| && shorter[k].from == EdgesOf(ts)[i].from && shorter[k].to == EdgesOf(ts)[i].to;
      assert ts[k] == shorter[k];
    }
  }

  lemma {:induction false} KeyIsFiled(ts: seq<Transfer>, k: nat) returns (i: nat)
    requires k < |ts|
    ensures i < |EdgesOf(ts)| && KeyOf(EdgesOf(ts)[i]) == EdgeKey(ts[k].from, ts[k].to)
  {
    var shorter := ts[..|ts| - 1];
    if k < |shorter| {
      i := KeyIsFiled(shorter, k);
    } else {
      i := FindEdge(EdgesOf(shorter), EdgeKey(ts[k].from, ts[k].to)).GetOr(|EdgesOf(shorter)|);
    }
  }

  /** Different pairs of addresses are filed under different keys. */
  ghost predicate KeysSeparate(ts: seq<Transfer>) {
    forall i, j :: 0 <= i < |ts| && 0 <= j < |ts| && EdgeKey(ts[i].from, ts[i].to) == EdgeKey(ts[j].from, ts[j].to) ==>
      ts[i].from == ts[j].from && ts[i].to == ts[j].to
  }

  ghost predicate EdgesComplete(ts: seq<Transfer>) {
    forall k :: 0 <= k < |ts| ==> Linked(EdgesOf(ts), ts[k].from, ts[k].to)
  }

  /** The graph shows every transfer exactly if no two pairs of addresses share a key. */
  lemma EdgesCompleteExactlyWhenKeysSeparate(ts: seq<Transfer>)
    ensures EdgesComplete(ts) <==> KeysSeparate(ts)
  {
    var edges := EdgesOf(ts);
    if KeysSeparate(ts) {
      forall k | 0 <= k < |ts|
        ensures Linked(edges, ts[k].from, ts[k].to)
      {
        var i := KeyIsFiled(ts, k);
        EdgesAreTransfers(ts, i);
      }
    }
    if EdgesComplete(ts) {
      KeysAreDistinct(ts);
      forall i, j | 0 <= i < |ts| && 0 <= j < |ts| && EdgeKey(ts[i].from, ts[i].to) == EdgeKey(ts[j].from, ts[j].to)
        ensures ts[i].from == ts[j].from && ts[i].to == ts[j].to
      {
        assert Linked(edges, ts[i].from, ts[i].to) && Linked(edges, ts[j].from, ts[j].to);
        var m :| 0 <= m < |edges| && edges[m].from == ts[i].from && edges[m].to == ts[i].to;
        var n :| 0 <= n < |edges| && edges[n].from == ts[j].from && edges[n].to == ts[j].to;
        assert KeyOf(edges[m]) == KeyOf(edges[n]);
        assert m == n;
      }
    }
  }

  /**
   * Two pairs under one key, for any key text `k` and recipient `c`: from `k` followed by an
   * arrow to `c`, and from `k` to an arrow followed by `c`. The second is missing from the graph.
   */
  lemma {:induction false} SharedKeyHidesTransfer(ts: seq<Transfer>, k: string, c: string, x: int, y: int)
    requires ts == [Transfer(k + "->", c, x), Transfer(k, "->" + c, y)]
    ensures EdgesOf(ts) == [Edge(k + "->", c, x + y, 2)] && Sent(ts, k, "->" + c) && !Linked(EdgesOf(ts), k, "->" + c)
  {
    var first := Edge(k + "->", c, x, 1);
    assert ts[..1] == [ts[0]] && ts[..1][..0] == [];
    assert EdgesOf(ts[..1]) == [first];
    assert EdgeKey(k, "->" + c) == k + ("->" + ("->" + c)) == (k + "->") + "->" + c == KeyOf(first);
    assert [first][..0] == [] && FindEdge([first], EdgeKey(k, "->" + c)) == Some(0);
    assert ts[1].from == k && ts[1].to == "->" + c;
    assert |k + "->"| > |k|;
  }

  function TotalAmount(ts: seq<Transfer>): int {
    if |ts| == 0 then 0 else TotalAmount(ts[..|ts| - 1]) + ts[|ts| - 1].amount
  }

  function TotalVolume(edges: seq<Edge>): int {
    if |edges| == 0 then 0 else TotalVolume(edges[..|edges| - 1]) + edges[|edges| - 1].volume
  }

  function TotalCount(edges: seq<Edge>): nat {
    if |edges| == 0 then 0 else TotalCount(edges[..|edges| - 1]) + edges[|edges| - 1].count
  }

  lemma {:induction false} TotalsAfterUpdate(edges: seq<Edge>, k: nat, amount: int)
    requires k < |edges|
    ensures var after := edges[k := edges[k].(volume := edges[k].volume + amount, count := edges[k].count + 1)];
            TotalVolume(after) == TotalVolume(edges) + amount && TotalCount(after) == TotalCount(edges) + 1
  {
    var grown := edges[k].(volume := edges[k].volume + amount, count := edges[k].count + 1);
    var after, shorter := edges[k := grown], edges[..|edges| - 1];
    if k == |shorter| {
      assert after[..k] == shorter;
    } else {
      assert after[..|shorter|] == shorter[k := grown];
      TotalsAfterUpdate(shorter, k, amount);
    }
  }

  lemma {:induction false} TotalsAfterAdd(edges: seq<Edge>, t: Transfer)
    ensures TotalVolume(AddTransfer(edges, t)) == TotalVolume(edges) + t.amount
    ensures TotalCount(AddTransfer(edges, t)) == TotalCount(edges) + 1
  {
    match FindEdge(edges, EdgeKey(t.from, t.to))
    case Some(k) => TotalsAfterUpdate(edges, k, t.amount);
    case None => assert AddTransfer(edges, t)[..|edges|] == edges;
  }

  /** The edges together carry the volume and the number of all transfers, shared keys or not. */
  lemma {:induction false} EdgesCarryAllTransfers(ts: seq<Transfer>)
    ensures TotalVolume(EdgesOf(ts)) == TotalAmount(ts) && TotalCount(EdgesOf(ts)) == |ts|
  {
    if |ts| > 0 {
      EdgesCarryAllTransfers(ts[..|ts| - 1]);
      TotalsAfterAdd(EdgesOf(ts[..|ts| - 1]), ts[|ts| - 1]);
    }
  }

  /** The insertion-ordered map of edges, as the keys in order and what they hold. */
  ghost predicate Files(keys: seq<string>, edgeMap: map<string, Edge>, edges: seq<Edge>) {
    && |keys| == |edges|
    && (forall i :: 0 <= i < |keys| ==> keys[i] == KeyOf(edges[i]))
    && (forall i :: 0 <= i < |keys| ==> keys[i] in edgeMap && edgeMap[keys[i]] == edges[i])
    && (forall key :: key in edgeMap ==> key in keys)
    && (forall i, j :: 0 <= i < j < |keys| ==> keys[i] != keys[j])
  }

  /** The addresses in the order in which they first occur, the sender of a transfer before its recipient. */
  function AddressesOf(ts: seq<Transfer>): seq<string> {
    if |ts| == 0 then []
    else
      var t := ts[|ts| - 1];
      WithAddress(WithAddress(AddressesOf(ts[..|ts| - 1]), t.from), t.to)
  }

  function WithAddress(order: seq<string>, a: string): seq<string> {
    if a in order then order else order + [a]
  }

  predicate Occurs(ts: seq<Transfer>, a: string) {
    exists i :: 0 <= i < |ts| && (ts[i].from == a || ts[i].to == a)
  }

  /** The nodes are the addresses that occur, each with its counters. */
  ghost predicate Counts(nodes: map<string, GraphNode>, ts: seq<Transfer>) {
    forall a :: (a in nodes <==> Occurs(ts, a)) && NodeOf(ts, a) == (if a in nodes then nodes[a] else GraphNode(0, 0, 0, 0))
  }

  /** The nodes in order of insertion, each an address with its counters. */
  function NodesOf(ts: seq<Transfer>): (nodes: seq<(string, GraphNode)>)
    ensures |nodes| == |AddressesOf(ts)|
    ensures forall i :: 0 <= i < |nodes| ==> nodes[i] == (AddressesOf(ts)[i], NodeOf(ts, AddressesOf(ts)[i]))
  {
    var order := AddressesOf(ts);
    seq(|order|, i requires 0 <= i < |order| => (order[i], NodeOf(ts, order[i])))
  }

  lemma OneMoreAddress(order: seq<string>, x: string, a: string)
    ensures a in WithAddress(order, x) <==> a in order || a == x
  {
  }

  lemma {:induction false} AddressesOccur(ts: seq<Transfer>, a: string)
    ensures a in AddressesOf(ts) <==> Occurs(ts, a)
  {
    if |ts| > 0 {
      var shorter, t := ts[..|ts| - 1], ts[|ts| - 1];
      AddressesOccur(shorter, a);
      OneMoreAddress(AddressesOf(shorter), t.from, a);
      OneMoreAddress(WithAddress(AddressesOf(shorter), t.from), t.to, a);
      assert ts == shorter + [t];
      OccursAfter(shorter, t, a);
    }
  }

  lemma OneMoreTransfer(ts: seq<Transfer>, i: nat)
    requires i < |ts|
    ensures ts[..i + 1] == ts[..i] + [ts[i]] && ts[..i + 1][..i] == ts[..i]
  {
  }

  method BuildGraph(ts: seq<Transfer>) returns (nodes: seq<(string, GraphNode)>, edges: seq<Edge>)
    ensures edges == EdgesOf(ts)
    ensures nodes == NodesOf(ts)
  {
    var order: seq<string>, nodeMap: map<string, GraphNode> := [], map[];
    var keys: seq<string>, edgeMap: map<string, Edge> := [], map[];
    for i := 0 to |ts|
      invariant Files(keys, edgeMap, EdgesOf(ts[..i]))
      invariant Counts(nodeMap, ts[..i]) && order == AddressesOf(ts[..i])
    {
      OneMoreTransfer(ts, i);
      order, nodeMap := CountTransfer(order, nodeMap, ts[..i], ts[i]);
      keys, edgeMap := FileTransfer(keys, edgeMap, ts[i], EdgesOf(ts[..i]));
    }
    assert ts[..|ts|] == ts;
    nodes := NodeValues(order, nodeMap, ts);
    edges := EdgeValues(keys, edgeMap, EdgesOf(ts));
  }

  /** The values of the two insertion-ordered maps. */
  method NodeValues(order: seq<string>, nodeMap: map<string, GraphNode>, ghost ts: seq<Transfer>) returns (nodes: seq<(string, GraphNode)>)
    requires Counts(nodeMap, ts) && order == AddressesOf(ts)
    ensures nodes == NodesOf(ts)
  {
    forall i | 0 <= i < |order|
      ensures order[i] in nodeMap
    {
      AddressesOccur(ts, order[i]);
    }
    nodes := seq(|order|, i requires 0 <= i < |order| && order[i] in nodeMap => (order[i], nodeMap[order[i]]));
  }

  method EdgeValues(keys: seq<string>, edgeMap: map<string, Edge>, ghost filed: seq<Edge>) returns (edges: seq<Edge>)
    requires Files(keys, edgeMap, filed)
    ensures edges == filed
  {
    edges := seq(|keys|, i requires 0 <= i < |keys| && keys[i] in edgeMap => edgeMap[keys[i]]);
  }

  /** A missing node is made, and put last, before it is counted. */
  method EnsureNode(order: seq<string>, nodes: map<string, GraphNode>, a: string) returns (newOrder: seq<string>, after: map<string, GraphNode>)
    requires a in order <==> a in nodes
    ensures newOrder == WithAddress(order, a)
    ensures after == if a in nodes then nodes else nodes[a := GraphNode(0, 0, 0, 0)]
  {
    newOrder, after := order, nodes;
    if a !in after {
      newOrder, after := newOrder + [a], after[a := GraphNode(0, 0, 0, 0)];
    }
  }

  function Sending(node: GraphNode, amount: int): GraphNode {
    node.(outDegree := node.outDegree + 1, volumeOut := node.volumeOut + amount)
  }

  function Receiving(node: GraphNode, amount: int): GraphNode {
    node.(inDegree := node.inDegree + 1, volumeIn := node.volumeIn + amount)
  }

  lemma {:induction false} NodeAfter(ts: seq<Transfer>, t: Transfer, a: string)
    ensures var node := NodeOf(ts, a);
            var sent := if t.from == a then Sending(node, t.amount) else node;
            NodeOf(ts + [t], a) == if t.to == a then Receiving(sent, t.amount) else sent
  {
    assert (ts + [t])[..|ts|] == ts;
  }

  method CountTransfer(order: seq<string>, nodes: map<string, GraphNode>, ghost ts: seq<Transfer>, t: Transfer)
    returns (newOrder: seq<string>, after: map<string, GraphNode>)
    requires Counts(nodes, ts) && order == AddressesOf(ts)
    ensures Counts(after, ts + [t]) && newOrder == AddressesOf(ts + [t])
  {
    assert (ts + [t])[..|ts|] == ts;
    AddressesOccur(ts, t.from);
    AddressesOccur(ts, t.to);
    newOrder, after := EnsureNode(order, nodes, t.from);
    newOrder, after := EnsureNode(newOrder, after, t.to);
    after := after[t.from := Sending(after[t.from], t.amount)];
    after := after[t.to := Receiving(after[t.to], t.amount)];
    forall a
      ensures (a in after <==> Occurs(ts + [t], a)) && NodeOf(ts + [t], a) == (if a in after then after[a] else GraphNode(0, 0, 0, 0))
    {
      OccursAfter(ts, t, a);
      NodeAfter(ts, t, a);
    }
  }

  lemma OccursAfter(ts: seq<Transfer>, t: Transfer, a: string)
    ensures Occurs(ts + [t], a) <==> Occurs(ts, a) || a == t.from || a == t.to
  {
    if Occurs(ts, a) {
      var i :| 0 <= i < |ts| && (ts[i].from == a || ts[i].to == a);
      assert (ts + [t])[i] == ts[i];
    }
    assert (ts + [t])[|ts|] == t;
  }

  method FileTransfer(keys: seq<string>, edgeMap: map<string, Edge>, t: Transfer, ghost edges: seq<Edge>)
    returns (newKeys: seq<string>, newMap: map<string, Edge>)
    requires Files(keys, edgeMap, edges)
    ensures Files(newKeys, newMap, AddTransfer(edges, t))
  {
    var key := EdgeKey(t.from, t.to);
    if key in edgeMap {
      var edge := edgeMap[key];
      newKeys, newMap := keys, edgeMap[key := edge.(volume := edge.volume + t.amount, count := edge.count + 1)];
    } else {
      newKeys, newMap := keys + [key], edgeMap[key := Edge(t.from, t.to, t.amount, 1)];
    }
  }
}

/** The route of funds: a breadth-first search bounded by a number of hops (src/analytics/cross-chain.service.ts). */
module Tracing {
  import opened Wrappers
  import opened Analytics

  /** A directed walk along edges; its hops are one fewer than its addresses. */
  ghost predicate IsRoute(edges: seq<Edge>, route: seq<string>, from: string, to: string) {
    && |route| > 0 && route[0] == from && route[|route| - 1] == to
    && forall i :: 0 <= i < |route| - 1 ==> Linked(edges, route[i], route[i + 1])
  }

  datatype Visit = Visit(node: string, path: seq<string>)

  ghost predicate Queued(queue: seq<Visit>, u: string) {
    exists i :: 0 <= i < |queue| && queue[i].node == u
  }

  /** The queue holds distinct nodes of two consecutive depths, nearer ones first, each with a route as long as its depth. */
  ghost predicate Frontier(edges: seq<Edge>, from: string, hops: nat, queue: seq<Visit>, depth: map<string, nat>, level: nat) {
    && from in depth && depth[from] == 0
    && (forall u :: u in depth ==> depth[u] <= level + 1 && depth[u] <= hops)
    && (forall i :: 0 <= i < |queue| ==>
          && queue[i].node in depth && level <= depth[queue[i].node] && |queue[i].path| == depth[queue[i].node] + 1
          && IsRoute(edges, queue[i].path, from, queue[i].node))
    && (forall i, j :: 0 <= i < j < |queue| ==>
          queue[i].node != queue[j].node && depth[queue[i].node] <= depth[queue[j].node])
  }

  /** Every link out of u leads to a visited node at most one deeper. */
  ghost predicate Opened(edges: seq<Edge>, depth: map<string, nat>, u: string) {
    u in depth && forall v :: Linked(edges, u, v) ==> v in depth && depth[v] <= depth[u] + 1
  }

  /** A visited node that is neither queued nor being opened is not the target, and was opened if hops remained. */
  ghost predicate Settled(edges: seq<Edge>, to: string, hops: nat, queue: seq<Visit>, depth: map<string, nat>, level: nat, opening: set<string>) {
    forall u :: u in depth && u !in opening && !Queued(queue, u) ==>
      u != to && depth[u] <= level && (depth[u] < hops ==> Opened(edges, depth, u))
  }

  lemma PopHead(edges: seq<Edge>, from: string, to: string, hops: nat, queue: seq<Visit>, depth: map<string, nat>, level: nat)
    requires |queue| > 0 && Frontier(edges, from, hops, queue, depth, level) && Settled(edges, to, hops, queue, depth, level, {})
    ensures queue[0].node in depth
    ensures Frontier(edges, from, hops, queue[1..], depth, depth[queue[0].node])
    ensures Settled(edges, to, hops, queue[1..], depth, depth[queue[0].node], {queue[0].node})
    ensures !Queued(queue[1..], queue[0].node)
  {
    var rest := queue[1..];
    assert forall i :: 0 <= i < |rest| ==> rest[i] == queue[i + 1];
    forall i | 1 <= i < |queue|
      ensures Queued(rest, queue[i].node)
    {
      assert rest[i - 1] == queue[i];
    }
  }

  lemma ExtendRoute(edges: seq<Edge>, route: seq<string>, from: string, node: string, next: string)
    requires IsRoute(edges, route, from, node) && Linked(edges, node, next)
    ensures IsRoute(edges, route + [next], from, next)
  {
    var longer := route + [next];
    forall i | 0 <= i < |longer| - 1
      ensures Linked(edges, longer[i], longer[i + 1])
    {
      if i < |route| - 1 {
        assert longer[i] == route[i] && longer[i + 1] == route[i + 1];
      } else {
        assert longer[i] == node && longer[i + 1] == next;
      }
    }
  }

  lemma PushNext(edges: seq<Edge>, from: string, to: string, hops: nat, queue: seq<Visit>, depth: map<string, nat>, node: string, path: seq<string>, next: string)
    requires node in depth && depth[node] < hops && next !in depth
    requires Frontier(edges, from, hops, queue, depth, depth[node])
    requires Settled(edges, to, hops, queue, depth, depth[node], {node})
    requires IsRoute(edges, path, from, node) && |path| == depth[node] + 1 && Linked(edges, node, next)
    ensures var longer, deeper := queue + [Visit(next, path + [next])], depth[next := depth[node] + 1];
            && Frontier(edges, from, hops, longer, deeper, depth[node])
            && Settled(edges, to, hops, longer, deeper, depth[node], {node})
            && (!Queued(queue, node) ==> !Queued(longer, node))
  {
    var longer, deeper := queue + [Visit(next, path + [next])], depth[next := depth[node] + 1];
    ExtendRoute(edges, path, from, node, next);
    assert longer[|queue|].node == next;
    forall i | 0 <= i < |queue|
      ensures Queued(longer, queue[i].node)
    {
      assert longer[i] == queue[i];
    }
    forall u | u in deeper && u != node && !Queued(longer, u)
      ensures u != to && deeper[u] <= depth[node] && (deeper[u] < hops ==> Opened(edges, deeper, u))
    {
      assert u != next && u in depth;
    }
  }

  /** Along any route, the i-th address is visited at depth at most i, as long as everything nearer was opened. */
  lemma {:induction false} RouteIsCovered(edges: seq<Edge>, depth: map<string, nat>, from: string, bound: nat, route: seq<string>, i: nat)
    requires from in depth && depth[from] == 0
    requires forall u :: u in depth && depth[u] < bound ==> Opened(edges, depth, u)
    requires i < |route| && i <= bound && route[0] == from
    requires forall k :: 0 <= k < |route| - 1 ==> Linked(edges, route[k], route[k + 1])
    ensures route[i] in depth && depth[route[i]] <= i
  {
    if i > 0 {
      RouteIsCovered(edges, depth, from, bound, route, i - 1);
      assert Opened(edges, depth, route[i - 1]) && Linked(edges, route[i - 1], route[i - 1 + 1]);
    }
  }

  /** The head of the queue is at its true distance. */
  lemma HeadIsNearest(edges: seq<Edge>, from: string, to: string, hops: nat, queue: seq<Visit>, depth: map<string, nat>, level: nat, route: seq<string>)
    requires |queue| > 0 && Frontier(edges, from, hops, queue, depth, level) && Settled(edges, to, hops, queue, depth, level, {})
    requires IsRoute(edges, route, from, queue[0].node)
    ensures |route| >= |queue[0].path|
  {
    var d := depth[queue[0].node];
    assert forall i :: 0 <= i < |queue| ==> depth[queue[i].node] >= d;
    assert forall u :: u in depth && depth[u] < d ==> !Queued(queue, u);
    if |route| - 1 < d {
      RouteIsCovered(edges, depth, from, d, route, |route| - 1);
    }
  }

  /** With the queue empty, no route of at most that many hops leads to the target. */
  lemma NothingLeft(edges: seq<Edge>, from: string, to: string, hops: nat, depth: map<string, nat>, level: nat, route: seq<string>)
    requires Frontier(edges, from, hops, [], depth, level) && Settled(edges, to, hops, [], depth, level, {})
    requires IsRoute(edges, route, from, to)
    ensures |route| - 1 > hops
  {
    assert !Queued([], to);
    if |route| - 1 <= hops {
      RouteIsCovered(edges, depth, from, hops, route, |route| - 1);
    }
  }

  function Successors(edges: seq<Edge>, u: string): seq<string> {
    if |edges| == 0 then []
    else Successors(edges[..|edges| - 1], u) + if edges[|edges| - 1].from == u then [edges[|edges| - 1].to] else []
  }

  lemma {:induction false} SuccessorsAreLinks(edges: seq<Edge>, u: string, v: string)
    ensures v in Successors(edges, u) <==> Linked(edges, u, v)
  {
    if |edges| > 0 {
      var shorter := edges[..|edges| - 1];
      SuccessorsAreLinks(shorter, u, v);
      if Linked(shorter, u, v) {
        var i :| 0 <= i < |shorter| && shorter[i].from == u && shorter[i].to == v;
        assert edges[i] == shorter[i];
      }
      if Linked(edges, u, v) {
        var i :| 0 <= i < |edges| && edges[i].from == u && edges[i].to == v;
        assert i == |edges| - 1 || shorter[i] == edges[i];
      }
    }
  }

  lemma {:induction false} ListsLinks(edges: seq<Edge>, u: string, nexts: seq<string>)
    requires nexts == Successors(edges, u)
    ensures forall v :: v in nexts <==> Linked(edges, u, v)
  {
    forall v
      ensures v in nexts <==> Linked(edges, u, v)
    {
      SuccessorsAreLinks(edges, u, v);
    }
  }

  method Adjacency(edges: seq<Edge>) returns (adjacency: map<string, seq<string>>)
    ensures forall u :: Successors(edges, u) == if u in adjacency then adjacency[u] else []
  {
    adjacency := map[];
    for i := 0 to |edges|
      invariant forall u :: Successors(edges[..i], u) == if u in adjacency then adjacency[u] else []
    {
      assert edges[..i + 1][..i] == edges[..i];
      var e := edges[i];
      var list := if e.from in adjacency then adjacency[e.from] else [];
      adjacency := adjacency[e.from := list + [e.to]];
    }
    assert edges[..|edges|] == edges;
  }

  /** What a search over the edges promises: a shortest route within the hops, or none when none exists. */
  ghost predicate IsTrace(edges: seq<Edge>, from: string, to: string, hops: nat, found: Option<seq<string>>) {
    && (found.Some? ==>
          && IsRoute(edges, found.value, from, to) && |found.value| - 1 <= hops
          && forall route :: IsRoute(edges, route, from, to) ==> |found.value| <= |route|)
    && (found.None? ==> forall route :: IsRoute(edges, route, from, to) ==> |route| - 1 > hops)
  }

  ghost function Unseen(edges: seq<Edge>, from: string, visited: set<string>): set<string> {
    {from} + (set i | 0 <= i < |edges| :: edges[i].to) - visited
  }

  /** Queue what can be reached from one node in one more hop. */
  method Open(edges: seq<Edge>, from: string, to: string, ghost hops: nat, node: string, path: seq<string>, nexts: seq<string>,
              queue: seq<Visit>, visited: set<string>, ghost depth: map<string, nat>)
    returns (longer: seq<Visit>, seen: set<string>, ghost deeper: map<string, nat>)
    requires node in depth && depth[node] < hops && visited == depth.Keys && !Queued(queue, node)
    requires Frontier(edges, from, hops, queue, depth, depth[node])
    requires Settled(edges, to, hops, queue, depth, depth[node], {node})
    requires IsRoute(edges, path, from, node) && |path| == depth[node] + 1
    requires forall v :: v in nexts <==> Linked(edges, node, v)
    ensures node in deeper && deeper[node] == depth[node] && seen == deeper.Keys
    ensures Frontier(edges, from, hops, longer, deeper, depth[node])
    ensures Settled(edges, to, hops, longer, deeper, depth[node], {node}) && Opened(edges, deeper, node)
    ensures !Queued(longer, node)
    ensures Unseen(edges, from, seen) < Unseen(edges, from, visited) || (seen == visited && longer == queue)
  {
    longer, seen, deeper := queue, visited, depth;
    for i := 0 to |nexts|
      invariant node in deeper && deeper[node] == depth[node] && seen == deeper.Keys
      invariant Frontier(edges, from, hops, longer, deeper, depth[node])
      invariant Settled(edges, to, hops, longer, deeper, depth[node], {node})
      invariant !Queued(longer, node)
      invariant forall k :: 0 <= k < i ==> nexts[k] in deeper
      invariant Unseen(edges, from, seen) < Unseen(edges, from, visited) || (seen == visited && longer == queue)
    {
      var next := nexts[i];
      if next !in seen {
        PushNext(edges, from, to, hops, longer, deeper, node, path, next);
        UnseenShrinks(edges, from, seen, node, next);
        seen, deeper := seen + {next}, deeper[next := deeper[node] + 1];
        longer := longer + [Visit(next, path + [next])];
      }
    }
  }

  lemma UnseenShrinks(edges: seq<Edge>, from: string, visited: set<string>, node: string, next: string)
    requires Linked(edges, node, next) && next !in visited
    ensures Unseen(edges, from, visited + {next}) < Unseen(edges, from, visited)
  {
    assert next in Unseen(edges, from, visited);
  }

  lemma HeadIsTrace(edges: seq<Edge>, from: string, to: string, hops: nat, queue: seq<Visit>, depth: map<string, nat>, level: nat)
    requires |queue| > 0 && Frontier(edges, from, hops, queue, depth, level) && Settled(edges, to, hops, queue, depth, level, {})
    requires queue[0].node == to
    ensures IsTrace(edges, from, to, hops, Some(queue[0].path))
  {
    forall route | IsRoute(edges, route, from, to)
      ensures |queue[0].path| <= |route|
    {
      HeadIsNearest(edges, from, to, hops, queue, depth, level, route);
    }
  }

  lemma NothingIsTrace(edges: seq<Edge>, from: string, to: string, hops: nat, depth: map<string, nat>, level: nat)
    requires Frontier(edges, from, hops, [], depth, level) && Settled(edges, to, hops, [], depth, level, {})
    ensures IsTrace(edges, from, to, hops, None)
  {
    forall route | IsRoute(edges, route, from, to)
      ensures |route| - 1 > hops
    {
      NothingLeft(edges, from, to, hops, depth, level, route);
    }
  }

  /** A node stops being opened once its links are, or no hops remain. */
  lemma OpeningEnds(edges: seq<Edge>, to: string, hops: nat, queue: seq<Visit>, depth: map<string, nat>, node: string)
    requires node in depth && node != to && Settled(edges, to, hops, queue, depth, depth[node], {node})
    requires depth[node] < hops ==> Opened(edges, depth, node)
    ensures Settled(edges, to, hops, queue, depth, depth[node], {})
  {
  }

  method TraceFunds(ts: seq<Transfer>, from: string, to: string, maxHops: int) returns (found: Option<seq<string>>)
    ensures IsTrace(EdgesOf(ts), from, to, if maxHops < 0 then 0 else maxHops, found)
  {
    var nodes, edges := BuildGraph(ts);
    var adjacency := Adjacency(edges);
    ghost var hops: nat := if maxHops < 0 then 0 else maxHops;
    var queue, visited := [Visit(from, [from])], {from};
    ghost var depth: map<string, nat>, level := map[from := 0], 0;
    assert Queued(queue, from) by {
      assert queue[0].node == from;
    }
    while |queue| > 0
      invariant visited == depth.Keys
      invariant Frontier(edges, from, hops, queue, depth, level)
      invariant Settled(edges, to, hops, queue, depth, level, {})
      decreases Unseen(edges, from, visited), |queue|
    {
      var node, path := queue[0].node, queue[0].path;
      if node == to {
        HeadIsTrace(edges, from, to, hops, queue, depth, level);
        return Some(path);
      }
      PopHead(edges, from, to, hops, queue, depth, level);
      queue, level := queue[1..], depth[node];
      if |path| <= maxHops {
        var nexts := if node in adjacency then adjacency[node] else [];
        ListsLinks(edges, node, nexts);
        queue, visited, depth := Open(edges, from, to, hops, node, path, nexts, queue, visited, depth);
      }
      OpeningEnds(edges, to, hops, queue, depth, node);
    }
    NothingIsTrace(edges, from, to, hops, depth, level);
    return None;
  }

  // ---- What the routes say about the transfers themselves ----

  ghost predicate IsTransferRoute(ts: seq<Transfer>, route: seq<string>, from: string, to: string) {
    && |route| > 0 && route[0] == from && route[|route| - 1] == to
    && forall i :: 0 <= i < |route| - 1 ==> Sent(ts, route[i], route[i + 1])
  }

  /** Every route is a chain of mined transfers; every chain of transfers is a route if no two pairs share a key. */
  lemma {:induction false} RoutesAreTransferChains(ts: seq<Transfer>, route: seq<string>, from: string, to: string)
    ensures IsRoute(EdgesOf(ts), route, from, to) ==> IsTransferRoute(ts, route, from, to)
    ensures KeysSeparate(ts) && IsTransferRoute(ts, route, from, to) ==> IsRoute(EdgesOf(ts), route, from, to)
  {
    var edges := EdgesOf(ts);
    if IsRoute(edges, route, from, to) {
      forall i | 0 <= i < |route| - 1
        ensures Sent(ts, route[i], route[i + 1])
      {
        assert Linked(edges, route[i], route[i + 1]);
        var k :| 0 <= k < |edges| && edges[k].from == route[i] && edges[k].to == route[i + 1];
        EdgesAreTransfers(ts, k);
      }
    }
    if KeysSeparate(ts) && IsTransferRoute(ts, route, from, to) {
      EdgesCompleteExactlyWhenKeysSeparate(ts);
      forall i | 0 <= i < |route| - 1
        ensures Linked(edges, route[i], route[i + 1])
      {
        assert Sent(ts, route[i], route[i + 1]);
        var k :| 0 <= k < |ts| && ts[k].from == route[i] && ts[k].to == route[i + 1];
      }
    }
  }

  /** With separate keys, a trace is a shortest chain of transfers within the hops, or none exactly when there is none. */
  lemma {:induction false} TraceIsOfTransfers(ts: seq<Transfer>, from: string, to: string, hops: nat, found: Option<seq<string>>, route: seq<string>)
    requires IsTrace(EdgesOf(ts), from, to, hops, found)
    ensures found.Some? ==> IsTransferRoute(ts, found.value, from, to)
    ensures KeysSeparate(ts) && IsTransferRoute(ts, route, from, to) ==>
              if found.Some? then |found.value| <= |route| else |route| - 1 > hops
  {
    RoutesAreTransferChains(ts, route, from, to);
    if found.Some? {
      RoutesAreTransferChains(ts, found.value, from, to);
    }
  }
}

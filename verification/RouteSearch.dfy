/** Forward search between two nodes under a route role, and reading its route back. */
module RouteSearch {
  import opened Options
  import opened Networks
  import opened Queues
  import opened RoadGraph
  import opened Dijkstra
  import opened Determinism
  import opened RouteTurns

  /** A route made of the whole edges of an open walk from `start` to `end`. */
  ghost predicate IsRoute(g: Graph, net: Network, start: NodeId, end: NodeId, route: Route)
    requires g.Valid() && net.Valid() && |net.arcs| == |g.edges|
  {
    && IsWalk(net, start, route.edges, end)
    && InGraph(g, route.edges)
    && route == RouteFromIndices(g, route.edges, Cost(net, route.edges), start)
  }

  ghost function StateOf(s: Search): State { State(s.dist, s.previous, multiset(s.queue)) }

  /** All that the search keeps from turn to turn. */
  ghost predicate Kept(q: Query, net: Network, s: Search) {
    q.g.Valid() && net == RoleNet(q.g, q.role, q.respectAccess) && Sound(net, q.start, s) && Linked(net, q.start, s)
      && Closed(net, s, [])
  }

  /** The edges out of `node`, which was settled last, are being tried. */
  ghost predicate Relaxing(q: Query, net: Network, s: Search, node: NodeId) {
    && q.g.Valid() && net == RoleNet(q.g, q.role, q.respectAccess) && Sound(net, q.start, s) && Linked(net, q.start, s)
    && node in s.settled && node in s.dist && s.floor == s.dist[node]
  }

  /** The search after edge `e` out of `node` was tried. */
  ghost function Stepped(q: Query, net: Network, s: Search, node: NodeId, e: EdgeId): Search
    requires Relaxing(q, net, s, node) && 0 <= e < |q.g.edges| && q.g.edges[e].from == node
  {
    var next := s.dist[node] + RouteWeight(q.g.edges[e], q.role);
    if RouteTurns.Improves(q, s.dist, e, next) then Improved(net, s, e, next) else s
  }

  lemma {:induction false} StepKeeps(q: Query, net: Network, s: Search, node: NodeId, todo: seq<EdgeId>)
    requires Relaxing(q, net, s, node) && todo != [] && Closed(net, s, todo)
    requires 0 <= todo[0] < |q.g.edges| && q.g.edges[todo[0]].from == node
    ensures var s' := Stepped(q, net, s, node, todo[0]);
      && Relaxing(q, net, s', node) && Closed(net, s', todo[1..]) && s'.settled == s.settled
      && (Closed(net, s, []) ==> s' == s)
  {
    hide Sound, Linked, Closed, RouteWeight, RouteTurns.Improves, Improved;
    var next := s.dist[node] + RouteWeight(q.g.edges[todo[0]], q.role);
    if Closed(net, s, []) { NothingImproves(q, net, s, node, todo[0]); }
    if RouteTurns.Improves(q, s.dist, todo[0], next) {
      ImprovedKeeps(q, net, s, node, todo, next);
    } else {
      StillClosed(q, net, s, node, todo);
    }
  }

  lemma {:induction false} NothingImproves(q: Query, net: Network, s: Search, node: NodeId, e: EdgeId)
    requires Relaxing(q, net, s, node) && Closed(net, s, []) && 0 <= e < |q.g.edges| && q.g.edges[e].from == node
    ensures !RouteTurns.Improves(q, s.dist, e, s.dist[node] + RouteWeight(q.g.edges[e], q.role))
  {
    hide Linked, RouteWeight;
    assert e in net.open ==> Relaxed(net, s.dist, e);
  }

  lemma {:induction false} CanImprove(q: Query, net: Network, s: Search, node: NodeId, e: EdgeId, next: real)
    requires Relaxing(q, net, s, node) && 0 <= e < |q.g.edges| && q.g.edges[e].from == node
    requires next == s.dist[node] + RouteWeight(q.g.edges[e], q.role) && RouteTurns.Improves(q, s.dist, e, next)
    ensures Dijkstra.Improves(net, s, e, next) && net.arcs[e].to != node && net.arcs[e].to == q.g.edges[e].to
    ensures net.arcs[e].from in s.hops
  {
    hide Linked, RouteWeight;
    assert net.arcs[e].weight >= 0.0;
  }

  lemma {:induction false} ImprovedKeeps(q: Query, net: Network, s: Search, node: NodeId, todo: seq<EdgeId>, next: real)
    requires Relaxing(q, net, s, node) && todo != [] && Closed(net, s, todo)
    requires 0 <= todo[0] < |q.g.edges| && q.g.edges[todo[0]].from == node
    requires next == s.dist[node] + RouteWeight(q.g.edges[todo[0]], q.role)
      && RouteTurns.Improves(q, s.dist, todo[0], next)
    ensures var s' := Stepped(q, net, s, node, todo[0]);
      s' == Improved(net, s, todo[0], next) && Relaxing(q, net, s', node) && Closed(net, s', todo[1..])
        && s'.settled == s.settled
  {
    hide Sound, Linked, RouteWeight, Closed, Dijkstra.Improves;
    CanImprove(q, net, s, node, todo[0], next);
    Improve(net, q.start, s, todo, next);
  }

  lemma {:induction false} StillClosed(q: Query, net: Network, s: Search, node: NodeId, todo: seq<EdgeId>)
    requires Relaxing(q, net, s, node) && todo != [] && Closed(net, s, todo)
    requires 0 <= todo[0] < |q.g.edges| && q.g.edges[todo[0]].from == node
    requires !RouteTurns.Improves(q, s.dist, todo[0], s.dist[node] + RouteWeight(q.g.edges[todo[0]], q.role))
    ensures Closed(net, s, todo[1..])
  {
    hide Linked, RouteWeight;
    Skip(net, s, todo);
  }

  lemma {:induction false} StepState(q: Query, net: Network, s: Search, node: NodeId, e: EdgeId)
    requires Relaxing(q, net, s, node) && 0 <= e < |q.g.edges| && q.g.edges[e].from == node
    ensures StateOf(Stepped(q, net, s, node, e)) == RelaxedBy(q, StateOf(s), node, e)
  {
    hide Sound, Linked, RouteWeight, RouteTurns.Improves;
    var next := s.dist[node] + RouteWeight(q.g.edges[e], q.role);
    var entry := Entry(next, q.g.edges[e].to);
    assert multiset(s.queue + [entry]) == multiset(s.queue) + multiset{entry};
  }

  /**
   The cheapest route between two nodes.  There is one exactly when the end can be
   reached over admitted edges, and its search cost is the least of any walk.
   */
  method RouteInternal(
      g: Graph, start: NodeId, end: NodeId, role: Role, respectAccess: bool) returns (route: Option<Route>)
    requires g.Valid()
    ensures route.Some? <==> Reaches(RoleNet(g, role, respectAccess), start, end)
    ensures route.Some? ==> IsRoute(g, RoleNet(g, role, respectAccess), start, end, route.value)
    ensures route.Some? ==> IsDistance(RoleNet(g, role, respectAccess), start, end, route.value.searchCost)
    ensures route == RouteDue(Query(g, start, end, role, respectAccess))
  {
    hide Sound, Linked, Closed, Turn, Turned, After, RouteDue, ReadBack, First;
    var q := Query(g, start, end, role, respectAccess);
    ghost var net := RoleNet(g, role, respectAccess);
    var distances: map<NodeId, real> := map[start := 0.0];
    var previous: map<NodeId, (NodeId, EdgeId)> := map[];
    var queue := [Entry(0.0, start)];
    ghost var s := Dijkstra.Start(start);
    ghost var turns: nat := 0;
    NoSteps(Turn(q), Outset(q));
    Begun(net, start);
    ghost var arrived := false;

    while queue != []
      invariant distances == s.dist && queue == s.queue && previous == s.previous && Kept(q, net, s)
      invariant !arrived
      invariant After(Turn(q), Outset(q), turns, StateOf(s))
      decreases net.Nodes() + {start} - s.settled, |queue|
    {
      var least, rest := Pop(queue);
      FirstPopped(queue, least, rest);
      if least.node == end {
        AtEnd(q, net, s, least);
        arrived := true;
        break;
      }
      ghost var x := StateOf(s);
      distances, previous, queue, s := TakeEntry(q, net, least, rest, distances, previous, s);
      TakeTurn(q, turns, x, least, StateOf(s));
      turns := turns + 1;
    }
    Arrived(q, StateOf(s));
    RouteDueIs(q, StateOf(s));

    if !arrived { Exhausted(net, start, s); }
    route := RouteFromSearch(g, net, start, end, distances, previous, s);
  }

  /** Once the end is in front its label is its distance. */
  lemma {:induction false} AtEnd(q: Query, net: Network, s: Search, least: Entry)
    requires Kept(q, net, s) && least in s.queue && (forall p <- s.queue :: Before(least, p)) && least.node == q.end
    ensures q.end in s.dist && IsDistance(net, q.start, q.end, s.dist[q.end]) && Reaches(net, q.start, q.end)
  {
    hide Linked, Closed;
    LabelIsDistance(net, q.start, s, q.end);
  }

  /** Passes over the popped entry if it is stale, else settles its node. */
  method TakeEntry(
    q: Query, ghost net: Network, least: Entry, rest: seq<Entry>, distances: map<NodeId, real>,
    previous: map<NodeId, (NodeId, EdgeId)>, ghost before: Search)
    returns (distances': map<NodeId, real>, previous': map<NodeId, (NodeId, EdgeId)>, queue': seq<Entry>,
      ghost s: Search)
    requires Kept(q, net, before) && distances == before.dist && previous == before.previous
    requires least in before.queue && forall p <- before.queue :: Before(least, p)
    requires multiset(before.queue) == multiset(rest) + multiset{least} && |rest| < |before.queue|
    ensures distances' == s.dist && previous' == s.previous && queue' == s.queue && Kept(q, net, s)
    ensures StateOf(s) == Turned(q, StateOf(before), least)
    ensures var all := net.Nodes() + {q.start};
      all - s.settled < all - before.settled || (all - s.settled == all - before.settled && |queue'| < |before.queue|)
  {
    hide Linked, Closed, Turned;
    distances', previous', queue', s := distances, previous, rest, before.(queue := rest);
    assert multiset(before.queue) - multiset{least} == multiset(rest);
    if least.node in distances && least.distance > distances[least.node] {
      DropStale(net, q.start, before, least, rest);
      StaleTurn(q, StateOf(before), least);
      return;
    }
    Settle(net, q.start, before, least, rest);
    SettlingTurn(q, StateOf(before), least);
    assert least.node in net.Nodes() + {q.start};
    distances', previous', queue', s := RelaxOutgoing(q, net, least.node, distances, previous, rest, before);
  }

  /**
   Settles `node` and tries every edge leaving it.  Settling a node a second time,
   which an entry left in the queue twice can cause, changes no label.
   */
  method RelaxOutgoing(
    q: Query, ghost net: Network, node: NodeId, distances: map<NodeId, real>, previous: map<NodeId, (NodeId, EdgeId)>,
    queue: seq<Entry>, ghost before: Search)
    returns (distances': map<NodeId, real>, previous': map<NodeId, (NodeId, EdgeId)>, queue': seq<Entry>,
      ghost s: Search)
    requires Kept(q, net, before) && node in before.dist && distances == before.dist && previous == before.previous
    requires Relaxing(q, net, Settled(before, node, queue), node)
    ensures distances' == s.dist && previous' == s.previous && queue' == s.queue && Kept(q, net, s)
    ensures s.settled == before.settled + {node}
    ensures node in before.settled ==> queue' == queue
    ensures StateOf(s) == RelaxedOver(q, State(distances, previous, multiset(queue)), node, q.g.Outgoing(node))
  {
    hide Sound, Linked, RelaxedOver, RelaxedBy;
    distances', previous', queue', s := distances, previous, queue, Settled(before, node, queue);
    ghost var settled := s;
    var todo: seq<EdgeId> := q.g.Outgoing(node);
    SettledCloses(q, net, before, node, queue, todo);
    while todo != []
      invariant distances' == s.dist && queue' == s.queue && previous' == s.previous
      invariant Relaxing(q, net, s, node) && Closed(net, s, todo) && s.settled == settled.settled
      invariant forall k | 0 <= k < |todo| :: 0 <= todo[k] < |q.g.edges| && q.g.edges[todo[k]].from == node
      invariant node in before.settled ==> s == settled
      invariant RelaxedOver(q, StateOf(s), node, todo) == RelaxedOver(q, StateOf(settled), node, q.g.Outgoing(node))
    {
      var e := todo[0];
      var edge := q.g.edges[e];
      var next := distances'[node] + RouteWeight(edge, q.role);
      StepKeeps(q, net, s, node, todo);
      StepState(q, net, s, node, e);
      RelaxOne(q, StateOf(s), node, todo);
      s := Stepped(q, net, s, node, e);
      if RouteTurns.Improves(q, distances', e, next) {
        distances' := distances'[edge.to := next];
        previous' := previous'[edge.to := (node, e)];
        queue' := queue' + [Entry(next, edge.to)];
      }
      todo := todo[1..];
    }
    RelaxNone(q, StateOf(s), node);
  }

  lemma SettledCloses(q: Query, net: Network, before: Search, node: NodeId, queue: seq<Entry>, todo: seq<EdgeId>)
    requires Kept(q, net, before) && node in before.dist
    requires forall e :: e in todo <==> 0 <= e < |q.g.edges| && q.g.edges[e].from == node
    ensures Closed(net, Settled(before, node, queue), todo)
    ensures node in before.settled ==> Closed(net, Settled(before, node, queue), [])
  {
  }

  /** Follows `previous` from the end back to the start; the ghost arguments say why that works. */
  method RouteFromSearch(
    g: Graph, ghost net: Network, start: NodeId, end: NodeId, distances: map<NodeId, real>,
    previous: map<NodeId, (NodeId, EdgeId)>, ghost s: Search) returns (route: Option<Route>)
    requires g.Valid() && net.Valid() && |net.arcs| == |g.edges|
    requires forall e | 0 <= e < |g.edges| :: net.arcs[e].from == g.edges[e].from && net.arcs[e].to == g.edges[e].to
    requires Sound(net, start, s) && Linked(net, start, s) && distances == s.dist && previous == s.previous
    ensures route.Some? <==> end in distances
    ensures route.Some? ==> IsRoute(g, net, start, end, route.value) && route.value.searchCost == distances[end]
    ensures forall role, respectAccess ::
      route == ReadBack(Query(g, start, end, role, respectAccess), distances, previous)
  {
    if end !in distances {
      return None;
    }
    var indices: seq<EdgeId> := [];
    var cursor := end;
    var nodes: seq<Stop> := [AtNode(end)];
    while cursor != start
      invariant cursor in s.dist
      invariant IsWalk(net, cursor, indices, end) && s.dist[cursor] + Cost(net, indices) == s.dist[end]
      invariant InGraph(g, indices) && nodes == NodesAlong(g, cursor, indices)
      invariant Behind(previous, start, end, indices, cursor)
      decreases s.hops[cursor]
    {
      var (node, e) := previous[cursor];
      assert Link(net, s, cursor, node, e);
      assert ([e] + indices)[1..] == indices;
      NodesAlongCons(g, node, e, indices);
      FurtherBehind(previous, start, end, indices, cursor);
      indices := [e] + indices;
      cursor := node;
      nodes := [AtNode(cursor)] + nodes;
    }
    route := Some(RouteFromParts(g, indices, EdgeLengths(g, indices), distances[end], nodes));
    forall role, respectAccess
      ensures route == ReadBack(Query(g, start, end, role, respectAccess), distances, previous) {
      ReadBackIs(Query(g, start, end, role, respectAccess), distances, previous, indices);
    }
  }
}

/** Reading routes back from a frontier search, and when they end where their target says. */
module FrontierRoutes {
  import opened Options
  import opened Networks
  import opened RoadGraph
  import opened Frontier

  function StretchBetween(g: Graph, edge: EdgeId, start: real, end: real): real
    requires 0 <= edge < |g.edges|
  {
    (end - start) * g.edges[edge].length
  }

  /** The stretch of one edge between two fractions; none if it runs backwards or may not be cycled. */
  function PartialEdgeRoute(g: Graph, edge: EdgeId, start: real, end: real): Option<Route> {
    if end < start || !(0 <= edge < |g.edges|) || !g.edges[edge].CyclingAllowed() then None
    else
      var length := StretchBetween(g, edge, start, end);
      Some(RouteFromParts(g, [edge], [length], length, [AttachedTo(edge), OnEdge(edge, end)]))
  }

  /** One route after another; the second's first stop is where the first one ends. */
  function AppendRoutes(g: Graph, first: Route, second: Route): Route
    requires |first.edges| == |first.lengths| && |second.edges| == |second.lengths|
  {
    RouteFromParts(g, first.edges + second.edges, first.lengths + second.lengths, first.searchCost + second.searchCost,
                   if first.nodes == [] then second.nodes
                   else first.nodes + (if second.nodes == [] then [] else second.nodes[1..]))
  }

  /** From `start`, `walk` follows the labels to the first frontier node `landing`. */
  ghost predicate Lands(inst: Instance, s: Search, start: NodeId, walk: seq<EdgeId>, landing: NodeId)
    requires inst.Valid()
  {
    && IsWalk(FrontierNet(inst), start, walk, landing) && InGraph(inst.g, walk)
    && landing in s.frontier && landing in s.distances && landing in s.targets
    && start in s.distances && start in s.targets
    && s.targets[landing] == s.targets[start]
    && s.distances[start] == Cost(FrontierNet(inst), walk) + s.distances[landing]
  }

  /** `walk` takes the labels' own edges from `start`, none of them out of a frontier node. */
  ghost predicate Traces(inst: Instance, s: Search, start: NodeId, walk: seq<EdgeId>, landing: NodeId)
    decreases |walk|
  {
    if walk == [] then start == landing
    else
      && start !in s.frontier && start in s.previous && s.previous[start] == walk[0] && 0 <= walk[0] < |inst.g.edges|
      && Traces(inst, s, inst.g.edges[walk[0]].to, walk[1..], landing)
  }

  ghost predicate Reads(inst: Instance, s: Search, start: NodeId, walk: seq<EdgeId>, landing: NodeId) {
    && Traces(inst, s, start, walk, landing) && InGraph(inst.g, walk)
    && start in s.distances && landing in s.frontier && landing in s.targets
  }

  /** There is one way to follow the labels. */
  lemma {:induction false} ReadsOnce(
    inst: Instance, s: Search, start: NodeId, walk: seq<EdgeId>, landing: NodeId, walk': seq<EdgeId>, landing': NodeId)
    requires Traces(inst, s, start, walk, landing) && Traces(inst, s, start, walk', landing')
    requires landing in s.frontier && landing' in s.frontier
    ensures walk == walk' && landing == landing'
    decreases |walk|
  {
    if walk != [] && walk' != [] {
      ReadsOnce(inst, s, inst.g.edges[walk[0]].to, walk[1..], landing, walk'[1..], landing');
      assert walk == [walk[0]] + walk[1..] && walk' == [walk'[0]] + walk'[1..];
    }
  }

  lemma {:induction false} TraceOneMore(inst: Instance, s: Search, start: NodeId, walk: seq<EdgeId>, cursor: NodeId)
    requires Traces(inst, s, start, walk, cursor) && cursor !in s.frontier && cursor in s.previous
    requires 0 <= s.previous[cursor] < |inst.g.edges|
    ensures Traces(inst, s, start, walk + [s.previous[cursor]], inst.g.edges[s.previous[cursor]].to)
    decreases |walk|
  {
    var longer := walk + [s.previous[cursor]];
    if walk == [] {
      assert longer[1..] == [];
    } else {
      TraceOneMore(inst, s, inst.g.edges[walk[0]].to, walk[1..], cursor);
      assert longer[1..] == walk[1..] + [s.previous[cursor]];
    }
  }

  /** The route along the labels to `landing`, and on to a partial target if it carries one. */
  ghost function RouteAlong(
      inst: Instance, s: Search, start: NodeId, walk: seq<EdgeId>, landing: NodeId): Option<(Route, Target)>
    requires Reads(inst, s, start, walk, landing)
  {
    var (lengths, nodes) := (EdgeLengths(inst.g, walk), NodesAlong(inst.g, start, walk));
    if landing !in s.partials then Some((RouteFromParts(inst.g, walk, lengths, s.distances[start], nodes),
      s.targets[landing]))
    else
      var (e, f) := (s.partials[landing].edge, s.partials[landing].fraction);
      var suffix := PartialEdgeRoute(inst.g, e, 0.0, f);
      if suffix.None? then None
      else
        var first := RouteFromParts(inst.g, walk, lengths, s.distances[start] - StretchBetween(inst.g, e, 0.0, f),
          nodes);
        Some((AppendRoutes(inst.g, first, suffix.value), s.targets[landing]))
  }

  /** The route from a node as its labels give it. */
  ghost function ReadingOf(inst: Instance, s: Search, start: NodeId): Option<(Route, Target)> {
    if exists walk, landing :: Reads(inst, s, start, walk, landing) then
      var walk, landing :| Reads(inst, s, start, walk, landing);
      RouteAlong(inst, s, start, walk, landing)
    else None
  }

  lemma {:induction false} ReadingIs(inst: Instance, s: Search, start: NodeId, walk: seq<EdgeId>, landing: NodeId)
    requires Reads(inst, s, start, walk, landing)
    ensures ReadingOf(inst, s, start) == RouteAlong(inst, s, start, walk, landing)
  {
    var walk', landing' :| Reads(inst, s, start, walk', landing')
      && ReadingOf(inst, s, start) == RouteAlong(inst, s, start, walk', landing');
    assert Reads(inst, s, start, walk', landing');
    ReadsOnce(inst, s, start, walk, landing, walk', landing');
  }

  lemma NothingRead(inst: Instance, s: Search, start: NodeId)
    ensures start !in s.distances ==> ReadingOf(inst, s, start).None?
  {
  }

  /** The edges of the route that lands so: the walk, then the stretch to a partial target. */
  ghost function RouteEdges(s: Search, walk: seq<EdgeId>, landing: NodeId): seq<EdgeId> {
    if landing in s.partials then walk + [s.partials[landing].edge] else walk
  }

  ghost function RouteLengths(inst: Instance, s: Search, walk: seq<EdgeId>, landing: NodeId): seq<real>
    requires InGraph(inst.g, walk)
    requires landing in s.partials ==> 0 <= s.partials[landing].edge < |inst.g.edges|
  {
    if landing in s.partials
    then
      EdgeLengths(inst.g, walk) + [StretchBetween(inst.g, s.partials[landing].edge, 0.0, s.partials[landing].fraction)]
    else EdgeLengths(inst.g, walk)
  }

  lemma {:induction false} CostIsSum(inst: Instance, from: NodeId, walk: seq<EdgeId>, to: NodeId)
    requires inst.Valid() && IsWalk(FrontierNet(inst), from, walk, to) && InGraph(inst.g, walk)
    ensures Cost(FrontierNet(inst), walk) == Sum(EdgeLengths(inst.g, walk))
    decreases |walk|
  {
    if walk != [] {
      assert forall e <- walk[1..] :: e in walk;
      assert EdgeLengths(inst.g, walk)[1..] == EdgeLengths(inst.g, walk[1..]);
      CostIsSum(inst, inst.g.edges[walk[0]].to, walk[1..], to);
    }
  }

  /** A partial mark names an edge of the graph that leaves its node. */
  lemma {:induction false} PartialEdge(inst: Instance, s: Search, n: NodeId)
    requires inst.Valid() && Marks(inst, |inst.partials|, s) && n in s.partials
    ensures 0 <= s.partials[n].edge < |inst.g.edges| && inst.g.edges[s.partials[n].edge].from == n
    ensures 0.0 <= s.partials[n].fraction <= 1.0
    ensures n in s.distances && s.distances[n] == s.partials[n].fraction * inst.g.edges[s.partials[n].edge].length
    ensures n in s.targets && s.targets[n] == s.partials[n].target
  {
    assert PartialMark(inst, s, n);
  }

  /** A frontier node without a partial target lies on the frontier itself. */
  lemma {:induction false} WholeAtZero(inst: Instance, s: Search, rank: map<NodeId, nat>, n: NodeId)
    requires inst.Valid() && Found(inst, s, rank) && n in s.frontier && n !in s.partials
    ensures n in inst.wholes && n in s.distances && s.distances[n] == 0.0
  {
    assert IsWalk(FrontierNet(inst), n, [], n) && Cost(FrontierNet(inst), []) == 0.0;
    assert IsSeed(inst, n, 0.0, inst.wholes[n]);
    assert Joins(inst, n, [], inst.wholes[n], 0.0);
  }

  /** Follows the labels forward to the first frontier node, in finitely many steps even over edges of no length. */
  method FollowLabels(inst: Instance, start: NodeId, s: Search, ghost rank: map<NodeId, nat>)
    returns (indices: seq<EdgeId>, nodes: seq<Stop>, cursor: NodeId)
    requires inst.Valid() && Traceable(inst, s, rank) && start in s.distances
    requires s.targets.Keys == s.distances.Keys == rank.Keys
    ensures Lands(inst, s, start, indices, cursor)
    ensures nodes == NodesAlong(inst.g, start, indices)
    ensures Reads(inst, s, start, indices, cursor)
  {
    indices, nodes, cursor := [], [AtNode(start)], start;
    while cursor !in s.frontier
      invariant cursor in s.distances && cursor in s.targets && cursor in rank && start in s.targets
      invariant IsWalk(FrontierNet(inst), start, indices, cursor) && InGraph(inst.g, indices)
      invariant nodes == NodesAlong(inst.g, start, indices) && Traces(inst, s, start, indices, cursor)
      invariant s.targets[cursor] == s.targets[start]
      invariant s.distances[start] == Cost(FrontierNet(inst), indices) + s.distances[cursor]
      decreases rank[cursor]
    {
      assert Extends(inst, s, rank, cursor);
      var e := s.previous[cursor];
      WalkSnoc(FrontierNet(inst), start, indices, cursor, e);
      NodesAlongSnoc(inst.g, start, indices, e);
      TraceOneMore(inst, s, start, indices, cursor);
      indices := indices + [e];
      cursor := inst.g.edges[e].to;
      nodes := nodes + [AtNode(cursor)];
    }
  }

  /** `route` runs along `walk` to `landing`, and on to a partial target if it carries one. */
  ghost predicate ReadsBack(inst: Instance, s: Search, start: NodeId, walk: seq<EdgeId>, landing: NodeId, route: Route)
    requires InGraph(inst.g, walk)
  {
    && route.edges == RouteEdges(s, walk, landing)
    && (landing in s.partials ==> 0 <= s.partials[landing].edge < |inst.g.edges|)
    && route.lengths == RouteLengths(inst, s, walk, landing)
    && route.nodes == NodesAlong(inst.g, start, walk)
         + (if landing in s.partials then [OnEdge(s.partials[landing].edge, s.partials[landing].fraction)] else [])
    && route == RouteFromParts(inst.g, route.edges, route.lengths, route.length, route.nodes)
  }

  /** The partial target that marks `landing` lies on an edge that may not be cycled. */
  ghost predicate Blocked(inst: Instance, s: Search, landing: NodeId) {
    && landing in s.partials && 0 <= s.partials[landing].edge < |inst.g.edges|
    && !inst.g.edges[s.partials[landing].edge].CyclingAllowed()
  }

  /**
   The route from a labelled node along the labels.  It exists unless it would end on
   an edge that may not be cycled, it carries the label's target, and it measures
   exactly the label's distance.
   */
  method RouteFromFrontierNode(inst: Instance, start: NodeId, s: Search, ghost rank: map<NodeId, nat>)
    returns (result: Option<(Route, Target)>, ghost walk: seq<EdgeId>, ghost landing: NodeId)
    requires inst.Valid() && Found(inst, s, rank)
    ensures start !in s.distances ==> result.None?
    ensures start in s.distances ==>
      Lands(inst, s, start, walk, landing) && (result.None? <==> Blocked(inst, s, landing))
    ensures result.Some? ==>
      && start in s.distances && result.value.1 == s.targets[start]
      && result.value.0.length == s.distances[start]
      && ReadsBack(inst, s, start, walk, landing, result.value.0)
    ensures result == ReadingOf(inst, s, start)
  {
    hide ReadingOf, Traces, CanJoin, LeastJoin, IsWalk, PartialEdgeRoute, AppendRoutes;
    NothingRead(inst, s, start);
    walk, landing := [], start;
    if start !in s.distances {
      return None, walk, landing;
    }
    var indices, nodes, cursor := FollowLabels(inst, start, s, rank);
    walk, landing := indices, cursor;
    CostIsSum(inst, start, indices, cursor);
    ReadingIs(inst, s, start, indices, cursor);
    if cursor in s.partials {
      PartialEdge(inst, s, cursor);
      var route := PartialEnd(inst, s, start, indices, nodes, cursor);
      if route.None? {
        return None, walk, landing;
      }
      result := Some((route.value, s.targets[cursor]));
    } else {
      WholeAtZero(inst, s, rank, cursor);
      result := Some((RouteFromParts(inst.g, indices, EdgeLengths(inst.g, indices), s.distances[start], nodes),
        s.targets[cursor]));
    }
  }

  /** Takes the route on along the partial target's edge. */
  method PartialEnd(inst: Instance, s: Search, start: NodeId, indices: seq<EdgeId>, nodes: seq<Stop>, cursor: NodeId)
    returns (route: Option<Route>)
    requires InGraph(inst.g, indices) && nodes == NodesAlong(inst.g, start, indices) && start in s.distances
    requires cursor in s.partials && 0 <= s.partials[cursor].edge < |inst.g.edges| && 0.0 <= s.partials[cursor].fraction
    requires s.distances[start] == Sum(EdgeLengths(inst.g, indices))
               + s.partials[cursor].fraction * inst.g.edges[s.partials[cursor].edge].length
    ensures route.None? <==> Blocked(inst, s, cursor)
    ensures route.Some? ==>
      ReadsBack(inst, s, start, indices, cursor, route.value) && route.value.length == s.distances[start]
    ensures Reads(inst, s, start, indices, cursor) ==>
      RouteAlong(inst, s, start, indices, cursor) == if route.None? then None
        else Some((route.value, s.targets[cursor]))
  {
    var partial := s.partials[cursor];
    var tail := StretchBetween(inst.g, partial.edge, 0.0, partial.fraction);
    var first := RouteFromParts(inst.g, indices, EdgeLengths(inst.g, indices), s.distances[start] - tail, nodes);
    var suffix := PartialEdgeRoute(inst.g, partial.edge, 0.0, partial.fraction);
    if suffix.None? {
      return None;
    }
    assert [tail][1..] == [];
    SumConcat(EdgeLengths(inst.g, indices), [tail]);
    assert suffix.value.nodes[1..] == [OnEdge(partial.edge, partial.fraction)];
    route := Some(AppendRoutes(inst.g, first, suffix.value));
  }

  /** No join of no length at a whole node has a lesser key than the node's own target. */
  ghost predicate NoTieSteals(inst: Instance)
    requires inst.Valid()
  {
    forall n <- inst.wholes, walk, t ::
      !Displaced(inst, |inst.partials|, n) && Joins(inst, n, walk, t, 0.0) ==> t.key >= inst.wholes[n].key
  }

  /**
   Every frontier mark stands for its own node's target exactly when no join of no
   length steals one; then each route ends at the place its target describes.
   */
  lemma {:induction false} MarksHonestIffNoTieSteals(inst: Instance, s: Search, rank: map<NodeId, nat>)
    requires inst.Valid() && Found(inst, s, rank)
    ensures (forall n <- s.frontier :: AtSeed(inst, s, n)) <==> NoTieSteals(inst)
  {
    if forall n <- s.frontier :: AtSeed(inst, s, n) {
      forall n <- inst.wholes, walk, t | !Displaced(inst, |inst.partials|, n) && Joins(inst, n, walk, t, 0.0)
        ensures t.key >= inst.wholes[n].key
      {
        assert WholeMark(inst, s, n);
        assert AtSeed(inst, s, n) && LeastJoin(inst, n, s.distances[n], s.targets[n]);
      }
    }
    if NoTieSteals(inst) {
      forall n <- s.frontier ensures AtSeed(inst, s, n) {
        if n in s.partials {
          assert PartialMark(inst, s, n);
        } else {
          WholeAtZero(inst, s, rank, n);
          assert LeastJoin(inst, n, s.distances[n], s.targets[n]);
          var walk :| Joins(inst, n, walk, s.targets[n], 0.0);
          assert WholeMark(inst, s, n);
        }
      }
    }
  }

  /** Positive lengths leave no ties to steal with. */
  lemma {:induction false} PositiveLengthsSuffice(inst: Instance)
    requires inst.Valid() && forall e <- FrontierNet(inst).open :: inst.g.edges[e].length > 0.0
    ensures NoTieSteals(inst)
  {
    var net := FrontierNet(inst);
    forall n <- inst.wholes, walk, t | !Displaced(inst, |inst.partials|, n) && Joins(inst, n, walk, t, 0.0)
      ensures t.key >= inst.wholes[n].key
    {
      var m, d :| IsWalk(net, n, walk, m) && IsSeed(inst, m, d, t) && 0.0 == Cost(net, walk) + d;
      SeedNotNegative(inst, m, d, t);
      if walk != [] { CostNonNegative(net, walk[1..]); }
    }
  }

  lemma {:induction false} SeedNotNegative(inst: Instance, n: NodeId, d: real, t: Target)
    requires inst.Valid() && IsSeed(inst, n, d, t)
    ensures d >= 0.0
  {
    if i :| 0 <= i < |inst.partials| && inst.Seeds(i) && inst.SeedNode(i) == n && inst.SeedDistance(i) == d {
      assert inst.g.edges[inst.partials[i].edge] in inst.g.edges;
    }
  }

  /** Two whole nodes joined by an edge of no length, the far one with the lesser key. */
  function TiedFrontier(): Instance {
    var edge := Edge(0, 1, 0.0, false, false, false, None, None, []);
    var far := Target(3, Spine({1}), None, AtNode(1), 0.0);
    var near := Target(5, Spine({0}), None, AtNode(0), 0.0);
    Instance(Graph([edge]), map[0 := near, 1 := far], [], None)
  }

  /** The edge leads from node 0 to node 1's target for nothing, and there is no other to join. */
  lemma {:induction false} TiedJoins()
    requires TiedFrontier().Valid()
    ensures Joins(TiedFrontier(), 0, [0], TiedFrontier().wholes[1], 0.0)
    ensures forall n, walk, t, total :: Joins(TiedFrontier(), n, walk, t, total) ==>
      t == TiedFrontier().wholes[0] || t == TiedFrontier().wholes[1]
  {
    var inst := TiedFrontier();
    var net := FrontierNet(inst);
    assert net.arcs[0] == Arc(0, 1, 0.0) && 0 in net.open;
    assert IsWalk(net, 1, [], 1) && [0][1..] == [];
    assert IsWalk(net, 0, [0], 1) && Cost(net, [0]) == 0.0;
    assert IsSeed(inst, 1, 0.0, inst.wholes[1]);
  }

  /** There node 0 keeps its frontier mark but carries node 1's target: its route stops one node short. */
  lemma {:induction false} ZeroLengthEdgeStealsTarget(s: Search, rank: map<NodeId, nat>)
    requires TiedFrontier().Valid() && Found(TiedFrontier(), s, rank)
    ensures 0 in s.frontier && s.targets[0] == TiedFrontier().wholes[1] && s.targets[0].junction == AtNode(1)
    ensures Lands(TiedFrontier(), s, 0, [], 0)
  {
    hide Joins, Traceable;
    var inst := TiedFrontier();
    var net := FrontierNet(inst);
    assert !Displaced(inst, 0, 0) && WholeMark(inst, s, 0);
    TiedJoins();
    assert LeastJoin(inst, 0, s.distances[0], s.targets[0]);
    assert IsWalk(net, 0, [], 0) && Cost(net, []) == 0.0;
  }
}

/** Townward candidates: where the direct route to a town first meets the frontier. */
module Townward {
  import opened Options
  import opened Networks
  import opened RoadGraph
  import opened RouteTurns
  import opened RouteSearch
  import opened Frontier
  import opened FrontierRoutes
  import opened Access
  import opened Journey
  import opened AccessFrontier
  import opened AttachmentRoutes
  import opened NewLinks

  /** A route of whole edges from an attachment, naming the nodes it passes. */
  ghost predicate SetsOut(g: Graph, a: Attachment, route: Route) {
    && route.length == Sum(route.lengths) && |route.lengths| == |route.edges| && OnGraph(g, route.edges)
    && |route.nodes| == |route.edges| + 1
    && (route.nodes[0] == if a.node.Some? then AtNode(a.node.value) else AttachedTo(a.edge))
    && (forall i | 0 <= i < |route.edges| :: route.nodes[i + 1] == AtNode(g.edges[route.edges[i]].to))
    && (a.node.None? ==> route.edges != [])
    && (route.edges != [] ==>
          && (a.node.Some? ==> g.edges[route.edges[0]].from == a.node.value)
          && 0.0 <= PathStart(g, a, route.edges[0]) <= 1.0
          && Runs(g, g.edges[route.edges[0]].from, route.edges, route.lengths, PathStart(g, a, route.edges[0]), 1.0))
  }

  lemma {:induction false} RouteSetsOut(g: Graph, a: Attachment, start: NodeId, end: NodeId, route: Route)
    requires g.Valid() && a.node == Some(start) && IsRoute(g, RoleNet(g, Direct, true), start, end, route)
    ensures SetsOut(g, a, route)
  {
    WalkRuns(g, RoleNet(g, Direct, true), start, route.edges, end);
  }

  lemma {:induction false} SeedSetsOut(g: Graph, a: Attachment, seed: Seed, end: NodeId, route: Route)
    requires g.Valid() && a.node.None? && SoundSeed(g, a, seed)
      && IsRoute(g, RoleNet(g, Direct, true), seed.end, end, route)
    ensures SetsOut(g, a, PrependSeed(g, a, seed, route))
  {
    WalkRuns(g, RoleNet(g, Direct, true), seed.end, route.edges, end);
    PrependRuns(g, a, seed, route, 1.0);
    PrependNodes(g, a, seed, route);
  }

  lemma {:induction false} PrependNodes(g: Graph, a: Attachment, seed: Seed, route: Route)
    requires 0 <= seed.edge < |g.edges| && seed.end == g.edges[seed.edge].to && |route.edges| == |route.lengths|
    requires InGraph(g, route.edges) && route.nodes == NodesAlong(g, seed.end, route.edges)
    ensures var combined := PrependSeed(g, a, seed, route);
      && |combined.nodes| == |combined.edges| + 1 && combined.nodes[0] == AttachedTo(a.edge)
        && OnGraph(g, combined.edges)
      && forall i | 0 <= i < |combined.edges| :: combined.nodes[i + 1] == AtNode(g.edges[combined.edges[i]].to)
  {
    var combined := PrependSeed(g, a, seed, route);
    forall i | 0 <= i < |combined.edges|
      ensures 0 <= combined.edges[i] < |g.edges| && combined.nodes[i + 1] == AtNode(g.edges[combined.edges[i]].to)
    {
      if i > 0 {
        assert combined.edges[i] == route.edges[i - 1] && route.edges[i - 1] in route.edges;
        assert combined.nodes[i + 1] == route.nodes[1..][i - 1] == route.nodes[i];
      }
    }
  }

  /** A direct route costs what it measures. */
  lemma {:induction false} DirectCost(g: Graph, from: NodeId, walk: seq<EdgeId>, to: NodeId)
    requires g.Valid() && IsWalk(RoleNet(g, Direct, true), from, walk, to) && InGraph(g, walk)
    ensures Cost(RoleNet(g, Direct, true), walk) == Sum(EdgeLengths(g, walk))
    decreases |walk|
  {
    if walk != [] {
      assert forall e <- walk[1..] :: e in walk;
      assert EdgeLengths(g, walk)[1..] == EdgeLengths(g, walk[1..]);
      DirectCost(g, g.edges[walk[0]].to, walk[1..], to);
    }
  }

  /** Among the first `k` ways of setting out, `best` is the length of a shortest way to the node. */
  ghost predicate ShortestOver(g: Graph, seeds: seq<Seed>, end: NodeId, k: nat, best: Option<Route>)
    requires g.Valid() && k <= |seeds|
  {
    && (forall i, d | 0 <= i < k && IsDistance(RoleNet(g, Direct, true), seeds[i].end, end, d) ::
          best.Some? && best.value.length <= seeds[i].length + d)
    && (best.Some? ==> exists i, d ::
      0 <= i < k && IsDistance(RoleNet(g, Direct, true), seeds[i].end, end, d)
      && best.value.length == seeds[i].length + d)
  }

  /** No cycleable route from the attachment to the node is shorter, and there is one whenever one exists. */
  ghost predicate ShortestWay(g: Graph, a: Attachment, end: NodeId, best: Option<Route>)
    requires g.Valid() && a.Valid(g)
  {
    if a.node.Some? then
      && (best.Some? <==> Reaches(RoleNet(g, Direct, true), a.node.value, end))
      && (best.Some? ==> IsDistance(RoleNet(g, Direct, true), a.node.value, end, best.value.length))
    else ShortestOver(g, AttachmentSeeds(g, a), end, |AttachmentSeeds(g, a)|, best)
  }

  /** The shortest cycleable route that sets out along a seed. */
  ghost function WayAlong(g: Graph, a: Attachment, seed: Seed, end: NodeId): Option<Route> {
    var route := RouteDue(Query(g, seed.end, end, Direct, true));
    if route.None? || |route.value.edges| != |route.value.lengths| then None
      else Some(PrependSeed(g, a, seed, route.value))
  }

  /** The way chosen among the first `k` seeds. */
  ghost function WayOver(g: Graph, a: Attachment, end: NodeId, k: nat): Option<Route>
    requires 0 <= a.edge < |g.edges| && k <= |AttachmentSeeds(g, a)|
  {
    if k == 0 then None
    else
      var (best, choice) := (WayOver(g, a, end, k - 1), WayAlong(g, a, AttachmentSeeds(g, a)[k - 1], end));
      if choice.Some? && (best.None? || choice.value.length < best.value.length) then choice else best
  }

  /** The route from an attachment to a node follows from the graph. */
  ghost function WayDue(g: Graph, a: Attachment, end: NodeId): Option<Route>
    requires 0 <= a.edge < |g.edges|
  {
    if a.node.Some? then RouteDue(Query(g, a.node.value, end, Direct, true))
      else WayOver(g, a, end, |AttachmentSeeds(g, a)|)
  }

  /** The shortest cycleable route from an attachment to a node, along its best seed. */
  method CyclingRouteFromAttachment(g: Graph, a: Attachment, end: NodeId) returns (best: Option<Route>)
    requires g.Valid() && a.Valid(g)
    ensures best.Some? ==> SetsOut(g, a, best.value)
    ensures ShortestWay(g, a, end, best)
    ensures best == WayDue(g, a, end)
  {
    hide RouteDue, WayAlong, AttachmentSeeds, Runs, SetsOut, IsDistance;
    if a.node.Some? {
      best := RouteInternal(g, a.node.value, end, Direct, true);
      if best.Some? {
        RouteSetsOut(g, a, a.node.value, end, best.value);
        DirectCost(g, a.node.value, best.value.edges, end);
      }
      return;
    }
    best := None;
    var seeds := AttachmentSeeds(g, a);
    for i := 0 to |seeds|
      invariant best.Some? ==> SetsOut(g, a, best.value)
      invariant ShortestOver(g, seeds, end, i, best)
      invariant best == WayOver(g, a, end, i)
    {
      var choice := RouteAlongSeed(g, a, i, end);
      if choice.Some? && (best.None? || choice.value.length < best.value.length) {
        best := choice;
      }
    }
  }

  /** The shortest route that sets out along seed `i`. */
  method RouteAlongSeed(g: Graph, a: Attachment, i: nat, end: NodeId) returns (choice: Option<Route>)
    requires g.Valid() && a.Valid(g) && a.node.None? && i < |AttachmentSeeds(g, a)|
    ensures choice.Some? ==> SetsOut(g, a, choice.value)
    ensures var seed := AttachmentSeeds(g, a)[i];
      && (choice.Some? ==> IsDistance(RoleNet(g, Direct, true), seed.end, end, choice.value.length - seed.length))
      && (forall d :: IsDistance(RoleNet(g, Direct, true), seed.end, end, d) ==>
        choice.Some? && choice.value.length == seed.length + d)
      && choice == WayAlong(g, a, seed, end)
  {
    hide RouteDue;
    var seed := AttachmentSeeds(g, a)[i];
    var route := RouteInternal(g, seed.end, end, Direct, true);
    if route.None? {
      return None;
    }
    SeedSound(g, a, i);
    SeedSetsOut(g, a, seed, end, route.value);
    DirectCost(g, seed.end, route.value.edges, end);
    PrependLength(g, a, seed, route.value);
    choice := Some(PrependSeed(g, a, seed, route.value));
  }

  lemma {:induction false} PrependLength(g: Graph, a: Attachment, seed: Seed, route: Route)
    requires |route.edges| == |route.lengths| && route.length == Sum(route.lengths)
    ensures PrependSeed(g, a, seed, route).length == seed.length + route.length
  {
    assert ([seed.length] + route.lengths)[1..] == route.lengths;
  }

  function PrefixRoute(g: Graph, route: Route, count: int): Route
    requires 0 <= count <= |route.edges| == |route.lengths| && count < |route.nodes|
  {
    RouteFromParts(g, route.edges[..count], route.lengths[..count], Sum(route.lengths[..count]),
      route.nodes[..count + 1])
  }

  /** Cut where it passes a frontier node, the route ends at that node's junction. */
  lemma {:induction false} PrefixPlans(g: Graph, a: Attachment, route: Route, i: int, n: NodeId)
    requires SetsOut(g, a, route) && 0 <= i < |route.nodes| && route.nodes[i] == AtNode(n)
    ensures Plans(g, a, PrefixRoute(g, route, i), AtNode(n))
  {
    var cut := PrefixRoute(g, route, i);
    if i > 0 {
      assert cut.edges[0] == route.edges[0] && cut.edges[i - 1] == route.edges[i - 1];
      assert RunsTo(g, a, cut, 1.0) && EndsThere(g, a, cut.edges, 1.0, AtNode(n));
    }
  }

  /** The route up to edge `i`, and along it from where it is entered to fraction `f`. */
  function CutOnEdge(g: Graph, a: Attachment, route: Route, i: int, start: real, f: real): Option<Route>
    requires 0 <= i < |route.edges| == |route.lengths| && |route.nodes| == |route.edges| + 1
  {
    var last := PartialEdgeRoute(g, route.edges[i], start, f);
    if last.None? then None else Some(CombineRoutes(PrefixRoute(g, route, i), last.value))
  }

  lemma {:induction false} CutRuns(g: Graph, a: Attachment, route: Route, i: int, f: real)
    requires SetsOut(g, a, route) && 0 <= i < |route.edges| && f <= 1.0
    requires (if i == 0 then PathStart(g, a, route.edges[0]) else 0.0) <= f
    ensures var cut := CutOnEdge(g, a, route, i, if i == 0 then PathStart(g, a, route.edges[0]) else 0.0, f);
      && cut.Some? && cut.value.edges == route.edges[..i] + [route.edges[i]] && OnGraph(g, cut.value.edges)
      && |cut.value.lengths| == |cut.value.edges| && cut.value.length == Sum(cut.value.lengths)
        && RunsTo(g, a, cut.value, f)
  {
    hide NormalizeEdgeFraction;
    var start := if i == 0 then PathStart(g, a, route.edges[0]) else 0.0;
    var piece := StretchBetween(g, route.edges[i], start, f);
    var cut := CutOnEdge(g, a, route, i, start, f).value;
    assert cut.edges == route.edges[..i] + [route.edges[i]] && cut.lengths == route.lengths[..i] + [piece];
    SumConcat(route.lengths[..i], [piece]);
    SumOne(piece);
    assert cut.edges[0] == route.edges[0];
  }

  /** Cut where it meets a partial target, on that edge or on its twin, the route ends at the target's junction. */
  lemma {:induction false} CutPlans(g: Graph, a: Attachment, route: Route, i: int, e: EdgeId, fraction: real, f: real)
    requires SetsOut(g, a, route) && 0 <= i < |route.edges| && 0.0 <= fraction <= 1.0
    requires NormalizeEdgeFraction(g, e, fraction, route.edges[i]) == Some(f)
    requires (if i == 0 then PathStart(g, a, route.edges[0]) else 0.0) <= f
    ensures var cut := CutOnEdge(g, a, route, i, if i == 0 then PathStart(g, a, route.edges[0]) else 0.0, f);
      cut.Some? && Plans(g, a, cut.value, OnEdge(e, fraction))
  {
    hide CutOnEdge, Runs, StretchBetween;
    CutRuns(g, a, route, i, f);
  }

  /** Where along path edge `i` of the route the attachment lies; none if it cannot be placed there. */
  function StartOn(g: Graph, a: Attachment, route: Route, i: int): Option<real>
    requires 0 <= i < |route.edges|
  {
    if i == 0 && a.node.None? then NormalizeEdgeFraction(g, a.edge, a.fraction, route.edges[i]) else Some(0.0)
  }

  /** The route up to where it first meets the partial target's point ahead of its own start, from edge `i` on. */
  function PartialCut(g: Graph, a: Attachment, route: Route, partial: EdgeTarget, i: nat): Option<Route>
    requires i <= |route.edges| && |route.edges| == |route.lengths| && |route.nodes| == |route.edges| + 1
    decreases |route.edges| - i
  {
    if i == |route.edges| then None
    else
      var f := NormalizeEdgeFraction(g, partial.edge, partial.fraction, route.edges[i]);
      var start := StartOn(g, a, route, i);
      if f.None? then PartialCut(g, a, route, partial, i + 1)
      else if start.None? then None
      else if f.value < start.value then PartialCut(g, a, route, partial, i + 1)
      else CutOnEdge(g, a, route, i, start.value, f.value)
  }

  method RouteToPartial(g: Graph, a: Attachment, route: Route, partial: EdgeTarget) returns (cut: Option<Route>)
    requires SetsOut(g, a, route) && OnCycleableEdge(g, partial)
    ensures cut == PartialCut(g, a, route, partial, 0)
    ensures cut.Some? ==> Plans(g, a, cut.value, partial.target.junction)
  {
    for i := 0 to |route.edges|
      invariant PartialCut(g, a, route, partial, i) == PartialCut(g, a, route, partial, 0)
    {
      var f := NormalizeEdgeFraction(g, partial.edge, partial.fraction, route.edges[i]);
      if f.Some? {
        var start := StartOn(g, a, route, i);
        if start.None? {
          return None;
        }
        if start.value <= f.value {
          CutPlans(g, a, route, i, partial.edge, partial.fraction, f.value);
          return CutOnEdge(g, a, route, i, start.value, f.value);
        }
      }
    }
    return None;
  }

  ghost predicate AllPlanned(ctx: Context, records: Records, a: Attachment, choice: Option<(Route, Target)>)
    requires Filed(ctx.g, records)
  {
    choice.Some? ==> Planned(ctx, records, a, choice.value.0, choice.value.1)
  }

  /** The cut at no frontier node the route passes is shorter than `best`, keys breaking ties. */
  ghost predicate NodesNotBefore(
      g: Graph, wholes: map<NodeId, Target>, route: Route, k: nat, best: Option<(Route, Target)>)
    requires |route.edges| == |route.lengths| && |route.nodes| == |route.edges| + 1 && k <= |route.nodes|
  {
    forall i | 0 <= i < k && route.nodes[i].AtNode? && route.nodes[i].node in wholes ::
      best.Some? && !Better(PrefixRoute(g, route, i).length, wholes[route.nodes[i].node].key, best.value.0.length,
        best.value.1.key)
  }

  ghost predicate PartialsNotBefore(
      g: Graph, a: Attachment, partials: seq<EdgeTarget>, route: Route, k: nat, best: Option<(Route, Target)>)
    requires |route.edges| == |route.lengths| && |route.nodes| == |route.edges| + 1 && k <= |partials|
  {
    forall i | 0 <= i < k && PartialCut(g, a, route, partials[i], 0).Some? ::
      best.Some? && !Better(PartialCut(g, a, route, partials[i], 0).value.length, partials[i].target.key,
        best.value.0.length, best.value.1.key)
  }

  /** The route cut at a frontier node it passes, or at a partial target it meets. */
  ghost predicate IsCrossing(
      g: Graph, a: Attachment, wholes: map<NodeId, Target>, partials: seq<EdgeTarget>, route: Route,
      cut: (Route, Target))
    requires |route.edges| == |route.lengths| && |route.nodes| == |route.edges| + 1
  {
    || (exists i :: 0 <= i < |route.nodes| && route.nodes[i].AtNode? && route.nodes[i].node in wholes
          && cut == (PrefixRoute(g, route, i), wholes[route.nodes[i].node]))
    || (exists i ::
      0 <= i < |partials| && PartialCut(g, a, route, partials[i], 0) == Some(cut.0) && cut.1 == partials[i].target)
  }

  /** The best cut at the first `k` places the route passes. */
  function NodeCut(g: Graph, wholes: map<NodeId, Target>, route: Route, k: nat): Option<(Route, Target)>
    requires |route.edges| == |route.lengths| && |route.nodes| == |route.edges| + 1 && k <= |route.nodes|
  {
    if k == 0 then None
    else
      var (best, stop) := (NodeCut(g, wholes, route, k - 1), route.nodes[k - 1]);
      if stop.AtNode? && stop.node in wholes then Choose(best,
        Some((PrefixRoute(g, route, k - 1), wholes[stop.node]))) else best
  }

  /** The best of these and the cuts at the first `k` partial targets. */
  function CutOver(
    g: Graph, a: Attachment, wholes: map<NodeId, Target>, partials: seq<EdgeTarget>, route: Route,
      k: nat): Option<(Route, Target)>
    requires |route.edges| == |route.lengths| && |route.nodes| == |route.edges| + 1 && k <= |partials|
  {
    if k == 0 then NodeCut(g, wholes, route, |route.nodes|)
    else
      var (best, cut) := (CutOver(g, a, wholes, partials, route, k - 1), PartialCut(g, a, route, partials[k - 1], 0));
      if cut.Some? then Choose(best, Some((cut.value, partials[k - 1].target))) else best
  }

  /** What the way to a town yields follows from the frontier and the attachment. */
  ghost function MeetingDue(
    ctx: Context, a: Attachment, wholes: map<NodeId, Target>, partials: seq<EdgeTarget>,
      town: NodeId): Option<(Route, Target)>
    requires 0 <= a.edge < |ctx.g.edges|
  {
    var way := WayDue(ctx.g, a, town);
    if way.None? then None
    else if a.node.None? && a.edge in ctx.spineEdges then Some(SpinePoint(ctx, a))
    else if |way.value.edges| == |way.value.lengths| && |way.value.nodes| == |way.value.edges| + 1 then
      CutOver(ctx.g, a, wholes, partials, way.value, |partials|)
    else None
  }

  /** The frontier nodes and partial targets the route passes; the shortest cut wins. */
  method FirstCrossing(
    ctx: Context, ghost records: Records, wholes: map<NodeId, Target>, partials: seq<EdgeTarget>, a: Attachment,
      route: Route)
    returns (best: Option<(Route, Target)>)
    requires Filed(ctx.g, records) && SetsOut(ctx.g, a, route)
    requires forall n <- wholes :: TargetHolds(ctx.g, records, wholes[n]) && wholes[n].junction == AtNode(n)
    requires forall i | 0 <= i < |partials| ::
      TargetHolds(ctx.g, records, partials[i].target) && OnCycleableEdge(ctx.g, partials[i])
    ensures AllPlanned(ctx, records, a, best)
    ensures NodesNotBefore(ctx.g, wholes, route, |route.nodes|, best)
      && PartialsNotBefore(ctx.g, a, partials, route, |partials|, best)
    ensures best.Some? ==> IsCrossing(ctx.g, a, wholes, partials, route, best.value)
    ensures best == CutOver(ctx.g, a, wholes, partials, route, |partials|)
  {
    hide PartialCut, PrefixRoute, Plans, Remains, CutOnEdge, NodeCut;
    best := FirstNode(ctx, records, wholes, partials, a, route);
    for i := 0 to |partials|
      invariant AllPlanned(ctx, records, a, best) && NodesNotBefore(ctx.g, wholes, route, |route.nodes|, best)
      invariant PartialsNotBefore(ctx.g, a, partials, route, i, best)
        && best == CutOver(ctx.g, a, wholes, partials, route, i)
      invariant best.Some? ==> IsCrossing(ctx.g, a, wholes, partials, route, best.value)
    {
      var cut := RouteToPartial(ctx.g, a, route, partials[i]);
      if cut.Some? {
        ghost var before := best;
        best := Choose(best, Some((cut.value, partials[i].target)));
        NodesStayBehind(ctx.g, wholes, route, |route.nodes|, before, best);
        PartialsStayBehind(ctx.g, a, partials, route, i, before, best);
      }
    }
  }

  lemma NodesStayBehind(
    g: Graph, wholes: map<NodeId, Target>, route: Route, k: nat, before: Option<(Route, Target)>,
      best: Option<(Route, Target)>)
    requires |route.edges| == |route.lengths| && |route.nodes| == |route.edges| + 1 && k <= |route.nodes|
    requires NodesNotBefore(g, wholes, route, k, before) && best.Some?
    requires before.Some? ==> !Better(before.value.0.length, before.value.1.key, best.value.0.length, best.value.1.key)
    ensures NodesNotBefore(g, wholes, route, k, best)
  {
  }

  lemma PartialsStayBehind(
    g: Graph, a: Attachment, partials: seq<EdgeTarget>, route: Route, k: nat, before: Option<(Route, Target)>,
      best: Option<(Route, Target)>)
    requires |route.edges| == |route.lengths| && |route.nodes| == |route.edges| + 1 && k <= |partials|
    requires PartialsNotBefore(g, a, partials, route, k, before) && best.Some?
    requires before.Some? ==> !Better(before.value.0.length, before.value.1.key, best.value.0.length, best.value.1.key)
    ensures PartialsNotBefore(g, a, partials, route, k, best)
  {
  }

  method FirstNode(
    ctx: Context, ghost records: Records, wholes: map<NodeId, Target>, ghost partials: seq<EdgeTarget>,
      a: Attachment, route: Route)
    returns (best: Option<(Route, Target)>)
    requires Filed(ctx.g, records) && SetsOut(ctx.g, a, route)
    requires forall n <- wholes :: TargetHolds(ctx.g, records, wholes[n]) && wholes[n].junction == AtNode(n)
    ensures AllPlanned(ctx, records, a, best) && NodesNotBefore(ctx.g, wholes, route, |route.nodes|, best)
    ensures best.Some? ==> IsCrossing(ctx.g, a, wholes, partials, route, best.value)
    ensures best == NodeCut(ctx.g, wholes, route, |route.nodes|)
  {
    hide Plans, Remains, PrefixRoute;
    best := None;
    for i := 0 to |route.nodes|
      invariant AllPlanned(ctx, records, a, best) && NodesNotBefore(ctx.g, wholes, route, i, best)
      invariant best == NodeCut(ctx.g, wholes, route, i)
      invariant best.Some? ==> IsCrossing(ctx.g, a, wholes, partials, route, best.value)
    {
      if route.nodes[i].AtNode? && route.nodes[i].node in wholes {
        PrefixPlans(ctx.g, a, route, i, route.nodes[i].node);
        ghost var before := best;
        best := Choose(best, Some((PrefixRoute(ctx.g, route, i), wholes[route.nodes[i].node])));
        NodesStayBehind(ctx.g, wholes, route, i, before, best);
      }
    }
  }

  /** A shortest route to the town, cut where it first meets the frontier; no other cut of it is shorter. */
  ghost predicate FirstMeeting(
    g: Graph, a: Attachment, wholes: map<NodeId, Target>, partials: seq<EdgeTarget>, town: NodeId, route: Route,
      choice: Option<(Route, Target)>)
    requires g.Valid() && a.Valid(g)
  {
    && ShortestWay(g, a, town, Some(route)) && SetsOut(g, a, route)
    && NodesNotBefore(g, wholes, route, |route.nodes|, choice)
      && PartialsNotBefore(g, a, partials, route, |partials|, choice)
    && (choice.Some? ==> IsCrossing(g, a, wholes, partials, route, choice.value))
  }

  /** On an edge that carries spines the place itself joins them. */
  function SpinePoint(ctx: Context, a: Attachment): (Route, Target)
    requires a.edge in ctx.spineEdges
  {
    var spines := ctx.spineEdges[a.edge];
    (EmptyRoute(ctx.g), Target(ctx.rank(SpinePointKey(spines, a.edge, a.fraction)), Spine(spines), None,
      OnEdge(a.edge, a.fraction), 0.0))
  }

  /**
   What the way to a town yields: nothing if there is none, the place itself if it lies
   part-way along an edge with spines, else the first meeting with the frontier, if any.
   */
  ghost predicate Meets(
    ctx: Context, a: Attachment, wholes: map<NodeId, Target>, partials: seq<EdgeTarget>, town: NodeId,
      choice: Option<(Route, Target)>)
    requires ctx.Valid() && a.Valid(ctx.g)
  {
    || (choice.None? && ShortestWay(ctx.g, a, town, None))
    || (a.node.None? && a.edge in ctx.spineEdges && choice == Some(SpinePoint(ctx, a))
          && exists route :: ShortestWay(ctx.g, a, town, Some(route)))
    || (!(a.node.None? && a.edge in ctx.spineEdges)
          && exists route :: FirstMeeting(ctx.g, a, wholes, partials, town, route, choice))
  }

  /** The townward candidate for one town: its direct route, cut at the frontier. */
  method DestinationCandidate(
    ctx: Context, ghost records: Records, wholes: map<NodeId, Target>, partials: seq<EdgeTarget>, a: Attachment,
      town: NodeId)
    returns (choice: Option<(Route, Target)>)
    requires ctx.Valid() && Filed(ctx.g, records) && a.Valid(ctx.g)
    requires forall n <- wholes :: TargetHolds(ctx.g, records, wholes[n]) && wholes[n].junction == AtNode(n)
    requires forall i | 0 <= i < |partials| ::
      TargetHolds(ctx.g, records, partials[i].target) && OnCycleableEdge(ctx.g, partials[i])
    ensures AllPlanned(ctx, records, a, choice) && Meets(ctx, a, wholes, partials, town, choice)
    ensures choice == MeetingDue(ctx, a, wholes, partials, town)
  {
    hide WayDue, CutOver;
    var route := CyclingRouteFromAttachment(ctx.g, a, town);
    if route.None? {
      return None;
    }
    if a.node.None? && a.edge in ctx.spineEdges {
      return Some(SpinePoint(ctx, a));
    }
    choice := FirstCrossing(ctx, records, wholes, partials, a, route.value);
    assert FirstMeeting(ctx.g, a, wholes, partials, town, route.value, choice);
  }
}

/**
 New links: routes from where a community attaches to the frontier, and what the
 planner records of them.
 */
module AttachmentRoutes {
  import opened Options
  import opened Networks
  import opened RoadGraph
  import opened Frontier
  import opened FrontierRoutes
  import opened Access
  import opened AccessFrontier

  /** Where on the first path edge the route begins. */
  function PathStart(g: Graph, a: Attachment, first: EdgeId): real {
    if a.node.Some? then 0.0
    else
      var f := NormalizeEdgeFraction(g, a.edge, a.fraction, first);
      if f.Some? then f.value else a.fraction
  }

  /** Where on the last path edge the planner takes the route to end. */
  function PathEnd(junction: Stop, last: EdgeId): real {
    if junction.OnEdge? && junction.edge == last then junction.fraction else 1.0
  }

  /** A junction part-way along an edge lies on the route's last edge itself, not on its twin. */
  ghost predicate EndsOnJunction(edges: seq<EdgeId>, junction: Stop) {
    edges != [] && junction.OnEdge? ==> edges[|edges| - 1] == junction.edge
  }

  /** Cycleable edges head to tail from `from`, the first entered at `start`, the last left at `end`. */
  ghost predicate Runs(g: Graph, from: NodeId, edges: seq<EdgeId>, lengths: seq<real>, start: real, end: real) {
    && |edges| == |lengths| && OnGraph(g, edges)
    && (edges != [] ==> g.edges[edges[0]].from == from)
    && (forall i | 0 <= i < |edges| :: g.edges[edges[i]].CyclingAllowed())
    && (forall i | 0 <= i < |edges| - 1 :: g.edges[edges[i]].to == g.edges[edges[i + 1]].from)
    && (forall i | 0 <= i < |edges| :: lengths[i] ==
          StretchBetween(g, edges[i], if i == 0 then start else 0.0, if i + 1 == |edges| then end else 1.0))
  }

  /** Left at fraction `end` of its last edge, the route is at the junction. */
  ghost predicate EndsThere(g: Graph, a: Attachment, edges: seq<EdgeId>, end: real, junction: Stop)
    requires OnGraph(g, edges)
  {
    match junction
    case AtNode(n) => if edges == [] then a.node == Some(n) else g.edges[edges[|edges| - 1]].to == n && end == 1.0
    case OnEdge(e, f) =>
      if edges == [] then NormalizeEdgeFraction(g, a.edge, a.fraction, e) == Some(f)
      else NormalizeEdgeFraction(g, e, f, edges[|edges| - 1]) == Some(end)
    case AttachedTo(e) => edges == [] && e == a.edge
  }

  /** `route` runs from the attachment to the junction. */
  ghost predicate Plans(g: Graph, a: Attachment, route: Route, junction: Stop) {
    && route.length == Sum(route.lengths) && |route.lengths| == |route.edges| && OnGraph(g, route.edges)
    && (junction.OnEdge? ==> 0.0 <= junction.fraction <= 1.0)
    && (route.edges == [] ==> EndsThere(g, a, [], 1.0, junction))
    && (route.edges != [] ==>
          && (a.node.Some? ==> g.edges[route.edges[0]].from == a.node.value)
          && 0.0 <= PathStart(g, a, route.edges[0]) <= 1.0
          && exists end :: RunsTo(g, a, route, end) && EndsThere(g, a, route.edges, end, junction))
  }

  ghost predicate RunsTo(g: Graph, a: Attachment, route: Route, end: real)
    requires route.edges != [] && OnGraph(g, route.edges)
  {
    var start := PathStart(g, a, route.edges[0]);
    && Runs(g, g.edges[route.edges[0]].from, route.edges, route.lengths, start, end)
    && 0.0 <= end <= 1.0 && (|route.edges| == 1 ==> start <= end)
  }

  /** What the planner records of a route to a target. */
  function PlanLink(g: Graph, records: Records, order: nat, a: Attachment, route: Route, t: Target): Link {
    var parent := if t.community.Some? && t.community.value in records then records[t.community.value].link else None;
    Link(t.terminal,
         if t.community.Some? then Some(Parent(t.community.value, t.junction, t.remaining)) else None,
         order, if parent.Some? then parent.value.depth + 1 else 0,
         route.length, route.length + t.remaining, route.edges,
         if route.edges == [] then None else Some(PathStart(g, a, route.edges[0])),
         if route.edges == [] then None else Some(PathEnd(t.junction, route.edges[|route.edges| - 1])))
  }

  lemma {:induction false} TailIsSum(g: Graph, link: Link, from: NodeId, lengths: seq<real>, i: int)
    requires Runs(g, from, link.path, lengths, link.StartAt(0), link.EndAt(|link.path| - 1)) && 0 <= i <= |link.path|
    ensures Tail(g, link, i) == Sum(lengths[i..])
    decreases |link.path| - i
  {
    if i < |link.path| {
      TailIsSum(g, link, from, lengths, i + 1);
      assert lengths[i..][1..] == lengths[i + 1..];
    }
  }

  /** A planned record is sound, and its link measures its path whenever it ends on its junction. */
  lemma {:induction false} PlanIsSound(
      g: Graph, records: Records, order: nat, id: CommunityId, status: Status, a: Attachment, route: Route, t: Target)
    requires a.Valid(g) && Plans(g, a, route, t.junction)
    ensures var link := PlanLink(g, records, order, a, route, t);
      && PathSound(g, CommunityAccess(id, status, Some(a), Some(link)))
      && (EndsOnJunction(route.edges, t.junction) ==> link.newLink == Tail(g, link, 0))
  {
    var link := PlanLink(g, records, order, a, route, t);
    if route.edges != [] {
      var end :| RunsTo(g, a, route, end) && EndsThere(g, a, route.edges, end, t.junction);
      assert EndsOnJunction(route.edges, t.junction) ==> end == PathEnd(t.junction, route.edges[|route.edges| - 1]);
      if EndsOnJunction(route.edges, t.junction) {
        TailIsSum(g, link, g.edges[route.edges[0]].from, route.lengths, 0);
        assert route.lengths[0..] == route.lengths;
      }
      assert EndsOnJunction(route.edges, t.junction) || PathEnd(t.junction, route.edges[|route.edges| - 1]) == 1.0;
    }
  }

  /**
   Elsewhere the recorded end is the edge's own, so the link measures its path exactly when the
   route runs that far.
   */
  lemma {:induction false} TwinEndMeasures(
      g: Graph, records: Records, order: nat, a: Attachment, route: Route, t: Target, end: real)
    requires route.edges != [] && OnGraph(g, route.edges) && !EndsOnJunction(route.edges, t.junction)
    requires RunsTo(g, a, route, end) && route.length == Sum(route.lengths)
    requires g.edges[route.edges[|route.edges| - 1]].length > 0.0
    ensures var link := PlanLink(g, records, order, a, route, t);
      && OnGraph(g, link.path)
      && Tail(g, link, 0) == link.newLink + StretchBetween(g, route.edges[|route.edges| - 1], end, 1.0)
      && (link.newLink == Tail(g, link, 0) <==> end == 1.0)
  {
    var link := PlanLink(g, records, order, a, route, t);
    var last := |route.edges| - 1;
    var e := route.edges[last];
    var start := if last == 0 then PathStart(g, a, route.edges[0]) else 0.0;
    var full := StretchBetween(g, e, start, 1.0);
    assert Runs(g, g.edges[route.edges[0]].from, link.path, route.lengths[last := full], link.StartAt(0),
      link.EndAt(last));
    TailIsSum(g, link, g.edges[route.edges[0]].from, route.lengths[last := full], 0);
    assert route.lengths[last := full][0..] == route.lengths[last := full];
    SumWithLast(route.lengths, full);
    StretchesAdd(g, e, start, end, 1.0);
  }

  lemma StretchesAdd(g: Graph, e: EdgeId, start: real, mid: real, end: real)
    requires 0 <= e < |g.edges|
    ensures StretchBetween(g, e, start, end) == StretchBetween(g, e, start, mid) + StretchBetween(g, e, mid, end)
    ensures g.edges[e].length > 0.0 ==> (StretchBetween(g, e, mid, end) == 0.0 <==> mid == end)
  {
  }

  lemma {:induction false} SumWithLast(lengths: seq<real>, x: real)
    requires lengths != []
    ensures Sum(lengths[|lengths| - 1 := x]) == Sum(lengths) - lengths[|lengths| - 1] + x
  {
    var last := |lengths| - 1;
    assert lengths == lengths[..last] + [lengths[last]] && lengths[last := x] == lengths[..last] + [x];
    SumConcat(lengths[..last], [lengths[last]]);
    SumConcat(lengths[..last], [x]);
    SumOne(lengths[last]);
    SumOne(x);
  }

  lemma {:induction false} SumOne(x: real)
    ensures Sum([x]) == x
  {
    assert [x][1..] == [] && Sum([]) == 0.0;
  }

  /** One more edge in front, entered at `begin`. */
  lemma RunsCons(g: Graph, e: EdgeId, begin: real, rest: seq<EdgeId>, lengths: seq<real>, end: real)
    requires 0 <= e < |g.edges| && g.edges[e].CyclingAllowed()
    requires Runs(g, g.edges[e].to, rest, lengths, 0.0, end)
    ensures Runs(g, g.edges[e].from, [e] + rest, [StretchBetween(g, e, begin, 1.0)] + lengths, begin,
      if rest == [] then 1.0 else end)
  {
  }

  // ----- routes found by the frontier search -----

  /** The network walks the graph's own edges, and only those that may be cycled. */
  ghost predicate Cycles(g: Graph, net: Network) {
    && net.Valid() && |net.arcs| == |g.edges|
    && (forall e | 0 <= e < |g.edges| :: net.arcs[e].from == g.edges[e].from && net.arcs[e].to == g.edges[e].to)
    && (forall e <- net.open :: g.edges[e].CyclingAllowed())
  }

  lemma {:induction false} WalkRuns(g: Graph, net: Network, from: NodeId, walk: seq<EdgeId>, to: NodeId)
    requires Cycles(g, net) && IsWalk(net, from, walk, to) && InGraph(g, walk)
    ensures Runs(g, from, walk, EdgeLengths(g, walk), 0.0, 1.0)
    ensures if walk == [] then to == from else g.edges[walk[|walk| - 1]].to == to
    decreases |walk|
  {
    if walk != [] {
      var rest := walk[1..];
      assert forall e <- rest :: e in walk;
      WalkRuns(g, net, g.edges[walk[0]].to, rest, to);
      RunsCons(g, walk[0], 0.0, rest, EdgeLengths(g, rest), 1.0);
      assert walk == [walk[0]] + rest;
      assert EdgeLengths(g, walk) == [StretchBetween(g, walk[0], 0.0, 1.0)] + EdgeLengths(g, rest);
    }
  }

  /** The route runs from `n` to the junction, which lies on its last edge or at its end. */
  ghost predicate ReachesJunction(g: Graph, n: NodeId, route: Route, junction: Stop) {
    && route.length == Sum(route.lengths)
    && Runs(g, n, route.edges, route.lengths, 0.0, if route.edges == [] then 1.0
      else PathEnd(junction, route.edges[|route.edges| - 1]))
    && match junction
       case AtNode(m) => if route.edges == [] then m == n else g.edges[route.edges[|route.edges| - 1]].to == m
       case OnEdge(e, f) => route.edges != [] && route.edges[|route.edges| - 1] == e && 0.0 <= f <= 1.0
       case AttachedTo(_) => false
  }

  /** A route read back from the search reaches the junction of its target. */
  lemma {:induction false} ReadBackRuns(
      inst: Instance, s: Search, rank: map<NodeId, nat>, start: NodeId, walk: seq<EdgeId>, landing: NodeId,
      route: Route)
    requires inst.Valid() && Found(inst, s, rank) && NoTieSteals(inst)
    requires forall n <- inst.wholes :: inst.wholes[n].junction == AtNode(n)
    requires forall i | 0 <= i < |inst.partials| :: OnCycleableEdge(inst.g, inst.partials[i])
    requires Lands(inst, s, start, walk, landing) && ReadsBack(inst, s, start, walk, landing, route)
    ensures ReachesJunction(inst.g, start, route, s.targets[start].junction)
  {
    hide NoTieSteals, Labels, Traceable;
    WalkRuns(inst.g, FrontierNet(inst), start, walk, landing);
    MarksHonestIffNoTieSteals(inst, s, rank);
    assert AtSeed(inst, s, landing);
    if landing in s.partials {
      PartialEdge(inst, s, landing);
      assert PartialMark(inst, s, landing);
      RunsSnoc(inst.g, start, walk, EdgeLengths(inst.g, walk), s.partials[landing].edge, s.partials[landing].fraction);
    }
  }

  /** One more edge at the end, left part-way along. */
  lemma RunsSnoc(g: Graph, from: NodeId, edges: seq<EdgeId>, lengths: seq<real>, e: EdgeId, end: real)
    requires Runs(g, from, edges, lengths, 0.0, 1.0) && 0 <= e < |g.edges| && g.edges[e].CyclingAllowed()
    requires if edges == [] then g.edges[e].from == from else g.edges[edges[|edges| - 1]].to == g.edges[e].from
    ensures Runs(g, from, edges + [e], lengths + [StretchBetween(g, e, 0.0, end)], 0.0, end)
  {
  }

  /** One way of setting out from an attachment part-way along an edge. */
  datatype Seed = Seed(edge: EdgeId, end: NodeId, length: real)

  /** Edge `e` runs opposite to `edge` along the same line and may be cycled. */
  predicate IsReverse(g: Graph, edge: EdgeId, e: EdgeId)
    requires 0 <= edge < |g.edges|
  {
    && 0 <= e < |g.edges|
    && g.edges[e].from == g.edges[edge].to && g.edges[e].to == g.edges[edge].from
    && g.edges[e].CyclingAllowed() && NormalizeEdgeFraction(g, edge, 0.0, e).Some?
  }

  function SeedOn(g: Graph, a: Attachment, e: EdgeId): Seed
    requires 0 <= e < |g.edges|
  {
    Seed(e, g.edges[e].to, StretchBetween(g, e, PathStart(g, a, e), 1.0))
  }

  predicate SeedBefore(left: Seed, right: Seed) {
    || left.length < right.length
    || (left.length == right.length && (left.end < right.end || (left.end == right.end && left.edge <= right.edge)))
  }

  function InsertSeed(seeds: seq<Seed>, s: Seed): (r: seq<Seed>)
    ensures forall x :: x in r <==> x == s || x in seeds
  {
    if seeds == [] || SeedBefore(s, seeds[0]) then [s] + seeds else [seeds[0]] + InsertSeed(seeds[1..], s)
  }

  function SeedsOver(g: Graph, a: Attachment, edges: seq<EdgeId>): (r: seq<Seed>)
    requires OnGraph(g, edges)
    ensures forall x :: x in r <==> exists i :: 0 <= i < |edges| && x == SeedOn(g, a, edges[i])
  {
    if edges == [] then [] else InsertSeed(SeedsOver(g, a, edges[1..]), SeedOn(g, a, edges[0]))
  }

  /** Along the attached edge if it may be cycled, and along every reverse of it, nearest end first. */
  function AttachmentSeeds(g: Graph, a: Attachment): seq<Seed>
    requires 0 <= a.edge < |g.edges|
  {
    var forward := if g.edges[a.edge].CyclingAllowed() then [a.edge] else [];
    var reverse: seq<EdgeId> := Select((e: int) => IsReverse(g, a.edge, e), |g.edges|);
    SeedsOver(g, a, forward + reverse)
  }

  /** A seed goes from the attachment to the end of a cycleable edge. */
  ghost predicate SoundSeed(g: Graph, a: Attachment, seed: Seed) {
    && 0 <= seed.edge < |g.edges| && g.edges[seed.edge].CyclingAllowed() && seed.end == g.edges[seed.edge].to
    && seed.length == StretchBetween(g, seed.edge, PathStart(g, a, seed.edge), 1.0)
    && 0.0 <= PathStart(g, a, seed.edge) <= 1.0
  }

  lemma {:induction false} SeedSound(g: Graph, a: Attachment, i: int)
    requires a.Valid(g) && a.node.None? && 0 <= i < |AttachmentSeeds(g, a)|
    ensures SoundSeed(g, a, AttachmentSeeds(g, a)[i])
    ensures AttachmentSeeds(g, a)[i].edge == a.edge || IsReverse(g, a.edge, AttachmentSeeds(g, a)[i].edge)
  {
    var forward := if g.edges[a.edge].CyclingAllowed() then [a.edge] else [];
    var reverse: seq<EdgeId> := Select((e: int) => IsReverse(g, a.edge, e), |g.edges|);
    var edges := forward + reverse;
    var seed := AttachmentSeeds(g, a)[i];
    assert seed in SeedsOver(g, a, edges);
    var k :| 0 <= k < |edges| && seed == SeedOn(g, a, edges[k]);
    SeedOnSound(g, a, edges[k]);
  }

  lemma SeedOnSound(g: Graph, a: Attachment, e: EdgeId)
    requires a.Valid(g) && a.node.None? && 0 <= e < |g.edges|
    requires g.edges[e].CyclingAllowed() && NormalizeEdgeFraction(g, a.edge, 0.0, e).Some?
    ensures SoundSeed(g, a, SeedOn(g, a, e))
  {
  }

  /** Sets out along a seed and goes on with `route`. */
  function PrependSeed(g: Graph, a: Attachment, seed: Seed, route: Route): Route
    requires |route.edges| == |route.lengths|
  {
    RouteFromParts(g, [seed.edge] + route.edges, [seed.length] + route.lengths, seed.length + route.searchCost,
                   [AttachedTo(a.edge), AtNode(seed.end)] + (if route.nodes == [] then [] else route.nodes[1..]))
  }

  /** Setting out along a seed keeps a route that runs on from the seed's end running. */
  lemma {:induction false} PrependRuns(g: Graph, a: Attachment, seed: Seed, route: Route, end: real)
    requires 0 <= seed.edge < |g.edges| && g.edges[seed.edge].CyclingAllowed() && seed.end == g.edges[seed.edge].to
    requires seed.length == StretchBetween(g, seed.edge, PathStart(g, a, seed.edge), 1.0)
    requires Runs(g, seed.end, route.edges, route.lengths, 0.0, if route.edges == [] then 1.0 else end)
    requires route.length == Sum(route.lengths)
    ensures var combined := PrependSeed(g, a, seed, route);
      && Runs(g, g.edges[seed.edge].from, combined.edges, combined.lengths, PathStart(g, a, seed.edge),
        if route.edges == [] then 1.0 else end)
      && combined.length == seed.length + route.length
  {
    RunsCons(g, seed.edge, PathStart(g, a, seed.edge), route.edges, route.lengths, if route.edges == [] then 1.0
      else end);
    assert ([seed.length] + route.lengths)[1..] == route.lengths;
  }
}

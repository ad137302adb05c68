/**
 Choosing the new link of a community: the shortest way to the frontier, or a place
 on an accepted path it already lies beside.
 */
module NewLinks {
  import opened Options
  import opened Sequences
  import opened Networks
  import opened RoadGraph
  import opened Frontier
  import opened FrontierRoutes
  import opened Access
  import opened Journey
  import opened AccessFrontier
  import opened AttachmentRoutes

  /** The frontier of some records, searched. */
  ghost predicate Searched(ctx: Context, records: Records, inst: Frontier.Instance, s: Search, rank: map<NodeId, nat>) {
    && ctx.Valid() && Filed(ctx.g, records) && inst.Valid() && inst.g == ctx.g && Found(inst, s, rank)
    && (forall n <- inst.wholes :: TargetHolds(ctx.g, records, inst.wholes[n]) && inst.wholes[n].junction == AtNode(n))
    && (forall i | 0 <= i < |inst.partials| ::
          TargetHolds(ctx.g, records, inst.partials[i].target) && OnCycleableEdge(ctx.g, inst.partials[i]))
  }

  /** A route and target the planner can record: the route runs from the attachment, and the target holds. */
  ghost predicate Planned(ctx: Context, records: Records, a: Attachment, route: Route, t: Target)
    requires Filed(ctx.g, records)
  {
    Plans(ctx.g, a, route, t.junction) && Remains(ctx.g, records, t) && (route.edges != [] ==> NamesEnd(t))
  }

  /** From the attachment, target `t` is `total` metres away. */
  ghost predicate AttachmentJoins(inst: Frontier.Instance, a: Attachment, t: Target, total: real)
    requires inst.Valid() && 0 <= a.edge < |inst.g.edges|
  {
    if a.node.Some? then exists walk :: Joins(inst, a.node.value, walk, t, total)
    else exists i :: 0 <= i < |AttachmentSeeds(inst.g, a)| && SeedJoins(inst, AttachmentSeeds(inst.g, a)[i], t, total)
  }

  ghost predicate SeedJoins(inst: Frontier.Instance, seed: Seed, t: Target, total: real)
    requires inst.Valid()
  {
    exists walk, d :: Joins(inst, seed.end, walk, t, d) && total == seed.length + d
  }

  predicate SeqLess(left: seq<int>, right: seq<int>) {
    if right == [] then false
    else if left == [] then true
    else left[0] < right[0] || (left[0] == right[0] && SeqLess(left[1..], right[1..]))
  }

  /** Shorter first, then lesser key, then lesser edges. */
  predicate Preferred(route: Route, t: Target, than: Route, other: Target) {
    || route.length < than.length
    || (route.length == than.length && (t.key < other.key || (t.key == other.key && SeqLess(route.edges, than.edges))))
  }

  /** Every label carries a target of the frontier, so what it says remains is true. */
  lemma {:induction false} LabelHolds(
      ctx: Context, records: Records, inst: Frontier.Instance, s: Search, rank: map<NodeId, nat>, n: NodeId)
    requires Searched(ctx, records, inst, s, rank) && n in s.distances
    ensures TargetHolds(ctx.g, records, s.targets[n])
  {
    assert LeastJoin(inst, n, s.distances[n], s.targets[n]);
    var walk :| Joins(inst, n, walk, s.targets[n], s.distances[n]);
    var m, d :| IsWalk(FrontierNet(inst), n, walk, m) && IsSeed(inst, m, d, s.targets[n])
      && s.distances[n] == Cost(FrontierNet(inst), walk) + d;
  }

  lemma {:induction false} NoSteals(
      ctx: Context, records: Records, inst: Frontier.Instance, s: Search, rank: map<NodeId, nat>)
    requires Searched(ctx, records, inst, s, rank)
    ensures NoTieSteals(inst)
  {
    PositiveLengthsSuffice(inst);
  }

  /** None of the edges is the one the search excludes. */
  ghost predicate Avoids(inst: Frontier.Instance, edges: seq<EdgeId>) {
    forall i | 0 <= i < |edges| :: inst.excluded != Some(edges[i])
  }

  lemma {:induction false} WalkAvoids(inst: Frontier.Instance, from: NodeId, walk: seq<EdgeId>, to: NodeId)
    requires inst.Valid() && IsWalk(FrontierNet(inst), from, walk, to)
    ensures Avoids(inst, walk)
    decreases |walk|
  {
    if walk != [] {
      WalkAvoids(inst, inst.g.edges[walk[0]].to, walk[1..], to);
      assert forall i | 0 < i < |walk| :: walk[i] == walk[1..][i - 1];
    }
  }

  lemma {:induction false} ReadBackAvoids(
      inst: Frontier.Instance, s: Search, rank: map<NodeId, nat>, start: NodeId, walk: seq<EdgeId>, landing: NodeId,
      route: Route)
    requires inst.Valid() && Found(inst, s, rank) && Lands(inst, s, start, walk, landing)
      && ReadsBack(inst, s, start, walk, landing, route)
    ensures Avoids(inst, route.edges)
  {
    WalkAvoids(inst, start, walk, landing);
    if landing in s.partials { assert PartialMark(inst, s, landing); }
  }

  /** The route from one node, with all that the planner needs to know of it. */
  method NodeRoute(
      ctx: Context, ghost records: Records, inst: Frontier.Instance, n: NodeId, s: Search, ghost rank: map<NodeId, nat>)
    returns (result: Option<(Route, Target)>)
    requires Searched(ctx, records, inst, s, rank)
    ensures result.Some? <==> n in s.distances
    ensures result == ReadingOf(inst, s, n)
    ensures result.Some? ==>
      && result.value.1 == s.targets[n] && TargetHolds(ctx.g, records, result.value.1)
      && ReachesJunction(ctx.g, n, result.value.0, result.value.1.junction)
      && result.value.0.length == s.distances[n] && Avoids(inst, result.value.0.edges)
  {
    ghost var walk, landing;
    result, walk, landing := RouteFromFrontierNode(inst, n, s, rank);
    if n in s.distances {
      LabelHolds(ctx, records, inst, s, rank, n);
      NoSteals(ctx, records, inst, s, rank);
      NeverBlocked(ctx, records, inst, s, rank, landing);
      ReadBackRuns(inst, s, rank, n, walk, landing, result.value.0);
      ReadBackAvoids(inst, s, rank, n, walk, landing, result.value.0);
    }
  }

  lemma {:induction false} NeverBlocked(
      ctx: Context, records: Records, inst: Frontier.Instance, s: Search, rank: map<NodeId, nat>, landing: NodeId)
    requires Searched(ctx, records, inst, s, rank)
    ensures !Blocked(inst, s, landing)
  {
    if landing in s.partials { assert PartialMark(inst, s, landing); }
  }

  lemma {:induction false} NodeRoutePlans(g: Graph, a: Attachment, route: Route, junction: Stop)
    requires a.node.Some? && ReachesJunction(g, a.node.value, route, junction)
    ensures Plans(g, a, route, junction) && EndsOnJunction(route.edges, junction)
  {
    if route.edges != [] {
      var end := PathEnd(junction, route.edges[|route.edges| - 1]);
      assert RunsTo(g, a, route, end) && EndsThere(g, a, route.edges, end, junction);
    }
  }

  lemma {:induction false} SeedRoutePlans(g: Graph, a: Attachment, seed: Seed, route: Route, junction: Stop)
    requires a.node.None? && SoundSeed(g, a, seed) && ReachesJunction(g, seed.end, route, junction)
    ensures var combined := PrependSeed(g, a, seed, route);
      Plans(g, a, combined, junction) && combined.length == seed.length + route.length
        && EndsOnJunction(combined.edges, junction)
  {
    var combined := PrependSeed(g, a, seed, route);
    var end := if route.edges == [] then 1.0 else PathEnd(junction, route.edges[|route.edges| - 1]);
    PrependRuns(g, a, seed, route, end);
    if route.edges != [] { assert combined.edges[|combined.edges| - 1] == route.edges[|route.edges| - 1]; }
    assert RunsTo(g, a, combined, end) && EndsThere(g, a, combined.edges, end, junction);
  }

  /**
   The excluded edge is avoided except, possibly, where the route sets out: from part-way
   along an edge it may set out along an excluded reverse of that edge.
   */
  ghost predicate AvoidsBehindStart(inst: Frontier.Instance, a: Attachment, edges: seq<EdgeId>)
    requires 0 <= a.edge < |inst.g.edges|
  {
    forall i | 0 <= i < |edges| && inst.excluded == Some(edges[i]) ::
      i == 0 && a.node.None? && IsReverse(inst.g, a.edge, edges[0])
  }

  ghost predicate ChoiceAvoids(inst: Frontier.Instance, a: Attachment, choice: Option<(Route, Target)>)
    requires 0 <= a.edge < |inst.g.edges|
  {
    choice.Some? ==> AvoidsBehindStart(inst, a, choice.value.0.edges)
  }

  lemma {:induction false} PrependAvoids(inst: Frontier.Instance, a: Attachment, seed: Seed, route: Route)
    requires a.node.None? && |route.edges| == |route.lengths| && Avoids(inst, route.edges)
      && 0 <= a.edge < |inst.g.edges|
    requires inst.excluded == Some(seed.edge) ==> IsReverse(inst.g, a.edge, seed.edge)
    ensures AvoidsBehindStart(inst, a, PrependSeed(inst.g, a, seed, route).edges)
  {
    var edges := PrependSeed(inst.g, a, seed, route).edges;
    assert forall i | 0 < i < |edges| :: edges[i] == route.edges[i - 1];
  }

  /** Shorter first, then lesser key, then lesser first edge. */
  predicate Ahead(total: real, key: int, edge: EdgeId, total': real, key': int, edge': EdgeId) {
    Better(total, key, total', key') || (total == total' && key == key' && edge < edge')
  }

  /** Setting out on edge `e`, the frontier can be joined in a way that none setting out on any edge is ahead of. */
  ghost predicate Wins(inst: Frontier.Instance, a: Attachment, e: EdgeId)
    requires inst.Valid() && 0 <= a.edge < |inst.g.edges|
  {
    exists i, t, total :: WinsBy(inst, a, e, i, t, total)
  }

  ghost predicate WinsBy(inst: Frontier.Instance, a: Attachment, e: EdgeId, i: int, t: Target, total: real)
    requires inst.Valid() && 0 <= a.edge < |inst.g.edges|
  {
    var seeds := AttachmentSeeds(inst.g, a);
    && 0 <= i < |seeds| && seeds[i].edge == e && SeedJoins(inst, seeds[i], t, total)
    && forall j, t', total' | 0 <= j < |seeds| && SeedJoins(inst, seeds[j], t', total') ::
         !Ahead(total', t'.key, seeds[j].edge, total, t.key, e)
  }

  /** Whether the link sets out on `e`, said of the frontier and the attachment alone. */
  ghost predicate SetsOutOn(ctx: Context, inst: Frontier.Instance, a: Attachment, e: EdgeId)
    requires inst.Valid() && 0 <= a.edge < |inst.g.edges|
  {
    a.node.None? && inst.excluded != Some(a.edge) && a.edge !in ctx.spineEdges && Wins(inst, a, e)
  }

  /** What setting out along a seed and following the labels comes to. */
  ghost function AlongSeed(inst: Frontier.Instance, s: Search, a: Attachment, seed: Seed): Option<(Route, Target)> {
    var found := ReadingOf(inst, s, seed.end);
    if found.None? || |found.value.0.edges| != |found.value.0.lengths| then None
    else Some((PrependSeed(inst.g, a, seed, found.value.0), found.value.1))
  }

  /** The choice among the first `k` seeds. */
  ghost function ChosenOver(inst: Frontier.Instance, s: Search, a: Attachment, k: nat): Option<(Route, Target)>
    requires 0 <= a.edge < |inst.g.edges| && k <= |AttachmentSeeds(inst.g, a)|
  {
    if k == 0 then None
    else Choose(ChosenOver(inst, s, a, k - 1), AlongSeed(inst, s, a, AttachmentSeeds(inst.g, a)[k - 1]))
  }

  function SpineEdgeTarget(ctx: Context, edge: EdgeId): Target
    requires edge in ctx.spineEdges
  {
    var spines := ctx.spineEdges[edge];
    Target(ctx.rank(SpineEdgeKey(spines, edge)), Spine(spines), None, AttachedTo(edge), 0.0)
  }

  /** The link from an attachment, as it follows from the labels. */
  ghost function LinkVia(ctx: Context, inst: Frontier.Instance, s: Search, a: Attachment): Option<(Route, Target)>
    requires 0 <= a.edge < |inst.g.edges|
  {
    if inst.excluded == Some(a.edge) then None
    else if a.edge in ctx.spineEdges then Some((EmptyRoute(ctx.g), SpineEdgeTarget(ctx, a.edge)))
    else if a.node.Some? then ReadingOf(inst, s, a.node.value)
    else ChosenOver(inst, s, a, |AttachmentSeeds(inst.g, a)|)
  }

  /**
   The shortest way from an attachment to the frontier, ties going to the lesser key.
   There is one exactly when the frontier can be joined at all.
   */
  method RouteFromAttachment(
    ctx: Context, ghost records: Records, inst: Frontier.Instance, a: Attachment, s: Search, ghost rank: map<NodeId,
      nat>)
    returns (result: Option<(Route, Target)>)
    requires Searched(ctx, records, inst, s, rank) && a.Valid(ctx.g)
    ensures Recordable(ctx, records, a, result) && ChoiceAvoids(inst, a, result)
    ensures inst.excluded == Some(a.edge) ==> result.None?
    ensures inst.excluded != Some(a.edge) && a.edge in ctx.spineEdges ==>
      && result.Some? && result.value.0 == EmptyRoute(ctx.g)
      && result.value.1.community.None? && result.value.1.terminal == Spine(ctx.spineEdges[a.edge])
    ensures inst.excluded != Some(a.edge) && a.edge !in ctx.spineEdges ==>
      && (result.None? ==> forall t, total :: !AttachmentJoins(inst, a, t, total))
      && (result.Some? ==>
            && AttachmentJoins(inst, a, result.value.1, result.value.0.length)
            && forall t, total :: AttachmentJoins(inst, a, t, total) ==>
              !Better(total, t.key, result.value.0.length, result.value.1.key))
    ensures forall e | inst.excluded == Some(e) :: (result.Some? && e in result.value.0.edges) <==>
      SetsOutOn(ctx, inst, a, e)
    ensures result == LinkVia(ctx, inst, s, a)
  {
    hide ReadingOf, BestOf, Wins, GeometryAgrees, Found, ChosenOver, AttachmentSeeds, SeedJoins, IsReverse;
    if inst.excluded == Some(a.edge) {
      return None;
    }
    if a.edge in ctx.spineEdges {
      return Some((EmptyRoute(ctx.g), SpineEdgeTarget(ctx, a.edge)));
    }
    if a.node.Some? {
      result := NodeRoute(ctx, records, inst, a.node.value, s, rank);
      NodeChoice(inst, s, rank, a);
      if result.Some? { NodeRoutePlans(ctx.g, a, result.value.0, result.value.1.junction); }
      return;
    }
    result := BestSeedRoute(ctx, records, inst, a, s, rank);
    BestJoins(inst, a, result);
    forall e | inst.excluded == Some(e) ensures (result.Some? && e in result.value.0.edges) <==> Wins(inst, a, e) {
      FirstEdgeIff(inst, a, result, e);
    }
  }

  lemma {:induction false} BestJoins(inst: Frontier.Instance, a: Attachment, best: Option<(Route, Target)>)
    requires inst.Valid() && 0 <= a.edge < |inst.g.edges| && a.node.None?
      && BestOf(inst, a, |AttachmentSeeds(inst.g, a)|, best)
    ensures best.None? ==> forall t, total :: !AttachmentJoins(inst, a, t, total)
    ensures best.Some? ==>
      && best.value.0.edges != [] && AttachmentJoins(inst, a, best.value.1, best.value.0.length)
      && forall t, total :: AttachmentJoins(inst, a, t, total) ==>
        !Better(total, t.key, best.value.0.length, best.value.1.key)
  {
    hide SeedJoins;
    if best.Some? {
      var i :| 0 <= i < |AttachmentSeeds(inst.g, a)| && SetsOutAlong(inst, AttachmentSeeds(inst.g, a)[i], best.value);
    }
  }

  /** Which edge the best choice sets out on. */
  lemma {:induction false} FirstEdgeIff(
      inst: Frontier.Instance, a: Attachment, best: Option<(Route, Target)>, e: EdgeId)
    requires inst.Valid() && 0 <= a.edge < |inst.g.edges| && BestOf(inst, a, |AttachmentSeeds(inst.g, a)|, best)
    ensures best.Some? && best.value.0.edges != [] && best.value.0.edges[0] == e <==> Wins(inst, a, e)
  {
    var seeds := AttachmentSeeds(inst.g, a);
    if best.Some? {
      var i :| 0 <= i < |seeds| && SetsOutAlong(inst, seeds[i], best.value);
      if best.value.0.edges[0] == e { assert WinsBy(inst, a, e, i, best.value.1, best.value.0.length); }
    }
    if Wins(inst, a, e) {
      var i, t, total :| WinsBy(inst, a, e, i, t, total);
      assert best.Some? && !Ahead(total, t.key, e, best.value.0.length, best.value.1.key, best.value.0.edges[0]);
    }
  }

  /** At a node, the label is the choice. */
  lemma {:induction false} NodeChoice(inst: Frontier.Instance, s: Search, rank: map<NodeId, nat>, a: Attachment)
    requires inst.Valid() && Found(inst, s, rank) && a.node.Some? && 0 <= a.edge < |inst.g.edges|
    ensures a.node.value !in s.distances ==> forall t, total :: !AttachmentJoins(inst, a, t, total)
    ensures a.node.value in s.distances ==>
      && AttachmentJoins(inst, a, s.targets[a.node.value], s.distances[a.node.value])
      && forall t, total :: AttachmentJoins(inst, a, t, total) ==>
           !Better(total, t.key, s.distances[a.node.value], s.targets[a.node.value].key)
  {
    var n := a.node.value;
    if n in s.distances {
      assert LeastJoin(inst, n, s.distances[n], s.targets[n]);
    } else {
      forall t, total ensures !AttachmentJoins(inst, a, t, total) { assert !CanJoin(inst, n); }
    }
  }

  /** The route sets out along the seed and joins its target by its whole length. */
  ghost predicate SetsOutAlong(inst: Frontier.Instance, seed: Seed, choice: (Route, Target))
    requires inst.Valid()
  {
    choice.0.edges != [] && choice.0.edges[0] == seed.edge && SeedJoins(inst, seed, choice.1, choice.0.length)
  }

  /** Among the first `k` seeds, `best` is a least choice. */
  ghost predicate BestOf(inst: Frontier.Instance, a: Attachment, k: int, best: Option<(Route, Target)>)
    requires inst.Valid() && 0 <= a.edge < |inst.g.edges| && 0 <= k <= |AttachmentSeeds(inst.g, a)|
  {
    var seeds := AttachmentSeeds(inst.g, a);
    && (best.None? ==> forall i, t, total | 0 <= i < k :: !SeedJoins(inst, seeds[i], t, total))
    && (best.Some? ==>
          && (exists i :: 0 <= i < k && SetsOutAlong(inst, seeds[i], best.value))
          && forall i, t, total | 0 <= i < k && SeedJoins(inst, seeds[i], t, total) ::
               !Ahead(total, t.key, seeds[i].edge, best.value.0.length, best.value.1.key, best.value.0.edges[0]))
  }

  /** A seed's own least choice is the label of the node it leads to. */
  lemma {:induction false} SeedChoice(inst: Frontier.Instance, s: Search, rank: map<NodeId, nat>, seed: Seed)
    requires inst.Valid() && Found(inst, s, rank)
    ensures seed.end !in s.distances ==> forall t, total :: !SeedJoins(inst, seed, t, total)
    ensures seed.end in s.distances ==>
      && SeedJoins(inst, seed, s.targets[seed.end], seed.length + s.distances[seed.end])
      && forall t, total :: SeedJoins(inst, seed, t, total) ==>
           !Better(total, t.key, seed.length + s.distances[seed.end], s.targets[seed.end].key)
  {
    if seed.end in s.distances {
      assert LeastJoin(inst, seed.end, s.distances[seed.end], s.targets[seed.end]);
    } else {
      assert !CanJoin(inst, seed.end);
    }
  }

  /** A choice, if any, is one the planner can record, and ends on its junction's own edge. */
  ghost predicate Recordable(ctx: Context, records: Records, a: Attachment, choice: Option<(Route, Target)>)
    requires Filed(ctx.g, records)
  {
    choice.Some? ==>
      Planned(ctx, records, a, choice.value.0, choice.value.1)
      && EndsOnJunction(choice.value.0.edges, choice.value.1.junction)
  }

  function Choose(best: Option<(Route, Target)>, choice: Option<(Route, Target)>): Option<(Route, Target)> {
    if choice.None? then best
    else if best.None? || Preferred(choice.value.0, choice.value.1, best.value.0, best.value.1) then choice
    else best
  }

  method BestSeedRoute(
    ctx: Context, ghost records: Records, inst: Frontier.Instance, a: Attachment, s: Search, ghost rank: map<NodeId,
      nat>)
    returns (best: Option<(Route, Target)>)
    requires Searched(ctx, records, inst, s, rank) && a.Valid(ctx.g) && a.node.None? && inst.excluded != Some(a.edge)
    ensures Recordable(ctx, records, a, best) && ChoiceAvoids(inst, a, best)
    ensures BestOf(inst, a, |AttachmentSeeds(inst.g, a)|, best)
    ensures best == ChosenOver(inst, s, a, |AttachmentSeeds(inst.g, a)|)
  {
    hide AlongSeed, AttachmentSeeds, Planned, AvoidsBehindStart, SetsOutAlong, SeedJoins, LeastAlong, GeometryAgrees,
      Found,
         TargetHolds, OnCycleableEdge, Preferred;
    best := None;
    var seeds := AttachmentSeeds(ctx.g, a);
    for i := 0 to |seeds|
      invariant Recordable(ctx, records, a, best) && ChoiceAvoids(inst, a, best) && BestOf(inst, a, i, best)
      invariant best == ChosenOver(inst, s, a, i)
    {
      var choice := SeedRoute(ctx, records, inst, a, s, rank, i);
      BestGrows(inst, a, i, best, choice);
      best := Choose(best, choice);
    }
  }

  /** `choice` is the least that can be done setting out along `seed`. */
  ghost predicate LeastAlong(inst: Frontier.Instance, seed: Seed, choice: Option<(Route, Target)>)
    requires inst.Valid()
  {
    && (choice.None? ==> forall t, total :: !SeedJoins(inst, seed, t, total))
    && (choice.Some? ==>
          && SetsOutAlong(inst, seed, choice.value)
          && forall t, total :: SeedJoins(inst, seed, t, total) ==>
            !Better(total, t.key, choice.value.0.length, choice.value.1.key))
  }

  /** The route that sets out along seed `i`. */
  method SeedRoute(
    ctx: Context, ghost records: Records, inst: Frontier.Instance, a: Attachment, s: Search, ghost rank: map<NodeId,
      nat>, i: int)
    returns (choice: Option<(Route, Target)>)
    requires Searched(ctx, records, inst, s, rank) && a.Valid(ctx.g) && a.node.None?
      && 0 <= i < |AttachmentSeeds(ctx.g, a)|
    requires inst.excluded != Some(a.edge)
    ensures Recordable(ctx, records, a, choice) && ChoiceAvoids(inst, a, choice)
    ensures LeastAlong(inst, AttachmentSeeds(ctx.g, a)[i], choice)
    ensures choice == AlongSeed(inst, s, a, AttachmentSeeds(ctx.g, a)[i])
  {
    hide ReadingOf, GeometryAgrees, NormalizeEdgeFraction, TargetHolds, Found, ReachesJunction, Plans, Filed;
    var seed := AttachmentSeeds(ctx.g, a)[i];
    SeedSound(ctx.g, a, i);
    SeedChoice(inst, s, rank, seed);
    var found := NodeRoute(ctx, records, inst, seed.end, s, rank);
    if found.None? {
      return None;
    }
    SeedRoutePlans(ctx.g, a, seed, found.value.0, found.value.1.junction);
    PrependAvoids(inst, a, seed, found.value.0);
    choice := Some((PrependSeed(ctx.g, a, seed, found.value.0), found.value.1));
  }

  lemma {:induction false} BestGrows(
      inst: Frontier.Instance, a: Attachment, i: int, before: Option<(Route, Target)>, choice: Option<(Route, Target)>)
    requires inst.Valid() && 0 <= a.edge < |inst.g.edges| && 0 <= i < |AttachmentSeeds(inst.g, a)|
    requires BestOf(inst, a, i, before) && LeastAlong(inst, AttachmentSeeds(inst.g, a)[i], choice)
    ensures BestOf(inst, a, i + 1, Choose(before, choice))
  {
    hide SeedJoins, AttachmentSeeds;
    var seeds := AttachmentSeeds(inst.g, a);
    var best := Choose(before, choice);
    if best.Some? {
      if best == choice {
        assert SetsOutAlong(inst, seeds[i], best.value);
      } else {
        var j :| 0 <= j < i && SetsOutAlong(inst, seeds[j], best.value);
      }
      forall j, t, total | 0 <= j < i + 1 && SeedJoins(inst, seeds[j], t, total)
        ensures !Ahead(total, t.key, seeds[j].edge, best.value.0.length, best.value.1.key, best.value.0.edges[0])
      {
        if j < i {
          assert !Ahead(total, t.key, seeds[j].edge, before.value.0.length, before.value.1.key,
            before.value.0.edges[0]);
        }
      }
    }
  }

  /** Without an exclusion every walk that avoids the edge is still one, of the same cost. */
  lemma {:induction false} WalkWithout(inst: Frontier.Instance, e: EdgeId, from: NodeId, walk: seq<EdgeId>, to: NodeId)
    requires inst.Valid() && inst.excluded.None? && inst.(excluded := Some(e)).Valid()
    requires IsWalk(FrontierNet(inst.(excluded := Some(e))), from, walk, to)
    ensures IsWalk(FrontierNet(inst), from, walk, to)
    ensures Cost(FrontierNet(inst), walk) == Cost(FrontierNet(inst.(excluded := Some(e))), walk)
    decreases |walk|
  {
    if walk != [] { WalkWithout(inst, e, FrontierNet(inst).arcs[walk[0]].to, walk[1..], to); }
  }

  lemma {:induction false} JoinWithout(inst: Frontier.Instance, e: EdgeId, seed: Seed, t: Target, total: real)
    requires inst.Valid() && inst.excluded.None? && inst.(excluded := Some(e)).Valid()
    requires SeedJoins(inst.(excluded := Some(e)), seed, t, total)
    ensures SeedJoins(inst, seed, t, total)
  {
    hide IsSeed;
    var inst' := inst.(excluded := Some(e));
    var walk, d :| Joins(inst', seed.end, walk, t, d) && total == seed.length + d;
    var m, rest :| IsWalk(FrontierNet(inst'), seed.end, walk, m) && IsSeed(inst', m, rest, t)
      && d == Cost(FrontierNet(inst'), walk) + rest;
    WalkWithout(inst, e, seed.end, walk, m);
    SeedWithout(inst, e, m, rest, t);
    assert Joins(inst, seed.end, walk, t, d);
  }

  lemma {:induction false} SeedWithout(inst: Frontier.Instance, e: EdgeId, m: NodeId, rest: real, t: Target)
    requires inst.excluded.None? && IsSeed(inst.(excluded := Some(e)), m, rest, t)
    ensures IsSeed(inst, m, rest, t)
  {
    var inst' := inst.(excluded := Some(e));
    if i :| 0 <= i < |inst.partials| && inst'.Seeds(i) && inst'.SeedNode(i) == m && inst'.SeedDistance(i) == rest
            && inst.partials[i].target == t {
      assert inst.Seeds(i) && inst.SeedNode(i) == m && inst.SeedDistance(i) == rest;
    }
  }

  /**
   Where the shortest link sets out on an edge and goes on without it, the search that
   excludes the edge comes to a link of the same length and key that sets out on it again.
   */
  lemma {:induction false} DetourIsNone(
      inst: Frontier.Instance, a: Attachment, e: EdgeId, i: int, t: Target, total: real)
    requires inst.Valid() && inst.excluded.None? && inst.(excluded := Some(e)).Valid() && 0 <= a.edge < |inst.g.edges|
    requires WinsBy(inst, a, e, i, t, total)
      && SeedJoins(inst.(excluded := Some(e)), AttachmentSeeds(inst.g, a)[i], t, total)
    ensures WinsBy(inst.(excluded := Some(e)), a, e, i, t, total)
  {
    hide SeedJoins;
    var inst' := inst.(excluded := Some(e));
    var seeds := AttachmentSeeds(inst.g, a);
    forall j, t', total' | 0 <= j < |seeds| && SeedJoins(inst', seeds[j], t', total')
      ensures !Ahead(total', t'.key, seeds[j].edge, total, t.key, e)
    {
      JoinWithout(inst, e, seeds[j], t', total');
    }
  }

  /**
   Edge 0 is closed to cycling and edge 1 runs back along it.  From node 0, edge 2 leads round
   to a town entry near the start of edge 1, and edge 3 a long way to a spine.
   */
  function ReverseStart(excluded: Option<EdgeId>): Frontier.Instance {
    var closed := Edge(0, 1, 1.0, false, false, false, Some(Denied), None, [(0.0, 0.0), (1.0, 0.0)]);
    var back := Edge(1, 0, 1.0, false, false, false, None, None, [(1.0, 0.0), (0.0, 0.0)]);
    var around := Edge(0, 1, 1.0, false, false, false, None, None, [(0.0, 0.0), (0.0, 1.0), (1.0, 0.0)]);
    var away := Edge(0, 2, 100.0, false, false, false, None, None, [(0.0, 0.0), (0.0, -9.0)]);
    var spine := Target(0, Spine({1}), None, AtNode(2), 0.0);
    var entry := Target(5, UrbanEntry(1, 1, 0.2), None, OnEdge(1, 0.2), 0.0);
    Frontier.Instance(Graph([closed, back, around, away]), map[2 := spine], [EdgeTarget(1, 0.2, entry)], excluded)
  }

  const HALFWAY := Attachment(0, 0.5, None)

  lemma {:induction false} BackIsReverse(excluded: Option<EdgeId>)
    ensures var g := ReverseStart(excluded).g;
      && IsReverse(g, 0, 1) && !IsReverse(g, 0, 0) && !IsReverse(g, 0, 2) && !IsReverse(g, 0, 3)
      && NormalizeEdgeFraction(g, 0, 0.5, 1) == Some(0.5) && SeedOn(g, HALFWAY, 1) == Seed(1, 0, 0.5)
  {
    ReversedPair((0.0, 0.0), (1.0, 0.0));
    ReversedPair((1.0, 0.0), (0.0, 0.0));
  }

  /** From half-way along edge 0 the only way to set out is back along edge 1. */
  lemma {:induction false} OnlyBack(excluded: Option<EdgeId>)
    ensures ReverseStart(excluded).Valid() && HALFWAY.Valid(ReverseStart(excluded).g)
    ensures var seeds := AttachmentSeeds(ReverseStart(excluded).g, HALFWAY);
      Seed(1, 0, 0.5) in seeds && forall i | 0 <= i < |seeds| :: seeds[i] == Seed(1, 0, 0.5)
  {
    hide IsReverse, NormalizeEdgeFraction, SeedOn, SeedsOver;
    var g := ReverseStart(excluded).g;
    BackIsReverse(excluded);
    var reverse: seq<EdgeId> := Select((e: int) => IsReverse(g, 0, e), |g.edges|);
    assert [] + reverse == reverse && 1 in reverse;
    var seeds := AttachmentSeeds(g, HALFWAY);
    assert seeds == SeedsOver(g, HALFWAY, reverse);
    forall i | 0 <= i < |seeds| ensures seeds[i] == Seed(1, 0, 0.5) {
      assert seeds[i] in SeedsOver(g, HALFWAY, reverse);
    }
  }

  /** Without edge 1 every way on from node 0 takes the long edge. */
  lemma {:induction false} LongWay(n: NodeId, walk: seq<EdgeId>, m: NodeId, d: real, t: Target)
    requires ReverseStart(Some(1)).Valid() && n != 2
    requires IsWalk(FrontierNet(ReverseStart(Some(1))), n, walk, m) && IsSeed(ReverseStart(Some(1)), m, d, t)
    ensures Cost(FrontierNet(ReverseStart(Some(1))), walk) + d >= 100.0
    decreases |walk|
  {
    var net := FrontierNet(ReverseStart(Some(1)));
    assert m == 2 && d == 0.0;
    var next := net.arcs[walk[0]].to;
    if next == 2 {
      CostNonNegative(net, walk[1..]);
    } else {
      LongWay(next, walk[1..], m, d, t);
    }
  }

  /** Round to the entry is a short way, and without edge 1 the long one is left. */
  lemma {:induction false} BothWays()
    ensures ReverseStart(None).Valid() && ReverseStart(Some(1)).Valid()
    ensures exists t :: SeedJoins(ReverseStart(None), Seed(1, 0, 0.5), t, 1.7)
    ensures exists t :: SeedJoins(ReverseStart(Some(1)), Seed(1, 0, 0.5), t, 100.5)
  {
    var (inst, inst') := (ReverseStart(None), ReverseStart(Some(1)));
    var (net, net') := (FrontierNet(inst), FrontierNet(inst'));
    assert [2][1..] == [] && [3][1..] == [];
    assert IsWalk(net, 1, [], 1) && IsWalk(net, 0, [2], 1) && Cost(net, [2]) == 1.0;
    assert inst.Seeds(0) && inst.SeedNode(0) == 1 && inst.SeedDistance(0) == 0.2
      && IsSeed(inst, 1, 0.2, inst.partials[0].target);
    assert Joins(inst, 0, [2], inst.partials[0].target, 1.2);
    assert SeedJoins(inst, Seed(1, 0, 0.5), inst.partials[0].target, 1.7);
    assert IsWalk(net', 2, [], 2) && IsWalk(net', 0, [3], 2) && Cost(net', [3]) == 100.0;
    assert IsSeed(inst', 2, 0.0, inst'.wholes[2]);
    assert Joins(inst', 0, [3], inst'.wholes[2], 100.0);
    assert SeedJoins(inst', Seed(1, 0, 0.5), inst'.wholes[2], 100.5);
  }

  lemma {:induction false} LongLink(t: Target, total: real)
    requires ReverseStart(Some(1)).Valid() && SeedJoins(ReverseStart(Some(1)), Seed(1, 0, 0.5), t, total)
    ensures total >= 100.5
  {
    var inst := ReverseStart(Some(1));
    var walk, d :| Joins(inst, 0, walk, t, d) && total == 0.5 + d;
    var m, rest :| IsWalk(FrontierNet(inst), 0, walk, m) && IsSeed(inst, m, rest, t)
      && d == Cost(FrontierNet(inst), walk) + rest;
    LongWay(0, walk, m, rest, t);
  }

  /**
   There the detour around edge 1, though another and longer route than the shortest, sets
   out along edge 1 again: excluding an edge does not keep a route off it.
   */
  lemma {:induction false} ExcludedReverseIsTaken(shortest: Option<(Route, Target)>, detour: Option<(Route, Target)>)
    requires ReverseStart(None).Valid() && ReverseStart(Some(1)).Valid()
    requires BestOf(ReverseStart(None), HALFWAY, |AttachmentSeeds(ReverseStart(None).g, HALFWAY)|, shortest)
    requires BestOf(ReverseStart(Some(1)), HALFWAY, |AttachmentSeeds(ReverseStart(Some(1)).g, HALFWAY)|, detour)
    ensures shortest.Some? && shortest.value.0.edges != [] && shortest.value.0.edges[0] == 1
    ensures detour.Some? && detour.value.0.edges != [] && detour.value.0.edges[0] == 1
    ensures shortest.value.0.length < detour.value.0.length
  {
    hide SeedJoins, AttachmentSeeds;
    var seeds := AttachmentSeeds(ReverseStart(None).g, HALFWAY);
    OnlyBack(None);
    BothWays();
    var i :| 0 <= i < |seeds| && seeds[i] == Seed(1, 0, 0.5);
    var t :| SeedJoins(ReverseStart(None), seeds[i], t, 1.7);
    var t' :| SeedJoins(ReverseStart(Some(1)), seeds[i], t', 100.5);
    assert shortest.value.0.length <= 1.7;
    var j :| 0 <= j < |seeds| && SetsOutAlong(ReverseStart(Some(1)), seeds[j], detour.value);
    LongLink(detour.value.1, detour.value.0.length);
  }

  lemma {:induction false} ReversedPair(p: Point, q: Point)
    ensures Reversed([p, q]) == [q, p]
  {
    assert [p, q][1..] == [q] && [q][1..] == [];
    assert Reversed([q]) == [q];
  }
}

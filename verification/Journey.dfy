/**
 Re-walking an accepted journey: a record's own path, then each ancestor's path from
 the junction where it was joined.  The length the planner stored is the length walked.
 */
module Journey {
  import opened Options
  import opened RoadGraph
  import opened Frontier
  import opened FrontierRoutes
  import opened Access

  /** One route after another, lengths and costs adding up. */
  function CombineRoutes(first: Route, second: Route): Route {
    Route(first.edges + second.edges, first.lengths + second.lengths, first.length + second.length,
          first.searchCost + second.searchCost, first.aRoadLength + second.aRoadLength,
            first.ncnLength + second.ncnLength,
          if first.nodes == [] then second.nodes
            else first.nodes + (if second.nodes == [] then [] else second.nodes[1..]))
  }

  /** The path's route up to edge `k`, from edge `start` entered at `begin`; none if an edge cannot be travelled so. */
  function PathRouteUpto(g: Graph, link: Link, start: int, begin: real, k: int): Option<Route>
    requires 0 <= start <= k <= |link.path|
    decreases k
  {
    if k == start then Some(EmptyRoute(g))
    else
      var before := PathRouteUpto(g, link, start, begin, k - 1);
      var segment := PartialEdgeRoute(g, link.path[k - 1], if k - 1 == start then begin else 0.0, link.EndAt(k - 1));
      if before.None? || segment.None? then None else Some(CombineRoutes(before.value, segment.value))
  }

  /** The route along the path from edge `start` on. */
  function PathRouteFrom(g: Graph, link: Link, start: int, begin: real): Option<Route>
    requires 0 <= start
  {
    if start >= |link.path| then Some(EmptyRoute(g)) else PathRouteUpto(g, link, start, begin, |link.path|)
  }

  method AccessPathRouteFrom(g: Graph, link: Link, start: int, begin: real) returns (route: Option<Route>)
    requires 0 <= start
    ensures route == PathRouteFrom(g, link, start, begin)
  {
    hide PartialEdgeRoute, CombineRoutes, EmptyRoute;
    if start >= |link.path| {
      return Some(EmptyRoute(g));
    }
    var sofar := EmptyRoute(g);
    for k := start to |link.path|
      invariant PathRouteUpto(g, link, start, begin, k) == Some(sofar)
    {
      var segment := PartialEdgeRoute(g, link.path[k], if k == start then begin else 0.0, link.EndAt(k));
      if segment.None? {
        NoneStays(g, link, start, begin, k + 1, |link.path|);
        return None;
      }
      sofar := CombineRoutes(sofar, segment.value);
    }
    return Some(sofar);
  }

  lemma {:induction false} NoneStays(g: Graph, link: Link, start: int, begin: real, k: int, m: int)
    requires 0 <= start <= k <= m <= |link.path| && PathRouteUpto(g, link, start, begin, k).None?
    ensures PathRouteUpto(g, link, start, begin, m).None?
    decreases m
  {
    if k < m { NoneStays(g, link, start, begin, k, m - 1); }
  }

  /** A record's own route, entered where it attaches. */
  function AccessPathRoute(g: Graph, link: Link): Option<Route> {
    PathRouteFrom(g, link, 0, link.StartAt(0))
  }

  /** The parent's route from the child's junction on. */
  function PathSuffixFromJunction(g: Graph, parent: Link, junction: Stop): Option<Route>
    requires OnGraph(g, parent.path)
  {
    var place := Locate(g, parent, junction);
    if place.Some? && 0 <= place.value.0 then PathRouteFrom(g, parent, place.value.0, place.value.1) else None
  }

  /** The records all carry links over edges of the graph, each filed under its own id. */
  ghost predicate Filed(g: Graph, records: Records) {
    forall id <- records :: records[id].id == id && PathSound(g, records[id])
  }

  /**
   From the parent's junction to the root: the parent's suffix, then its own parent's; none on a
   missing or repeated ancestor.
   */
  function RootwardSuffix(
      g: Graph, records: Records, parent: CommunityId, junction: Stop, visiting: set<CommunityId>): Option<Route>
    requires Filed(g, records)
    decreases records.Keys - visiting
  {
    if parent in visiting || parent !in records then None
    else
      var link := records[parent].link.value;
      var own := PathSuffixFromJunction(g, link, junction);
      if own.None? || link.parent.None? then own
      else
        var rest := RootwardSuffix(g, records, link.parent.value.id, link.parent.value.junction, visiting + {parent});
        if rest.None? then None else Some(CombineRoutes(own.value, rest.value))
  }

  function AccessToRoot(g: Graph, records: Records, link: Link): Option<Route>
    requires Filed(g, records)
  {
    var own := AccessPathRoute(g, link);
    if own.None? || link.parent.None? then own
    else
      var suffix := RootwardSuffix(g, records, link.parent.value.id, link.parent.value.junction, {});
      if suffix.None? then None else Some(CombineRoutes(own.value, suffix.value))
  }

  /** Parents are accepted earlier, one level nearer the root, and share the terminal; orders are not repeated. */
  ghost predicate Forest(g: Graph, records: Records)
    requires Filed(g, records)
  {
    && (forall id <- records :: var link := records[id].link.value;
          if link.parent.None? then link.depth == 0
          else
            && link.parent.value.id in records
            && var above := records[link.parent.value.id].link.value;
               above.order < link.order && link.depth == above.depth + 1 && above.terminal == link.terminal)
    && (forall id <- records, other <- records ::
          records[id].link.value.order == records[other].link.value.order ==> id == other)
  }

  /** The new link is as long as the recorded path, and what is inherited remains from the junction. */
  ghost predicate Measured(g: Graph, records: Records, id: CommunityId)
    requires Filed(g, records) && id in records
  {
    var link := records[id].link.value;
    && link.newLink == Tail(g, link, 0)
    && (link.parent.None? ==> link.Inherited() == 0.0)
    && (link.parent.Some? ==>
          && link.parent.value.id in records
          && link.Inherited() == link.parent.value.remaining
          && JunctionHolds(g, records[link.parent.value.id].link.value, link.parent.value.junction,
            link.parent.value.remaining))
  }

  lemma {:induction false} SegmentLength(g: Graph, edge: EdgeId, begin: real, end: real)
    requires 0 <= edge < |g.edges| && g.edges[edge].CyclingAllowed() && begin <= end
    ensures var segment := PartialEdgeRoute(g, edge, begin, end);
      segment.Some? && segment.value.length == StretchBetween(g, edge, begin, end) && segment.value.edges == [edge]
  {
    var length := StretchBetween(g, edge, begin, end);
    assert [length][1..] == [] && Sum([]) == 0.0;
    assert Sum([length]) == length;
  }

  /** Walking a sound path from a place on it never fails and covers exactly what lies ahead. */
  lemma {:induction false} PathRouteLength(g: Graph, a: CommunityAccess, start: int, begin: real, k: int)
    requires PathSound(g, a) && 0 <= start < k <= |a.link.value.path| && 0.0 <= begin <= a.link.value.EndAt(start)
    ensures var link := a.link.value; var route := PathRouteUpto(g, link, start, begin, k);
      && route.Some? && route.value.edges == link.path[start..k]
      && route.value.length + Tail(g, link, k) == LengthFrom(g, link, (start, begin))
    decreases k
  {
    hide PartialEdgeRoute, StretchBetween;
    var link := a.link.value;
    SegmentLength(g, link.path[k - 1], if k - 1 == start then begin else 0.0, link.EndAt(k - 1));
    assert link.path[start..k] == link.path[start..k - 1] + [link.path[k - 1]];
    assert link.StartAt(k - 1) <= link.EndAt(k - 1);
    if k - 1 > start {
      PathRouteLength(g, a, start, begin, k - 1);
      assert Tail(g, link, k - 1) == Piece(g, link, k - 1) + Tail(g, link, k);
    } else {
      assert link.path[start..start] == [];
    }
  }

  lemma {:induction false} PathRouteFromLength(g: Graph, a: CommunityAccess, place: (int, real))
    requires PathSound(g, a) && 0 <= place.0
    requires place.0 < |a.link.value.path| ==> 0.0 <= place.1 <= a.link.value.EndAt(place.0)
    ensures var route := PathRouteFrom(g, a.link.value, place.0, place.1);
      route.Some? && route.value.length == LengthFrom(g, a.link.value, place)
  {
    if place.0 < |a.link.value.path| {
      PathRouteLength(g, a, place.0, place.1, |a.link.value.path|);
    }
  }

  /** From any junction that holds, the walk to the root succeeds and measures what the child recorded as remaining. */
  lemma {:induction false} RootwardLength(
      g: Graph, records: Records, parent: CommunityId, junction: Stop, remaining: real, visiting: set<CommunityId>)
    requires Filed(g, records) && Forest(g, records) && forall id <- records :: Measured(g, records, id)
    requires parent in records && JunctionHolds(g, records[parent].link.value, junction, remaining)
    requires forall id <- visiting :: id in records && records[parent].link.value.order < records[id].link.value.order
    ensures var route := RootwardSuffix(g, records, parent, junction, visiting);
      route.Some? && route.value.length == remaining
    decreases records[parent].link.value.order
  {
    var link := records[parent].link.value;
    PathRouteFromLength(g, records[parent], Locate(g, link, junction).value);
    assert Measured(g, records, parent);
    if link.parent.Some? {
      RootwardLength(g, records, link.parent.value.id, link.parent.value.junction, link.parent.value.remaining,
        visiting + {parent});
    }
  }

  /** Every stored full access length is the length of the journey walked to the root, and that walk never fails. */
  lemma {:induction false} StoredEqualsWalked(g: Graph, records: Records, id: CommunityId)
    requires Filed(g, records) && Forest(g, records) && forall id <- records :: Measured(g, records, id)
    requires id in records
    ensures var route := AccessToRoot(g, records, records[id].link.value);
      route.Some? && route.value.length == records[id].link.value.full
  {
    var link := records[id].link.value;
    assert Measured(g, records, id);
    PathRouteFromLength(g, records[id], (0, link.StartAt(0)));
    if link.parent.Some? {
      RootwardLength(g, records, link.parent.value.id, link.parent.value.junction, link.parent.value.remaining, {});
    }
  }

  /** The root of a record's chain of parents; none on a missing or repeated ancestor. */
  function RootAccess(records: Records, id: CommunityId, visiting: set<CommunityId>): Option<CommunityId>
    decreases records.Keys - visiting
  {
    if id in visiting || id !in records || records[id].link.None? then None
    else if records[id].link.value.parent.None? then Some(id)
    else RootAccess(records, records[id].link.value.parent.value.id, visiting + {id})
  }

  /** The chain of parents always reaches a root, as many steps up as the record is deep, with the record's terminal. */
  lemma {:induction false} RootReached(g: Graph, records: Records, id: CommunityId, visiting: set<CommunityId>)
    requires Filed(g, records) && Forest(g, records) && id in records
    requires forall other <- visiting ::
      other in records && records[id].link.value.order < records[other].link.value.order
    ensures var root := RootAccess(records, id, visiting);
      && root.Some? && root.value in records && records[root.value].link.Some?
        && records[root.value].link.value.parent.None?
      && records[root.value].link.value.depth == 0
      && records[root.value].link.value.terminal == records[id].link.value.terminal
    decreases records[id].link.value.order
  {
    var link := records[id].link.value;
    if link.parent.Some? {
      RootReached(g, records, link.parent.value.id, visiting + {id});
    }
  }
}

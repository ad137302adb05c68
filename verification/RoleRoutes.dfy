/**
 The candidates prepared for one urban connection: one route per role, equal paths
 merged under aliases.  A role that prefers some roads may only buy them at the
 exchange rate its weights set, so its route is never much longer than the direct
 one and never carries a smaller share of what it prefers.
 */
module RoleRoutes {
  import opened Options
  import opened Networks
  import opened RoadGraph
  import opened RouteSearch

  datatype Candidate = Candidate(
    role: Role, aliases: seq<Role>, length: real, searchCost: real,
    aRoadShare: real, ncnShare: real, path: seq<EdgeId>)
  {
    predicate Carries(r: Role) { r == role || r in aliases }
  }

  const ROUTE_ROLES: seq<Role> := [Direct, StrategicSpine, NcnInformed, LowTraffic]

  function Share(part: real, whole: real): real {
    if whole == 0.0 then 0.0 else part / whole
  }

  function CandidateFromRoute(role: Role, route: Route): Candidate {
    Candidate(role, [], route.length, route.searchCost,
              Share(route.aRoadLength, route.length), Share(route.ncnLength, route.length), route.edges)
  }

  /** What a role promises of its route against the direct one. */
  ghost predicate KeepsExchange(role: Role, direct: Route, route: Route) {
    && route.length >= direct.length
    && match role
       case Direct => route.length == direct.length
       case StrategicSpine =>
         && 1.25 * (route.aRoadLength - direct.aRoadLength) >= 1.6 * (route.length - direct.length)
         && 0.35 * route.length <= 1.6 * direct.length
         && Share(route.aRoadLength, route.length) >= Share(direct.aRoadLength, direct.length)
       case NcnInformed =>
         && 0.9 * (route.ncnLength - direct.ncnLength) >= 1.3 * (route.length - direct.length)
         && 0.4 * route.length <= 1.3 * direct.length
         && Share(route.ncnLength, route.length) >= Share(direct.ncnLength, direct.length)
       case LowTraffic => 0.75 * route.length <= 4.0 * direct.length
  }

  /** Each role's search cost, in terms of the lengths a route records. */
  ghost predicate CostReads(role: Role, cost: real, length: real, aRoad: real, ncn: real) {
    match role
    case Direct => cost == length
    case StrategicSpine => cost == 1.6 * length - 1.25 * aRoad
    case NcnInformed => cost == 1.3 * length - 0.9 * ncn
    case LowTraffic => 0.75 * length <= cost <= 4.0 * length
  }

  lemma {:induction false} CostOfEdges(g: Graph, role: Role, edges: seq<EdgeId>, cost: real, nodes: seq<Stop>)
    requires g.Valid() && InGraph(g, edges)
    ensures var r := RouteFromParts(g, edges, EdgeLengths(g, edges), cost, nodes);
      && CostReads(role, Cost(RoleNet(g, role, false), edges), r.length, r.aRoadLength, r.ncnLength)
      && 0.0 <= r.aRoadLength <= r.length && 0.0 <= r.ncnLength <= r.length
  {
    if edges != [] {
      assert edges[0] in edges && forall e <- edges[1..] :: e in edges;
      assert EdgeLengths(g, edges)[1..] == EdgeLengths(g, edges[1..]);
      CostOfEdges(g, role, edges[1..], cost, nodes);
      assert g.edges[edges[0]] in g.edges;
    }
  }

  lemma {:induction false} ShareGrows(part: real, whole: real, part': real, whole': real)
    requires 0.0 <= part <= whole <= whole' && part' - part >= whole' - whole && 0.0 <= part' <= whole'
    ensures whole == 0.0 ==> Share(part', whole') >= 0.0
    ensures Share(part', whole') >= Share(part, whole)
  {
    if whole != 0.0 {
      var d := whole' - whole;
      assert part' * whole >= (part + d) * whole == part * whole + d * whole;
      assert d * whole >= d * part;
      assert part' * whole >= part * whole';
      assert part' / whole' - part / whole == (part' * whole - part * whole') / (whole' * whole);
    }
  }

  /** Two optimal routes between the same ends stand in their role's exchange relation. */
  lemma {:induction false} OptimalKeepsExchange(
      g: Graph, role: Role, start: NodeId, end: NodeId, direct: Route, route: Route)
    requires g.Valid()
    requires IsRoute(g, RoleNet(g, Direct, false), start, end, direct)
    requires IsDistance(RoleNet(g, Direct, false), start, end, direct.searchCost)
    requires IsRoute(g, RoleNet(g, role, false), start, end, route)
    requires IsDistance(RoleNet(g, role, false), start, end, route.searchCost)
    ensures KeepsExchange(role, direct, route)
  {
    SameWalks(g, role, Direct, start, route.edges, end);
    SameWalks(g, Direct, role, start, direct.edges, end);
    CostOfEdges(g, Direct, direct.edges, direct.searchCost, direct.nodes);
    CostOfEdges(g, Direct, route.edges, route.searchCost, route.nodes);
    CostOfEdges(g, role, direct.edges, direct.searchCost, direct.nodes);
    CostOfEdges(g, role, route.edges, route.searchCost, route.nodes);
    match role
    case StrategicSpine => ShareGrows(direct.aRoadLength, direct.length, route.aRoadLength, route.length);
    case NcnInformed => ShareGrows(direct.ncnLength, direct.length, route.ncnLength, route.length);
    case _ =>
  }

  /** Roles weigh edges differently but walk the same ones. */
  lemma {:induction false} SameWalks(g: Graph, role: Role, other: Role, from: NodeId, walk: seq<EdgeId>, to: NodeId)
    requires g.Valid() && IsWalk(RoleNet(g, role, false), from, walk, to)
    ensures IsWalk(RoleNet(g, other, false), from, walk, to)
    decreases |walk|
  {
    if walk != [] { SameWalks(g, role, other, g.edges[walk[0]].to, walk[1..], to); }
  }

  lemma {:induction false} SameReach(g: Graph, role: Role, other: Role, from: NodeId, to: NodeId)
    requires g.Valid() && Reaches(RoleNet(g, role, false), from, to)
    ensures Reaches(RoleNet(g, other, false), from, to)
  {
    var walk :| IsWalk(RoleNet(g, role, false), from, walk, to);
    SameWalks(g, role, other, from, walk, to);
  }

  /** `c` shows `route`, an optimal route for `role`. */
  ghost predicate Shows(g: Graph, start: NodeId, end: NodeId, c: Candidate, role: Role, route: Route)
    requires g.Valid()
  {
    && IsRoute(g, RoleNet(g, role, false), start, end, route)
    && IsDistance(RoleNet(g, role, false), start, end, route.searchCost)
    && c.path == route.edges
    && c.length == route.length
    && c.aRoadShare == Share(route.aRoadLength, route.length)
    && c.ncnShare == Share(route.ncnLength, route.length)
  }

  ghost predicate Carried(g: Graph, start: NodeId, end: NodeId, list: seq<Candidate>, role: Role)
    requires g.Valid()
  {
    exists i, route :: 0 <= i < |list| && list[i].Carries(role) && Shows(g, start, end, list[i], role, route)
  }

  /**
   One candidate per distinct path, each carrying every role whose best route it is;
   the first is the direct route, and all keep their role's exchange against it.
   */
  method ConnectionCandidates(
      g: Graph, origin: NodeId, destination: NodeId, direct: Route) returns (list: seq<Candidate>)
    requires g.Valid()
    requires IsRoute(g, RoleNet(g, Direct, false), origin, destination, direct)
    requires IsDistance(RoleNet(g, Direct, false), origin, destination, direct.searchCost)
    ensures list != [] && list[0].path == direct.edges && list[0].role == Direct
    ensures forall i, j | 0 <= i < j < |list| :: list[i].path != list[j].path
    ensures forall role :: Carried(g, origin, destination, list, role)
    ensures forall i, role | 0 <= i < |list| && list[i].Carries(role) ::
      exists route :: Shows(g, origin, destination, list[i], role, route) && KeepsExchange(role, direct, route)
  {
    list := [];
    for r := 0 to |ROUTE_ROLES|
      invariant r > 0 ==> list != [] && list[0].path == direct.edges && list[0].role == Direct
      invariant r == 0 ==> list == []
      invariant forall i, j | 0 <= i < j < |list| :: list[i].path != list[j].path
      invariant forall k | 0 <= k < r :: Carried(g, origin, destination, list, ROUTE_ROLES[k])
      invariant forall i, role | 0 <= i < |list| && list[i].Carries(role) ::
        exists route :: Shows(g, origin, destination, list[i], role, route) && KeepsExchange(role, direct, route)
    {
      var role := ROUTE_ROLES[r];
      var found := Some(direct);
      if role != Direct {
        found := RouteInternal(g, origin, destination, role, false);
        assert Reaches(RoleNet(g, Direct, false), origin, destination);
        SameReach(g, Direct, role, origin, destination);
      }
      var route := found.value;
      OptimalKeepsExchange(g, role, origin, destination, direct, route);
      ghost var before := list;
      list := AddRole(g, origin, destination, direct, list, role, route);
      forall k | 0 <= k < r + 1 ensures Carried(g, origin, destination, list, ROUTE_ROLES[k]) {
        if k < r { assert Carried(g, origin, destination, before, ROUTE_ROLES[k]); }
      }
    }
    forall role ensures Carried(g, origin, destination, list, role) {
      match role
      case Direct => assert role == ROUTE_ROLES[0];
      case StrategicSpine => assert role == ROUTE_ROLES[1];
      case NcnInformed => assert role == ROUTE_ROLES[2];
      case LowTraffic => assert role == ROUTE_ROLES[3];
    }
  }

  /** Adds `route` as a candidate, or its role as an alias of the candidate with the same path. */
  method AddRole(
      g: Graph, start: NodeId, end: NodeId, ghost direct: Route, list: seq<Candidate>, role: Role, route: Route)
    returns (list': seq<Candidate>)
    requires g.Valid()
    requires IsRoute(g, RoleNet(g, role, false), start, end, route)
    requires IsDistance(RoleNet(g, role, false), start, end, route.searchCost)
    requires KeepsExchange(role, direct, route)
    requires forall i, j | 0 <= i < j < |list| :: list[i].path != list[j].path
    requires forall i, role | 0 <= i < |list| && list[i].Carries(role) ::
      exists route :: Shows(g, start, end, list[i], role, route) && KeepsExchange(role, direct, route)
    ensures list' != []
    ensures list == [] ==> list'[0].path == route.edges && list'[0].role == role
    ensures list != [] ==> list'[0].path == list[0].path && list'[0].role == list[0].role
    ensures forall i, j | 0 <= i < j < |list'| :: list'[i].path != list'[j].path
    ensures forall i, role | 0 <= i < |list'| && list'[i].Carries(role) ::
      exists route :: Shows(g, start, end, list'[i], role, route) && KeepsExchange(role, direct, route)
    ensures Carried(g, start, end, list', role)
    ensures forall r :: Carried(g, start, end, list, r) ==> Carried(g, start, end, list', r)
  {
    var at := 0;
    while at < |list| && list[at].path != route.edges
      invariant 0 <= at <= |list|
      invariant forall i | 0 <= i < at :: list[i].path != route.edges
    {
      at := at + 1;
    }
    if at == |list| {
      list' := list + [CandidateFromRoute(role, route)];
      assert Shows(g, start, end, list'[at], role, route);
    } else {
      if list[at].Carries(role) {
        list' := list;
      } else {
        list' := list[at := list[at].(aliases := list[at].aliases + [role])];
      }
      assert list[at].Carries(list[at].role);
      ghost var shown :| Shows(g, start, end, list[at], list[at].role, shown);
      assert shown.length == route.length && shown.aRoadLength == route.aRoadLength
        && shown.ncnLength == route.ncnLength;
      assert Shows(g, start, end, list'[at], role, route);
      forall i, r | 0 <= i < |list'| && list'[i].Carries(r)
        ensures exists route :: Shows(g, start, end, list'[i], r, route) && KeepsExchange(r, direct, route)
      {
        if r == role && i == at {
        } else {
          assert list[i].Carries(r);
          var w :| Shows(g, start, end, list[i], r, w) && KeepsExchange(r, direct, w);
          assert Shows(g, start, end, list'[i], r, w);
        }
      }
    }
    forall r | Carried(g, start, end, list, r) ensures Carried(g, start, end, list', r) {
      var i, w :| 0 <= i < |list| && list[i].Carries(r) && Shows(g, start, end, list[i], r, w);
      assert list'[i].Carries(r) && Shows(g, start, end, list'[i], r, w);
    }
  }

  /**
   The direction a connection is prepared in, with its candidates: left to right if
   that can be travelled at all, else right to left; with neither there are none.
   */
  method PrepareConnection(g: Graph, left: NodeId, right: NodeId)
    returns (origin: NodeId, destination: NodeId, list: seq<Candidate>)
    requires g.Valid()
    ensures (origin, destination) ==
      if !Reaches(RoleNet(g, Direct, false), left, right)
        && Reaches(RoleNet(g, Direct, false), right, left) then (right, left)
      else (left, right)
    ensures list != [] <==>
      Reaches(RoleNet(g, Direct, false), left, right) || Reaches(RoleNet(g, Direct, false), right, left)
    ensures list != [] ==> forall role :: Carried(g, origin, destination, list, role)
  {
    origin, destination, list := left, right, [];
    var direct := RouteInternal(g, left, right, Direct, false);
    if direct.None? {
      direct := RouteInternal(g, right, left, Direct, false);
      if direct.None? {
        return;
      }
      origin, destination := right, left;
    }
    list := ConnectionCandidates(g, origin, destination, direct.value);
  }
}

/**
 The routable graph and the routes through it.  Edge ids are the edge's position
 in the edge table (the source's ids end in that index); `TagClass` says how a
 trimmed, lower-cased access tag reads.
 */
module RoadGraph {
  import opened Options
  import opened Networks

  type EdgeId = int
  type Point = (real, real)

  datatype TagClass = Denied | Permitted | Other

  datatype Edge = Edge(
    from: NodeId, to: NodeId, length: real, aRoad: bool, ncn: bool, lowTraffic: bool,
    bicycle: Option<TagClass>, access: Option<TagClass>, geometry: seq<Point>)
  {
    /** A bicycle tag that says yes or no decides; otherwise only a denying access tag closes the edge. */
    predicate CyclingAllowed() {
      if bicycle == Some(Denied) then false
      else if bicycle == Some(Permitted) then true
      else access != Some(Denied)
    }
  }

  datatype Role = Direct | StrategicSpine | NcnInformed | LowTraffic

  function RouteWeight(edge: Edge, role: Role): real {
    match role
    case StrategicSpine => edge.length * (if edge.aRoad then 0.35 else 1.6)
    case NcnInformed => edge.length * (if edge.ncn then 0.4 else 1.3)
    case LowTraffic => edge.length * (if edge.lowTraffic then 0.75 else 4.0)
    case Direct => edge.length
  }

  datatype Graph = Graph(edges: seq<Edge>) {
    /** Admission refuses negative lengths; zero stays possible. */
    ghost predicate Valid() {
      forall e <- edges :: e.length >= 0.0
    }

    function Outgoing(n: NodeId): (list: seq<EdgeId>)
      ensures forall e :: e in list <==> 0 <= e < |edges| && edges[e].from == n
      ensures forall k | 0 <= k < |list| :: 0 <= list[k] < |edges| && edges[list[k]].from == n
    {
      Select((e: int) => 0 <= e < |edges| && edges[e].from == n, |edges|)
    }

    function Incoming(n: NodeId): (list: seq<EdgeId>)
      ensures forall e :: e in list <==> 0 <= e < |edges| && edges[e].to == n
      ensures forall k | 0 <= k < |list| :: 0 <= list[k] < |edges| && edges[list[k]].to == n
    {
      Select((e: int) => 0 <= e < |edges| && edges[e].to == n, |edges|)
    }
  }

  /** The naturals below `bound` that `keep` accepts, in order. */
  function Select(keep: int -> bool, bound: nat): (list: seq<int>)
    ensures forall e :: e in list <==> 0 <= e < bound && keep(e)
    ensures forall k | 0 <= k < |list| :: 0 <= list[k] < bound && keep(list[k])
  {
    if bound == 0 then [] else Select(keep, bound - 1) + (if keep(bound - 1) then [bound - 1] else [])
  }

  /** The network a search under `role` runs over. */
  ghost function RoleNet(g: Graph, role: Role, respectAccess: bool): (net: Network)
    requires g.Valid()
    ensures net.Valid()
    ensures |net.arcs| == |g.edges|
    ensures forall e :: e in net.open <==> 0 <= e < |g.edges| && (respectAccess ==> g.edges[e].CyclingAllowed())
    ensures forall e | 0 <= e < |g.edges| ::
      net.arcs[e] == Arc(g.edges[e].from, g.edges[e].to, RouteWeight(g.edges[e], role))
  {
    Network(
      seq(|g.edges|, e requires 0 <= e < |g.edges| => Arc(g.edges[e].from, g.edges[e].to,
        RouteWeight(g.edges[e], role))),
      set e | 0 <= e < |g.edges| && (respectAccess ==> g.edges[e].CyclingAllowed()))
  }

  /** Where a route passes: a node, a point part-way along an edge, or the attachment it starts from. */
  datatype Stop = AtNode(node: NodeId) | OnEdge(edge: EdgeId, fraction: real) | AttachedTo(edge: EdgeId)

  datatype Route = Route(
    edges: seq<EdgeId>, lengths: seq<real>, length: real, searchCost: real,
    aRoadLength: real, ncnLength: real, nodes: seq<Stop>)

  ghost predicate InGraph(g: Graph, edges: seq<EdgeId>) {
    forall e <- edges :: 0 <= e < |g.edges|
  }

  function Sum(lengths: seq<real>): real {
    if lengths == [] then 0.0 else lengths[0] + Sum(lengths[1..])
  }

  /** The sum of the lengths whose edge `counts`. */
  function SumWhere(edges: seq<EdgeId>, lengths: seq<real>, counts: EdgeId -> bool): real
    requires |edges| == |lengths|
  {
    if edges == [] then 0.0
    else (if counts(edges[0]) then lengths[0] else 0.0) + SumWhere(edges[1..], lengths[1..], counts)
  }

  function RouteFromParts(g: Graph, edges: seq<EdgeId>, lengths: seq<real>, searchCost: real, nodes: seq<Stop>): Route
    requires |edges| == |lengths|
  {
    Route(edges, lengths, Sum(lengths), searchCost,
          SumWhere(edges, lengths, (e: int) => 0 <= e < |g.edges| && g.edges[e].aRoad),
          SumWhere(edges, lengths, (e: int) => 0 <= e < |g.edges| && g.edges[e].ncn), nodes)
  }

  function EmptyRoute(g: Graph): Route { RouteFromParts(g, [], [], 0.0, []) }

  function EdgeLengths(g: Graph, edges: seq<EdgeId>): seq<real>
    requires InGraph(g, edges)
  {
    seq(|edges|, i requires 0 <= i < |edges| => assert edges[i] in edges; g.edges[edges[i]].length)
  }

  /** The nodes passed by whole edges taken in order from `start`. */
  function NodesAlong(g: Graph, start: NodeId, edges: seq<EdgeId>): seq<Stop>
    requires InGraph(g, edges)
  {
    [AtNode(start)] + seq(|edges|,
      i requires 0 <= i < |edges| => assert edges[i] in edges; AtNode(g.edges[edges[i]].to))
  }

  lemma NodesAlongCons(g: Graph, start: NodeId, e: EdgeId, rest: seq<EdgeId>)
    requires InGraph(g, rest) && 0 <= e < |g.edges|
    ensures InGraph(g, [e] + rest)
    ensures NodesAlong(g, start, [e] + rest) == [AtNode(start)] + NodesAlong(g, g.edges[e].to, rest)
  {
  }

  lemma NodesAlongSnoc(g: Graph, start: NodeId, edges: seq<EdgeId>, e: EdgeId)
    requires InGraph(g, edges) && 0 <= e < |g.edges|
    ensures InGraph(g, edges + [e])
    ensures NodesAlong(g, start, edges + [e]) == NodesAlong(g, start, edges) + [AtNode(g.edges[e].to)]
  {
  }

  function RouteFromIndices(g: Graph, edges: seq<EdgeId>, searchCost: real, start: NodeId): Route
    requires InGraph(g, edges)
  {
    RouteFromParts(g, edges, EdgeLengths(g, edges), searchCost, NodesAlong(g, start, edges))
  }

  lemma {:induction false} SumConcat(first: seq<real>, second: seq<real>)
    ensures Sum(first + second) == Sum(first) + Sum(second)
  {
    if first == [] {
      assert first + second == second;
    } else {
      assert (first + second)[1..] == first[1..] + second;
      SumConcat(first[1..], second);
    }
  }

  lemma {:induction false} WalkInGraph(g: Graph, net: Network, from: NodeId, walk: seq<int>, to: NodeId)
    requires net.Valid() && |net.arcs| == |g.edges| && IsWalk(net, from, walk, to)
    ensures InGraph(g, walk)
    decreases |walk|
  {
    if walk != [] {
      WalkInGraph(g, net, net.arcs[walk[0]].to, walk[1..], to);
      assert walk == [walk[0]] + walk[1..];
    }
  }
}

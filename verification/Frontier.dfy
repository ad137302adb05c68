/**
 The rural frontier: whole nodes and points part-way along edges that a new access
 route may join, and what a search backwards from all of them has to deliver.
 */
module Frontier {
  import opened Options
  import opened Networks
  import opened RoadGraph

  type CommunityId = int
  type SpineId = int

  /** Where a journey leaves the access network: an admitted spine, or a town's sourced extent. */
  datatype Terminal = Spine(spines: set<SpineId>) | UrbanEntry(destination: int, edge: EdgeId, fraction: real)

  datatype Target = Target(key: int, terminal: Terminal, community: Option<CommunityId>, junction: Stop,
    remaining: real)

  datatype EdgeTarget = EdgeTarget(edge: EdgeId, fraction: real, target: Target)

  /** The frontier a search starts from, and the edge it must avoid, if any. */
  datatype Instance = Instance(
    g: Graph, wholes: map<NodeId, Target>, partials: seq<EdgeTarget>, excluded: Option<EdgeId>)
  {
    ghost predicate Valid() {
      g.Valid() && forall i | 0 <= i < |partials| && Known(i) :: 0.0 <= partials[i].fraction <= 1.0
    }

    predicate Known(i: int)
      requires 0 <= i < |partials|
    {
      0 <= partials[i].edge < |g.edges|
    }

    /** Whether partial target `i` seeds the search: its edge exists and is not excluded. */
    predicate Seeds(i: int)
      requires 0 <= i < |partials|
    {
      excluded != Some(partials[i].edge) && Known(i)
    }

    /** Where partial target `i` is entered, and how far along its edge it lies. */
    function SeedNode(i: int): NodeId
      requires 0 <= i < |partials| && Seeds(i)
    {
      g.edges[partials[i].edge].from
    }

    function SeedDistance(i: int): real
      requires 0 <= i < |partials| && Seeds(i)
    {
      partials[i].fraction * g.edges[partials[i].edge].length
    }

    predicate Usable(e: EdgeId)
      requires 0 <= e < |g.edges|
    {
      excluded != Some(e) && g.edges[e].CyclingAllowed()
    }
  }

  /** The edges the search follows, weighted by length. */
  ghost function FrontierNet(inst: Instance): (net: Network)
    requires inst.Valid()
    ensures net.Valid() && |net.arcs| == |inst.g.edges|
    ensures forall e | 0 <= e < |inst.g.edges| ::
      net.arcs[e] == Arc(inst.g.edges[e].from, inst.g.edges[e].to, inst.g.edges[e].length)
    ensures forall e :: e in net.open <==> 0 <= e < |inst.g.edges| && inst.Usable(e)
  {
    OpenEdges(inst.g, inst.excluded)
  }

  ghost function OpenEdges(g: Graph, excluded: Option<EdgeId>): Network {
    Network(
      seq(|g.edges|, e requires 0 <= e < |g.edges| => Arc(g.edges[e].from, g.edges[e].to, g.edges[e].length)),
      set e | 0 <= e < |g.edges| && excluded != Some(e) && g.edges[e].CyclingAllowed())
  }

  /** Distance first, then key. */
  predicate Better(d: real, key: int, d': real, key': int) {
    d < d' || (d == d' && key < key')
  }

  /** Target `t` can be joined at `n` itself after `d` more metres. */
  ghost predicate IsSeed(inst: Instance, n: NodeId, d: real, t: Target) {
    || (n in inst.wholes && d == 0.0 && t == inst.wholes[n])
    || (exists i :: 0 <= i < |inst.partials| && inst.Seeds(i)
          && inst.SeedNode(i) == n && inst.SeedDistance(i) == d && inst.partials[i].target == t)
  }

  /** `walk` leads from `n` to where target `t` can be joined, `total` metres in all. */
  ghost predicate Joins(inst: Instance, n: NodeId, walk: seq<EdgeId>, t: Target, total: real)
    requires inst.Valid()
  {
    exists m, d ::
      IsWalk(FrontierNet(inst), n, walk, m) && IsSeed(inst, m, d, t) && total == Cost(FrontierNet(inst), walk) + d
  }

  /** (d, key) is the least over every way of joining the frontier from `n`, and `t` attains it. */
  ghost predicate LeastJoin(inst: Instance, n: NodeId, d: real, t: Target)
    requires inst.Valid()
  {
    && (exists walk :: Joins(inst, n, walk, t, d))
    && (forall walk, t', d' :: Joins(inst, n, walk, t', d') ==> !Better(d', t'.key, d, t.key))
  }

  ghost predicate CanJoin(inst: Instance, n: NodeId)
    requires inst.Valid()
  {
    exists walk, t, d :: Joins(inst, n, walk, t, d)
  }

  /** The result of a search. */
  datatype Search = Search(
    distances: map<NodeId, real>, previous: map<NodeId, EdgeId>, targets: map<NodeId, Target>,
    frontier: set<NodeId>, partials: map<NodeId, EdgeTarget>)

  /** Every node that can join the frontier is labelled with its least join, and no other node is. */
  ghost predicate Labels(inst: Instance, s: Search)
    requires inst.Valid()
  {
    && s.targets.Keys == s.distances.Keys
    && (forall n :: n in s.distances <==> CanJoin(inst, n))
    && (forall n <- s.distances :: LeastJoin(inst, n, s.distances[n], s.targets[n]))
  }

  /** A partial target with less key displaces the whole target of the node its edge starts from. */
  ghost predicate Displaced(inst: Instance, upto: int, n: NodeId)
    requires 0 <= upto <= |inst.partials|
  {
    n in inst.wholes
    && exists i :: 0 <= i < upto && inst.Seeds(i) && inst.SeedNode(i) == n
         && inst.SeedDistance(i) == 0.0 && inst.partials[i].target.key < inst.wholes[n].key
  }

  /** The frontier marks: whole nodes keep theirs, a partial one lasts as long as its label. */
  ghost predicate Marks(inst: Instance, upto: int, s: Search)
    requires 0 <= upto <= |inst.partials|
  {
    && (forall n <- inst.wholes :: !Displaced(inst, upto, n) ==> WholeMark(inst, s, n))
    && (forall n :: n !in inst.wholes || Displaced(inst, upto, n) ==> (n in s.frontier <==> n in s.partials))
    && (forall n <- s.partials :: PartialMark(inst, s, n))
  }

  /** A whole node keeps its own target unless a lesser key takes its label. */
  ghost predicate WholeMark(inst: Instance, s: Search, n: NodeId)
    requires n in inst.wholes
  {
    && n in s.frontier && n !in s.partials
    && n in s.targets && (s.targets[n] == inst.wholes[n] || s.targets[n].key < inst.wholes[n].key)
  }

  ghost predicate PartialMark(inst: Instance, s: Search, n: NodeId)
    requires n in s.partials
  {
    exists i :: 0 <= i < |inst.partials| && inst.Seeds(i) && inst.SeedNode(i) == n && s.partials[n] == inst.partials[i]
      && n in s.distances && s.distances[n] == inst.SeedDistance(i) && n in s.targets
        && s.targets[n] == inst.partials[i].target
  }

  /** The label of `n` is one of its own seeds, and the marks say so. */
  ghost predicate AtSeed(inst: Instance, s: Search, n: NodeId) {
    && n in s.frontier && n in s.distances && n in s.targets
    && (n in s.partials || (n in inst.wholes && s.distances[n] == 0.0 && s.targets[n] == inst.wholes[n]))
  }

  /** The label of `n` extends that of the node its `previous` edge leads to, which is lower in `rank`. */
  ghost predicate Extends(inst: Instance, s: Search, rank: map<NodeId, nat>, n: NodeId)
    requires inst.Valid()
  {
    && n in s.previous && s.previous[n] in FrontierNet(inst).open
    && var e := inst.g.edges[s.previous[n]];
       e.from == n && n in s.distances && n in s.targets && n in rank
       && e.to in s.distances && e.to in s.targets && e.to in rank
       && s.distances[n] == s.distances[e.to] + e.length && s.targets[n] == s.targets[e.to] && rank[e.to] < rank[n]
  }

  /** Every label can be read back: it is a seed's, or it extends a label of lower rank. */
  ghost predicate Traceable(inst: Instance, s: Search, rank: map<NodeId, nat>)
    requires inst.Valid()
  {
    forall n <- s.distances :: AtSeed(inst, s, n) || Extends(inst, s, rank, n)
  }

  /** All that a search delivers. */
  ghost predicate Found(inst: Instance, s: Search, rank: map<NodeId, nat>)
    requires inst.Valid()
  {
    && Labels(inst, s) && Traceable(inst, s, rank) && Marks(inst, |inst.partials|, s)
    && s.distances.Keys == rank.Keys
    && (forall n <- s.distances :: s.distances[n] >= 0.0)
  }
}

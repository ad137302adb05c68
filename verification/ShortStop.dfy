/** Why the planner asks for edges of some length: a stub on which what it would file is no path. */
module ShortStop {
  import opened Options
  import opened Sequences
  import opened Networks
  import opened RoadGraph
  import opened Frontier
  import opened FrontierTurns
  import opened FrontierSearch
  import opened FrontierRoutes
  import opened IdOrder
  import opened Access
  import opened AccessFrontier
  import opened AttachmentRoutes
  import opened NewLinks
  import opened IntervalLinks
  import opened Offers
  import opened PlannerStates

  /** Ten metres of street from node 0 to node 1, and a stub of no length back round. */
  function Stub(): Graph {
    Graph([Edge(0, 1, 10.0, false, false, false, None, None, [(0.0, 0.0), (1.0, 0.0)]),
           Edge(1, 0, 0.0, false, false, false, None, None, [(1.0, 0.0), (0.0, 1.0), (0.0, 0.0)])])
  }

  /** A town is entered where the street begins. */
  const ENTRY := EdgeTarget(0, 0.0, Target(1, UrbanEntry(9, 0, 0.0), None, OnEdge(0, 0.0), 0.0))

  /** A spine passes node 1, and its key comes after the entry's. */
  function StubContext(): Context { Context(Stub(), (k: Key) => 2, map[1 := {7}], map[], [ENTRY]) }

  /** A community lies eight metres along the street. */
  const HOUSE := Attachment(0, 0.8, None)

  /** Only the stub's length keeps the context from being valid. */
  lemma {:induction false} AllButLength()
    ensures Stub().Valid() && GeometryAgrees(Stub()) && HOUSE.Valid(Stub()) && StubContext().UrbanTarget(ENTRY)
    ensures forall e :: 0 <= e < |Stub().edges| && Stub().edges[e].length == 0.0 <==> e == 1
  {
    ReversedPair((0.0, 0.0), (1.0, 0.0));
    assert |Reversed(Stub().edges[1].geometry)| == 3;
  }

  lemma {:induction false} StubFrontier()
    ensures InstanceDue(StubContext(), map[]) == StubContext().Instance(map[1 := SpineTarget(StubContext(), 1)],
      [ENTRY], None)
    ensures InstanceDue(StubContext(), map[]).Valid()
  {
    NoIds();
    assert SpineTargets(StubContext()) == map[1 := SpineTarget(StubContext(), 1)];
  }

  /** The way on over the stub to the entry costs nothing. */
  lemma {:induction false} EntryIsNear(inst: Frontier.Instance)
    requires inst == StubContext().Instance(map[1 := SpineTarget(StubContext(), 1)], [ENTRY], None) && inst.Valid()
    ensures Joins(inst, 1, [1], ENTRY.target, 0.0)
  {
    var net := FrontierNet(inst);
    assert IsWalk(net, 0, [], 0) && [1][1..] == [] && IsWalk(net, 1, [1], 0) && Cost(net, [1]) == 0.0;
    assert inst.Seeds(0) && inst.SeedNode(0) == 0 && inst.SeedDistance(0) == 0.0 && IsSeed(inst, 0, 0.0, ENTRY.target);
  }

  /** There is nothing else to join but the spine. */
  lemma {:induction false} TwoTargets(inst: Frontier.Instance, n: NodeId, walk: seq<EdgeId>, t: Target, total: real)
    requires inst == StubContext().Instance(map[1 := SpineTarget(StubContext(), 1)], [ENTRY], None) && inst.Valid()
    requires Joins(inst, n, walk, t, total)
    ensures t == ENTRY.target || t == SpineTarget(StubContext(), 1)
  {
    var m, d :| IsWalk(FrontierNet(inst), n, walk, m) && IsSeed(inst, m, d, t);
  }

  /** So node 1 carries the entry, which has the lesser key, and keeps its mark. */
  lemma {:induction false} EntryTakesNode(inst: Frontier.Instance, s: Search, rank: map<NodeId, nat>)
    requires inst == StubContext().Instance(map[1 := SpineTarget(StubContext(), 1)], [ENTRY], None)
    requires inst.Valid() && Found(inst, s, rank)
    ensures 1 in s.distances && s.distances[1] == 0.0 && 1 in s.targets && s.targets[1] == ENTRY.target
    ensures 1 in s.frontier && 1 !in s.partials
  {
    hide Traceable, Joins;
    assert WholeMark(inst, s, 1);
    EntryIsNear(inst);
    assert LeastJoin(inst, 1, s.distances[1], s.targets[1]);
    var walk :| Joins(inst, 1, walk, s.targets[1], s.distances[1]);
    TwoTargets(inst, 1, walk, s.targets[1], s.distances[1]);
  }

  lemma SomeIn(list: seq<int>)
    ensures list != [] ==> exists e :: e in list
  {
    if list != [] {
      var e := list[0];
      assert e in list;
    }
  }

  lemma {:induction false} OneSeed()
    ensures HOUSE.Valid(Stub()) && AttachmentSeeds(Stub(), HOUSE) == [Seed(0, 1, 2.0)]
  {
    ReversedPair((0.0, 0.0), (1.0, 0.0));
    assert |Reversed(Stub().edges[1].geometry)| == 3;
    var reverse: seq<EdgeId> := Select((e: int) => IsReverse(Stub(), 0, e), |Stub().edges|);
    SomeIn(reverse);
    assert [0] + reverse == [0];
    assert SeedsOver(Stub(), HOUSE, [0][1..]) == [];
  }

  lemma {:induction false} StopsShort(inst: Frontier.Instance, s: Search, rank: map<NodeId, nat>)
    requires inst == StubContext().Instance(map[1 := SpineTarget(StubContext(), 1)], [ENTRY], None)
    requires inst.Valid() && Found(inst, s, rank)
    ensures ReadingOf(inst, s, 1) == Some((RouteFromParts(Stub(), [], [], 0.0, [AtNode(1)]), ENTRY.target))
  {
    hide Found, WholeMark;
    EntryTakesNode(inst, s, rank);
    assert Reads(inst, s, 1, [], 1);
    ReadingIs(inst, s, 1, [], 1);
    assert EdgeLengths(Stub(), []) == [] && NodesAlong(Stub(), 1, []) == [AtNode(1)];
  }

  lemma {:induction false} WayTaken(inst: Frontier.Instance, s: Search, rank: map<NodeId, nat>)
    requires inst == StubContext().Instance(map[1 := SpineTarget(StubContext(), 1)], [ENTRY], None)
    requires inst.Valid() && Found(inst, s, rank)
    ensures var choice := LinkVia(StubContext(), inst, s, HOUSE);
      choice.Some? && choice.value.0.edges == [0] && choice.value.1 == ENTRY.target
  {
    hide ReadingOf, AttachmentSeeds, Found;
    StopsShort(inst, s, rank);
    OneSeed();
    assert ChosenOver(inst, s, HOUSE, 0) == None;
  }

  /** Recorded from where it sets out to the entry behind it, the route is no path. */
  lemma {:induction false} NoPath(route: Route)
    requires route.edges == [0]
    ensures var made := PlanCandidate(Stub(), map[], 1, 3, HOUSE, route, ENTRY.target);
      && made.link.Some? && made.link.value.path == [0]
      && made.link.value.StartAt(0) == 0.8 && made.link.value.EndAt(0) == 0.0 && !PathSound(Stub(), made)
  {
  }

  lemma NotBeside()
    ensures IntervalDue(StubContext(), map[], HOUSE) == None
  {
  }

  /**
   The community would set out for node 1, stop there, and be recorded as joining the street
   at the entry, behind where it set out: a path left before it is entered.
   */
  lemma {:induction false} LeftBeforeEntered(s: Search, rank: map<NodeId, nat>)
    requires InstanceDue(StubContext(), map[]).Valid() && Found(InstanceDue(StubContext(), map[]), s, rank)
    requires s == SearchOf(InstanceDue(StubContext(), map[]))
    ensures HOUSE.Valid(Stub())
    ensures var choice := ChoiceDue(StubContext(), map[], InstanceDue(StubContext(), map[]), HOUSE);
      && choice.Some?
      && var made := PlanCandidate(Stub(), map[], 1, 3, HOUSE, choice.value.0, choice.value.1);
         && made.link.value.path == [0] && made.link.value.StartAt(0) == 0.8 && made.link.value.EndAt(0) == 0.0
         && !PathSound(Stub(), made)
  {
    hide SearchOf, InstanceDue, PathSound, Found, LinkVia, IntervalDue, PlanCandidate;
    AllButLength();
    StubFrontier();
    WayTaken(InstanceDue(StubContext(), map[]), s, rank);
    NotBeside();
    NoPath(ChoiceDue(StubContext(), map[], InstanceDue(StubContext(), map[]), HOUSE).value.0);
  }

  lemma SetOut(route: Route)
    requires route == RouteFromParts(Stub(), [], [], 0.0, [AtNode(1)])
    ensures route.edges == [] && route.lengths == []
    ensures PrependSeed(Stub(), HOUSE, Seed(0, 1, 2.0), route).edges == [0]
  {
  }

  /** So it would be filed: the frontier built, searched, and the community's one way of setting out taken. */
  method FileBackwards() returns (made: CommunityAccess)
    ensures made.link.Some? && made.link.value.path == [0]
    ensures made.link.value.StartAt(0) > made.link.value.EndAt(0) && !PathSound(Stub(), made)
  {
    hide Found, ReadingOf, Lands, ReadsBack, Blocked, PathSound, PlanCandidate, PrependSeed, SearchOf, Labels, Marks,
      RouteFromParts, SpineTarget;
    var wholes, partials := Built();
    var inst := StubContext().Instance(wholes, partials, None);
    ghost var rank;
    var s;
    s, rank := FrontierSearchExcluding(inst);
    StopsShort(inst, s, rank);
    var found;
    ghost var walk, landing;
    found, walk, landing := RouteFromFrontierNode(inst, 1, s, rank);
    SetOut(found.value.0);
    var route := PrependSeed(Stub(), HOUSE, Seed(0, 1, 2.0), found.value.0);
    NoPath(route);
    made := PlanCandidate(Stub(), map[], 1, 3, HOUSE, route, found.value.1);
  }

  method Built() returns (wholes: map<NodeId, Target>, partials: seq<EdgeTarget>)
    ensures wholes == map[1 := SpineTarget(StubContext(), 1)] && partials == [ENTRY]
    ensures StubContext().Instance(wholes, partials, None).Valid()
  {
    hide FrontierDue, FrontierOf;
    wholes, partials := FrontierTargets(StubContext(), map[]);
    StubFrontier();
  }
}

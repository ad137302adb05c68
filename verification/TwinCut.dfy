/** A street on which a townward link is cut on the twin of its junction's edge. */
module TwinCut {
  import opened Options
  import opened Networks
  import opened RoadGraph
  import opened Frontier
  import opened Access
  import opened Journey
  import opened AccessFrontier
  import opened AttachmentRoutes
  import opened NewLinks
  import opened Townward
  import opened Standing

  /** One street, ten metres long and drawn once each way; a spine passes its east end. */
  function Street(): Graph {
    Graph([Edge(0, 1, 10.0, false, false, false, None, None, [(0.0, 0.0), (1.0, 0.0)]),
           Edge(1, 0, 10.0, false, false, false, None, None, [(1.0, 0.0), (0.0, 0.0)])])
  }

  function StreetContext(): Context { Context(Street(), (k: Key) => 0, map[1 := {7}], map[], []) }

  /** Community 1 was accepted from four metres along the street to the spine. */
  function First(): CommunityAccess {
    CommunityAccess(1, Served, Some(Attachment(0, 0.4, None)),
                    Some(Link(Spine({7}), None, 1, 0, 6.0, 6.0, [0], Some(0.4), Some(1.0))))
  }

  function Accepted(): Records { map[1 := First()] }

  /** Community 2 lies eight metres along it, and its town at the west end. */
  const SECOND := Attachment(0, 0.8, None)

  lemma {:induction false} Twins(f: real)
    ensures NormalizeEdgeFraction(Street(), 0, f, 1) == Some(1.0 - f)
      && NormalizeEdgeFraction(Street(), 0, f, 0) == Some(f)
    ensures IsReverse(Street(), 0, 1) && !IsReverse(Street(), 0, 0)
    ensures GeometryAgrees(Street())
  {
    ReversedPair((0.0, 0.0), (1.0, 0.0));
    ReversedPair((1.0, 0.0), (0.0, 0.0));
  }

  lemma {:induction false} StreetIsValid()
    ensures StreetContext().Valid() && SECOND.Valid(Street())
  {
    hide NormalizeEdgeFraction, IsReverse;
    Twins(0.0);
  }

  lemma {:induction false} StreetStands()
    ensures Stands(Street(), Accepted(), 2) && Clean(Street(), Accepted())
  {
    var link := First().link.value;
    assert Tail(Street(), link, 0) == Piece(Street(), link, 0) + Tail(Street(), link, 1);
    assert Tail(Street(), link, 0) == 6.0;
    assert RecordStands(Street(), Accepted(), 1, First());
  }

  lemma {:induction false} BothSeeds()
    ensures SECOND.Valid(Street())
    ensures var seeds := AttachmentSeeds(Street(), SECOND);
      Seed(1, 0, 8.0) in seeds && forall i | 0 <= i < |seeds| ::
        seeds[i] == Seed(0, 1, 2.0) || seeds[i] == Seed(1, 0, 8.0)
  {
    var g := Street();
    Twins(0.0);
    Twins(0.8);
    var reverse: seq<EdgeId> := Select((e: int) => IsReverse(g, 0, e), |g.edges|);
    var seeds := AttachmentSeeds(g, SECOND);
    assert seeds == SeedsOver(g, SECOND, [0] + reverse);
    assert SeedOn(g, SECOND, 0) == Seed(0, 1, 2.0) && SeedOn(g, SECOND, 1) == Seed(1, 0, 8.0);
    var k :| 0 <= k < |reverse| && reverse[k] == 1;
    assert ([0] + reverse)[k + 1] == 1;
    forall i | 0 <= i < |seeds| ensures seeds[i] == Seed(0, 1, 2.0) || seeds[i] == Seed(1, 0, 8.0) {
      assert seeds[i] in SeedsOver(g, SECOND, [0] + reverse);
      var j :| 0 <= j < |[0] + reverse| && seeds[i] == SeedOn(g, SECOND, ([0] + reverse)[j]);
    }
  }

  lemma {:induction false} PartOfSum(lengths: seq<real>, i: nat)
    requires i < |lengths| && forall j | 0 <= j < |lengths| :: lengths[j] >= 0.0
    ensures Sum(lengths) >= lengths[i]
  {
    NotNegative(lengths[1..]);
    if i > 0 { PartOfSum(lengths[1..], i - 1); }
  }

  lemma {:induction false} NotNegative(lengths: seq<real>)
    requires forall j | 0 <= j < |lengths| :: lengths[j] >= 0.0
    ensures Sum(lengths) >= 0.0
  {
    if lengths != [] { NotNegative(lengths[1..]); }
  }

  /** The shortest way west is eight metres. */
  lemma {:induction false} EightMetres(route: Route)
    requires Street().Valid() && SECOND.Valid(Street()) && ShortestWay(Street(), SECOND, 0, Some(route))
    ensures route.length == 8.0
  {
    hide AttachmentSeeds;
    var (g, net) := (Street(), RoleNet(Street(), Direct, true));
    var seeds := AttachmentSeeds(g, SECOND);
    BothSeeds();
    assert IsWalk(net, 0, [], 0) && Cost(net, []) == 0.0;
    forall walk | IsWalk(net, 0, walk, 0) ensures 0.0 <= Cost(net, walk) { CostNonNegative(net, walk); }
    assert IsDistance(net, 0, 0, 0.0);
    var back :| 0 <= back < |seeds| && seeds[back] == Seed(1, 0, 8.0);
    assert route.length <= seeds[back].length + 0.0;
    var i, d :| 0 <= i < |seeds| && IsDistance(net, seeds[i].end, 0, d) && route.length == seeds[i].length + d;
    var walk :| IsWalk(net, seeds[i].end, walk, 0) && Cost(net, walk) == d;
    CostNonNegative(net, walk);
    if walk != [] { CostNonNegative(net, walk[1..]); }
  }

  /** So it is the one edge back. */
  lemma {:induction false} OneEdgeBack(route: Route)
    requires SECOND.Valid(Street()) && SetsOut(Street(), SECOND, route) && route.length == 8.0
    ensures route.edges == [1] && route.lengths == [8.0] && route.nodes == [AttachedTo(0), AtNode(0)]
  {
    Twins(0.8);
    var start := PathStart(Street(), SECOND, route.edges[0]);
    assert start == 0.8 || start == 1.0 - 0.8;
    if |route.edges| > 1 { PartOfSum(route.lengths, 1); }
    assert |route.edges| == 1;
    SumOne(route.lengths[0]);
    assert route.lengths == [route.lengths[0]] && route.edges == [route.edges[0]];
    assert route.nodes == [route.nodes[0], route.nodes[1]];
  }

  /** Where it meets community 1's start, four metres on, it is cut. */
  lemma {:induction false} CutThere(route: Route)
    requires route.edges == [1] && route.lengths == [8.0] && route.nodes == [AttachedTo(0), AtNode(0)]
    requires OnGraph(Street(), First().link.value.path) && StartTarget(StreetContext(), First()).Some?
    ensures var cut := PartialCut(Street(), SECOND, route, StartTarget(StreetContext(), First()).value, 0);
      cut.Some? && cut.value.edges == [1] && cut.value.lengths == [0.4 * 10.0] && cut.value.length == 4.0
  {
    Twins(0.4);
    Twins(0.8);
    assert PrefixRoute(Street(), route, 0).edges == [] && PrefixRoute(Street(), route, 0).lengths == [];
    assert StartOn(Street(), SECOND, route, 0) == Some(1.0 - 0.8);
    SumOne((0.6 - 0.2) * 10.0);
    assert (1.0 - 0.4) - (1.0 - 0.8) == 0.4;
  }

  lemma {:induction false} OnlyEastEnd(a: CommunityAccess)
    requires a == First() && OnGraph(Street(), a.link.value.path)
    ensures 0 !in NodeTargets(Street(), a)
  {
    var link := a.link.value;
    assert |link.path| == 1 && link.StartAt(0) == 0.4 && Street().edges[link.path[0]].to == 1;
    assert NodeTargetsUpto(Street(), a, 0) == map[];
    assert 0 !in NodeTargetsUpto(Street(), a, 1);
  }

  lemma {:induction false} OnlyCut(
      wholes: map<NodeId, Target>, partials: seq<EdgeTarget>, route: Route, choice: Option<(Route, Target)>)
    requires Filed(Street(), Accepted()) && FrontierOf(StreetContext(), Accepted(), wholes, partials)
    requires route.edges == [1] && route.lengths == [8.0] && route.nodes == [AttachedTo(0), AtNode(0)]
    requires PartialsNotBefore(Street(), SECOND, partials, route, |partials|, choice)
    requires choice.Some? ==> IsCrossing(Street(), SECOND, wholes, partials, route, choice.value)
    ensures choice.Some? && StartTarget(StreetContext(), First()) == Some(EdgeTarget(0, 0.4, choice.value.1))
    ensures Some(choice.value.0) == PartialCut(Street(), SECOND, route, StartTarget(StreetContext(), First()).value, 0)
  {
    hide PartialCut, PrefixRoute;
    var ctx := StreetContext();
    var start := StartTarget(ctx, First()).value;
    assert 1 in Accepted().Keys && Accepted()[1] == First() && StartTarget(ctx, Accepted()[1]) == Some(start);
    assert PartialFrom(ctx, Accepted(), Accepted().Keys, start);
    var k :| 0 <= k < |partials| && partials[k] == start;
    CutThere(route);
    forall i | 0 <= i < |partials|
      ensures partials[i] == start { assert PartialFrom(ctx, Accepted(), Accepted().Keys, partials[i]); }
    OnlyEastEnd(First());
    assert 0 !in wholes;
  }

  /** What the search for a way west comes to on the street, beside community 1's path. */
  ghost predicate CutOnStreet(wholes: map<NodeId, Target>, partials: seq<EdgeTarget>, choice: Option<(Route, Target)>) {
    StreetIsValid();
    StreetStands();
    && FrontierOf(StreetContext(), Accepted(), wholes, partials)
    && AllPlanned(StreetContext(), Accepted(), SECOND, choice)
    && Meets(StreetContext(), SECOND, wholes, partials, 0, choice)
  }

  /**
   The way west meets community 1's path on the street's other drawing, and is recorded as
   running on to the street's end: ten metres are stored, fourteen are walked.
   */
  lemma {:induction false} TwinCutOverwalks(
    wholes: map<NodeId, Target>, partials: seq<EdgeTarget>, choice: Option<(Route, Target)>)
    requires CutOnStreet(wholes, partials, choice)
    ensures choice.Some?
    ensures var link := PlanLink(Street(), Accepted(), 2, SECOND, choice.value.0, choice.value.1);
      var made := CommunityAccess(2, Served, Some(SECOND), Some(link));
      && link.full == 10.0 && Filed(Street(), Accepted()[2 := made])
      && var walked := AccessToRoot(Street(), Accepted()[2 := made], link);
         walked.Some? && walked.value.length == 14.0
  {
    hide FrontierOf, Meets, Stands, Clean, PartialCut, RunsTo;
    StreetIsValid();
    StreetStands();
    var route := TheWay(wholes, partials, choice);
    OnlyCut(wholes, partials, route, choice);
    CutThere(route);
    CutIsMade(choice.value.0, choice.value.1);
  }

  lemma {:induction false} TheWay(
      wholes: map<NodeId, Target>, partials: seq<EdgeTarget>, choice: Option<(Route, Target)>) returns (route: Route)
    requires StreetContext().Valid() && SECOND.Valid(Street())
    requires Meets(StreetContext(), SECOND, wholes, partials, 0, choice)
    ensures route.edges == [1] && route.lengths == [8.0] && route.nodes == [AttachedTo(0), AtNode(0)]
    ensures FirstMeeting(Street(), SECOND, wholes, partials, 0, route, choice)
  {
    hide PartialCut, SetsOut, ShortestWay;
    WayExists();
    route :| FirstMeeting(Street(), SECOND, wholes, partials, 0, route, choice);
    EightMetres(route);
    OneEdgeBack(route);
  }

  lemma {:induction false} WayExists()
    requires StreetContext().Valid() && SECOND.Valid(Street())
    ensures !ShortestWay(Street(), SECOND, 0, None)
  {
    var net := RoleNet(Street(), Direct, true);
    var seeds := AttachmentSeeds(Street(), SECOND);
    BothSeeds();
    assert IsWalk(net, 0, [], 0) && Cost(net, []) == 0.0;
    forall walk | IsWalk(net, 0, walk, 0) ensures 0.0 <= Cost(net, walk) { CostNonNegative(net, walk); }
    assert IsDistance(net, 0, 0, 0.0);
    var back :| 0 <= back < |seeds| && seeds[back] == Seed(1, 0, 8.0);
    assert IsDistance(net, seeds[back].end, 0, 0.0);
  }

  /** The link made of that cut. */
  lemma {:induction false} CutIsMade(route: Route, t: Target)
    requires StreetContext().Valid() && SECOND.Valid(Street())
    requires Stands(Street(), Accepted(), 2) && Clean(Street(), Accepted())
    requires Planned(StreetContext(), Accepted(), SECOND, route, t)
    requires route.edges == [1] && route.lengths == [0.4 * 10.0] && route.length == 4.0
    requires StartTarget(StreetContext(), First()) == Some(EdgeTarget(0, 0.4, t))
    ensures var link := PlanLink(Street(), Accepted(), 2, SECOND, route, t);
      var made := CommunityAccess(2, Served, Some(SECOND), Some(link));
      && link.full == 10.0 && Filed(Street(), Accepted()[2 := made])
      && var walked := AccessToRoot(Street(), Accepted()[2 := made], link);
         walked.Some? && walked.value.length == 14.0
  {
    hide Stands, Clean, AccessToRoot, Plans;
    var link := PlanLink(Street(), Accepted(), 2, SECOND, route, t);
    var made := CommunityAccess(2, Served, Some(SECOND), Some(link));
    PlannedStands(StreetContext(), Accepted(), 2, 2, Served, SECOND, route, t);
    NewRecordWalk(Street(), Accepted(), 2, made);
    Twins(0.8);
    assert Tail(Street(), link, 0) == Piece(Street(), link, 0) + Tail(Street(), link, 1);
    assert Tail(Street(), link, 0) == 8.0;
  }
}

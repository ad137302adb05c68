/** Which pending community is offered next, and with which candidates. */
module Offers {
  import opened Options
  import opened Networks
  import opened RoadGraph
  import opened Frontier
  import opened FrontierTurns
  import opened FrontierSearch
  import opened Access
  import opened Journey
  import opened AccessFrontier
  import opened AttachmentRoutes
  import opened NewLinks
  import opened IntervalLinks
  import opened Townward
  import opened Standing

  /** How a candidate came about; `Gap` stands for a community no offer ever reached. */
  datatype CandidateId = Shortest | Comfort | TowardTown(town: int) | Gap

  datatype Candidate = Candidate(id: CandidateId, access: CommunityAccess)

  datatype Offer = Offer(community: CommunityId, candidates: seq<Candidate>)

  /** What was decided about an offered community. */
  datatype Ruling = Accepted(community: CommunityId, candidate: CandidateId) | Rejected(community: CommunityId)

  datatype Town = Town(id: int, node: NodeId)

  /** The first candidate of the list with the id. */
  function CandidateIn(list: seq<Candidate>, id: CandidateId): (found: Option<Candidate>)
    ensures found.Some? ==> found.value in list && found.value.id == id
    ensures found.None? ==> forall i | 0 <= i < |list| :: list[i].id != id
  {
    if list == [] then None else if list[0].id == id then Some(list[0]) else CandidateIn(list[1..], id)
  }

  /** Where ids are distinct, a candidate is found by its id. */
  lemma {:induction false} FoundById(list: seq<Candidate>, i: int)
    requires 0 <= i < |list| && forall j, k | 0 <= j < k < |list| :: list[j].id != list[k].id
    ensures CandidateIn(list, list[i].id) == Some(list[i])
  {
    if i > 0 { FoundById(list[1..], i - 1); }
  }

  ghost predicate TownsDiffer(towns: seq<Town>) {
    forall i, j | 0 <= i < j < |towns| :: towns[i].id != towns[j].id
  }

  /** Ids tell the candidates of an offer apart. */
  ghost predicate IdsDiffer(list: seq<Candidate>) {
    && (forall i, j | 0 <= i < j < |list| :: list[i].id != list[j].id)
    && (forall i | 0 <= i < |list| :: list[i].id != Gap)
  }

  /** Every candidate is the shortest, a comfort detour, or leads toward one of the first `k` towns. */
  ghost predicate IdsFrom(towns: seq<Town>, k: nat, list: seq<Candidate>)
    requires k <= |towns|
  {
    forall i | 0 <= i < |list| ::
      list[i].id == Shortest || list[i].id == Comfort || exists j :: 0 <= j < k && list[i].id == TowardTown(towns[j].id)
  }

  type Pending = map<CommunityId, Option<Attachment>>

  datatype FrontierCandidate = FrontierCandidate(id: CommunityId, attachment: Attachment, route: Route, target: Target)

  ghost predicate Attached(g: Graph, pending: Pending) {
    forall id <- pending :: pending[id].Some? ==> pending[id].value.Valid(g)
  }

  /** The searched frontier of the accepted records. */
  ghost predicate FrontierReady(
    ctx: Context, records: Records, wholes: map<NodeId, Target>, partials: seq<EdgeTarget>)
  {
    && ctx.Valid() && Filed(ctx.g, records) && FrontierOf(ctx, records, wholes, partials)
    && ctx.Instance(wholes, partials, None).Valid()
    && (forall n <- wholes :: TargetHolds(ctx.g, records, wholes[n]) && wholes[n].junction == AtNode(n))
    && (forall i | 0 <= i < |partials| ::
      TargetHolds(ctx.g, records, partials[i].target) && OnCycleableEdge(ctx.g, partials[i]))
  }

  /**
   What a community takes: the earliest place of an accepted path it lies beside, else the spine
   its edge carries, else the least link to the frontier.
   */
  ghost predicate Takes(ctx: Context, records: Records, inst: Frontier.Instance, a: Attachment, route: Route, t: Target)
    requires Filed(ctx.g, records) && inst.Valid() && 0 <= a.edge < |inst.g.edges|
  {
    if Beside(ctx.g, records, a) then EarliestInterval(ctx, records, a, Some((route, t)))
    else if a.edge in ctx.spineEdges then route.edges == [] && t.community.None?
      && t.terminal == Spine(ctx.spineEdges[a.edge])
    else LeastLink(inst, a, t, route.length)
  }

  ghost predicate LeastLink(inst: Frontier.Instance, a: Attachment, t: Target, length: real)
    requires inst.Valid() && 0 <= a.edge < |inst.g.edges|
  {
    && AttachmentJoins(inst, a, t, length)
    && forall t', total :: AttachmentJoins(inst, a, t', total) ==> !Better(total, t'.key, length, t.key)
  }

  /**
   A link of this length leads from the attachment: beside an accepted path the earliest choice,
   else any to the frontier.
   */
  ghost predicate LinkOf(ctx: Context, records: Records, inst: Frontier.Instance, a: Attachment, length: real)
    requires Filed(ctx.g, records) && inst.Valid() && 0 <= a.edge < |inst.g.edges|
  {
    if Beside(ctx.g, records, a) then exists choice ::
      EarliestInterval(ctx, records, a, Some(choice)) && choice.0.length == length
    else if a.edge in ctx.spineEdges then length == 0.0
    else exists t :: AttachmentJoins(inst, a, t, length)
  }

  /** What a community takes follows from the records, the frontier and its attachment. */
  ghost function ChoiceDue(
      ctx: Context, records: Records, inst: Frontier.Instance, a: Attachment): Option<(Route, Target)>
    requires Filed(ctx.g, records) && 0 <= a.edge < |inst.g.edges|
  {
    var beside := IntervalDue(ctx, records, a);
    if beside.Some? then beside else LinkVia(ctx, inst, SearchOf(inst), a)
  }

  /** The route a community would take: beside an accepted path if it can, else the shortest to the frontier. */
  method ChooseRoute(
      ctx: Context, records: Records, inst: Frontier.Instance, a: Attachment, s: Search, ghost rank: map<NodeId, nat>)
    returns (choice: Option<(Route, Target)>)
    requires Searched(ctx, records, inst, s, rank) && s == SearchOf(inst) && a.Valid(ctx.g) && inst.excluded.None?
    ensures choice.Some? ==> Planned(ctx, records, a, choice.value.0, choice.value.1)
    ensures choice.Some? ==> Takes(ctx, records, inst, a, choice.value.0, choice.value.1)
    ensures choice.Some? ==> LinkOf(ctx, records, inst, a, choice.value.0.length)
    ensures forall length :: LinkOf(ctx, records, inst, a, length) ==> choice.Some? && choice.value.0.length <= length
    ensures choice == ChoiceDue(ctx, records, inst, a)
  {
    hide IntervalDue, LinkVia, SearchOf, EarliestInterval, Beside, AttachmentJoins, Planned;
    choice := AcceptedIntervalRoute(ctx, records, a);
    if choice.Some? {
      forall length | LinkOf(ctx, records, inst, a, length) ensures choice.value.0.length == length {
        var other :| EarliestInterval(ctx, records, a, Some(other)) && other.0.length == length;
        EarliestIsOne(ctx, records, a, choice, Some(other));
      }
    } else {
      choice := RouteFromAttachment(ctx, records, inst, a, s, rank);
    }
  }

  /** No community of `done` has a link shorter than `best`'s, ids breaking ties. */
  ghost predicate Leads(
      ctx: Context, records: Records, inst: Frontier.Instance, pending: Pending, done: set<CommunityId>,
      best: Option<FrontierCandidate>)
    requires ctx.Valid() && Filed(ctx.g, records) && inst.Valid() && inst.g == ctx.g && Attached(ctx.g, pending)
      && done <= pending.Keys
  {
    && (best.Some? ==> LeaderStands(ctx, records, inst, pending, done, best.value))
    && (forall id <- done, length :: pending[id].Some? && LinkOf(ctx, records, inst, pending[id].value, length) ==>
          best.Some? && NotAfter(best.value.route.length, best.value.id, length, id))
    && (forall id <- done | pending[id].Some? ::
          var choice := ChoiceDue(ctx, records, inst, pending[id].value);
          choice.Some? ==> best.Some? && NotAfter(best.value.route.length, best.value.id, choice.value.0.length, id))
  }

  /** Shorter, or as long with no greater id. */
  predicate NotAfter(length: real, id: CommunityId, length': real, id': CommunityId) {
    length < length' || (length == length' && id <= id')
  }

  ghost predicate LeaderStands(
      ctx: Context, records: Records, inst: Frontier.Instance, pending: Pending, done: set<CommunityId>,
      best: FrontierCandidate)
    requires ctx.Valid() && Filed(ctx.g, records) && inst.Valid() && inst.g == ctx.g && Attached(ctx.g, pending)
      && done <= pending.Keys
  {
    && best.id in done && pending[best.id] == Some(best.attachment)
    && Planned(ctx, records, best.attachment, best.route, best.target)
    && Takes(ctx, records, inst, best.attachment, best.route, best.target)
    && LinkOf(ctx, records, inst, best.attachment, best.route.length)
    && ChoiceDue(ctx, records, inst, best.attachment) == Some((best.route, best.target))
  }

  /** There is one leader. */
  lemma {:induction false} LeaderIsOne(
    ctx: Context, records: Records, inst: Frontier.Instance, pending: Pending, b: Option<FrontierCandidate>,
      c: Option<FrontierCandidate>)
    requires ctx.Valid() && Filed(ctx.g, records) && inst.Valid() && inst.g == ctx.g && Attached(ctx.g, pending)
    requires Leads(ctx, records, inst, pending, pending.Keys, b) && Leads(ctx, records, inst, pending, pending.Keys, c)
    ensures b == c
  {
    hide LinkOf, Takes, Planned, ChoiceDue, GeometryAgrees;
    if b.Some? { assert c.Some?; }
    if c.Some? { assert b.Some?; }
  }

  /** Who leads follows from the records, the frontier and who is pending. */
  ghost function LeaderDue(
      ctx: Context, records: Records, inst: Frontier.Instance, pending: Pending): Option<FrontierCandidate>
    requires ctx.Valid() && Filed(ctx.g, records) && inst.Valid() && inst.g == ctx.g && Attached(ctx.g, pending)
  {
    if exists best :: Leads(ctx, records, inst, pending, pending.Keys, best) then
      var best :| Leads(ctx, records, inst, pending, pending.Keys, best);
      best
    else None
  }

  /** The pending community with the shortest new link. */
  method ShortestPending(
    ctx: Context, records: Records, inst: Frontier.Instance, pending: Pending, s: Search, ghost rank: map<NodeId, nat>)
    returns (best: Option<FrontierCandidate>)
    requires Searched(ctx, records, inst, s, rank) && s == SearchOf(inst) && inst.excluded.None?
      && Attached(ctx.g, pending)
    ensures Leads(ctx, records, inst, pending, pending.Keys, best) && best == LeaderDue(ctx, records, inst, pending)
  {
    best := None;
    var todo := pending.Keys;
    while exists id :: id in todo
      invariant todo <= pending.Keys && Leads(ctx, records, inst, pending, pending.Keys - todo, best)
      decreases todo
    {
      var id :| id in todo;
      ghost var done := pending.Keys - todo;
      todo := todo - {id};
      assert pending.Keys - todo == done + {id};
      if pending[id].Some? {
        best := Challenge(ctx, records, inst, pending, done, s, rank, id, best);
      }
    }
    assert pending.Keys - todo == pending.Keys;
    LeaderIsOne(ctx, records, inst, pending, best, LeaderDue(ctx, records, inst, pending));
  }

  /** Lets one more community challenge the best so far. */
  method Challenge(
    ctx: Context, records: Records, inst: Frontier.Instance, pending: Pending, ghost done: set<CommunityId>, s: Search,
    ghost rank: map<NodeId, nat>, id: CommunityId, before: Option<FrontierCandidate>)
      returns (best: Option<FrontierCandidate>)
    requires Searched(ctx, records, inst, s, rank) && s == SearchOf(inst) && inst.excluded.None?
      && Attached(ctx.g, pending)
    requires done <= pending.Keys && id in pending && pending[id].Some?
    requires Leads(ctx, records, inst, pending, done, before)
    ensures Leads(ctx, records, inst, pending, done + {id}, best)
  {
    hide Takes, LinkOf, Planned, ChoiceDue, SearchOf, AttachmentJoins, FrontierOf, GeometryAgrees, TargetHolds,
      OnCycleableEdge;
    var a := pending[id].value;
    var choice := ChooseRoute(ctx, records, inst, a, s, rank);
    best := before;
    if choice.Some? && (before.None? || choice.value.0.length < before.value.route.length
                        || (choice.value.0.length == before.value.route.length && id < before.value.id)) {
      best := Some(FrontierCandidate(id, a, choice.value.0, choice.value.1));
      assert LeaderStands(ctx, records, inst, pending, done + {id}, best.value);
    }
  }

  /** What the planner files under a candidate. */
  function PlanCandidate(
      g: Graph, records: Records, order: nat, id: CommunityId, a: Attachment, route: Route,
      t: Target): CommunityAccess {
    var status := if t.terminal.UrbanEntry? && t.community.None? then AtUrbanEntry
                  else if t.community.None? && route.edges == [] then OnSpine else Served;
    CommunityAccess(id, status, Some(a), Some(PlanLink(g, records, order, a, route, t)))
  }

  /** Every candidate of the offer can be accepted for its community as things stand. */
  ghost predicate OfferStands(g: Graph, records: Records, order: nat, pending: Pending, offer: Offer)
    requires Filed(g, records)
  {
    && offer.community in pending && offer.candidates != [] && offer.candidates[0].id == Shortest
      && IdsDiffer(offer.candidates)
    && forall i | 0 <= i < |offer.candidates| ::
         offer.candidates[i].access.id == offer.community && RecordStands(g, records, order, offer.candidates[i].access)
  }

  ghost predicate AllStand(g: Graph, records: Records, order: nat, id: CommunityId, list: seq<Candidate>)
    requires Filed(g, records)
  {
    forall i | 0 <= i < |list| :: list[i].access.id == id && RecordStands(g, records, order, list[i].access)
  }

  lemma {:induction false} PlanStands(
      ctx: Context, records: Records, order: nat, id: CommunityId, a: Attachment, route: Route, t: Target)
    requires ctx.Valid() && Stands(ctx.g, records, order) && a.Valid(ctx.g) && Planned(ctx, records, a, route, t)
    ensures RecordStands(ctx.g, records, order, PlanCandidate(ctx.g, records, order, id, a, route, t))
    ensures var access := PlanCandidate(ctx.g, records, order, id, a, route, t);
      access.id == id && access.link.Some? && access.link.value.path == route.edges
  {
    PlannedStands(ctx, records, order, id, PlanCandidate(ctx.g, records, order, id, a, route, t).status, a, route, t);
  }

  /** The path keeps off the edge, or only sets out on it because it is a reverse of the attached edge. */
  ghost predicate KeepsOff(g: Graph, a: Attachment, edge: EdgeId, path: seq<EdgeId>)
    requires 0 <= a.edge < |g.edges|
  {
    forall i | 0 <= i < |path| && path[i] == edge :: i == 0 && MayReturn(g, a, edge)
  }

  /** Part-way along the attached edge one may set out on this edge whatever the search avoids. */
  predicate MayReturn(g: Graph, a: Attachment, edge: EdgeId)
    requires 0 <= a.edge < |g.edges|
  {
    a.node.None? && IsReverse(g, a.edge, edge)
  }

  /** Each candidate goes round some edge of the shortest route and is not that route. */
  ghost predicate AllDetour(g: Graph, shortest: FrontierCandidate, list: seq<Candidate>)
    requires 0 <= shortest.attachment.edge < |g.edges|
  {
    forall i | 0 <= i < |list| ::
      list[i].id == Comfort && (list[i].access.link.Some? ==> Detour(g, shortest, list[i].access.link.value.path))
  }

  ghost predicate Detour(g: Graph, shortest: FrontierCandidate, path: seq<EdgeId>)
    requires 0 <= shortest.attachment.edge < |g.edges|
  {
    path != shortest.route.edges
    && exists k :: 0 <= k < |shortest.route.edges| && KeepsOff(g, shortest.attachment, shortest.route.edges[k], path)
  }

  /** The best way to the frontier that keeps off the edge, or none if the search without it finds none. */
  ghost predicate BestDetour(
    ctx: Context, records: Records, wholes: map<NodeId, Target>, partials: seq<EdgeTarget>, a: Attachment,
      excluded: EdgeId,
    choice: Option<(Route, Target)>)
    requires FrontierReady(ctx, records, wholes, partials) && a.Valid(ctx.g)
  {
    && (choice.Some? ==>
      Planned(ctx, records, a, choice.value.0, choice.value.1) && KeepsOff(ctx.g, a, excluded, choice.value.0.edges))
    && var inst := ctx.Instance(wholes, partials, Some(excluded));
       inst.Valid() && (choice.Some? && excluded in choice.value.0.edges <==> SetsOutOn(ctx, inst, a, excluded))
         && (a.edge == excluded ==> choice.None?) && (a.edge !in ctx.spineEdges && a.edge != excluded ==>
         forall t, total :: AttachmentJoins(inst, a, t, total) ==>
           choice.Some? && !Better(total, t.key, choice.value.0.length, choice.value.1.key))
  }

  /** Some candidate takes this path. */
  ghost predicate Taken(path: seq<EdgeId>, list: seq<Candidate>) {
    exists i :: 0 <= i < |list| && list[i].access.link.Some? && list[i].access.link.value.path == path
  }

  /** The best detour around the edge is listed, unless there is none or it is the shortest route. */
  ghost predicate DetourListed(
    ctx: Context, records: Records, wholes: map<NodeId, Target>, partials: seq<EdgeTarget>,
      shortest: FrontierCandidate, edge: EdgeId,
    list: seq<Candidate>)
    requires FrontierReady(ctx, records, wholes, partials) && shortest.attachment.Valid(ctx.g)
  {
    exists choice :: BestDetour(ctx, records, wholes, partials, shortest.attachment, edge, choice)
      && (choice.Some? && choice.value.0.edges != shortest.route.edges ==> Taken(choice.value.0.edges, list))
  }

  /** The detour around an edge follows from the frontier and the attachment. */
  ghost function DetourDue(
    ctx: Context, wholes: map<NodeId, Target>, partials: seq<EdgeTarget>, a: Attachment,
      excluded: EdgeId): Option<(Route, Target)>
    requires 0 <= a.edge < |ctx.g.edges|
  {
    var inst := ctx.Instance(wholes, partials, Some(excluded));
    LinkVia(ctx, inst, SearchOf(inst), a)
  }

  /** The detours around the first `k` edges of the shortest route. */
  ghost function DetoursDue(
    ctx: Context, records: Records, order: nat, wholes: map<NodeId, Target>, partials: seq<EdgeTarget>,
      shortest: FrontierCandidate, k: nat)
    : seq<Candidate>
    requires 0 <= shortest.attachment.edge < |ctx.g.edges| && k <= |shortest.route.edges|
  {
    if k == 0 then []
    else
      var before := DetoursDue(ctx, records, order, wholes, partials, shortest, k - 1);
      var choice := DetourDue(ctx, wholes, partials, shortest.attachment, shortest.route.edges[k - 1]);
      if choice.None? || choice.value.0.edges == shortest.route.edges then before
      else
        before
        + [Candidate(Comfort,
          PlanCandidate(ctx.g, records, order, shortest.id, shortest.attachment, choice.value.0, choice.value.1))]
  }

  /** Detours around each edge of the shortest route in turn, each the best that avoids the edge. */
  method Detours(
    ctx: Context, records: Records, order: nat, wholes: map<NodeId, Target>, partials: seq<EdgeTarget>,
      shortest: FrontierCandidate)
    returns (list: seq<Candidate>)
    requires FrontierReady(ctx, records, wholes, partials) && Stands(ctx.g, records, order)
      && shortest.attachment.Valid(ctx.g)
    ensures AllStand(ctx.g, records, order, shortest.id, list) && AllDetour(ctx.g, shortest, list)
    ensures forall k | 0 <= k < |shortest.route.edges| ::
      DetourListed(ctx, records, wholes, partials, shortest, shortest.route.edges[k], list)
    ensures list == DetoursDue(ctx, records, order, wholes, partials, shortest, |shortest.route.edges|)
  {
    hide DetourDue, PlanCandidate, DetourListed, Taken, Stands, BestDetour, Filed, GeometryAgrees, FrontierOf,
      OnCycleableEdge, Detour, TargetHolds, Planned, RecordStands;
    list := [];
    for k := 0 to |shortest.route.edges|
      invariant AllStand(ctx.g, records, order, shortest.id, list) && AllDetour(ctx.g, shortest, list)
      invariant forall j | 0 <= j < k ::
        DetourListed(ctx, records, wholes, partials, shortest, shortest.route.edges[j], list)
      invariant list == DetoursDue(ctx, records, order, wholes, partials, shortest, k)
    {
      var choice := DetourAround(ctx, records, wholes, partials, shortest.attachment, shortest.route.edges[k]);
      ghost var before := list;
      if choice.Some? && choice.value.0.edges != shortest.route.edges {
        var (route, t) := choice.value;
        DetourTaken(ctx, records, wholes, partials, shortest, k, choice);
        PlanStands(ctx, records, order, shortest.id, shortest.attachment, route, t);
        list := list + [Candidate(Comfort,
          PlanCandidate(ctx.g, records, order, shortest.id, shortest.attachment, route, t))];
        LastIsTaken(list);
      }
      DetourIsListed(ctx, records, wholes, partials, shortest, shortest.route.edges[k], choice, list);
      forall j | 0 <= j < k
        ensures DetourListed(ctx, records, wholes, partials, shortest, shortest.route.edges[j], list) {
        DetourStaysListed(ctx, records, wholes, partials, shortest, shortest.route.edges[j], before, list);
      }
    }
  }

  lemma {:induction false} TakenStays(path: seq<EdgeId>, before: seq<Candidate>, list: seq<Candidate>)
    requires before <= list && Taken(path, before)
    ensures Taken(path, list)
  {
    var i :| 0 <= i < |before| && before[i].access.link.Some? && before[i].access.link.value.path == path;
    assert list[i] == before[i];
  }

  lemma LastIsTaken(list: seq<Candidate>)
    requires list != [] && list[|list| - 1].access.link.Some?
    ensures Taken(list[|list| - 1].access.link.value.path, list)
  {
  }

  lemma DetourIsListed(
    ctx: Context, records: Records, wholes: map<NodeId, Target>, partials: seq<EdgeTarget>,
      shortest: FrontierCandidate, edge: EdgeId,
    choice: Option<(Route, Target)>, list: seq<Candidate>)
    requires FrontierReady(ctx, records, wholes, partials) && shortest.attachment.Valid(ctx.g)
    requires BestDetour(ctx, records, wholes, partials, shortest.attachment, edge, choice)
    requires choice.Some? && choice.value.0.edges != shortest.route.edges ==> Taken(choice.value.0.edges, list)
    ensures DetourListed(ctx, records, wholes, partials, shortest, edge, list)
  {
    hide BestDetour, Taken;
  }

  lemma {:induction false} DetourStaysListed(
    ctx: Context, records: Records, wholes: map<NodeId, Target>, partials: seq<EdgeTarget>,
      shortest: FrontierCandidate, edge: EdgeId,
    before: seq<Candidate>, list: seq<Candidate>)
    requires FrontierReady(ctx, records, wholes, partials) && shortest.attachment.Valid(ctx.g)
    requires before <= list && DetourListed(ctx, records, wholes, partials, shortest, edge, before)
    ensures DetourListed(ctx, records, wholes, partials, shortest, edge, list)
  {
    hide BestDetour, Taken;
    var choice :| BestDetour(ctx, records, wholes, partials, shortest.attachment, edge, choice)
      && (choice.Some? && choice.value.0.edges != shortest.route.edges ==> Taken(choice.value.0.edges, before));
    if choice.Some? && choice.value.0.edges != shortest.route.edges { TakenStays(choice.value.0.edges, before, list); }
  }

  lemma {:induction false} DetourTaken(
    ctx: Context, records: Records, wholes: map<NodeId, Target>, partials: seq<EdgeTarget>,
      shortest: FrontierCandidate, k: nat,
    choice: Option<(Route, Target)>)
    requires FrontierReady(ctx, records, wholes, partials) && shortest.attachment.Valid(ctx.g)
      && k < |shortest.route.edges|
    requires BestDetour(ctx, records, wholes, partials, shortest.attachment, shortest.route.edges[k], choice)
    requires choice.Some? && choice.value.0.edges != shortest.route.edges
    ensures Planned(ctx, records, shortest.attachment, choice.value.0, choice.value.1)
      && Detour(ctx.g, shortest, choice.value.0.edges)
  {
  }

  /** The shortest way to the frontier that keeps off the edge, ties going to the lesser key. */
  method DetourAround(
    ctx: Context, ghost records: Records, wholes: map<NodeId, Target>, partials: seq<EdgeTarget>, a: Attachment,
      excluded: EdgeId)
    returns (choice: Option<(Route, Target)>)
    requires FrontierReady(ctx, records, wholes, partials) && a.Valid(ctx.g)
    ensures BestDetour(ctx, records, wholes, partials, a, excluded, choice)
      && choice == DetourDue(ctx, wholes, partials, a, excluded)
  {
    hide LinkVia, SearchOf, Wins, GeometryAgrees, AttachmentJoins, Found, Plans, FrontierOf, TargetHolds;
    var inst := ctx.Instance(wholes, partials, Some(excluded));
    assert inst.Valid();
    ghost var rank;
    var s;
    s, rank := FrontierSearchExcluding(inst);
    choice := RouteFromAttachment(ctx, records, inst, a, s, rank);
  }

  /**
   Around an edge the attachment cannot return on, the best detour keeps off it altogether and
   is listed if there is one.  Around one it can return on, the best "detour" may be the
   shortest route over again, and then nothing is listed for it.
   */
  lemma {:induction false} TrueDetourListed(
    ctx: Context, records: Records, wholes: map<NodeId, Target>, partials: seq<EdgeTarget>,
      shortest: FrontierCandidate, edge: EdgeId,
    list: seq<Candidate>)
    requires FrontierReady(ctx, records, wholes, partials) && shortest.attachment.Valid(ctx.g)
    requires DetourListed(ctx, records, wholes, partials, shortest, edge, list)
    requires edge in shortest.route.edges && !MayReturn(ctx.g, shortest.attachment, edge)
    ensures exists choice :: (BestDetour(ctx, records, wholes, partials, shortest.attachment, edge, choice)
      && (choice.Some? ==> edge !in choice.value.0.edges && Taken(choice.value.0.edges, list)))
  {
    hide Taken, GeometryAgrees, FrontierOf, TargetHolds, OnCycleableEdge;
    var choice :| BestDetour(ctx, records, wholes, partials, shortest.attachment, edge, choice)
      && (choice.Some? && choice.value.0.edges != shortest.route.edges ==> Taken(choice.value.0.edges, list));
    if choice.Some? { assert edge !in choice.value.0.edges; }
  }

  /** What the way to the town yields is listed, if it yields anything. */
  ghost predicate TownListed(
    ctx: Context, a: Attachment, wholes: map<NodeId, Target>, partials: seq<EdgeTarget>, town: Town,
      list: seq<Candidate>)
    requires ctx.Valid() && a.Valid(ctx.g)
  {
    exists found ::
      Meets(ctx, a, wholes, partials, town.node, found) && (found.Some? ==> Taken(found.value.0.edges, list))
  }

  lemma {:induction false} TownStaysListed(
    ctx: Context, a: Attachment, wholes: map<NodeId, Target>, partials: seq<EdgeTarget>, town: Town,
      before: seq<Candidate>, list: seq<Candidate>)
    requires ctx.Valid() && a.Valid(ctx.g) && before <= list && TownListed(ctx, a, wholes, partials, town, before)
    ensures TownListed(ctx, a, wholes, partials, town, list)
  {
    hide Meets, Taken;
    var found :| Meets(ctx, a, wholes, partials, town.node, found)
      && (found.Some? ==> Taken(found.value.0.edges, before));
    if found.Some? { TakenStays(found.value.0.edges, before, list); }
  }

  lemma TownIdIsNew(towns: seq<Town>, k: nat, list: seq<Candidate>, c: Candidate)
    requires TownsDiffer(towns) && k < |towns| && IdsDiffer(list) && IdsFrom(towns, k, list)
      && c.id == TowardTown(towns[k].id)
    ensures IdsDiffer(list + [c]) && IdsFrom(towns, k + 1, list + [c])
  {
  }

  lemma IdsFromLater(towns: seq<Town>, list: seq<Candidate>)
    ensures forall k: nat | k < |towns| :: IdsFrom(towns, k, list) ==> IdsFrom(towns, k + 1, list)
  {
  }

  lemma DetourIdIsNew(towns: seq<Town>, first: Candidate, detour: Candidate)
    requires first.id == Shortest && detour.id == Comfort
    ensures IdsDiffer([first]) && IdsFrom(towns, 0, [first])
    ensures IdsDiffer([first, detour]) && IdsFrom(towns, 0, [first, detour])
  {
  }

  /** The candidate toward one town follows from the frontier. */
  ghost function TownDue(
    ctx: Context, records: Records, order: nat, wholes: map<NodeId, Target>, partials: seq<EdgeTarget>, town: Town,
      id: CommunityId,
    a: Attachment): Option<Candidate>
    requires 0 <= a.edge < |ctx.g.edges|
  {
    var found := MeetingDue(ctx, a, wholes, partials, town.node);
    if found.None? then None
    else Some(Candidate(TowardTown(town.id), PlanCandidate(ctx.g, records, order, id, a, found.value.0, found.value.1)))
  }

  predicate PathListed(list: seq<Candidate>, c: Candidate) {
    c.access.link.Some?
    && exists i :: (0 <= i < |list| && list[i].access.link.Some?
      && list[i].access.link.value.path == c.access.link.value.path)
  }

  /** The list with the candidates toward the first `k` towns whose paths were not listed yet. */
  ghost function TownsDue(
    ctx: Context, records: Records, order: nat, wholes: map<NodeId, Target>, partials: seq<EdgeTarget>,
      towns: seq<Town>, id: CommunityId,
    a: Attachment, before: seq<Candidate>, k: nat): seq<Candidate>
    requires 0 <= a.edge < |ctx.g.edges| && k <= |towns|
  {
    if k == 0 then before
    else
      var list := TownsDue(ctx, records, order, wholes, partials, towns, id, a, before, k - 1);
      var c := TownDue(ctx, records, order, wholes, partials, towns[k - 1], id, a);
      if c.None? || PathListed(list, c.value) then list else list + [c.value]
  }

  /** The candidate toward one town. */
  method TownwardCandidate(
    ctx: Context, records: Records, order: nat, wholes: map<NodeId, Target>, partials: seq<EdgeTarget>,
    town: Town, id: CommunityId, a: Attachment) returns (choice: Option<Candidate>)
    requires FrontierReady(ctx, records, wholes, partials) && Stands(ctx.g, records, order) && a.Valid(ctx.g)
    ensures choice.Some? ==>
      && choice.value.id == TowardTown(town.id) && choice.value.access.id == id
      && RecordStands(ctx.g, records, order, choice.value.access)
    ensures forall list :: (choice.Some? ==> Taken(choice.value.access.link.value.path, list)) ==>
      TownListed(ctx, a, wholes, partials, town, list)
    ensures choice == TownDue(ctx, records, order, wholes, partials, town, id, a)
  {
    hide MeetingDue, Meets, GeometryAgrees, FrontierOf, OnCycleableEdge, Taken;
    var found := DestinationCandidate(ctx, records, wholes, partials, a, town.node);
    if found.None? {
      return None;
    }
    var (route, t) := found.value;
    PlanStands(ctx, records, order, id, a, route, t);
    choice := Some(Candidate(TowardTown(town.id), PlanCandidate(ctx.g, records, order, id, a, route, t)));
  }

  /** From place `n` on, every candidate's path differs from all before it. */
  ghost predicate NewPathsDiffer(n: nat, list: seq<Candidate>) {
    forall i, j | 0 <= i < j < |list| && n <= j ::
      && list[i].access.link.Some? && list[j].access.link.Some?
      && list[i].access.link.value.path != list[j].access.link.value.path
  }

  lemma NoNewPaths(list: seq<Candidate>)
    ensures NewPathsDiffer(|list|, list)
  {
  }

  /** One candidate per town whose route crosses the frontier over a path not offered yet. */
  method TownwardCandidates(
    ctx: Context, records: Records, order: nat, wholes: map<NodeId, Target>, partials: seq<EdgeTarget>,
    towns: seq<Town>, id: CommunityId, a: Attachment, before: seq<Candidate>) returns (list: seq<Candidate>)
    requires FrontierReady(ctx, records, wholes, partials) && Stands(ctx.g, records, order) && a.Valid(ctx.g)
    requires AllStand(ctx.g, records, order, id, before) && TownsDiffer(towns) && IdsDiffer(before)
      && IdsFrom(towns, 0, before)
    ensures AllStand(ctx.g, records, order, id, list) && IdsDiffer(list)
    ensures before <= list && forall i | |before| <= i < |list| :: list[i].id.TowardTown?
    ensures NewPathsDiffer(|before|, list)
    ensures forall k | 0 <= k < |towns| :: TownListed(ctx, a, wholes, partials, towns[k], list)
    ensures list == TownsDue(ctx, records, order, wholes, partials, towns, id, a, before, |towns|)
  {
    hide TownDue, PathListed, NewPathsDiffer, AllStand, Stands, IdsDiffer, IdsFrom, TownsDiffer, TownListed, Filed,
      GeometryAgrees, FrontierOf,
         TargetHolds, OnCycleableEdge;
    NoNewPaths(before);
    list := before;
    for k := 0 to |towns|
      invariant AllStand(ctx.g, records, order, id, list) && IdsDiffer(list) && IdsFrom(towns, k, list)
      invariant before <= list && forall i | |before| <= i < |list| :: list[i].id.TowardTown?
      invariant NewPathsDiffer(|before|, list)
      invariant forall j | 0 <= j < k :: TownListed(ctx, a, wholes, partials, towns[j], list)
      invariant list == TownsDue(ctx, records, order, wholes, partials, towns, id, a, before, k)
    {
      ghost var sofar := list;
      list := AddTown(ctx, records, order, wholes, partials, towns, k, id, a, list);
      forall j | 0 <= j < k ensures TownListed(ctx, a, wholes, partials, towns[j], list) {
        TownStaysListed(ctx, a, wholes, partials, towns[j], sofar, list);
      }
    }
  }

  /** Adds the candidate toward one town, if it has one whose path is not listed yet. */
  method AddTown(
    ctx: Context, records: Records, order: nat, wholes: map<NodeId, Target>, partials: seq<EdgeTarget>,
    towns: seq<Town>, k: nat, id: CommunityId, a: Attachment, before: seq<Candidate>) returns (list: seq<Candidate>)
    requires FrontierReady(ctx, records, wholes, partials) && Stands(ctx.g, records, order) && a.Valid(ctx.g)
    requires AllStand(ctx.g, records, order, id, before) && TownsDiffer(towns) && k < |towns|
    requires IdsDiffer(before) && IdsFrom(towns, k, before)
    ensures AllStand(ctx.g, records, order, id, list) && IdsDiffer(list) && IdsFrom(towns, k + 1, list)
    ensures TownListed(ctx, a, wholes, partials, towns[k], list)
    ensures var c := TownDue(ctx, records, order, wholes, partials, towns[k], id, a);
      list == if c.None? || PathListed(before, c.value) then before else before + [c.value]
    ensures before <= list && forall i | |before| <= i < |list| :: list[i].id.TowardTown?
    ensures forall n: nat | n <= |before| && NewPathsDiffer(n, before) :: NewPathsDiffer(n, list)
  {
    hide TownDue, Stands, IdsDiffer, IdsFrom, TownsDiffer, Filed, TownListed, Taken, GeometryAgrees, FrontierOf,
      TargetHolds, OnCycleableEdge;
    list := before;
    IdsFromLater(towns, list);
    var choice := TownwardCandidate(ctx, records, order, wholes, partials, towns[k], id, a);
    if choice.Some? {
      if PathListed(list, choice.value) {
        ListedIsTaken(list, choice.value);
      } else {
        TownIdIsNew(towns, k, list, choice.value);
        list := list + [choice.value];
        PathIsTaken(ctx.g, records, order, id, list, |before|);
      }
    }
  }

  lemma ListedIsTaken(list: seq<Candidate>, c: Candidate)
    requires PathListed(list, c)
    ensures Taken(c.access.link.value.path, list)
  {
  }

  lemma {:induction false} PathIsTaken(
      g: Graph, records: Records, order: nat, id: CommunityId, list: seq<Candidate>, i: nat)
    requires Filed(g, records) && AllStand(g, records, order, id, list) && i < |list|
    ensures Taken(list[i].access.link.value.path, list)
  {
  }
}

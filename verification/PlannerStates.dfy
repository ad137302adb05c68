/**
 What the planner's state calls for, and how rulings change it.  Nothing is left to chance: the
 rulings settle the state, and the state settles the offer.
 */
module PlannerStates {
  import opened Options
  import opened Networks
  import opened RoadGraph
  import opened Frontier
  import opened Access
  import opened Journey
  import opened AccessFrontier
  import opened NewLinks
  import opened Standing
  import opened Offers

  /** What the planner is set up with: the towns to reach, and whether and which detour elevation evidence prefers. */
  datatype Setup = Setup(towns: seq<Town>, elevated: bool, prefer: seq<Candidate> -> int)

  /**
   Every rural community is pending or has exactly one record; the accepted records
   are filed under their communities, and rejected ones are accepted nowhere.
   */
  ghost predicate Conserved(
      rural: set<CommunityId>, pending: Pending, primary: Records, records: seq<CommunityAccess>) {
    && (forall i, j | 0 <= i < j < |records| :: records[i].id != records[j].id)
    && (forall i | 0 <= i < |records| :: records[i].id !in pending)
    && (forall id :: id in rural <==> id in pending || exists i :: 0 <= i < |records| && records[i].id == id)
    && (forall i | 0 <= i < |records| :: Filing(primary, records[i]))
    && (forall id <- primary :: primary[id].id == id && primary[id] in records)
  }

  ghost predicate Filing(primary: Records, r: CommunityAccess) {
    if r.link.Some? then r.id in primary && primary[r.id] == r else r.status == Unresolved && r.id !in primary
  }

  lemma {:induction false} PendingNotAccepted(
      rural: set<CommunityId>, pending: Pending, primary: Records, records: seq<CommunityAccess>, id: CommunityId)
    requires Conserved(rural, pending, primary, records) && id in pending
    ensures id !in primary
  {
    forall other <- primary ensures other != id {
      assert primary[other] in records;
    }
  }

  lemma {:induction false} AcceptConserves(
      rural: set<CommunityId>, pending: Pending, primary: Records, records: seq<CommunityAccess>, a: CommunityAccess)
    requires Conserved(rural, pending, primary, records) && a.id in pending && a.link.Some?
    ensures a.id !in primary
    ensures Conserved(rural, pending - {a.id}, primary[a.id := a], records + [a])
  {
    var records' := records + [a];
    PendingNotAccepted(rural, pending, primary, records, a.id);
    forall id ensures id in rural <==> id in pending - {a.id} || exists i ::
      0 <= i < |records'| && records'[i].id == id {
      if i :| 0 <= i < |records| && records[i].id == id { assert records'[i].id == id; }
      if id == a.id { assert records'[|records|].id == id; }
    }
    forall i | 0 <= i < |records'| ensures Filing(primary[a.id := a], records'[i]) {
      if i < |records| { assert Filing(primary, records[i]); }
    }
  }

  lemma {:induction false} RejectConserves(
      rural: set<CommunityId>, pending: Pending, primary: Records, records: seq<CommunityAccess>, a: CommunityAccess)
    requires Conserved(rural, pending, primary, records) && a.id in pending && a.link.None? && a.status == Unresolved
    ensures Conserved(rural, pending - {a.id}, primary, records + [a])
  {
    var records' := records + [a];
    PendingNotAccepted(rural, pending, primary, records, a.id);
    forall id ensures id in rural <==> id in pending - {a.id} || exists i ::
      0 <= i < |records'| && records'[i].id == id {
      if i :| 0 <= i < |records| && records[i].id == id { assert records'[i].id == id; }
      if id == a.id { assert records'[|records|].id == id; }
    }
    forall i | 0 <= i < |records'| ensures Filing(primary, records'[i]) {
      if i < |records| { assert Filing(primary, records[i]); }
    }
  }

  /**
   The offer's first candidate is a shortest new link over the frontier; with none, no pending
   community can be linked.
   */
  ghost predicate OfferLeads(
      ctx: Context, primary: Records, pending: Pending, inst: Frontier.Instance, offer: Option<Offer>)
    requires ctx.Valid() && Filed(ctx.g, primary) && inst.Valid() && inst.g == ctx.g && Attached(ctx.g, pending)
  {
    match offer
    case None => forall id <- pending, length :: pending[id].Some? ==>
      !LinkOf(ctx, primary, inst, pending[id].value, length)
    case Some(o) =>
      && o.community in pending && pending[o.community].Some? && o.candidates != [] && o.candidates[0].access.link.Some?
      && var length := o.candidates[0].access.link.value.newLink;
         && LinkOf(ctx, primary, inst, pending[o.community].value, length)
         && NoneShorter(ctx, primary, pending, inst, o.community, length)
  }

  /** No pending community has a new link over the frontier shorter than this one, ids breaking ties. */
  ghost predicate NoneShorter(
      ctx: Context, primary: Records, pending: Pending, inst: Frontier.Instance, community: CommunityId, length: real)
    requires ctx.Valid() && Filed(ctx.g, primary) && inst.Valid() && inst.g == ctx.g && Attached(ctx.g, pending)
  {
    forall id <- pending, other :: pending[id].Some? && LinkOf(ctx, primary, inst, pending[id].value, other) ==>
      length < other || (length == other && community <= id)
  }

  /** The candidate that stands for the leading community's shortest link. */
  function ShortestOf(g: Graph, primary: Records, order: nat, lead: FrontierCandidate): Candidate {
    Candidate(Shortest, PlanCandidate(g, primary, order, lead.id, lead.attachment, lead.route, lead.target))
  }

  /** An offer that opens with the leader's shortest link leads; without a leader there is nothing to offer. */
  lemma {:induction false} LeaderLeads(
    ctx: Context, primary: Records, order: nat, pending: Pending, inst: Frontier.Instance,
      best: Option<FrontierCandidate>)
    requires ctx.Valid() && Stands(ctx.g, primary, order) && inst.Valid() && inst.g == ctx.g && Attached(ctx.g, pending)
    requires Leads(ctx, primary, inst, pending, pending.Keys, best)
    ensures best.None? ==> OfferLeads(ctx, primary, pending, inst, None)
    ensures best.Some? ==>
      var first := ShortestOf(ctx.g, primary, order, best.value);
      && best.value.id in pending && best.value.attachment.Valid(ctx.g)
      && first.access.id == best.value.id && RecordStands(ctx.g, primary, order, first.access)
      && forall list: seq<Candidate> | list != [] && list[0] == first ::
        OfferLeads(ctx, primary, pending, inst, Some(Offer(best.value.id, list)))
  {
    hide Takes, LinkOf, Planned, RecordStands;
    if best.Some? {
      var lead := best.value;
      PlanStands(ctx, primary, order, lead.id, lead.attachment, lead.route, lead.target);
      assert NoneShorter(ctx, primary, pending, inst, lead.id, lead.route.length);
    }
  }

  /** The offer opens with the shortest link and the preferred detour, if there is one, and no town's way is missing. */
  ghost predicate Rounded(
    ctx: Context, setup: Setup, primary: Records, wholes: map<NodeId, Target>, partials: seq<EdgeTarget>,
      lead: FrontierCandidate,
    first: Candidate, list: seq<Candidate>)
    requires FrontierReady(ctx, primary, wholes, partials) && lead.attachment.Valid(ctx.g)
  {
    && (forall k | 0 <= k < |setup.towns| :: TownListed(ctx, lead.attachment, wholes, partials, setup.towns[k], list))
    && if setup.elevated && lead.route.edges != [] then
         exists detours ::
           AllDetours(ctx, primary, wholes, partials, lead, detours)
           && Opens(first, detours, setup.prefer(detours), list)
       else Opens(first, [], 0, list)
  }

  /** The best detours around the edges of the shortest route, none missing. */
  ghost predicate AllDetours(
    ctx: Context, primary: Records, wholes: map<NodeId, Target>, partials: seq<EdgeTarget>, lead: FrontierCandidate,
      detours: seq<Candidate>)
    requires FrontierReady(ctx, primary, wholes, partials) && lead.attachment.Valid(ctx.g)
  {
    && AllDetour(ctx.g, lead, detours)
    && forall k | 0 <= k < |lead.route.edges| ::
      DetourListed(ctx, primary, wholes, partials, lead, lead.route.edges[k], detours)
  }

  /** The list opens with the first candidate and, if one is preferred, that detour. */
  ghost predicate Opens(first: Candidate, detours: seq<Candidate>, best: int, list: seq<Candidate>) {
    var head := if 0 <= best < |detours| then [first, detours[best]] else [first];
    head <= list && forall i | |head| <= i < |list| :: list[i].id.TowardTown?
  }

  /** The frontier of a state. */
  ghost function InstanceDue(ctx: Context, primary: Records): Frontier.Instance
    requires Filed(ctx.g, primary)
  {
    var frontier := FrontierDue(ctx, primary);
    ctx.Instance(frontier.0, frontier.1, None)
  }

  /** The offer is the one the state calls for: its first candidate leads, and its others round it off. */
  ghost predicate OfferFrom(
    ctx: Context, setup: Setup, primary: Records, order: nat, pending: Pending, inst: Frontier.Instance,
      lead: Option<FrontierCandidate>,
    offer: Option<Offer>)
    requires ctx.Valid() && Filed(ctx.g, primary) && Attached(ctx.g, pending)
  {
    && FrontierReady(ctx, primary, inst.wholes, inst.partials) && inst == InstanceDue(ctx, primary)
    && OfferLeads(ctx, primary, pending, inst, offer)
    && Leads(ctx, primary, inst, pending, pending.Keys, lead) && offer.Some? == lead.Some?
    && (offer.Some? ==>
          && OfferStands(ctx.g, primary, order, pending, offer.value) && offer.value.community == lead.value.id
          && Rounded(ctx, setup, primary, inst.wholes, inst.partials, lead.value,
            ShortestOf(ctx.g, primary, order, lead.value),
                     offer.value.candidates))
  }

  /** The candidates the leader is offered with follow from the state. */
  ghost function CandidatesDue(
    ctx: Context, setup: Setup, primary: Records, order: nat, wholes: map<NodeId, Target>, partials: seq<EdgeTarget>,
      lead: FrontierCandidate)
    : seq<Candidate>
    requires 0 <= lead.attachment.edge < |ctx.g.edges|
  {
    var first := ShortestOf(ctx.g, primary, order, lead);
    var detours := if setup.elevated && lead.route.edges != [] then
                     DetoursDue(ctx, primary, order, wholes, partials, lead, |lead.route.edges|) else [];
    var best := if setup.elevated && lead.route.edges != [] then setup.prefer(detours) else 0;
    var head := if 0 <= best < |detours| then [first, detours[best]] else [first];
    TownsDue(ctx, primary, order, wholes, partials, setup.towns, lead.id, lead.attachment, head, |setup.towns|)
  }

  /** The offer of a state follows from it: community, ids, paths and all. */
  ghost function OfferDue(ctx: Context, setup: Setup, primary: Records, order: nat, pending: Pending): Option<Offer>
    requires ctx.Valid() && Filed(ctx.g, primary) && Attached(ctx.g, pending)
  {
    var inst := InstanceDue(ctx, primary);
    var lead := if inst.Valid() then LeaderDue(ctx, primary, inst, pending) else None;
    if lead.None? || !(0 <= lead.value.attachment.edge < |ctx.g.edges|) then None
    else Some(Offer(lead.value.id, CandidatesDue(ctx, setup, primary, order, inst.wholes, inst.partials, lead.value)))
  }

  /** The one offer the state calls for. */
  ghost predicate Current(
      ctx: Context, setup: Setup, primary: Records, order: nat, pending: Pending, offer: Option<Offer>)
    requires ctx.Valid() && Filed(ctx.g, primary) && Attached(ctx.g, pending)
  {
    && offer == OfferDue(ctx, setup, primary, order, pending)
    && exists inst, lead :: OfferFrom(ctx, setup, primary, order, pending, inst, lead, offer)
  }

  ghost predicate Lists(offer: Offer, id: CandidateId, access: CommunityAccess) {
    exists c <- offer.candidates :: c.id == id && c.access == access
  }

  lemma CurrentStands(ctx: Context, setup: Setup, primary: Records, order: nat, pending: Pending, offer: Offer)
    requires ctx.Valid() && Filed(ctx.g, primary) && Attached(ctx.g, pending)
      && Current(ctx, setup, primary, order, pending, Some(offer))
    ensures OfferStands(ctx.g, primary, order, pending, offer)
  {
  }

  /** The offer opens with what its community takes. */
  ghost predicate OpensWithChoice(ctx: Context, primary: Records, order: nat, pending: Pending, offer: Offer)
    requires ctx.Valid() && Filed(ctx.g, primary) && Attached(ctx.g, pending)
  {
    && InstanceDue(ctx, primary).g == ctx.g && offer.community in pending && pending[offer.community].Some?
    && var a := pending[offer.community].value;
       var choice := ChoiceDue(ctx, primary, InstanceDue(ctx, primary), a);
       choice.Some? && offer.candidates != [] && offer.candidates[0] ==
         Candidate(Shortest, PlanCandidate(ctx.g, primary, order, offer.community, a, choice.value.0, choice.value.1))
  }

  /** What community `id` takes, if anything, does not come before the offer. */
  ghost predicate ChoiceNotBefore(
      ctx: Context, primary: Records, pending: Pending, id: CommunityId, offer: Option<Offer>)
    requires ctx.Valid() && Filed(ctx.g, primary) && Attached(ctx.g, pending) && id in pending
  {
    pending[id].Some? && InstanceDue(ctx, primary).g == ctx.g ==>
      var choice := ChoiceDue(ctx, primary, InstanceDue(ctx, primary), pending[id].value);
      choice.Some? ==>
        && offer.Some? && offer.value.candidates != [] && offer.value.candidates[0].access.link.Some?
        && NotAfter(offer.value.candidates[0].access.link.value.newLink, offer.value.community,
          choice.value.0.length, id)
  }

  /**
   An offer takes the least of the choices of those pending, by length and then id; each choice is
   its community's own.
   */
  lemma {:induction false} OfferIsLeastChoice(
    ctx: Context, setup: Setup, primary: Records, order: nat, pending: Pending, offer: Option<Offer>)
    requires ctx.Valid() && Filed(ctx.g, primary) && Attached(ctx.g, pending)
      && Current(ctx, setup, primary, order, pending, offer)
    ensures offer.Some? ==> OpensWithChoice(ctx, primary, order, pending, offer.value)
    ensures forall id <- pending :: ChoiceNotBefore(ctx, primary, pending, id, offer)
  {
    hide FrontierOf, FrontierDue, TargetHolds, OnCycleableEdge, OfferLeads, LinkOf, Takes, Planned, ChoiceDue,
      GeometryAgrees, OfferDue;
    var inst, lead :| OfferFrom(ctx, setup, primary, order, pending, inst, lead, offer);
    if offer.Some? { assert offer.value.candidates[0] == ShortestOf(ctx.g, primary, order, lead.value); }
  }

  /**
   Rejecting an offer leaves what every other community takes as it was: route, target and
   all.  So the next offer opens with a choice its community had before, the least of those left.
   */
  lemma {:induction false} RejectLeavesChoices(
    ctx: Context, setup: Setup, primary: Records, order: nat, pending: Pending, offer: Offer, next: Option<Offer>)
    requires ctx.Valid() && Filed(ctx.g, primary) && Attached(ctx.g, pending) && offer.community in pending
    requires Current(ctx, setup, primary, order, pending, Some(offer))
    requires Current(ctx, setup, primary, order, pending - {offer.community}, next)
    ensures next.Some? ==>
      next.value.community != offer.community && OpensWithChoice(ctx, primary, order, pending, next.value)
    ensures forall id <- pending | id != offer.community :: ChoiceNotBefore(ctx, primary, pending, id, next)
  {
    hide Current, InstanceDue, ChoiceDue, GeometryAgrees;
    var rest := pending - {offer.community};
    OfferIsLeastChoice(ctx, setup, primary, order, rest, next);
    forall id <- pending | id != offer.community ensures ChoiceNotBefore(ctx, primary, pending, id, next) {
      assert ChoiceNotBefore(ctx, primary, rest, id, next);
    }
  }

  /** Rejecting an offer only takes its community away: what is offered next is no shorter, ids breaking ties. */
  lemma {:induction false} NextOfferNoShorter(
      ctx: Context, setup: Setup, primary: Records, order: nat, pending: Pending, offer: Offer, next: Offer)
    requires ctx.Valid() && Filed(ctx.g, primary) && Attached(ctx.g, pending)
    requires Current(ctx, setup, primary, order, pending, Some(offer)) && offer.community in pending
    requires Current(ctx, setup, primary, order, pending - {offer.community}, Some(next)) && next.community in pending
    requires pending[next.community].Some?
    ensures offer.candidates != [] && offer.candidates[0].access.link.Some? && next.candidates != []
      && next.candidates[0].access.link.Some?
    ensures var (l, l') := (offer.candidates[0].access.link.value.newLink,
      next.candidates[0].access.link.value.newLink);
      l < l' || (l == l' && offer.community < next.community)
  {
    hide FrontierOf, FrontierDue, TargetHolds, OnCycleableEdge, Rounded, OfferStands, Leads, LinkOf, GeometryAgrees,
      OfferDue;
    var rest := pending - {offer.community};
    var inst, lead :| OfferFrom(ctx, setup, primary, order, pending, inst, lead, Some(offer));
    var inst', lead' :| OfferFrom(ctx, setup, primary, order, rest, inst', lead', Some(next));
    var longer := next.candidates[0].access.link.value.newLink;
    ShorterThanOther(ctx, primary, pending, inst, offer.community, offer.candidates[0].access.link.value.newLink,
                     next.community, longer);
  }

  lemma ShorterThanOther(
    ctx: Context, primary: Records, pending: Pending, inst: Frontier.Instance, community: CommunityId, length: real,
    other: CommunityId, longer: real)
    requires ctx.Valid() && Filed(ctx.g, primary) && inst.Valid() && inst.g == ctx.g && Attached(ctx.g, pending)
    requires NoneShorter(ctx, primary, pending, inst, community, length)
    requires other in pending && other != community && pending[other].Some?
      && LinkOf(ctx, primary, inst, pending[other].value, longer)
    ensures length < longer || (length == longer && community < other)
  {
  }

  // Rulings and the states they lead to.

  datatype PlannerState = PlannerState(pending: Pending, primary: Records, records: seq<CommunityAccess>, order: nat)

  /** An accepted record is filed and its community no longer pending. */
  function Admitted(st: PlannerState, access: CommunityAccess): PlannerState {
    PlannerState(st.pending - {access.id}, st.primary[access.id := access], st.records + [access], st.order + 1)
  }

  /** A rejected community is decided without a link. */
  function TurnedDown(st: PlannerState, id: CommunityId): PlannerState
    requires id in st.pending
  {
    PlannerState(st.pending - {id}, st.primary, st.records + [CommunityAccess(id, Unresolved, st.pending[id], None)],
      st.order)
  }

  ghost predicate CurrentAt(ctx: Context, setup: Setup, st: PlannerState, offer: Option<Offer>) {
    && ctx.Valid() && Stands(ctx.g, st.primary, st.order) && Attached(ctx.g, st.pending)
    && Current(ctx, setup, st.primary, st.order, st.pending, offer)
  }

  /** The ruling is on the offer and leads to the next state. */
  predicate Rules(st: PlannerState, offer: Offer, ruling: Ruling, next: PlannerState) {
    && ruling.community == offer.community && offer.community in st.pending
    && match ruling
       case Accepted(_, id) =>
         var found := CandidateIn(offer.candidates, id);
         found.Some? && next == Admitted(st, found.value.access)
       case Rejected(_) => next == TurnedDown(st, offer.community)
  }

  ghost predicate RuledNext(ctx: Context, setup: Setup, st: PlannerState, ruling: Ruling, next: PlannerState) {
    exists offer :: CurrentAt(ctx, setup, st, Some(offer)) && Rules(st, offer, ruling, next)
  }

  /** The rulings, each on the offer of its state, lead from all places pending to `st`. */
  ghost predicate RulingsLeadTo(ctx: Context, setup: Setup, places: Pending, rulings: seq<Ruling>, st: PlannerState)
    decreases |rulings|
  {
    if rulings == [] then st == PlannerState(places, map[], [], 1)
    else
      var before := rulings[..|rulings| - 1];
      var last := rulings[|rulings| - 1];
      exists prior :: RulingsLeadTo(ctx, setup, places, before, prior) && RuledNext(ctx, setup, prior, last, st)
  }

  /** The rulings settle the state. */
  lemma {:induction false} RuledIsOne(
      ctx: Context, setup: Setup, places: Pending, rulings: seq<Ruling>, st: PlannerState, other: PlannerState)
    requires RulingsLeadTo(ctx, setup, places, rulings, st) && RulingsLeadTo(ctx, setup, places, rulings, other)
    ensures st == other
    decreases |rulings|
  {
    hide RuledNext;
    if rulings != [] {
      var (before, last) := (rulings[..|rulings| - 1], rulings[|rulings| - 1]);
      var prior :| RulingsLeadTo(ctx, setup, places, before, prior) && RuledNext(ctx, setup, prior, last, st);
      var prior' :| RulingsLeadTo(ctx, setup, places, before, prior') && RuledNext(ctx, setup, prior', last, other);
      RuledIsOne(ctx, setup, places, before, prior, prior');
      NextIsOne(ctx, setup, prior, last, st, other);
    }
  }

  lemma {:induction false} NextIsOne(
    ctx: Context, setup: Setup, st: PlannerState, ruling: Ruling, next: PlannerState, other: PlannerState)
    requires RuledNext(ctx, setup, st, ruling, next) && RuledNext(ctx, setup, st, ruling, other)
    ensures next == other
  {
    hide CurrentAt;
    var offer :| CurrentAt(ctx, setup, st, Some(offer)) && Rules(st, offer, ruling, next);
    var offer' :| CurrentAt(ctx, setup, st, Some(offer')) && Rules(st, offer', ruling, other);
    OfferIsOne(ctx, setup, st, Some(offer), Some(offer'));
  }

  /** The state settles the offer. */
  lemma OfferIsOne(ctx: Context, setup: Setup, st: PlannerState, offer: Option<Offer>, other: Option<Offer>)
    requires CurrentAt(ctx, setup, st, offer) && CurrentAt(ctx, setup, st, other)
    ensures offer == other
  {
    hide OfferDue, OfferFrom, Stands;
  }

  /** The rulings are the planner's: everyone ruled on is decided, and the accepted are those with a primary record. */
  ghost predicate RulingsOf(pending: Pending, primary: Records, rulings: seq<Ruling>) {
    && (forall i | 0 <= i < |rulings| :: rulings[i].community !in pending)
    && (forall id <- primary :: exists i :: 0 <= i < |rulings| && rulings[i].Accepted? && rulings[i].community == id)
  }

  /** All that holds of a state the rulings lead to. */
  ghost predicate Proper(ctx: Context, places: Pending, rulings: seq<Ruling>, st: PlannerState) {
    && Stands(ctx.g, st.primary, st.order) && st.order >= 1 && Attached(ctx.g, st.pending)
    && Conserved(places.Keys, st.pending, st.primary, st.records) && RulingsOf(st.pending, st.primary, rulings)
  }

  /** One more ruling keeps a state proper. */
  lemma {:induction false} RulingKeeps(
    ctx: Context, setup: Setup, places: Pending, rulings: seq<Ruling>, st: PlannerState, offer: Offer,
      ruling: Ruling, next: PlannerState)
    requires Proper(ctx, places, rulings, st) && CurrentAt(ctx, setup, st, Some(offer))
      && Rules(st, offer, ruling, next)
    ensures Proper(ctx, places, rulings + [ruling], next)
  {
    hide Current, Conserved, GeometryAgrees, RecordStands, RulingsOf, CandidateIn;
    CurrentStands(ctx, setup, st.primary, st.order, st.pending, offer);
    RulingsGrow(st.pending, st.primary, rulings, ruling);
    match ruling
    case Accepted(_, id) =>
      var access := CandidateIn(offer.candidates, id).value.access;
      CandidateStands(ctx.g, st, offer, id);
      AcceptConserves(places.Keys, st.pending, st.primary, st.records, access);
      AcceptKeepsStanding(ctx.g, st.primary, st.order, access);
      AcceptedIsRuled(st.pending, st.primary, rulings, ruling, access);
    case Rejected(_) =>
      RejectConserves(places.Keys, st.pending, st.primary, st.records,
                      CommunityAccess(offer.community, Unresolved, st.pending[offer.community], None));
  }

  lemma {:induction false} CandidateStands(g: Graph, st: PlannerState, offer: Offer, id: CandidateId)
    requires Filed(g, st.primary) && OfferStands(g, st.primary, st.order, st.pending, offer)
      && CandidateIn(offer.candidates, id).Some?
    ensures var access := CandidateIn(offer.candidates, id).value.access;
      access.id == offer.community && RecordStands(g, st.primary, st.order, access) && access.link.Some?
  {
    hide OwesParent, IdsDiffer;
    var i :| 0 <= i < |offer.candidates| && offer.candidates[i] == CandidateIn(offer.candidates, id).value;
  }

  lemma {:induction false} RulingsGrow(pending: Pending, primary: Records, rulings: seq<Ruling>, ruling: Ruling)
    requires RulingsOf(pending, primary, rulings)
    ensures RulingsOf(pending - {ruling.community}, primary, rulings + [ruling])
  {
    var longer := rulings + [ruling];
    forall id <- primary ensures exists i :: 0 <= i < |longer| && longer[i].Accepted? && longer[i].community == id {
      var i :| 0 <= i < |rulings| && rulings[i].Accepted? && rulings[i].community == id;
      assert longer[i] == rulings[i];
    }
  }

  lemma {:induction false} AcceptedIsRuled(
      pending: Pending, primary: Records, rulings: seq<Ruling>, ruling: Ruling, access: CommunityAccess)
    requires RulingsOf(pending - {ruling.community}, primary, rulings + [ruling]) && ruling.Accepted?
      && access.id == ruling.community
    ensures RulingsOf(pending - {ruling.community}, primary[access.id := access], rulings + [ruling])
  {
    assert (rulings + [ruling])[|rulings|] == ruling;
  }

  /** Whatever the rulings, the state they lead to is proper. */
  lemma {:induction false} RuledIsProper(
      ctx: Context, setup: Setup, places: Pending, rulings: seq<Ruling>, st: PlannerState)
    requires ctx.Valid() && Attached(ctx.g, places) && RulingsLeadTo(ctx, setup, places, rulings, st)
    ensures Proper(ctx, places, rulings, st)
    decreases |rulings|
  {
    hide CurrentAt, Rules, GeometryAgrees;
    if rulings != [] {
      var (before, last) := (rulings[..|rulings| - 1], rulings[|rulings| - 1]);
      var prior :| RulingsLeadTo(ctx, setup, places, before, prior) && RuledNext(ctx, setup, prior, last, st);
      var offer :| CurrentAt(ctx, setup, prior, Some(offer)) && Rules(prior, offer, last, st);
      RuledIsProper(ctx, setup, places, before, prior);
      RulingKeeps(ctx, setup, places, before, prior, offer, last, st);
      assert before + [last] == rulings;
    }
  }

  lemma {:induction false} NextRuled(
    ctx: Context, setup: Setup, places: Pending, rulings: seq<Ruling>, st: PlannerState, offer: Offer,
      ruling: Ruling, next: PlannerState)
    requires ctx.Valid() && Proper(ctx, places, rulings, st) && RulingsLeadTo(ctx, setup, places, rulings, st)
    requires Current(ctx, setup, st.primary, st.order, st.pending, Some(offer)) && Rules(st, offer, ruling, next)
    ensures RulingsLeadTo(ctx, setup, places, rulings + [ruling], next) && Proper(ctx, places, rulings + [ruling], next)
  {
    hide Current, Conserved, GeometryAgrees, RulingsOf, Rules;
    RulingKeeps(ctx, setup, places, rulings, st, offer, ruling, next);
    assert CurrentAt(ctx, setup, st, Some(offer));
    RuledOnce(ctx, setup, places, rulings, st, ruling, next);
  }

  lemma {:induction false} RuledOnce(
    ctx: Context, setup: Setup, places: Pending, rulings: seq<Ruling>, st: PlannerState, ruling: Ruling,
      next: PlannerState)
    requires RulingsLeadTo(ctx, setup, places, rulings, st) && RuledNext(ctx, setup, st, ruling, next)
    ensures RulingsLeadTo(ctx, setup, places, rulings + [ruling], next)
  {
    hide RuledNext;
    var longer := rulings + [ruling];
    assert longer[..|longer| - 1] == rulings && longer[|longer| - 1] == ruling;
  }

  lemma ComputedIsCurrent(
    ctx: Context, setup: Setup, primary: Records, order: nat, pending: Pending, inst: Frontier.Instance,
      lead: Option<FrontierCandidate>,
    offer: Option<Offer>)
    requires ctx.Valid() && Filed(ctx.g, primary) && Attached(ctx.g, pending)
    requires OfferFrom(ctx, setup, primary, order, pending, inst, lead, offer)
      && offer == OfferDue(ctx, setup, primary, order, pending)
    ensures Current(ctx, setup, primary, order, pending, offer)
  {
    hide OfferFrom, OfferDue;
  }

  /** What is offered after these rulings. */
  ghost function OfferAfter(ctx: Context, setup: Setup, places: Pending, rulings: seq<Ruling>): Option<Offer> {
    if exists st, offer :: RulingsLeadTo(ctx, setup, places, rulings, st) && CurrentAt(ctx, setup, st, Some(offer)) then
      var st, offer :| RulingsLeadTo(ctx, setup, places, rulings, st) && CurrentAt(ctx, setup, st, Some(offer));
      Some(offer)
    else None
  }

  lemma {:induction false} OfferAfterIs(
      ctx: Context, setup: Setup, places: Pending, rulings: seq<Ruling>, st: PlannerState, offer: Option<Offer>)
    requires RulingsLeadTo(ctx, setup, places, rulings, st) && CurrentAt(ctx, setup, st, offer)
    ensures OfferAfter(ctx, setup, places, rulings) == offer
  {
    hide RulingsLeadTo, CurrentAt;
    forall st', offer' | RulingsLeadTo(ctx, setup, places, rulings, st') && CurrentAt(ctx, setup, st', Some(offer'))
      ensures Some(offer') == offer {
      RuledIsOne(ctx, setup, places, rulings, st, st');
      OfferIsOne(ctx, setup, st, offer, Some(offer'));
    }
  }

  // The final records.

  ghost predicate Ascending(all: seq<CommunityAccess>) {
    forall i, j | 0 <= i < j < |all| :: all[i].id < all[j].id
  }

  /** In community order, exactly the records decided and a gap for each community still pending. */
  ghost predicate Final(st: PlannerState, all: seq<CommunityAccess>) {
    && Ascending(all)
    && forall r :: r in all <==>
         r in st.records || (r.id in st.pending && r == CommunityAccess(r.id, NetworkGap, st.pending[r.id], None))
  }

  lemma {:induction false} AscendingOnce(all: seq<CommunityAccess>, other: seq<CommunityAccess>)
    requires Ascending(all) && Ascending(other) && forall r :: r in all <==> r in other
    ensures all == other
  {
    assert other != [] ==> other[0] in all;
    if all != [] {
      assert all[0] in other;
      var (rest, rest') := (all[1..], other[1..]);
      assert all[0] == other[0];
      assert all == [all[0]] + rest && other == [other[0]] + rest';
      forall r ensures r in rest <==> r in rest' {
        WithoutFirst(all, r);
        WithoutFirst(other, r);
      }
      AscendingOnce(rest, rest');
    }
  }

  lemma {:induction false} WithoutFirst(all: seq<CommunityAccess>, r: CommunityAccess)
    requires Ascending(all) && all != []
    ensures r in all[1..] <==> r in all && r != all[0]
  {
    if i :| 0 <= i < |all[1..]| && all[1..][i] == r { assert all[i + 1] == r; }
    if i :| 0 < i < |all| && all[i] == r { assert all[1..][i - 1] == r; }
  }

  ghost function RecordsAfter(
      ctx: Context, setup: Setup, places: Pending, rulings: seq<Ruling>): (all: seq<CommunityAccess>)
    ensures Ascending(all)
  {
    if exists st, all :: RulingsLeadTo(ctx, setup, places, rulings, st) && Final(st, all) then
      var st, all :| RulingsLeadTo(ctx, setup, places, rulings, st) && Final(st, all);
      all
    else []
  }

  lemma {:induction false} RecordsAfterIs(
    ctx: Context, setup: Setup, places: Pending, rulings: seq<Ruling>, st: PlannerState, all: seq<CommunityAccess>)
    requires RulingsLeadTo(ctx, setup, places, rulings, st) && Final(st, all)
    ensures RecordsAfter(ctx, setup, places, rulings) == all
  {
    hide RulingsLeadTo;
    forall st', all' | RulingsLeadTo(ctx, setup, places, rulings, st') && Final(st', all') ensures all' == all {
      RuledIsOne(ctx, setup, places, rulings, st, st');
      AscendingOnce(all, all');
    }
  }

  lemma {:induction false} OnePerCommunity(
      rural: set<CommunityId>, pending: Pending, primary: Records, records: seq<CommunityAccess>,
      all: seq<CommunityAccess>)
    requires Conserved(rural, pending, primary, records)
    requires forall r :: r in all <==>
      r in records || (r.id in pending && r == CommunityAccess(r.id, NetworkGap, pending[r.id], None))
    ensures forall id :: id in rural <==> exists i :: 0 <= i < |all| && all[i].id == id
  {
    forall id ensures id in rural <==> exists i :: 0 <= i < |all| && all[i].id == id {
      if id in rural {
        var r := if id in pending then CommunityAccess(id, NetworkGap, pending[id], None)
                 else var i :| 0 <= i < |records| && records[i].id == id; records[i];
        assert r in all;
      }
      if i :| 0 <= i < |all| && all[i].id == id { assert all[i] in all; }
    }
  }
}

/** The rural access planner: offers one community at a time and files what is decided. */
module Planner {
  import opened Options
  import opened Networks
  import opened Frontier
  import opened FrontierTurns
  import opened FrontierSearch
  import opened Access
  import opened Journey
  import opened AccessFrontier
  import opened Standing
  import opened Offers
  import opened PlannerStates

  datatype PlannerError = NoOffer | NotOffered

  datatype Result<+T> = Ok(value: T) | Err(error: PlannerError)

  class RuralAccessPlanner {
    const ctx: Context
    const setup: Setup
    /** The rural communities as they were given. */
    ghost const places: Pending
    var pending: Pending
    var primary: Records
    var records: seq<CommunityAccess>
    var order: nat
    var cached: Option<Offer>
    var exhausted: bool
    /** What was ruled so far. */
    ghost var rulings: seq<Ruling>

    ghost function State(): PlannerState
      reads this
    {
      PlannerState(pending, primary, records, order)
    }

    ghost predicate Valid()
      reads this
    {
      && ctx.Valid() && Attached(ctx.g, pending) && TownsDiffer(setup.towns) && order >= 1
      && Proper(ctx, places, rulings, State())
      && RulingsLeadTo(ctx, setup, places, rulings, State())
      && (cached.Some? ==> Current(ctx, setup, primary, order, pending, cached))
      && (exhausted ==> Current(ctx, setup, primary, order, pending, None))
    }

    constructor (ctx: Context, setup: Setup, places: Pending)
      requires ctx.Valid() && Attached(ctx.g, places) && TownsDiffer(setup.towns)
      ensures Valid() && this.ctx == ctx && this.setup == setup && this.places == places && rulings == []
      ensures pending == places && primary == map[] && records == [] && cached.None? && !exhausted
    {
      this.ctx, this.setup := ctx, setup;
      this.places, rulings := places, [];
      pending, primary, records, order, cached, exhausted := places, map[], [], 1, None, false;
    }

    /** The frontier of the accepted records, searched, and the pending community nearest to it. */
    method Leader(
        ) returns (wholes: map<NodeId, Target>, partials: seq<EdgeTarget>, ghost inst: Frontier.Instance,
        best: Option<FrontierCandidate>)
      requires Valid()
      ensures inst == ctx.Instance(wholes, partials, None) && inst.Valid()
        && FrontierReady(ctx, primary, wholes, partials)
      ensures Leads(ctx, primary, inst, pending, pending.Keys, best)
      ensures (wholes, partials) == FrontierDue(ctx, primary) && best == LeaderDue(ctx, primary, inst, pending)
    {
      hide RulingsLeadTo, Conserved, RulingsOf, Current, FrontierDue, LeaderDue, SearchOf, TargetHolds,
        OnCycleableEdge, GeometryAgrees, Leads;
      wholes, partials := FrontierTargets(ctx, primary);
      FrontierHolds(ctx, primary, wholes, partials);
      var whole := ctx.Instance(wholes, partials, None);
      ghost var rank;
      var s;
      s, rank := FrontierSearchExcluding(whole);
      inst := whole;
      best := ShortestPending(ctx, primary, whole, pending, s, rank);
    }

    /**
     Computes the offer for the state: the leading community with its shortest link, a detour and
     the ways to town.
     */
    method ComputeOffer(
        ) returns (offer: Option<Offer>, ghost inst: Frontier.Instance, ghost lead: Option<FrontierCandidate>)
      requires Valid()
      ensures OfferFrom(ctx, setup, primary, order, pending, inst, lead, offer)
      ensures offer == OfferDue(ctx, setup, primary, order, pending)
    {
      hide RulingsLeadTo, Conserved, RulingsOf, Current, FrontierDue, LeaderDue, CandidatesDue, Rounded,
        FrontierReady, Leads, OfferLeads, Stands, PlanCandidate, TargetHolds, OnCycleableEdge, GeometryAgrees;
      var wholes, partials, best;
      wholes, partials, inst, best := Leader();
      lead := best;
      LeaderLeads(ctx, primary, order, pending, inst, best);
      if best.None? {
        return None, inst, lead;
      }
      var candidates := Candidates(ShortestOf(ctx.g, primary, order, best.value), best.value, wholes, partials);
      offer := Some(Offer(best.value.id, candidates));
    }

    /** The other candidates offered beside the shortest. */
    method Candidates(first: Candidate, lead: FrontierCandidate, wholes: map<NodeId, Target>, partials: seq<EdgeTarget>)
      returns (list: seq<Candidate>)
      requires Valid() && FrontierReady(ctx, primary, wholes, partials) && lead.attachment.Valid(ctx.g)
      requires first.id == Shortest && first.access.id == lead.id && RecordStands(ctx.g, primary, order, first.access)
      ensures AllStand(ctx.g, primary, order, lead.id, list) && list != [] && list[0] == first && IdsDiffer(list)
      ensures Rounded(ctx, setup, primary, wholes, partials, lead, first, list)
      ensures first == ShortestOf(ctx.g, primary, order, lead) ==>
        list == CandidatesDue(ctx, setup, primary, order, wholes, partials, lead)
    {
      hide RulingsLeadTo, Conserved, RulingsOf, Current, RecordStands, DetoursDue, TownsDue, IdsDiffer, IdsFrom,
        Filed, TownListed, DetourListed;
      list := [first];
      DetourIdIsNew(setup.towns, first, first.(id := Comfort));
      var detours, best := [], 0;
      if setup.elevated && lead.route.edges != [] {
        detours := Detours(ctx, primary, order, wholes, partials, lead);
        best := setup.prefer(detours);
        if 0 <= best < |detours| {
          DetourIdIsNew(setup.towns, first, detours[best]);
          list := [first, detours[best]];
        }
      }
      list := TownwardCandidates(ctx, primary, order, wholes, partials, setup.towns, lead.id, lead.attachment, list);
      assert Opens(first, detours, best, list);
    }

    /** The current offer, computed once per state. */
    method OfferNext() returns (offer: Option<Offer>)
      requires Valid()
      modifies this`cached, this`exhausted
      ensures Valid() && Current(ctx, setup, primary, order, pending, offer)
      ensures offer == OfferAfter(ctx, setup, places, rulings)
      ensures old(cached).Some? ==> offer == old(cached)
      ensures cached == offer || (offer.None? && cached == old(cached))
    {
      hide RulingsLeadTo, Conserved, Current, GeometryAgrees, OfferAfter, OfferFrom, OfferDue, Filed, RecordStands;
      if cached.Some? {
        OfferAfterIs(ctx, setup, places, rulings, State(), cached);
        return cached;
      }
      if exhausted {
        OfferAfterIs(ctx, setup, places, rulings, State(), None);
        return None;
      }
      ghost var inst, lead;
      offer, inst, lead := ComputeOffer();
      ComputedIsCurrent(ctx, setup, primary, order, pending, inst, lead, offer);
      OfferAfterIs(ctx, setup, places, rulings, State(), offer);
      if offer.Some? {
        cached := offer;
      } else {
        exhausted := true;
      }
    }

    /** Accepts a candidate of the current offer: its community is decided and its path joins the frontier. */
    method Accept(id: CandidateId) returns (r: Result<CommunityAccess>)
      requires Valid()
      modifies this
      ensures Valid()
      ensures r.Err? ==> State() == old(State()) && rulings == old(rulings)
      ensures r.Ok? ==>
        State() == Admitted(old(State()), r.value) && rulings == old(rulings) + [Accepted(r.value.id, id)]
      ensures r.Ok? ==> RecordStands(ctx.g, old(primary), old(order), r.value)
      ensures r.Ok? ==> r.value.id in old(pending) && pending == old(pending) - {r.value.id} && order == old(order) + 1
      ensures r.Ok? ==>
        primary == old(primary)[r.value.id := r.value] && records == old(records) + [r.value] && cached.None?
        && !exhausted
      ensures r.Ok? ==> exists offer ::
        Current(ctx, setup, old(primary), old(order), old(pending), Some(offer)) && Lists(offer, id, r.value)
      ensures r == Err(NotOffered) ==>
        exists offer :: Current(ctx, setup, primary, order, pending, Some(offer)) && forall c <- offer.candidates ::
          c.id != id
      ensures r == Err(NoOffer) ==> Current(ctx, setup, primary, order, pending, None)
      ensures r.Ok? && old(cached).Some? ==> Lists(old(cached).value, id, r.value)
    {
      hide Current, RulingsLeadTo, Conserved, GeometryAgrees, RecordStands;
      var offer := OfferNext();
      if offer.None? {
        return Err(NoOffer);
      }
      CurrentStands(ctx, setup, primary, order, pending, offer.value);
      var found := FindCandidate(offer.value.candidates, id);
      if found.None? {
        return Err(NotOffered);
      }
      Admit(found.value, offer.value, id);
      r := Ok(found.value);
    }

    /** Files an accepted record and opens its path to later communities. */
    method Admit(access: CommunityAccess, ghost offer: Offer, ghost id: CandidateId)
      requires Valid() && Current(ctx, setup, primary, order, pending, Some(offer)) && offer.community in pending
      requires CandidateIn(offer.candidates, id).Some? && CandidateIn(offer.candidates, id).value.access == access
      requires access.id == offer.community
      modifies this
      ensures Valid() && State() == Admitted(old(State()), access)
        && rulings == old(rulings) + [Accepted(access.id, id)]
      ensures cached.None? && !exhausted
    {
      hide Current, RulingsLeadTo, Conserved, GeometryAgrees, Stands;
      NextRuled(ctx, setup, places, rulings, State(), offer, Accepted(access.id, id), Admitted(State(), access));
      rulings := rulings + [Accepted(access.id, id)];
      pending := pending - {access.id};
      primary := primary[access.id := access];
      records := records + [access];
      order := order + 1;
      cached, exhausted := None, false;
    }

    /** Rejects the current offer: its community is decided without a link and joins nothing. */
    method Reject() returns (r: Result<CommunityAccess>)
      requires Valid()
      modifies this
      ensures Valid() && primary == old(primary) && order == old(order)
      ensures r.Err? ==> pending == old(pending) && records == old(records) && rulings == old(rulings)
      ensures r.Ok? ==> r.value.id in old(pending) && State() == TurnedDown(old(State()), r.value.id)
      ensures r.Ok? ==> rulings == old(rulings) + [Rejected(r.value.id)]
      ensures r.Ok? ==>
        && r.value.id in old(pending)
          && r.value == CommunityAccess(r.value.id, Unresolved, old(pending)[r.value.id], None)
        && pending == old(pending) - {r.value.id} && records == old(records) + [r.value]
        && cached.None? && !exhausted
      ensures r.Ok? ==> exists offer ::
        Current(ctx, setup, old(primary), old(order), old(pending), Some(offer)) && offer.community == r.value.id
      ensures r.Err? ==> r == Err(NoOffer) && Current(ctx, setup, primary, order, pending, None)
      ensures r.Ok? && old(cached).Some? ==> r.value.id == old(cached).value.community
    {
      hide Current, RulingsLeadTo, Conserved, GeometryAgrees, RecordStands, IdsDiffer, TownsDiffer;
      var offer := OfferNext();
      if offer.None? {
        return Err(NoOffer);
      }
      CurrentStands(ctx, setup, primary, order, pending, offer.value);
      var id := offer.value.community;
      var access := CommunityAccess(id, Unresolved, pending[id], None);
      NextRuled(ctx, setup, places, rulings, State(), offer.value, Rejected(id), TurnedDown(State(), id));
      rulings := rulings + [Rejected(id)];
      pending := pending - {id};
      records := records + [access];
      cached, exhausted := None, false;
      r := Ok(access);
    }

    /** The final records in community order: those decided, and a gap for each community still pending. */
    method IntoRecords() returns (all: seq<CommunityAccess>)
      requires Valid()
      ensures forall i, j | 0 <= i < j < |all| :: all[i].id < all[j].id
      ensures forall id :: id in places <==> exists i :: 0 <= i < |all| && all[i].id == id
      ensures all == RecordsAfter(ctx, setup, places, rulings)
      ensures forall r :: r in all <==>
        r in records || (r.id in pending && r == CommunityAccess(r.id, NetworkGap, pending[r.id], None))
    {
      hide RulingsLeadTo, RecordsAfter, Stands, Current, GeometryAgrees;
      all := [];
      for i := 0 to |records|
        invariant forall j, k | 0 <= j < k < |all| :: all[j].id < all[k].id
        invariant forall r :: r in all <==> r in records[..i]
      {
        assert records[..i + 1] == records[..i] + [records[i]];
        all := InsertById(all, records[i]);
      }
      assert records[..|records|] == records;
      var todo := pending.Keys;
      while exists id :: id in todo
        invariant todo <= pending.Keys
        invariant forall j, k | 0 <= j < k < |all| :: all[j].id < all[k].id
        invariant forall r :: r in all <==>
          r in records || (r.id in pending.Keys - todo && r == CommunityAccess(r.id, NetworkGap, pending[r.id], None))
        decreases todo
      {
        var id :| id in todo;
        todo := todo - {id};
        all := InsertById(all, CommunityAccess(id, NetworkGap, pending[id], None));
      }
      assert todo == {};
      OnePerCommunity(places.Keys, pending, primary, records, all);
      RecordsAfterIs(ctx, setup, places, rulings, State(), all);
    }
  }

  method FindCandidate(list: seq<Candidate>, id: CandidateId) returns (found: Option<CommunityAccess>)
    ensures found.None? <==> forall i | 0 <= i < |list| :: list[i].id != id
    ensures found == if CandidateIn(list, id).None? then None else Some(CandidateIn(list, id).value.access)
  {
    for i := 0 to |list|
      invariant (forall j | 0 <= j < i :: list[j].id != id) && CandidateIn(list, id) == CandidateIn(list[i..], id)
    {
      if list[i].id == id {
        return Some(list[i].access);
      }
    }
    return None;
  }

  method InsertById(list: seq<CommunityAccess>, r: CommunityAccess) returns (list': seq<CommunityAccess>)
    requires forall j, k | 0 <= j < k < |list| :: list[j].id < list[k].id
    requires forall x <- list :: x.id != r.id
    ensures forall j, k | 0 <= j < k < |list'| :: list'[j].id < list'[k].id
    ensures forall x :: x in list' <==> x in list || x == r
  {
    var i := 0;
    while i < |list| && list[i].id < r.id
      invariant 0 <= i <= |list| && forall k | 0 <= k < i :: list[k].id < r.id
    {
      i := i + 1;
    }
    list' := list[..i] + [r] + list[i..];
    assert list == list[..i] + list[i..];
    if i < |list| { assert list[i] in list; }
  }
}

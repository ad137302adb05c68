/**
 What the planner keeps whatever the graph is like: every community stays pending or is decided
 once, and each ends with one record.
 */
module Partition {
  import opened Options
  import opened Networks
  import opened Frontier
  import opened Access
  import opened AccessFrontier
  import opened AttachmentRoutes
  import opened Offers
  import opened PlannerStates

  /** Every candidate is a linked record of the community. */
  predicate AllLink(id: CommunityId, list: seq<Candidate>) {
    forall i | 0 <= i < |list| :: list[i].access.id == id && list[i].access.link.Some?
  }

  /** However the graph is drawn and measured, a leader is put together nothing but linked records of its own. */
  lemma {:induction false} CandidatesLink(
    ctx: Context, setup: Setup, primary: Records, order: nat, wholes: map<NodeId, Target>, partials: seq<EdgeTarget>,
      lead: FrontierCandidate)
    requires 0 <= lead.attachment.edge < |ctx.g.edges|
    ensures AllLink(lead.id, CandidatesDue(ctx, setup, primary, order, wholes, partials, lead))
  {
    hide DetoursDue, TownsDue;
    var detours := if setup.elevated && lead.route.edges != [] then
                     DetoursDue(ctx, primary, order, wholes, partials, lead, |lead.route.edges|) else [];
    DetoursLink(ctx, primary, order, wholes, partials, lead, |lead.route.edges|);
    var best := if setup.elevated && lead.route.edges != [] then setup.prefer(detours) else 0;
    var first := ShortestOf(ctx.g, primary, order, lead);
    var head := if 0 <= best < |detours| then [first, detours[best]] else [first];
    TownsLink(ctx, primary, order, wholes, partials, setup.towns, lead.id, lead.attachment, head, |setup.towns|);
  }

  lemma {:induction false} DetoursLink(
    ctx: Context, records: Records, order: nat, wholes: map<NodeId, Target>, partials: seq<EdgeTarget>,
      shortest: FrontierCandidate, k: nat)
    requires 0 <= shortest.attachment.edge < |ctx.g.edges| && k <= |shortest.route.edges|
    ensures AllLink(shortest.id, DetoursDue(ctx, records, order, wholes, partials, shortest, k))
  {
    hide DetourDue;
    if k > 0 { DetoursLink(ctx, records, order, wholes, partials, shortest, k - 1); }
  }

  lemma TownLinks(
    ctx: Context, records: Records, order: nat, wholes: map<NodeId, Target>, partials: seq<EdgeTarget>, town: Town,
      id: CommunityId, a: Attachment)
    requires 0 <= a.edge < |ctx.g.edges|
    ensures var c := TownDue(ctx, records, order, wholes, partials, town, id, a);
      c.Some? ==> c.value.access.id == id && c.value.access.link.Some?
  {
    hide PlanLink;
  }

  lemma {:induction false} TownsLink(
    ctx: Context, records: Records, order: nat, wholes: map<NodeId, Target>, partials: seq<EdgeTarget>,
      towns: seq<Town>, id: CommunityId, a: Attachment, before: seq<Candidate>, k: nat)
    requires 0 <= a.edge < |ctx.g.edges| && k <= |towns| && AllLink(id, before)
    ensures AllLink(id, TownsDue(ctx, records, order, wholes, partials, towns, id, a, before, k))
  {
    hide TownDue, PathListed;
    if k > 0 {
      TownsLink(ctx, records, order, wholes, partials, towns, id, a, before, k - 1);
      TownLinks(ctx, records, order, wholes, partials, towns[k - 1], id, a);
    }
  }

  /** The rulings lead from all places pending to `st`, whatever linked candidates each was offered. */
  ghost predicate RuledOnLinks(places: Pending, rulings: seq<Ruling>, st: PlannerState)
    decreases |rulings|
  {
    if rulings == [] then st == PlannerState(places, map[], [], 1)
    else
      var before := rulings[..|rulings| - 1];
      var last := rulings[|rulings| - 1];
      exists prior :: RuledOnLinks(places, before, prior) && RuledOnLink(prior, last, st)
  }

  ghost predicate RuledOnLink(st: PlannerState, ruling: Ruling, next: PlannerState) {
    exists offer: Offer :: AllLink(offer.community, offer.candidates) && Rules(st, offer, ruling, next)
  }

  /** Ruling by ruling, the communities stay divided into those pending and those with one record each. */
  lemma {:induction false} RulingsConserve(places: Pending, rulings: seq<Ruling>, st: PlannerState)
    requires RuledOnLinks(places, rulings, st)
    ensures Conserved(places.Keys, st.pending, st.primary, st.records)
    ensures RulingsOf(st.pending, st.primary, rulings)
    decreases |rulings|
  {
    hide Conserved, RulingsOf, RuledOnLink;
    if rulings == [] {
      AllPending(places);
    } else {
      var (before, last) := (rulings[..|rulings| - 1], rulings[|rulings| - 1]);
      var prior :| RuledOnLinks(places, before, prior) && RuledOnLink(prior, last, st);
      RulingsConserve(places, before, prior);
      LinkConserves(places, before, prior, last, st);
      assert before + [last] == rulings;
    }
  }

  lemma AllPending(places: Pending)
    ensures Conserved(places.Keys, places, map[], []) && RulingsOf(places, map[], [])
  {
  }

  lemma {:induction false} LinkConserves(
      places: Pending, rulings: seq<Ruling>, st: PlannerState, ruling: Ruling, next: PlannerState)
    requires Conserved(places.Keys, st.pending, st.primary, st.records) && RulingsOf(st.pending, st.primary, rulings)
    requires RuledOnLink(st, ruling, next)
    ensures Conserved(places.Keys, next.pending, next.primary, next.records)
    ensures RulingsOf(next.pending, next.primary, rulings + [ruling])
  {
    hide Conserved, RulingsOf;
    var offer: Offer :| AllLink(offer.community, offer.candidates) && Rules(st, offer, ruling, next);
    RulingsGrow(st.pending, st.primary, rulings, ruling);
    match ruling
    case Accepted(_, id) =>
      var access := CandidateIn(offer.candidates, id).value.access;
      AcceptConserves(places.Keys, st.pending, st.primary, st.records, access);
      AcceptedIsRuled(st.pending, st.primary, rulings, ruling, access);
    case Rejected(_) =>
      RejectConserves(places.Keys, st.pending, st.primary, st.records,
                      CommunityAccess(offer.community, Unresolved, st.pending[offer.community], None));
  }

  /** So the final records hold each community exactly once, in order. */
  lemma {:induction false} OneRecordEach(
      places: Pending, rulings: seq<Ruling>, st: PlannerState, all: seq<CommunityAccess>)
    requires RuledOnLinks(places, rulings, st) && Final(st, all)
    ensures forall i, j | 0 <= i < j < |all| :: all[i].id < all[j].id
    ensures forall id :: id in places <==> exists i :: 0 <= i < |all| && all[i].id == id
    ensures forall r <- all :: r.link.Some? <==> r.id in st.primary && st.primary[r.id] == r
  {
    RulingsConserve(places, rulings, st);
    OnePerCommunity(places.Keys, st.pending, st.primary, st.records, all);
    forall r <- all ensures r.link.Some? <==> r.id in st.primary && st.primary[r.id] == r {
      FiledOrNot(places, st, r);
    }
  }

  lemma {:induction false} FiledOrNot(places: Pending, st: PlannerState, r: CommunityAccess)
    requires Conserved(places.Keys, st.pending, st.primary, st.records)
    requires r in st.records || (r.id in st.pending && r == CommunityAccess(r.id, NetworkGap, st.pending[r.id], None))
    ensures r.link.Some? <==> r.id in st.primary && st.primary[r.id] == r
  {
    if r in st.records {
      var i :| 0 <= i < |st.records| && st.records[i] == r;
      assert Filing(st.primary, st.records[i]);
    } else {
      PendingNotAccepted(places.Keys, st.pending, st.primary, st.records, r.id);
    }
  }

  /** The planner's own rulings are of this kind. */
  lemma {:induction false} PlannerRulesOnLinks(
      ctx: Context, setup: Setup, places: Pending, rulings: seq<Ruling>, st: PlannerState)
    requires RulingsLeadTo(ctx, setup, places, rulings, st)
    ensures RuledOnLinks(places, rulings, st)
    decreases |rulings|
  {
    hide CurrentAt, Rules;
    if rulings != [] {
      var (before, last) := (rulings[..|rulings| - 1], rulings[|rulings| - 1]);
      var prior :| RulingsLeadTo(ctx, setup, places, before, prior) && RuledNext(ctx, setup, prior, last, st);
      var offer :| CurrentAt(ctx, setup, prior, Some(offer)) && Rules(prior, offer, last, st);
      PlannerRulesOnLinks(ctx, setup, places, before, prior);
      OfferLinks(ctx, setup, prior, offer);
      assert RuledOnLink(prior, last, st);
    }
  }

  lemma {:induction false} OfferLinks(ctx: Context, setup: Setup, st: PlannerState, offer: Offer)
    requires CurrentAt(ctx, setup, st, Some(offer))
    ensures AllLink(offer.community, offer.candidates)
  {
    hide OfferFrom, LeaderDue, CandidatesDue, FrontierDue;
    var inst := InstanceDue(ctx, st.primary);
    CandidatesLink(ctx, setup, st.primary, st.order, inst.wholes, inst.partials,
      LeaderDue(ctx, st.primary, inst, st.pending).value);
  }
}

/** The planner as a decision run sees it: a function of the selected alignments and the rulings. */
module PlannerSoundness {
  import opened Options
  import opened RoadGraph
  import opened Frontier
  import opened Access
  import opened AccessFrontier
  import opened Standing
  import opened Offers
  import opened RuralChoice
  import opened Decisions
  import opened PlannerStates
  import opened Script
  import opened SpineTargets

  /** An offer that stands names a community not yet ruled on, with distinct candidates under accepted parents. */
  lemma {:induction false} StandingOfferIsSound(
    g: Graph, rural: set<CommunityId>, pending: Pending, primary: Records, records: seq<CommunityAccess>, order: nat,
      offer: Offer,
    rulings: seq<Ruling>)
    requires Stands(g, primary, order) && Conserved(rural, pending, primary, records)
    requires OfferStands(g, primary, order, pending, offer) && RulingsOf(pending, primary, rulings)
    ensures SoundOffer(rural, rulings, offer)
  {
    hide PathSound;
    forall i | 0 <= i < |offer.candidates| ensures ParentAccepted(rulings, offer.candidates[i].access) {
      assert RecordStands(g, primary, order, offer.candidates[i].access);
    }
  }

  /** The report's first alignment with the id. */
  function AlignmentIn(report: seq<Alignment>, id: AlignmentId): (found: Option<Alignment>)
    ensures found.Some? ==> found.value in report && found.value.id == id
  {
    if report == [] then None else if report[0].id == id then Some(report[0]) else AlignmentIn(report[1..], id)
  }

  /** The selected alignments the report shows, in order of selection. */
  function Chosen(report: seq<Alignment>, selected: seq<AlignmentId>): seq<Alignment> {
    if selected == [] then []
    else
      var first := AlignmentIn(report, selected[0]);
      (if first.Some? then [first.value] else []) + Chosen(report, selected[1..])
  }

  /** The context with the selected alignments among its spines, as `AddSelectedAlignmentTargets` leaves them. */
  function WithSelected(base: Context, report: seq<Alignment>, selected: seq<AlignmentId>): Context {
    var edges := EdgesWith(base.g, base.spineEdges, Chosen(report, selected));
    base.(spineEdges := edges, spineNodes := NodesOf(base.g, edges))
  }

  /** What the planner works on, by the alignments selected. */
  ghost function WorldOf(base: Context, report: seq<Alignment>): seq<AlignmentId> -> Context {
    selected => WithSelected(base, report, selected)
  }

  /**
   What the planner class offers and ends with after the rulings (`OfferNext`, `IntoRecords`),
   the selected alignments having been put among its targets.
   */
  ghost function RuralOf(world: seq<AlignmentId> -> Context, setup: Setup, places: Pending, profiles: Profiles): Rural {
    Script.Rural.Rural(places.Keys,
          (selected: seq<AlignmentId>, rulings: seq<Ruling>) => OfferAfter(world(selected), setup, places, rulings),
          (selected: seq<AlignmentId>, rulings: seq<Ruling>) => RecordsAfter(world(selected), setup, places, rulings),
          profiles)
  }

  /** Whatever was ruled, what the planner offers next is sound. */
  lemma {:induction false} OfferAfterIsSound(ctx: Context, setup: Setup, places: Pending, rulings: seq<Ruling>)
    requires ctx.Valid() && Attached(ctx.g, places) && OfferAfter(ctx, setup, places, rulings).Some?
    ensures SoundOffer(places.Keys, rulings, OfferAfter(ctx, setup, places, rulings).value)
  {
    hide RulingsLeadTo, Current, SoundOffer, Conserved, RulingsOf, GeometryAgrees;
    var st, offer :| RulingsLeadTo(ctx, setup, places, rulings, st) && CurrentAt(ctx, setup, st, Some(offer));
    OfferAfterIs(ctx, setup, places, rulings, st, Some(offer));
    RuledIsProper(ctx, setup, places, rulings, st);
    CurrentStands(ctx, setup, st.primary, st.order, st.pending, offer);
    StandingOfferIsSound(ctx.g, places.Keys, st.pending, st.primary, st.records, st.order, offer, rulings);
  }

  /** So the planner is all that a run relies on. */
  lemma {:induction false} RuralOfIsSound(
      world: seq<AlignmentId> -> Context, setup: Setup, places: Pending, profiles: Profiles)
    requires forall selected :: world(selected).Valid() && Attached(world(selected).g, places)
    ensures RuralOf(world, setup, places, profiles).Sound()
  {
    hide SoundOffer, Context.Valid, Attached, OfferAfter, RecordsAfter;
    var rural := RuralOf(world, setup, places, profiles);
    forall selected, rulings | rural.offers(selected, rulings).Some?
      ensures SoundOffer(rural.places, rulings, rural.offers(selected, rulings).value)
    {
      OfferAfterIsSound(world(selected), setup, places, rulings);
    }
    forall selected, rulings, i, j | 0 <= i < j < |rural.records(selected, rulings)|
      ensures rural.records(selected, rulings)[i].id != rural.records(selected, rulings)[j].id
    {
      assert Ascending(RecordsAfter(world(selected), setup, places, rulings));
    }
  }

  /**
   A run whose planner works on the base's spines and the alignments the run selected, with a
   report that shows no access yet, meets all that the run's theorems ask.
   */
  lemma {:induction false} PlannedRunIsSound(
      w: World, base: Context, report: seq<Alignment>, setup: Setup, places: Pending, profiles: Profiles)
    requires base.Valid() && Attached(base.g, places) && w.shown == []
    requires w.rural == Some(RuralOf(WorldOf(base, report), setup, places, profiles))
    ensures w.Sound()
  {
    hide Rural.Sound, RuralOf, EdgesWith, NodesOf, Chosen, Attached;
    var world := WorldOf(base, report);
    forall selected ensures world(selected).Valid() && Attached(world(selected).g, places) {
      SpinesAside(base, report, selected);
    }
    RuralOfIsSound(world, setup, places, profiles);
  }

  /** Which spines there are has no say in whether a context is valid. */
  lemma SpinesAside(base: Context, report: seq<Alignment>, selected: seq<AlignmentId>)
    requires base.Valid()
    ensures WithSelected(base, report, selected).Valid() && WithSelected(base, report, selected).g == base.g
  {
    hide EdgesWith, NodesOf, Chosen;
  }
}

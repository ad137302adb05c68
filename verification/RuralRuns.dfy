/** The rural part of a run: offers until the planner has none, then the communities it never reached. */
module RuralRuns {
  import opened Options
  import opened Offers
  import opened Decisions
  import opened History
  import opened Script
  import opened Course
  import opened Lookups
  import opened Attempts
  import opened Settling
  import opened Midend
  import opened Runs

  /** The branch follows the course with these decisions, all of its connections among them. */
  ghost predicate InRural(w: World, rural: Rural, chain: seq<Entry>, ops: seq<Operation>) {
    w.rural == Some(rural) && Toward(w, chain, ops) && AllConnected(w, ops, |w.connections|)
  }

  lemma {:induction false} RuralNext(w: World, rural: Rural, ops: seq<Operation>)
    requires w.rural == Some(rural) && AllConnected(w, ops, |w.connections|)
    ensures NextTask(w, ops) == NextRural(w, rural, ops)
  {
    assert FirstOpen(w.connections, DoneConnections(ops)) == |w.connections|;
  }

  /** A rural decision leaves the connections and the selected alignments as they were. */
  lemma {:induction false} RuralAdds(w: World, ops: seq<Operation>, op: Operation)
    requires op.IsRural()
    ensures Selected(ops + [op]) == Selected(ops)
    ensures Rulings(ops + [op]) == Rulings(ops) + if op.candidate != Gap then [RulingOf(op)] else []
    ensures DoneCommunities(ops + [op]) == DoneCommunities(ops) + {op.community}
    ensures AllConnected(w, ops, |w.connections|) ==> AllConnected(w, ops + [op], |w.connections|)
  {
    assert (ops + [op])[..|ops|] == ops;
    DoneGrows(ops, op);
  }

  lemma {:induction false} OfferNotGap(w: World, rural: Rural, ops: seq<Operation>, op: Operation)
    requires w.Sound() && w.rural == Some(rural) && AllConnected(w, ops, |w.connections|) && Ordained(w, ops + [op])
    ensures op.IsRural()
    ensures op.candidate != Gap <==> rural.offers(Selected(ops), Rulings(ops)).Some?
  {
    hide Decision;
    assert (ops + [op])[..|ops|] == ops;
    RuralNext(w, rural, ops);
    DecisionFitsTask(w, NextTask(w, ops).value);
  }

  lemma {:induction false} SoundAt(rural: Rural, selected: seq<AlignmentId>, rulings: seq<Ruling>)
    requires rural.Sound() && rural.offers(selected, rulings).Some?
    ensures rural.offers(selected, rulings).value.community in rural.places
    ensures rural.offers(selected, rulings).value.community !in Ruled(rulings)
  {
    assert SoundOffer(rural.places, rulings, rural.offers(selected, rulings).value);
  }

  /** Decides the planner's current offer. */
  method DecideOffer(
      store: HistoryStore, w: World, b: Branch, ghost rural: Rural, ghost rulings: seq<Ruling>, offer: Offer,
      ops: seq<Operation>)
    returns (r: Outcome<Operation>)
    requires Ready(store, b) && w.Sound()
    modifies store
    ensures store.Valid() && Kept(store.chains, store.calls)
    ensures store.Account() >= old(store.Account())
    ensures store.Fuel(b) + (if r.Ok? then 0 else 2) >= old(store.Fuel(b))
    ensures b in store.chains && store.chains == old(store.chains)[b := store.chains[b]]
    ensures r.Ok? ==> Ready(store, b) && r.value.IsRural() && r.value.community == offer.community
    ensures r.Err? ==> r.error == Invalid || (r.error == PowerCut && store.power == 0)
    ensures
      && InRural(w, rural, old(store.chains)[b], ops) && rulings == Rulings(ops)
      && rural.offers(Selected(ops), rulings) == Some(offer) ==>
      if r.Ok? then
        && InRural(w, rural, store.chains[b], ops + [r.value])
        && Rulings(ops + [r.value]) == rulings + [RulingOf(r.value)] && Selected(ops + [r.value]) == Selected(ops)
      else r.error == PowerCut && Toward(w, store.chains[b], ops)
  {
    hide NextTask, NextRural, Ordained, Toward, Selected, Rulings, AllConnected, World.Sound;
    ghost var course := InRural(w, rural, store.chains[b], ops) && rulings == Rulings(ops)
      && rural.offers(Selected(ops), rulings) == Some(offer);
    if course {
      OfferIsNext(w, rural, ops);
      OfferIsNew(w, rural, store.chains[b], ops);
    }
    if offer.community in DoneCommunities(ops) {
      return Err(Invalid);
    }
    r := Settle(store, w, b, RuralTask(offer, w.allow), ops);
    if r.Ok? {
      RuralAdds(w, ops, r.value);
      if course { OfferNotGap(w, rural, ops, r.value); }
    }
  }

  /** Lets the planner offer until it has nothing more. */
  method RunOffers(
      store: HistoryStore, w: World, b: Branch, rural: Rural, before: seq<Operation>, replayed: seq<Ruling>)
    returns (r: Outcome<(seq<Operation>, seq<Ruling>)>)
    requires Ready(store, b) && w.Sound() && rural.Sound()
    modifies store
    ensures store.Valid() && Kept(store.chains, store.calls)
    ensures store.Account() >= old(store.Account())
    ensures store.Fuel(b) + (if r.Ok? then 0 else 2) >= old(store.Fuel(b))
    ensures b in store.chains && store.chains == old(store.chains)[b := store.chains[b]]
    ensures r.Ok? ==> Ready(store, b) && before <= r.value.0
    ensures r.Err? ==> r.error == Invalid || (r.error == PowerCut && store.power == 0)
    ensures InRural(w, rural, old(store.chains)[b], before) && replayed == Rulings(before) ==>
      if r.Ok? then
        && InRural(w, rural, store.chains[b], r.value.0) && r.value.1 == Rulings(r.value.0)
        && Selected(r.value.0) == Selected(before) && rural.offers(Selected(before), r.value.1).None?
      else r.error == PowerCut && CutAfter(w, store.chains[b], before)
    ensures rural.offers(Selected(before), replayed).None? ==>
      r == Ok((before, replayed)) && store.events == old(store.events) && store.calls == old(store.calls)
        && store.chains == old(store.chains)
  {
    hide HistoryStore.Valid, Kept, NextTask, NextRural, Ordained, Toward, Ready, Selected, Rulings, AllConnected,
      InRural, World.Sound, Rural.Sound, CutAfter;
    var (ops, rulings) := (before, replayed);
    var selected := Selected(before);
    UnfoldReady(store, b);
    ghost var course := InRural(w, rural, store.chains[b], before) && replayed == Rulings(before);
    ghost var quiet := rural.offers(selected, replayed).None?;
    while rural.offers(selected, rulings).Some?
      invariant store.Account() >= old(store.Account()) && store.Fuel(b) >= old(store.Fuel(b))
      invariant Ready(store, b) && store.Valid() && b in store.chains
        && store.chains == old(store.chains)[b := store.chains[b]]
      invariant before <= ops
      invariant course ==>
        InRural(w, rural, store.chains[b], ops) && rulings == Rulings(ops) && Selected(ops) == selected
      invariant quiet ==>
        ops == before && rulings == replayed
        && store.events == old(store.events) && store.calls == old(store.calls) && store.chains == old(store.chains)
      decreases rural.places - Ruled(rulings)
    {
      var offer := rural.offers(selected, rulings).value;
      SoundAt(rural, selected, rulings);
      var op := DecideOffer(store, w, b, rural, rulings, offer, ops);
      if op.Err? {
        if course { CutHere(w, store.chains[b], before, ops); }
        return Err(op.error);
      }
      RuledGrows(rulings, RulingOf(op.value));
      UnfoldReady(store, b);
      ops := ops + [op.value];
      rulings := rulings + [RulingOf(op.value)];
    }
    UnfoldReady(store, b);
    r := Ok((ops, rulings));
  }

  lemma {:induction false} RuledGrows(rulings: seq<Ruling>, r: Ruling)
    ensures Ruled(rulings + [r]) == Ruled(rulings) + {r.community}
  {
    assert forall x :: x in rulings + [r] <==> x in rulings || x == r;
  }

  lemma {:induction false} OfferIsNext(w: World, rural: Rural, ops: seq<Operation>)
    requires w.rural == Some(rural) && AllConnected(w, ops, |w.connections|)
      && rural.offers(Selected(ops), Rulings(ops)).Some?
    ensures NextTask(w, ops) == Some(RuralTask(rural.offers(Selected(ops), Rulings(ops)).value, w.allow))
  {
    RuralNext(w, rural, ops);
  }

  /** On course an offered community is never one already decided. */
  lemma {:induction false} OfferIsNew(w: World, rural: Rural, chain: seq<Entry>, ops: seq<Operation>)
    requires w.Sound() && InRural(w, rural, chain, ops) && rural.offers(Selected(ops), Rulings(ops)).Some?
    ensures rural.offers(Selected(ops), Rulings(ops)).value.community !in DoneCommunities(ops)
  {
    hide Decision, Block, Askable, World.Sound;
    var offer := rural.offers(Selected(ops), Rulings(ops)).value;
    OfferIsNext(w, rural, ops);
    var i: nat :| Follows(w, chain, ops, i);
    NextIsNew(w, ops);
    forall op | op in ops && op.IsRural() ensures op.community != offer.community {
      var k :| 0 <= k < |ops| && ops[k] == op;
      OpsFit(w, ops, k);
    }
  }
}

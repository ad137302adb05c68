/** Recording the communities no offer ever reached, and the access every decision leaves its community with. */
module Gaps {
  import opened Options
  import opened Frontier
  import opened Access
  import opened Decisions
  import opened History
  import opened Script
  import opened Course
  import opened Attempts
  import opened Settling
  import opened Midend
  import opened Runs
  import opened RuralRuns

  /** The planner has nothing more to offer, and these are its final records. */
  ghost predicate InGaps(
      w: World, rural: Rural, records: seq<CommunityAccess>, chain: seq<Entry>, ops: seq<Operation>) {
    && InRural(w, rural, chain, ops) && rural.offers(Selected(ops), Rulings(ops)).None?
    && records == rural.records(Selected(ops), Rulings(ops))
  }

  lemma {:induction false} GapIsNext(
      w: World, rural: Rural, records: seq<CommunityAccess>, chain: seq<Entry>, ops: seq<Operation>, k: nat)
    requires w.Sound() && InGaps(w, rural, records, chain, ops) && k < |records|
      && records[k].id !in DoneCommunities(ops)
    requires forall j | 0 <= j < k :: records[j].id in DoneCommunities(ops)
    ensures NextTask(w, ops) == Some(GapTask(w, records[k]))
  {
    RuralNext(w, rural, ops);
    assert FirstGap(records, DoneCommunities(ops)) == k;
  }

  lemma {:induction false} GapKeepsStage(
      w: World, rural: Rural, records: seq<CommunityAccess>, chain: seq<Entry>, ops: seq<Operation>,
      chain': seq<Entry>, op: Operation)
    requires w.Sound() && InGaps(w, rural, records, chain, ops) && Toward(w, chain', ops + [op])
    ensures InGaps(w, rural, records, chain', ops + [op])
  {
    hide NextTask, Decision, World.Sound, AllConnected, Selected, Rulings;
    var i: nat :| Follows(w, chain', ops + [op], i);
    OfferNotGap(w, rural, ops, op);
    RuralAdds(w, ops, op);
    assert Rulings(ops) + [] == Rulings(ops);
  }

  /** Decides one community no offer reached. */
  method DecideGap(
      store: HistoryStore, w: World, b: Branch, ghost rural: Rural, records: seq<CommunityAccess>, k: nat,
      ops: seq<Operation>)
    returns (r: Outcome<Operation>)
    requires Ready(store, b) && w.Sound() && k < |records|
    modifies store
    ensures store.Valid() && Kept(store.chains, store.calls)
    ensures store.Account() >= old(store.Account())
    ensures store.Fuel(b) + (if r.Ok? then 0 else 2) >= old(store.Fuel(b))
    ensures b in store.chains && store.chains == old(store.chains)[b := store.chains[b]]
    ensures r.Ok? ==> Ready(store, b) && r.value.IsRural() && r.value.community == records[k].id
    ensures r.Err? ==> r.error == Invalid || (r.error == PowerCut && store.power == 0)
    ensures
      && InGaps(w, rural, records, old(store.chains)[b], ops) && records[k].id !in DoneCommunities(ops)
      && (forall j | 0 <= j < k :: records[j].id in DoneCommunities(ops)) ==>
      if r.Ok? then InGaps(w, rural, records, store.chains[b], ops + [r.value])
      else r.error == PowerCut && Toward(w, store.chains[b], ops)
  {
    hide NextTask, Ordained, Toward, Ready, Selected, Rulings, InRural, InGaps, World.Sound, DoneCommunities;
    UnfoldReady(store, b);
    ghost var chain := store.chains[b];
    ghost var course :=
      && InGaps(w, rural, records, chain, ops) && records[k].id !in DoneCommunities(ops)
      && (forall j | 0 <= j < k :: records[j].id in DoneCommunities(ops));
    if course {
      GapIsNext(w, rural, records, chain, ops, k);
      StageToward(w, rural, records, chain, ops);
    }
    r := Settle(store, w, b, GapTask(w, records[k]), ops);
    if course && r.Ok? {
      GapKeepsStage(w, rural, records, chain, ops, store.chains[b], r.value);
    }
  }

  /** The first `k` records' communities are decided, and of the others just those that were from the start. */
  ghost predicate RecordedUpto(records: seq<CommunityAccess>, k: nat, done: set<CommunityId>, ops: seq<Operation>)
    requires k <= |records|
  {
    && (forall j | 0 <= j < k :: records[j].id in DoneCommunities(ops))
    && (forall j | k <= j < |records| :: records[j].id in DoneCommunities(ops) ==> records[j].id in done)
    && done <= DoneCommunities(ops)
  }

  lemma NoneRecorded(records: seq<CommunityAccess>, ops: seq<Operation>)
    ensures RecordedUpto(records, 0, DoneCommunities(ops), ops)
  {
  }

  lemma AllRecorded(records: seq<CommunityAccess>, done: set<CommunityId>, ops: seq<Operation>)
    requires RecordedUpto(records, |records|, done, ops)
    ensures forall j | 0 <= j < |records| :: records[j].id in DoneCommunities(ops)
  {
  }

  lemma StepRecorded(records: seq<CommunityAccess>, k: nat, done: set<CommunityId>, ops: seq<Operation>)
    requires k < |records| && RecordedUpto(records, k, done, ops)
    ensures forall j | 0 <= j < k :: records[j].id in DoneCommunities(ops)
    ensures if records[k].id in done then RecordedUpto(records, k + 1, done, ops)
      else records[k].id !in DoneCommunities(ops)
  {
  }

  lemma {:induction false} OneRecorded(
      records: seq<CommunityAccess>, k: nat, done: set<CommunityId>, ops: seq<Operation>, op: Operation)
    requires k < |records| && RecordedUpto(records, k, done, ops) && op.IsRural() && op.community == records[k].id
    requires forall i, j | 0 <= i < j < |records| :: records[i].id != records[j].id
    ensures RecordedUpto(records, k + 1, done, ops + [op])
  {
    DoneGrows(ops, op);
  }

  /** Records every final record's community that has no decision yet; `done` is what was decided before. */
  method RunGaps(
      store: HistoryStore, w: World, b: Branch, ghost rural: Rural, records: seq<CommunityAccess>,
      before: seq<Operation>)
    returns (r: Outcome<seq<Operation>>)
    requires Ready(store, b) && w.Sound()
    requires forall i, j | 0 <= i < j < |records| :: records[i].id != records[j].id
    modifies store
    ensures store.Valid() && Kept(store.chains, store.calls)
    ensures store.Account() >= old(store.Account())
    ensures store.Fuel(b) + (if r.Ok? then 0 else 2) >= old(store.Fuel(b))
    ensures b in store.chains && store.chains == old(store.chains)[b := store.chains[b]]
    ensures r.Ok? ==> Ready(store, b)
    ensures r.Err? ==> r.error == Invalid || (r.error == PowerCut && store.power == 0)
    ensures InGaps(w, rural, records, old(store.chains)[b], before) ==>
      if r.Ok? then Toward(w, store.chains[b], r.value) && NextTask(w, r.value).None? && before <= r.value
      else r.error == PowerCut && CutAfter(w, store.chains[b], before)
    ensures (forall k | 0 <= k < |records| :: records[k].id in DoneCommunities(before)) ==>
      r == Ok(before) && store.events == old(store.events) && store.calls == old(store.calls)
        && store.chains == old(store.chains)
  {
    hide NextTask, Ordained, Toward, Ready, Selected, Rulings, InRural, InGaps, World.Sound, CutAfter,
      DoneCommunities, RecordedUpto, Kept;
    var ops := before;
    NoneRecorded(records, before);
    var done := DoneCommunities(before);
    UnfoldReady(store, b);
    ghost var course := InGaps(w, rural, records, store.chains[b], before);
    ghost var quiet := forall k | 0 <= k < |records| :: records[k].id in done;
    for k := 0 to |records|
      invariant store.Account() >= old(store.Account()) && store.Fuel(b) >= old(store.Fuel(b))
      invariant Ready(store, b) && store.Valid() && b in store.chains
        && store.chains == old(store.chains)[b := store.chains[b]]
      invariant before <= ops && RecordedUpto(records, k, done, ops)
      invariant course ==> InGaps(w, rural, records, store.chains[b], ops)
      invariant quiet ==>
        ops == before && store.events == old(store.events) && store.calls == old(store.calls)
          && store.chains == old(store.chains)
    {
      StepRecorded(records, k, done, ops);
      if records[k].id !in done {
        var op := DecideGap(store, w, b, rural, records, k, ops);
        if op.Err? {
          if course { CutHere(w, store.chains[b], before, ops); }
          return Err(op.error);
        }
        OneRecorded(records, k, done, ops, op.value);
        UnfoldReady(store, b);
        ops := ops + [op.value];
      }
    }
    AllRecorded(records, done, ops);
    if course {
      NothingLeft(w, rural, records, store.chains[b], ops);
      StageToward(w, rural, records, store.chains[b], ops);
    }
    UnfoldReady(store, b);
    r := Ok(ops);
  }

  lemma {:induction false} StageToward(
      w: World, rural: Rural, records: seq<CommunityAccess>, chain: seq<Entry>, ops: seq<Operation>)
    requires InGaps(w, rural, records, chain, ops)
    ensures Toward(w, chain, ops)
  {
    hide Toward;
  }

  lemma {:induction false} NothingLeft(
      w: World, rural: Rural, records: seq<CommunityAccess>, chain: seq<Entry>, ops: seq<Operation>)
    requires InGaps(w, rural, records, chain, ops) && forall j | 0 <= j < |records| ::
      records[j].id in DoneCommunities(ops)
    ensures NextTask(w, ops).None?
  {
    RuralNext(w, rural, ops);
    assert FirstGap(records, DoneCommunities(ops)) == |records|;
  }
}

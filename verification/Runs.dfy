/** Whole runs, however often they are cut off, and the replay of what they recorded. */
module Runs {
  import opened Options
  import opened Access
  import opened Decisions
  import opened History
  import opened Script
  import opened Course
  import opened Attempts
  import opened Settling
  import opened Midend

  datatype Run = Run(operations: seq<Operation>, access: seq<CommunityAccess>)

  /** The branch follows the course and these decisions are still among its own. */
  ghost predicate CutAfter(w: World, chain: seq<Entry>, before: seq<Operation>) {
    exists ops :: Toward(w, chain, ops) && before <= ops
  }

  lemma CutHere(w: World, chain: seq<Entry>, before: seq<Operation>, ops: seq<Operation>)
    requires Toward(w, chain, ops) && before <= ops
    ensures CutAfter(w, chain, before)
  {
  }

  // The urban part.

  lemma {:induction false} UrbanNext(w: World, ops: seq<Operation>, k: nat)
    requires k < |w.connections| && w.connections[k] !in DoneConnections(ops)
    requires AllConnected(w, ops, k)
    ensures NextTask(w, ops) == Some(UrbanTaskFor(w, w.connections[k], ops))
  {
    assert FirstOpen(w.connections, DoneConnections(ops)) == k;
  }

  predicate AllConnected(w: World, ops: seq<Operation>, k: nat)
    requires k <= |w.connections|
  {
    forall j | 0 <= j < k :: w.connections[j] in DoneConnections(ops)
  }

  /** Decides every connection in order that has no decision yet. */
  method RunUrban(store: HistoryStore, w: World, b: Branch, before: seq<Operation>) returns (r: Outcome<seq<Operation>>)
    requires Ready(store, b) && w.Sound()
    modifies store
    ensures store.Valid() && Kept(store.chains, store.calls)
    ensures store.Account() >= old(store.Account())
    ensures store.Fuel(b) + (if r.Ok? then 0 else 2) >= old(store.Fuel(b))
    ensures b in store.chains && store.chains == old(store.chains)[b := store.chains[b]]
    ensures r.Ok? ==> Ready(store, b) && AllConnected(w, r.value, |w.connections|) && before <= r.value
    ensures r.Err? ==> r.error == Invalid || (r.error == PowerCut && store.power == 0)
    ensures Toward(w, old(store.chains)[b], before) ==>
      if r.Ok? then Toward(w, store.chains[b], r.value)
      else r.error == PowerCut && CutAfter(w, store.chains[b], before)
    ensures AllConnected(w, before, |w.connections|) ==>
      r == Ok(before) && store.events == old(store.events) && store.calls == old(store.calls)
        && store.chains == old(store.chains)
  {
    hide HistoryStore.Valid, Kept, NextTask, World.Sound, Ordained, Toward, Follows, Ready;
    var ops := before;
    ghost var quiet := AllConnected(w, before, |w.connections|);
    assert store.Valid() && b in store.chains by { UnfoldReady(store, b); }
    for k := 0 to |w.connections|
      invariant store.Account() >= old(store.Account()) && store.Fuel(b) >= old(store.Fuel(b))
      invariant Ready(store, b) && store.Valid() && b in store.chains
        && store.chains == old(store.chains)[b := store.chains[b]]
      invariant before <= ops && AllConnected(w, ops, k)
      invariant Toward(w, old(store.chains)[b], before) ==> Toward(w, store.chains[b], ops)
      invariant quiet ==>
        ops == before && store.events == old(store.events) && store.calls == old(store.calls)
          && store.chains == old(store.chains)
    {
      var connection := w.connections[k];
      if connection !in DoneConnections(ops) {
        UrbanNext(w, ops, k);
        var op := Settle(store, w, b, UrbanTaskFor(w, connection, ops), ops);
        if op.Err? {
          return Err(op.error);
        }
        DoneGrows(ops, op.value);
        ops := ops + [op.value];
      }
    }
    UnfoldReady(store, b);
    r := Ok(ops);
  }

  lemma UnfoldReady(store: HistoryStore, b: Branch)
    requires Ready(store, b)
    ensures store.Valid() && Kept(store.chains, store.calls) && b in store.chains
  {
  }

  lemma {:induction false} DoneGrows(ops: seq<Operation>, op: Operation)
    ensures DoneConnections(ops + [op]) == DoneConnections(ops) + if op.IsRural() then {} else {op.connection}
    ensures DoneCommunities(ops + [op]) == DoneCommunities(ops) + if op.IsRural() then {op.community} else {}
  {
    var longer := ops + [op];
    assert forall o :: o in longer <==> o in ops || o == op;
  }
}

/** The runs themselves: resumed from any cut, refused on an open attempt, and replayed without providers. */
module Resumption {
  import opened Options
  import opened Offers
  import opened Decisions
  import opened History
  import opened Script
  import opened Course
  import opened Lookups
  import opened Attempts
  import opened Settling
  import opened Midend
  import opened Runs
  import opened RuralReplay
  import opened RuralRuns
  import opened Gaps
  import opened DecisionRuns

  /** Every retained operation validates with its retained task. */
  predicate AllValid(
      connections: seq<ConnectionId>, admitted: map<AlignmentId, ConnectionId>, chain: seq<Entry>, allow: bool) {
    forall k | 0 <= k < |Operations(chain)| ::
      Validates(connections, admitted, Operations(chain)[k], allow, RetainedTask(chain, Operations(chain)[k].task))
  }

  lemma {:induction false} CourseIsValid(w: World, chain: seq<Entry>)
    requires w.Sound() && OnCourse(w, chain)
    ensures AllValid(w.connections, w.admitted, chain, w.allow)
  {
    hide NextTask, Decision, Askable, Validates, World.Sound;
    var ops := Operations(chain);
    forall k | 0 <= k < |ops|
      ensures Validates(w.connections, w.admitted, ops[k], w.allow, RetainedTask(chain, ops[k].task)) {
      RetainedAt(w, chain, ops, k);
    }
  }

  /** What a stricter policy admits, replay admits. */
  lemma {:induction false} AllowingIsWeaker(
      connections: seq<ConnectionId>, admitted: map<AlignmentId, ConnectionId>, chain: seq<Entry>, allow: bool)
    requires AllValid(connections, admitted, chain, allow)
    ensures AllValid(connections, admitted, chain, true)
  {
    forall k | 0 <= k < |Operations(chain)|
      ensures Validates(connections, admitted, Operations(chain)[k], true,
        RetainedTask(chain, Operations(chain)[k].task))
    {
      assert Validates(connections, admitted, Operations(chain)[k], allow,
        RetainedTask(chain, Operations(chain)[k].task));
    }
  }

  lemma {:induction false} TowardIsCourse(w: World, chain: seq<Entry>, ops: seq<Operation>)
    requires Toward(w, chain, ops)
    ensures OnCourse(w, chain) && Operations(chain) == ops
    ensures NextTask(w, ops).None? ==> Complete(w, chain)
  {
    hide NextTask, Decision, Block, Askable;
    var i: nat :| Follows(w, chain, ops, i);
    FollowsOperations(w, chain, ops, i);
  }

  /** With nothing left to ask there is nothing to do. */
  lemma {:induction false} CompleteIsQuiet(w: World, chain: seq<Entry>)
    requires w.Sound() && Complete(w, chain)
    ensures AllConnected(w, Operations(chain), |w.connections|) && Toward(w, chain, Operations(chain))
    ensures w.rural.Some? ==>
      var (ops, rural) := (Operations(chain), w.rural.value);
      && rural.offers(Selected(ops), Rulings(ops)).None?
      && var records := rural.records(Selected(ops), Rulings(ops));
         forall k | 0 <= k < |records| :: records[k].id in DoneCommunities(ops)
  {
    hide Decision, Block, Askable, Ordained, Selected, Rulings, DoneCommunities, World.Sound;
    assert Follows(w, chain, Operations(chain), 0);
  }

  /** The rural part of a run: the planner catches up, then offers, then the gaps are recorded. */
  method RunRuralSequence(
      store: HistoryStore, w: World, b: Branch, rural: Rural, before: seq<Operation>)
    returns (r: Outcome<seq<Operation>>)
    requires Ready(store, b) && w.Sound() && w.rural == Some(rural)
    modifies store
    ensures store.Valid() && Kept(store.chains, store.calls)
    ensures store.Account() >= old(store.Account())
    ensures store.Fuel(b) + (if r.Ok? then 0 else 2) >= old(store.Fuel(b))
    ensures b in store.chains && store.chains == old(store.chains)[b := store.chains[b]]
    ensures r.Ok? ==> Ready(store, b)
    ensures r.Err? ==> r.error == Invalid || (r.error == PowerCut && store.power == 0)
    ensures Toward(w, old(store.chains)[b], before) && AllConnected(w, before, |w.connections|) ==>
      if r.Ok? then Toward(w, store.chains[b], r.value) && NextTask(w, r.value).None? && before <= r.value
      else r.error == PowerCut && CutAfter(w, store.chains[b], before)
    ensures Complete(w, old(store.chains)[b]) && before == Operations(old(store.chains)[b]) ==>
      r == Ok(before) && store.events == old(store.events) && store.calls == old(store.calls)
        && store.chains == old(store.chains)
  {
    hide *;
    UnfoldReady(store, b);
    ghost var chain0 := store.chains[b];
    ghost var course := Toward(w, chain0, before) && AllConnected(w, before, |w.connections|);
    ghost var quiet := Complete(w, chain0) && before == Operations(chain0);
    if quiet { CompleteIsQuiet(w, chain0); }
    if course { EnterRural(w, rural, chain0, before); }
    SoundPlanner(w, rural);
    var chain := Read(store, b);
    var replayed := ReplayRulings(w, rural, chain, before);
    if replayed.None? {
      return Err(Invalid);
    }
    var offered := RunOffers(store, w, b, rural, before, replayed.value);
    if offered.Err? {
      return Err(offered.error);
    }
    var (ops, rulings) := offered.value;
    var records := rural.records(Selected(before), rulings);
    SoundRecords(rural, Selected(before), rulings);
    if course { EnterGaps(w, rural, store.chains[b], before, ops, rulings); }
    UnfoldReady(store, b);
    r := RunGaps(store, w, b, rural, records, ops);
    if course && r.Err? { CutEarlier(w, store.chains[b], before, ops); }
  }

  lemma SoundPlanner(w: World, rural: Rural)
    requires w.Sound() && w.rural == Some(rural)
    ensures rural.Sound()
  {
  }

  lemma SoundRecords(rural: Rural, selected: seq<AlignmentId>, rulings: seq<Ruling>)
    requires rural.Sound()
    ensures var records := rural.records(selected, rulings); forall i, j | 0 <= i < j < |records| ::
      records[i].id != records[j].id
  {
  }

  lemma {:induction false} EnterRural(w: World, rural: Rural, chain: seq<Entry>, ops: seq<Operation>)
    requires w.rural == Some(rural) && Toward(w, chain, ops) && AllConnected(w, ops, |w.connections|)
    ensures InRural(w, rural, chain, ops)
  {
    hide Toward, AllConnected;
  }

  lemma {:induction false} EnterGaps(
      w: World, rural: Rural, chain: seq<Entry>, before: seq<Operation>, ops: seq<Operation>, rulings: seq<Ruling>)
    requires InRural(w, rural, chain, ops) && rulings == Rulings(ops) && Selected(ops) == Selected(before)
    requires rural.offers(Selected(before), rulings).None?
    ensures InGaps(w, rural, rural.records(Selected(before), rulings), chain, ops)
  {
    hide InRural, Selected, Rulings;
  }

  lemma {:induction false} CutEarlier(w: World, chain: seq<Entry>, before: seq<Operation>, ops: seq<Operation>)
    requires CutAfter(w, chain, ops) && before <= ops
    ensures CutAfter(w, chain, before)
  {
    hide Toward;
  }

  /** What a run over a branch on course comes to, wherever the power is cut. */
  ghost predicate Advances(w: World, chain: seq<Entry>, chain': seq<Entry>, r: Outcome<Run>, power: nat) {
    if r.Ok? then
      && Complete(w, chain') && r.value.operations == Operations(chain') && Operations(chain) <= Operations(chain')
      && RunAccess(w, chain', r.value.operations) == Some(r.value.access)
    else r.error == PowerCut && power == 0 && CutAfter(w, chain', Operations(chain))
  }

  /**
   One run.  It refuses a branch cut off in an attempt; on any other branch that is on
   course it goes on from where the branch stands, and ends with everything decided
   unless the power is cut.  On a finished branch it adds nothing.
   */
  method RunInternal(store: HistoryStore, w: World, b: Branch) returns (r: Outcome<Run>)
    requires store.Valid() && Kept(store.chains, store.calls) && w.Sound()
    modifies store
    ensures store.Valid() && Kept(store.chains, store.calls)
    ensures store.Account() >= old(store.Account())
    ensures store.Fuel(b) + (if r.Ok? then 0 else 2) >= old(store.Fuel(b))
    ensures b !in old(store.chains) ==>
      r == Err(UnknownBranch) && store.chains == old(store.chains) && store.calls == old(store.calls)
    ensures b in old(store.chains) ==> b in store.chains && store.chains == old(store.chains)[b := store.chains[b]]
    ensures b in old(store.chains) && OpenAttempt(old(store.chains)[b]).Some? ==>
      && r == Err(UnfinishedAttempt(OpenAttempt(old(store.chains)[b]).value))
      && store.events == old(store.events) && store.chains == old(store.chains) && store.calls == old(store.calls)
    ensures b in old(store.chains) && OpenAttempt(old(store.chains)[b]).None? && OnCourse(w, old(store.chains)[b]) ==>
      Advances(w, old(store.chains)[b], store.chains[b], r, store.power)
    ensures b in old(store.chains) && OpenAttempt(old(store.chains)[b]).None? && Complete(w, old(store.chains)[b]) ==>
      r.Ok? && store.events == old(store.events) && store.chains == old(store.chains) && store.calls == old(store.calls)
  {
    hide Complete, OnCourse, Advances, Log;
    if b !in store.heads {
      return Err(UnknownBranch);
    }
    var chain := Read(store, b);
    var pending := PendingAttempt(chain);
    if pending.Some? {
      return Err(UnfinishedAttempt(pending.value));
    }
    r := RunReady(store, w, b, chain);
  }

  /** A run on a branch with no attempt open. */
  method RunReady(store: HistoryStore, w: World, b: Branch, chain: seq<Entry>) returns (r: Outcome<Run>)
    requires Ready(store, b) && w.Sound() && b in store.chains && store.chains[b] == chain
    modifies store
    ensures store.Valid() && Kept(store.chains, store.calls)
    ensures store.Account() >= old(store.Account())
    ensures store.Fuel(b) + (if r.Ok? then 0 else 2) >= old(store.Fuel(b))
    ensures b in store.chains && store.chains == old(store.chains)[b := store.chains[b]]
    ensures OnCourse(w, chain) ==> Advances(w, chain, store.chains[b], r, store.power)
    ensures Complete(w, chain) ==>
      r.Ok? && store.events == old(store.events) && store.chains == old(store.chains) && store.calls == old(store.calls)
  {
    hide *;
    ghost var (course, quiet) := (OnCourse(w, chain), Complete(w, chain));
    UnfoldReady(store, b);
    var ops := Operations(chain);
    if quiet { CompleteIsCourse(w, chain); }
    if course { CourseIsValid(w, chain); CourseIsToward(w, chain); }
    if !AllValid(w.connections, w.admitted, chain, w.allow) {
      return Err(Invalid);
    }
    var decided := DecideAll(store, w, b, ops);
    if decided.Err? {
      if course { AdvanceCut(w, chain, store.chains[b], decided.error, store.power); }
      return Err(decided.error);
    }
    var chain' := Read(store, b);
    var access := RunAccess(w, chain', decided.value);
    if course { AdvanceOk(w, chain, chain', decided.value); }
    if access.None? {
      return Err(Invalid);
    }
    r := Ok(Run(decided.value, access.value));
  }

  /** Both parts of a run. */
  method DecideAll(store: HistoryStore, w: World, b: Branch, ops: seq<Operation>) returns (r: Outcome<seq<Operation>>)
    requires Ready(store, b) && w.Sound()
    modifies store
    ensures store.Valid() && Kept(store.chains, store.calls)
    ensures store.Account() >= old(store.Account())
    ensures store.Fuel(b) + (if r.Ok? then 0 else 2) >= old(store.Fuel(b))
    ensures b in store.chains && store.chains == old(store.chains)[b := store.chains[b]]
    ensures r.Err? ==> r.error == Invalid || (r.error == PowerCut && store.power == 0)
    ensures Toward(w, old(store.chains)[b], ops) ==>
      if r.Ok? then Toward(w, store.chains[b], r.value) && NextTask(w, r.value).None? && ops <= r.value
      else r.error == PowerCut && CutAfter(w, store.chains[b], ops)
    ensures Complete(w, old(store.chains)[b]) && ops == Operations(old(store.chains)[b]) ==>
      r == Ok(ops) && store.events == old(store.events) && store.calls == old(store.calls)
        && store.chains == old(store.chains)
  {
    hide *;
    UnfoldReady(store, b);
    ghost var chain0 := store.chains[b];
    ghost var course := Toward(w, chain0, ops);
    ghost var quiet := Complete(w, chain0) && ops == Operations(chain0);
    if quiet { CompleteIsQuiet(w, chain0); }
    r := RunUrban(store, w, b, ops);
    if r.Err? {
      return;
    }
    if w.rural.None? {
      if course { NoRuralNext(w, r.value); }
      UnfoldReady(store, b);
      return;
    }
    var connected := r.value;
    r := RunRuralSequence(store, w, b, w.rural.value, connected);
    if course && r.Err? { CutEarlier(w, store.chains[b], ops, connected); }
  }

  lemma {:induction false} CompleteIsCourse(w: World, chain: seq<Entry>)
    requires Complete(w, chain)
    ensures OnCourse(w, chain)
  {
    hide Follows;
  }

  lemma {:induction false} CourseIsToward(w: World, chain: seq<Entry>)
    requires OnCourse(w, chain)
    ensures Toward(w, chain, Operations(chain))
  {
    hide Follows;
  }

  lemma {:induction false} NoRuralNext(w: World, ops: seq<Operation>)
    requires w.rural.None? && AllConnected(w, ops, |w.connections|)
    ensures NextTask(w, ops).None?
  {
    assert FirstOpen(w.connections, DoneConnections(ops)) == |w.connections|;
  }

  lemma {:induction false} AdvanceCut(w: World, chain: seq<Entry>, chain': seq<Entry>, error: HistoryError, power: nat)
    requires error == PowerCut && power == 0 && CutAfter(w, chain', Operations(chain))
    ensures Advances(w, chain, chain', Err(error), power)
  {
    hide CutAfter, Operations;
  }

  lemma {:induction false} AdvanceOk(w: World, chain: seq<Entry>, chain': seq<Entry>, ops: seq<Operation>)
    requires w.Sound() && Toward(w, chain', ops) && NextTask(w, ops).None? && Operations(chain) <= ops
    ensures RunAccess(w, chain', ops).Some?
    ensures forall power: nat :: Advances(w, chain, chain', Ok(Run(ops, RunAccess(w, chain', ops).value)), power)
  {
    hide Toward, NextTask, World.Sound;
    TowardIsCourse(w, chain', ops);
    RecordsSayDecisions(w, chain', ops, |ops|);
    assert ops[..|ops|] == ops;
  }
}

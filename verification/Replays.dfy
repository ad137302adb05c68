/** Replay without providers, and runs through any number of power cuts. */
module Replays {
  import opened Options
  import opened Access
  import opened Decisions
  import opened History
  import opened Script
  import opened Course
  import opened Attempts
  import opened Midend
  import opened Runs
  import opened DecisionRuns
  import opened Resumption
  import opened Endings

  /** Reads a branch back: its operations, and the access they leave every community with. */
  method Replay(
      store: HistoryStore, connections: seq<ConnectionId>, admitted: map<AlignmentId, ConnectionId>,
      shown: seq<CommunityAccess>, b: Branch)
    returns (r: Outcome<Run>)
    requires store.Valid()
    ensures b !in store.chains ==> r == Err(UnknownBranch)
    ensures b in store.chains ==>
      var chain := store.chains[b];
      var ops := Operations(chain);
      var access := ReplayedAccess(shown, chain, ops);
      if AllValid(connections, admitted, chain, true) && access.Some? then r == Ok(Run(ops, access.value))
        else r == Err(Invalid)
  {
    if b !in store.heads {
      return Err(UnknownBranch);
    }
    var chain := Read(store, b);
    var ops := Operations(chain);
    if !AllValid(connections, admitted, chain, true) {
      return Err(Invalid);
    }
    var access := ReplayedAccess(shown, chain, ops);
    r := if access.None? then Err(Invalid) else Ok(Run(ops, access.value));
  }

  /** A finished branch always replays, to the operations and the access the run returned. */
  lemma {:induction false} FinishedReplays(w: World, chain: seq<Entry>, chain0: seq<Entry>, run: Run, power: nat)
    requires w.Sound() && Advances(w, chain0, chain, Ok(run), power)
    ensures AllValid(w.connections, w.admitted, chain, true)
    ensures run.operations == Operations(chain) && ReplayedAccess(w.shown, chain, run.operations) == Some(run.access)
  {
    hide AllValid, Complete, RecordsFromHistory, AnyRural, OnCourse, World.Sound;
    CompleteIsCourse(w, chain);
    CourseIsValid(w, chain);
    AllowingIsWeaker(w.connections, w.admitted, chain, w.allow);
    ReplayAgrees(w, chain, run.operations);
    CourseIsToward(w, chain);
    RecordsSayDecisions(w, chain, run.operations, |run.operations|);
    assert run.operations[..|run.operations|] == run.operations;
  }

  /** The access a finished run returns says what was decided for every community. */
  lemma {:induction false} FinishedSaysDecisions(w: World, chain: seq<Entry>, chain0: seq<Entry>, run: Run, power: nat)
    requires w.Sound() && w.rural.Some? && Advances(w, chain0, chain, Ok(run), power)
    ensures SaysWhatWasDecided(run.operations, run.access)
  {
    hide SaysWhatWasDecided, Complete, RecordsFromHistory, OnCourse, World.Sound;
    CompleteIsCourse(w, chain);
    CourseIsToward(w, chain);
    RecordsSayDecisions(w, chain, run.operations, |run.operations|);
    assert run.operations[..|run.operations|] == run.operations;
  }

  /**
   Runs a branch again and again, the power being cut after each of the given numbers
   of durable steps, and once more at the end.  Whatever the cuts, the branch stays on
   course, no attempt is called twice, and a run that ends well has left exactly the
   events and operations of any other run that did.  With power left for three units an
   event of the whole course, the last run ends well unless a cut left an attempt open.
   */
  method RunThroughCuts(store: HistoryStore, w: World, b: Branch, cuts: seq<nat>, last: nat) returns (r: Outcome<Run>)
    requires store.Valid() && Kept(store.chains, store.calls) && w.Sound() && b in store.chains
      && OnCourse(w, store.chains[b])
    modifies store
    ensures store.Valid() && Kept(store.chains, store.calls) && b in store.chains && OnCourse(w, store.chains[b])
    ensures r.Ok? ==> Complete(w, store.chains[b]) && r.value.operations == Operations(store.chains[b])
    ensures r.Ok? ==> forall other :: Complete(w, other) ==> other == store.chains[b]
    ensures r.Err? ==> OpenAttempt(store.chains[b]).Some? || store.power == 0
    ensures forall end | Complete(w, end) && last > 3 * |end| + 2 :: r.Ok? || OpenAttempt(store.chains[b]).Some?
  {
    hide OnCourse, Complete, Kept, Log, Tracks, Advances;
    for k := 0 to |cuts|
      invariant store.Valid() && Kept(store.chains, store.calls) && b in store.chains && OnCourse(w, store.chains[b])
    {
      r := RunWithPower(store, w, b, cuts[k]);
    }
    r := RunWithPower(store, w, b, last);
    if r.Ok? {
      forall other | Complete(w, other) ensures other == store.chains[b] {
        OneEnd(w, other, store.chains[b]);
      }
    }
  }

  method RunWithPower(store: HistoryStore, w: World, b: Branch, power: nat) returns (r: Outcome<Run>)
    requires store.Valid() && Kept(store.chains, store.calls) && w.Sound() && b in store.chains
      && OnCourse(w, store.chains[b])
    modifies store
    ensures store.Valid() && Kept(store.chains, store.calls) && b in store.chains && OnCourse(w, store.chains[b])
    ensures r.Ok? ==> Complete(w, store.chains[b]) && r.value.operations == Operations(store.chains[b])
    ensures r.Err? ==> OpenAttempt(store.chains[b]).Some? || store.power == 0
    ensures r.Err? && OpenAttempt(old(store.chains)[b]).None? ==>
      power <= 3 * (|store.chains[b]| - |old(store.chains)[b]|) + 2
    ensures forall end | Complete(w, end) && OpenAttempt(old(store.chains)[b]).None? && power > 3 * |end| + 2 :: r.Ok?
    ensures OpenAttempt(old(store.chains)[b]).Some? ==> store.chains == old(store.chains)
    ensures store.Account() >= power + 2 * |old(store.events)| + |old(store.calls)|
  {
    hide OnCourse, Complete, Kept, Log, Tracks, Advances;
    ghost var chain := store.chains[b];
    store.power := power;
    r := RunInternal(store, w, b);
    if OpenAttempt(chain).None? {
      AdvanceIsCourse(w, chain, store.chains[b], r, store.power);
      forall end | Complete(w, end) ensures |store.chains[b]| <= |end| { WithinEnd(w, store.chains[b], end); }
    }
  }

  lemma {:induction false} AdvanceIsCourse(w: World, chain: seq<Entry>, chain': seq<Entry>, r: Outcome<Run>, power: nat)
    requires Advances(w, chain, chain', r, power)
    ensures OnCourse(w, chain')
    ensures if r.Ok? then Complete(w, chain') && r.value.operations == Operations(chain')
      else r.error == PowerCut && power == 0
  {
    hide Complete, Toward, OnCourse;
    if r.Ok? {
      CompleteIsCourse(w, chain');
    } else {
      var ops :| Toward(w, chain', ops) && Operations(chain) <= ops;
      TowardIsCourse(w, chain', ops);
    }
  }

  /** A branch that holds nothing yet is on course. */
  lemma {:induction false} FreshIsCourse(w: World)
    ensures OnCourse(w, [])
  {
    assert Ordained(w, []) && Operations([]) == [];
    assert Follows(w, [], Operations([]), 0);
  }

  /** The events before any task are those of the decisions before it. */
  lemma {:induction false} EventsBeforeTask(w: World, ops: seq<Operation>, k: nat) returns (j: nat)
    requires Ordained(w, ops) && k < |Events(w, ops)| && Events(w, ops)[k].TaskSet?
    ensures j < |ops| && Ordained(w, ops[..j]) && Events(w, ops)[..k] == Events(w, ops[..j])
  {
    hide Decision, NextTask, Askable;
    var prior := ops[..|ops| - 1];
    if k < |Events(w, prior)| {
      j := EventsBeforeTask(w, prior, k);
      assert prior[..j] == ops[..j];
      assert Events(w, ops)[..k] == Events(w, prior)[..k];
    } else {
      OneTask(w, NextTask(w, prior).value, k - |Events(w, prior)|);
      j := |prior|;
      assert Events(w, ops)[..k] == Events(w, prior);
    }
  }

  lemma OneTask(w: World, task: Task, i: nat)
    requires i < |Block(w, task)| && Block(w, task)[i].TaskSet?
    ensures i == 0
  {
  }

  lemma {:induction false} BeforeTaskIsCourse(w: World, chain: seq<Entry>, ops: seq<Operation>, k: nat)
    requires Ordained(w, ops) && Events(w, ops) <= chain && k < |Events(w, ops)| && chain[k].TaskSet?
    ensures OnCourse(w, chain[..k])
  {
    hide Decision, NextTask, Askable, OnCourse, Ordained;
    var events := Events(w, ops);
    var j := EventsBeforeTask(w, ops, k);
    assert chain[..k] == events[..k];
    assert Follows(w, chain[..k], ops[..j], 0);
    TowardIsCourse(w, chain[..k], ops[..j]);
  }

  /** A fork before a task of a branch on course is on course itself. */
  lemma {:induction false} ForkIsCourse(w: World, chain: seq<Entry>, task: TaskId)
    requires OnCourse(w, chain) && TaskPlace(chain, task) < |chain|
    ensures OnCourse(w, chain[..TaskPlace(chain, task)])
  {
    hide Decision, NextTask, Askable, OnCourse;
    CourseIsToward(w, chain);
    var ops := Operations(chain);
    var i: nat :| Follows(w, chain, ops, i);
    var k := TaskPlace(chain, task);
    var events := Events(w, ops);
    if k < |events| {
      BeforeTaskIsCourse(w, chain, ops, k);
    } else {
      OneTask(w, NextTask(w, ops).value, k - |events|);
      assert chain[..k] == events;
      assert Follows(w, chain[..k], ops, 0);
      TowardIsCourse(w, chain[..k], ops);
    }
  }
}

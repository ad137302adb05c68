/** Resumable decision runs over the history, provider-free replay, and what they return. */
module Midend {
  import opened Options
  import opened Access
  import opened Offers
  import opened Decisions
  import opened History
  import opened Script
  import opened Course
  import opened Lookups
  import opened Attempts
  import opened Settling

  /** The chain holds these decisions' events and perhaps part of the next block. */
  ghost predicate Toward(w: World, chain: seq<Entry>, ops: seq<Operation>) {
    exists i: nat :: Follows(w, chain, ops, i)
  }

  lemma {:induction false} StepBegins(w: World, chain: seq<Entry>, ops: seq<Operation>)
    requires w.Sound() && Toward(w, chain, ops) && NextTask(w, ops).Some?
    ensures Past(w, chain, Events(w, ops), NextTask(w, ops).value, 0)
  {
    hide NextTask, Decision, Block, Askable, World.Sound;
    var i: nat :| Follows(w, chain, ops, i);
    var task := NextTask(w, ops).value;
    NextIsAskable(w, ops);
    NextIsNew(w, ops);
    EventsSilent(w, ops, task.Id());
    assert Midway(w, chain, Events(w, ops), task, i);
  }

  lemma {:induction false} StepCut(w: World, chain: seq<Entry>, ops: seq<Operation>)
    requires Ordained(w, ops) && NextTask(w, ops).Some? && Past(w, chain, Events(w, ops), NextTask(w, ops).value, 0)
    ensures Toward(w, chain, ops)
  {
    hide NextTask, Decision, Block, Askable;
    var task := NextTask(w, ops).value;
    var i: nat :| i < |Block(w, task)| && Midway(w, chain, Events(w, ops), task, i);
    assert Follows(w, chain, ops, i);
  }

  lemma {:induction false} StepEnds(w: World, chain: seq<Entry>, ops: seq<Operation>)
    requires Ordained(w, ops) && NextTask(w, ops).Some?
    requires Midway(w, chain, Events(w, ops), NextTask(w, ops).value, |Block(w, NextTask(w, ops).value)|)
    ensures Follows(w, chain, ops + [Decision(w, NextTask(w, ops).value)], 0)
  {
    hide NextTask, Decision, Block, Askable;
    var task := NextTask(w, ops).value;
    var longer := ops + [Decision(w, task)];
    assert longer[..|longer| - 1] == ops;
    assert Block(w, task)[..|Block(w, task)|] == Block(w, task);
  }

  /** Without anyone to ask, a decision directly follows its task. */
  lemma {:induction false} MechanicalStep(w: World, chain: seq<Entry>, before: seq<Entry>, task: Task)
    requires WithoutAsking(w, task).Some? && Past(w, chain, before, task, 1)
    ensures RetainedResult(chain, Jev(task.Id())).None? && RetainedResult(chain, Specialist(task.Id())).None?
    ensures Past(w, chain, before, task, |Block(w, task)| - 1) && Decision(w, task) == WithoutAsking(w, task).value
  {
    hide Askable, WithoutAsking;
    var i: nat :| 1 <= i < |Block(w, task)| && Midway(w, chain, before, task, i);
    AttemptLookups(w, chain, before, task, i);
  }

  /** The planner accepts the decision: what it offers now under that id is what was retained. */
  predicate PlannerAgrees(generated: Task, task: Task, op: Operation) {
    op.SelectCommunityAccess? && generated.RuralTask? && task.RuralTask? ==>
      var (now, then_) := (CandidateIn(generated.offer.candidates, op.candidate),
        CandidateIn(task.offer.candidates, op.candidate));
      && now.Some? && then_.Some? && BindingOf(now.value.access) == op.binding
      && PathOf(now.value.access) == PathOf(then_.value.access)
  }

  function PathOf(a: CommunityAccess): seq<int> {
    if a.link.Some? then a.link.value.path else []
  }

  lemma {:induction false} AgreesOnCourse(w: World, chain: seq<Entry>, before: seq<Entry>, task: Task)
    requires Past(w, chain, before, task, 1)
    ensures PlannerAgrees(task, task, Decision(w, task))
  {
    hide Decision, Block;
    DecisionFitsTask(w, task);
  }

  lemma MechanicalFits(w: World, task: Task)
    requires WithoutAsking(w, task).Some?
    ensures WithoutAsking(w, task).value.task == task.Id() && WithoutAsking(w, task).value.IsRural() == task.RuralTask?
  {
  }

  /** Decides one task: puts it unless it was put before, asks whom it must, and records the decision. */
  method Settle(
      store: HistoryStore, w: World, b: Branch, generated: Task, ghost ops: seq<Operation>)
    returns (r: Outcome<Operation>)
    requires Ready(store, b) && w.Sound()
    modifies store
    ensures store.Valid() && Kept(store.chains, store.calls)
    ensures store.Account() >= old(store.Account())
    ensures store.Fuel(b) + (if r.Ok? then 0 else 2) >= old(store.Fuel(b))
    ensures b in store.chains && store.chains == old(store.chains)[b := store.chains[b]]
    ensures r.Ok? ==> Ready(store, b) && r.value.task == generated.Id() && r.value.IsRural() == generated.RuralTask?
    ensures r.Ok? ==> Fits(r.value)
    ensures r.Err? ==> r.error == Invalid || (r.error == PowerCut && store.power == 0)
    ensures Toward(w, old(store.chains)[b], ops) && NextTask(w, ops) == Some(generated) ==>
      if r.Ok? then Toward(w, store.chains[b], ops + [r.value]) && Ordained(w, ops + [r.value])
      else r.error == PowerCut && Toward(w, store.chains[b], ops)
  {
    hide NextTask, Decision, Block, Askable, World.Sound, Ordained, Verdict;
    ghost var course := Toward(w, store.chains[b], ops) && NextTask(w, ops) == Some(generated);
    ghost var before: seq<Entry> := [];
    if course {
      StepBegins(w, store.chains[b], ops);
      before := Events(w, ops);
    }
    r := SettleFrom(store, w, b, generated, before);
    if course {
      if r.Ok? { StepEnds(w, store.chains[b], ops); } else { StepCut(w, store.chains[b], ops); }
    }
  }

  lemma {:induction false} PastEarlier(w: World, before: seq<Entry>, task: Task)
    ensures forall chain, k: nat, j: nat :: j <= k && Past(w, chain, before, task, k) ==>
      Past(w, chain, before, task, j)
  {
    hide Block, Askable, Midway;
  }

  method SettleFrom(
      store: HistoryStore, w: World, b: Branch, generated: Task, ghost before: seq<Entry>)
    returns (r: Outcome<Operation>)
    requires Ready(store, b)
    modifies store
    ensures store.Valid() && Kept(store.chains, store.calls)
    ensures store.Account() >= old(store.Account())
    ensures store.Fuel(b) + (if r.Ok? then 0 else 2) >= old(store.Fuel(b))
    ensures b in store.chains && store.chains == old(store.chains)[b := store.chains[b]]
    ensures r.Ok? ==> Ready(store, b) && r.value.task == generated.Id() && r.value.IsRural() == generated.RuralTask?
    ensures r.Ok? ==> Fits(r.value)
    ensures r.Err? ==> r.error == Invalid || (r.error == PowerCut && store.power == 0)
    ensures Past(w, old(store.chains)[b], before, generated, 0) ==>
      if r.Ok? then
        r.value == Decision(w, generated) && Midway(w, store.chains[b], before, generated, |Block(w, generated)|)
      else r.error == PowerCut && Past(w, store.chains[b], before, generated, 0)
  {
    hide Decision, Block, Askable, Verdict, WithoutAsking, PlannerAgrees, Validates, Past, Midway;
    if Past(w, store.chains[b], before, generated, 0) {
      PastEarlier(w, before, generated);
    }
    var put := PutTask(store, w, b, generated, before);
    if put.Err? {
      return Err(put.error);
    }
    r := SettlePut(store, w, b, generated, put.value, before);
  }

  /** Decides a task that is on the branch. */
  method SettlePut(store: HistoryStore, w: World, b: Branch, generated: Task, task: Task, ghost before: seq<Entry>)
    returns (r: Outcome<Operation>)
    requires Ready(store, b) && task.Id() == generated.Id()
    modifies store
    ensures store.Valid() && Kept(store.chains, store.calls)
    ensures store.Account() >= old(store.Account())
    ensures store.Fuel(b) + (if r.Ok? then 0 else 2) >= old(store.Fuel(b))
    ensures b in store.chains && store.chains == old(store.chains)[b := store.chains[b]]
    ensures r.Ok? ==> Ready(store, b) && r.value.task == generated.Id() && r.value.IsRural() == generated.RuralTask?
    ensures r.Ok? ==> Fits(r.value)
    ensures r.Err? ==> r.error == Invalid || (r.error == PowerCut && store.power == 0)
    ensures task == generated && Past(w, old(store.chains)[b], before, task, 1) ==>
      if r.Ok? then r.value == Decision(w, task) && Midway(w, store.chains[b], before, task, |Block(w, task)|)
      else r.error == PowerCut && Past(w, store.chains[b], before, task, 1)
  {
    hide Decision, Block, Askable, Verdict, WithoutAsking, PlannerAgrees, Validates, Past, Midway;
    if Past(w, store.chains[b], before, task, 1) {
      AgreesOnCourse(w, store.chains[b], before, task);
      PastEarlier(w, before, task);
    }
    var op := Choose(store, w, b, generated, task, before);
    if op.Err? {
      return Err(op.error);
    }
    if !PlannerAgrees(generated, task, op.value) {
      return Err(Invalid);
    }
    r := Decide(store, w, b, task, op.value, before);
  }

  /** The decision made without asking unless someone was asked already; else the providers'. */
  method Choose(
      store: HistoryStore, w: World, b: Branch, generated: Task, task: Task, ghost before: seq<Entry>)
    returns (r: Outcome<Operation>)
    requires Ready(store, b) && task.Id() == generated.Id()
    modifies store
    ensures store.Valid() && Kept(store.chains, store.calls)
    ensures store.Account() >= old(store.Account())
    ensures store.Fuel(b) + (if r.Ok? then 0 else 2) >= old(store.Fuel(b))
    ensures b in store.chains && store.chains == old(store.chains)[b := store.chains[b]]
    ensures r.Ok? ==> Ready(store, b) && r.value.task == generated.Id() && r.value.IsRural() == generated.RuralTask?
    ensures r.Err? ==> r.error == PowerCut && store.power == 0
    ensures task == generated && Past(w, old(store.chains)[b], before, task, 1) ==>
      if r.Ok? then r.value == Decision(w, task) && Past(w, store.chains[b], before, task, |Block(w, task)| - 1)
      else Past(w, store.chains[b], before, task, 1)
  {
    hide Decision, Block, Askable, Verdict, WithoutAsking;
    var chain := Read(store, b);
    var free := IsGap(generated) ||
      (RetainedResult(chain, Jev(task.Id())).None? && RetainedResult(chain, Specialist(task.Id())).None?);
    var mechanical := if free then WithoutAsking(w, generated) else None;
    if task == generated && WithoutAsking(w, task).Some? && Past(w, chain, before, task, 1) {
      MechanicalStep(w, chain, before, task);
    }
    if mechanical.Some? {
      MechanicalFits(w, generated);
      return Ok(mechanical.value);
    }
    r := Consult(store, w, b, task, before);
  }
}

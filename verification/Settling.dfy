/** Deciding one task durably, from wherever an earlier run was cut off. */
module Settling {
  import opened Options
  import opened Decisions
  import opened History
  import opened Script
  import opened Lookups
  import opened Attempts

  /**
   The chain holds `before` and the first `i` events of a decision task's block; `before` never
   mentions that task.
   */
  ghost predicate Midway(w: World, chain: seq<Entry>, before: seq<Entry>, task: Task, i: nat) {
    && Askable(w, task) && Silent(before, task.Id()) && i <= |Block(w, task)|
    && chain == before + Block(w, task)[..i]
  }

  /** At least `k` events of the block are on the chain, its decision not yet. */
  ghost predicate Past(w: World, chain: seq<Entry>, before: seq<Entry>, task: Task, k: nat) {
    exists i: nat :: k <= i < |Block(w, task)| && Midway(w, chain, before, task, i)
  }

  lemma {:induction false} Advance(w: World, chain: seq<Entry>, before: seq<Entry>, task: Task, i: nat)
    requires Midway(w, chain, before, task, i) && i < |Block(w, task)|
    ensures Midway(w, chain + [Block(w, task)[i]], before, task, i + 1)
  {
    hide Block, Askable;
    assert Block(w, task)[..i + 1] == Block(w, task)[..i] + [Block(w, task)[i]];
  }

  /** A decision task is found once its block has begun. */
  lemma {:induction false} TaskLookup(w: World, chain: seq<Entry>, before: seq<Entry>, task: Task, i: nat)
    requires Midway(w, chain, before, task, i)
    ensures RetainedTask(chain, task.Id()) == if i >= 1 then Some(task) else None
  {
    hide Askable;
    if i >= 1 {
      assert chain[|before|] == TaskSet(task);
      forall j | 0 <= j < |before| ensures !(chain[j].TaskSet? && chain[j].task.Id() == task.Id()) {
        assert Subject(before[j]) != Some(task.Id());
      }
      FirstTask(chain, task.Id(), |before|);
    } else {
      assert chain == before;
      forall j | 0 <= j < |chain| ensures !(chain[j].TaskSet? && chain[j].task.Id() == task.Id()) {
        assert Subject(before[j]) != Some(task.Id());
      }
    }
  }

  /** A result is found once its place in the block has been passed. */
  lemma {:induction false} ResultLookup(
      w: World, chain: seq<Entry>, before: seq<Entry>, task: Task, i: nat, attempt: AttemptId, k: nat)
    requires Midway(w, chain, before, task, i) && AttemptSubject(attempt) == Some(task.Id())
    requires k < |Block(w, task)| ==> Block(w, task)[k].Finished? && Block(w, task)[k].attempt == attempt
    requires forall j | 0 <= j < |Block(w, task)| && j != k ::
      !(Block(w, task)[j].Finished? && Block(w, task)[j].attempt == attempt)
    ensures RetainedResult(chain, attempt) == if k < i then Some(Block(w, task)[k].record) else None
  {
    hide Block, Askable;
    forall j | 0 <= j < |chain| && j != |before| + k ensures !(chain[j].Finished? && chain[j].attempt == attempt) {
      if j < |before| { assert Subject(before[j]) != Some(task.Id()); }
    }
    if k < i {
      assert chain[|before| + k] == Block(w, task)[k];
      FirstResult(chain, attempt, |before| + k);
    }
  }

  /** Where the providers are asked, the block is: task, start, result, perhaps start and result again, decision. */
  lemma ConsultedBlock(w: World, task: Task)
    requires WithoutAsking(w, task).None?
    ensures var (block, jev, specialist, choice) := (Block(w, task), Jev(task.Id()), Specialist(task.Id()),
      ClassifierAnswer(w, task));
      && |block| == (if AsksSpecialist(w, task, choice) then 6 else 4)
      && block[1] == Started(jev) && block[2] == Finished(jev, Record(choice, None))
      && (AsksSpecialist(w, task, choice) ==>
            block[3] == Started(specialist) && block[4] == Finished(specialist, Record(None, w.specialist.value(task))))
  {
  }

  lemma {:induction false} AttemptLookups(w: World, chain: seq<Entry>, before: seq<Entry>, task: Task, i: nat)
    requires Midway(w, chain, before, task, i)
    ensures WithoutAsking(w, task).Some? ==>
      RetainedResult(chain, Jev(task.Id())).None? && RetainedResult(chain, Specialist(task.Id())).None?
    ensures WithoutAsking(w, task).None? ==>
      && RetainedResult(chain, Jev(task.Id())) ==
        (if i >= 3 then Some(Record(ClassifierAnswer(w, task), None)) else None)
      && RetainedResult(chain, Specialist(task.Id())) ==
         (if i >= 5 && AsksSpecialist(w, task,
           ClassifierAnswer(w, task)) then Some(Record(None, w.specialist.value(task))) else None)
  {
    hide Decision, Askable, AsksSpecialist, ClassifierAnswer, WithoutAsking;
    if WithoutAsking(w, task).Some? {
      ResultLookup(w, chain, before, task, i, Jev(task.Id()), 2);
      ResultLookup(w, chain, before, task, i, Specialist(task.Id()), 2);
    } else {
      ConsultedBlock(w, task);
      ResultLookup(w, chain, before, task, i, Jev(task.Id()), 2);
      ResultLookup(w, chain, before, task, i, Specialist(task.Id()),
        if AsksSpecialist(w, task, ClassifierAnswer(w, task)) then 4 else 6);
    }
  }

  /** A chain not cut off in an attempt has not stopped directly behind a start. */
  lemma {:induction false} NotBehindStart(w: World, chain: seq<Entry>, before: seq<Entry>, task: Task, i: nat)
    requires Midway(w, chain, before, task, i) && OpenAttempt(chain).None? && WithoutAsking(w, task).None? && i >= 1
    ensures i != 2 && (AsksSpecialist(w, task, ClassifierAnswer(w, task)) ==> i != 4)
  {
    hide Decision, Askable, AsksSpecialist, ClassifierAnswer;
    ConsultedBlock(w, task);
    assert chain[|chain| - 1] == Block(w, task)[i - 1];
  }

  /** A start and its result carry the block on by two events. */
  lemma {:induction false} AdvanceTwo(w: World, chain: seq<Entry>, before: seq<Entry>, task: Task, i: nat)
    requires Midway(w, chain, before, task, i) && i + 2 < |Block(w, task)|
    ensures Midway(w, chain + [Block(w, task)[i]], before, task, i + 1)
    ensures Midway(w, chain + [Block(w, task)[i], Block(w, task)[i + 1]], before, task, i + 2)
  {
    hide Block, Askable;
    Advance(w, chain, before, task, i);
    Advance(w, chain + [Block(w, task)[i]], before, task, i + 1);
    assert chain + [Block(w, task)[i]] + [Block(w, task)[i + 1]] == chain + [Block(w, task)[i], Block(w, task)[i + 1]];
  }

  /** The branch is there, in order, and no attempt is open on it. */
  ghost predicate Ready(store: HistoryStore, b: Branch)
    reads store
  {
    store.Valid() && Kept(store.chains, store.calls) && b in store.chains && OpenAttempt(store.chains[b]).None?
  }

  /** The classifier's answer, retained or asked for now. */
  method AskClassifier(
      store: HistoryStore, w: World, b: Branch, task: Task, ghost before: seq<Entry>)
    returns (r: Outcome<Option<Choice>>)
    requires Ready(store, b)
    modifies store
    ensures store.Valid() && Kept(store.chains, store.calls)
    ensures store.Account() >= old(store.Account())
    ensures store.Fuel(b) + (if r.Ok? then 0 else 2) >= old(store.Fuel(b))
    ensures b in store.chains && store.chains == old(store.chains)[b := store.chains[b]]
    ensures r.Ok? ==> Ready(store, b)
    ensures r.Err? ==> r.error == PowerCut && store.power == 0
    ensures WithoutAsking(w, task).None? && Past(w, old(store.chains)[b], before, task, 1) ==>
      if r.Ok? then r.value == ClassifierAnswer(w, task) && Past(w, store.chains[b], before, task, 3)
      else Past(w, store.chains[b], before, task, 1)
  {
    hide Block, Askable, Decision, WithoutAsking;
    ghost var chain := store.chains[b];
    var answer := ClassifierAnswer(w, task);
    if WithoutAsking(w, task).None? && Past(w, chain, before, task, 1) {
      ClassifierStep(w, chain, before, task);
    }
    var record := Attempt(store, b, Jev(task.Id()), Record(answer, None), w.live && w.classifier.Some?);
    if record.Err? {
      return Err(record.error);
    }
    r := Ok(record.value.choice);
  }

  lemma {:induction false} ClassifierStep(w: World, chain: seq<Entry>, before: seq<Entry>, task: Task)
    requires WithoutAsking(w, task).None? && Past(w, chain, before, task, 1) && OpenAttempt(chain).None?
    ensures var (jev, record) := (Jev(task.Id()), Record(ClassifierAnswer(w, task), None));
      if RetainedResult(chain, jev).Some? then RetainedResult(chain, jev).value == record
        && Past(w, chain, before, task, 3)
      else
        && Past(w, chain + [Started(jev)], before, task, 1)
        && Past(w, chain + [Started(jev), Finished(jev, record)], before, task, 3)
  {
    hide Decision, Askable, AsksSpecialist, ClassifierAnswer;
    var i :| 1 <= i < |Block(w, task)| && Midway(w, chain, before, task, i);
    AttemptLookups(w, chain, before, task, i);
    NotBehindStart(w, chain, before, task, i);
    ConsultedBlock(w, task);
    if i < 3 { AdvanceTwo(w, chain, before, task, i); }
  }

  /** The specialist's answer, retained or asked for now. */
  method AskSpecialist(
      store: HistoryStore, w: World, b: Branch, task: Task, ghost before: seq<Entry>)
    returns (r: Outcome<Option<Proposal>>)
    requires Ready(store, b) && w.specialist.Some?
    modifies store
    ensures store.Valid() && Kept(store.chains, store.calls)
    ensures store.Account() >= old(store.Account())
    ensures store.Fuel(b) + (if r.Ok? then 0 else 2) >= old(store.Fuel(b))
    ensures b in store.chains && store.chains == old(store.chains)[b := store.chains[b]]
    ensures r.Ok? ==> Ready(store, b)
    ensures r.Err? ==> r.error == PowerCut && store.power == 0
    ensures
      && WithoutAsking(w, task).None? && AsksSpecialist(w, task, ClassifierAnswer(w, task))
      && Past(w, old(store.chains)[b], before, task, 3) ==>
      if r.Ok? then r.value == w.specialist.value(task) && Past(w, store.chains[b], before, task, 5)
      else Past(w, store.chains[b], before, task, 3)
  {
    hide Block, Askable, Decision, WithoutAsking;
    ghost var chain := store.chains[b];
    if WithoutAsking(w, task).None? && AsksSpecialist(w, task, ClassifierAnswer(w, task))
      && Past(w, chain, before, task, 3) {
      SpecialistStep(w, chain, before, task);
    }
    var record := Attempt(store, b, Specialist(task.Id()), Record(None, w.specialist.value(task)), true);
    if record.Err? {
      return Err(record.error);
    }
    r := Ok(record.value.proposal);
  }

  lemma {:induction false} SpecialistStep(w: World, chain: seq<Entry>, before: seq<Entry>, task: Task)
    requires WithoutAsking(w, task).None? && AsksSpecialist(w, task, ClassifierAnswer(w, task))
    requires Past(w, chain, before, task, 3) && OpenAttempt(chain).None?
    ensures var (specialist, record) := (Specialist(task.Id()), Record(None, w.specialist.value(task)));
      if RetainedResult(chain, specialist).Some? then
        RetainedResult(chain, specialist).value == record && Past(w, chain, before, task, 5)
      else
        && Past(w, chain + [Started(specialist)], before, task, 3)
        && Past(w, chain + [Started(specialist), Finished(specialist, record)], before, task, 5)
  {
    hide Decision, Askable, ClassifierAnswer;
    var i :| 3 <= i < |Block(w, task)| && Midway(w, chain, before, task, i);
    AttemptLookups(w, chain, before, task, i);
    NotBehindStart(w, chain, before, task, i);
    ConsultedBlock(w, task);
    if i < 5 { AdvanceTwo(w, chain, before, task, i); }
  }

  /** The question as it was first put, or as it is put now. */
  method PutTask(
      store: HistoryStore, ghost w: World, b: Branch, generated: Task, ghost before: seq<Entry>)
    returns (r: Outcome<Task>)
    requires Ready(store, b)
    modifies store
    ensures store.Valid() && Kept(store.chains, store.calls)
    ensures store.Account() >= old(store.Account())
    ensures store.Fuel(b) + (if r.Ok? then 0 else 2) >= old(store.Fuel(b))
    ensures b in store.chains && store.chains == old(store.chains)[b := store.chains[b]]
    ensures r.Ok? ==> Ready(store, b) && r.value.Id() == generated.Id()
    ensures r.Err? ==> r.error == PowerCut && store.power == 0
    ensures Past(w, old(store.chains)[b], before, generated, 0) ==>
      if r.Ok? then r.value == generated && Past(w, store.chains[b], before, generated, 1)
      else Past(w, store.chains[b], before, generated, 0)
  {
    hide Block, Askable, Decision;
    var chain := Read(store, b);
    if Past(w, chain, before, generated, 0) {
      TaskStep(w, chain, before, generated);
    }
    var held := RetainedTask(chain, generated.Id());
    if held.Some? {
      return Ok(held.value);
    }
    MayAdd(chain, TaskSet(generated));
    ExtendKeeps(store.chains, store.calls, b, TaskSet(generated));
    var on := store.Append(b, TaskSet(generated));
    if on.Err? {
      return Err(on.error);
    }
    r := Ok(generated);
  }

  lemma {:induction false} TaskStep(w: World, chain: seq<Entry>, before: seq<Entry>, task: Task)
    requires Past(w, chain, before, task, 0)
    ensures if RetainedTask(chain, task.Id()).Some? then RetainedTask(chain, task.Id()).value == task
      && Past(w, chain, before, task, 1)
            else Past(w, chain + [TaskSet(task)], before, task, 1)
  {
    hide Decision, Askable;
    var i :| 0 <= i < |Block(w, task)| && Midway(w, chain, before, task, i);
    TaskLookup(w, chain, before, task, i);
    if i == 0 { Advance(w, chain, before, task, 0); }
  }

  /** Every decision is about its own task, whatever was answered. */
  lemma VerdictFits(w: World, task: Task, choice: Option<Choice>, proposal: Option<Proposal>)
    ensures Verdict(w, task, choice, proposal).task == task.Id()
    ensures Verdict(w, task, choice, proposal).IsRural() == task.RuralTask?
  {
  }

  lemma SpecialistThere(w: World, task: Task, choice: Option<Choice>)
    requires AsksSpecialist(w, task, choice)
    ensures w.specialist.Some?
  {
  }

  lemma DecisionByAsking(w: World, task: Task)
    requires WithoutAsking(w, task).None?
    ensures var choice := ClassifierAnswer(w, task);
      Decision(w, task) ==
        Verdict(w, task, choice, if AsksSpecialist(w, task, choice) then w.specialist.value(task) else None)
  {
  }

  /** The decision from the providers' answers, asking for those not yet retained. */
  method Consult(
      store: HistoryStore, w: World, b: Branch, task: Task, ghost before: seq<Entry>) returns (r: Outcome<Operation>)
    requires Ready(store, b)
    modifies store
    ensures store.Valid() && Kept(store.chains, store.calls)
    ensures store.Account() >= old(store.Account())
    ensures store.Fuel(b) + (if r.Ok? then 0 else 2) >= old(store.Fuel(b))
    ensures b in store.chains && store.chains == old(store.chains)[b := store.chains[b]]
    ensures r.Ok? ==> Ready(store, b) && r.value.task == task.Id() && r.value.IsRural() == task.RuralTask?
    ensures r.Err? ==> r.error == PowerCut && store.power == 0
    ensures WithoutAsking(w, task).None? && Past(w, old(store.chains)[b], before, task, 1) ==>
      if r.Ok? then r.value == Decision(w, task) && Past(w, store.chains[b], before, task, |Block(w, task)| - 1)
      else Past(w, store.chains[b], before, task, 1)
  {
    hide HistoryStore.Valid, Kept, Askable, ClassifierAnswer, WithoutAsking, Block, Decision, Verdict, AsksSpecialist;
    if WithoutAsking(w, task).None? {
      ConsultedBlock(w, task);
      DecisionByAsking(w, task);
    }
    var choice := AskClassifier(store, w, b, task, before);
    if choice.Err? {
      return Err(choice.error);
    }
    var proposal: Option<Proposal> := None;
    if AsksSpecialist(w, task, choice.value) {
      SpecialistThere(w, task, choice.value);
      var answer := AskSpecialist(store, w, b, task, before);
      if answer.Err? {
        return Err(answer.error);
      }
      proposal := answer.value;
    }
    VerdictFits(w, task, choice.value, proposal);
    r := Ok(Verdict(w, task, choice.value, proposal));
  }

  /** The decision, once it validates. */
  method Decide(
      store: HistoryStore, w: World, b: Branch, task: Task, op: Operation, ghost before: seq<Entry>)
    returns (r: Outcome<Operation>)
    requires Ready(store, b)
    modifies store
    ensures store.Valid() && Kept(store.chains, store.calls)
    ensures store.Account() >= old(store.Account())
    ensures store.Fuel(b) + (if r.Ok? then 0 else 2) >= old(store.Fuel(b))
    ensures b in store.chains && store.chains == old(store.chains)[b := store.chains[b]]
    ensures r.Ok? ==>
      Ready(store, b) && r.value == op && Validates(w.connections, w.admitted, op, w.allow, Some(task)) && Fits(op)
    ensures r.Err? ==>
      store.chains == old(store.chains) && (r.error == Invalid || (r.error == PowerCut && store.power == 0))
    ensures op == Decision(w, task) && Past(w, old(store.chains)[b], before, task, |Block(w, task)| - 1) ==>
      if r.Ok? then Midway(w, store.chains[b], before, task, |Block(w, task)|) else r.error == PowerCut
  {
    hide HistoryStore.Valid, Block, Decision, Askable, Validates;
    ghost var chain := store.chains[b];
    if op == Decision(w, task) && Past(w, chain, before, task, |Block(w, task)| - 1) {
      DecisionStep(w, chain, before, task);
    }
    if !Validates(w.connections, w.admitted, op, w.allow, Some(task)) {
      return Err(Invalid);
    }
    ValidatesFits(w, task, op);
    MayAdd(chain, Decided(op));
    ExtendKeeps(store.chains, store.calls, b, Decided(op));
    var on := store.Append(b, Decided(op));
    if on.Err? {
      return Err(on.error);
    }
    r := Ok(op);
  }

  lemma ValidatesFits(w: World, task: Task, op: Operation)
    requires Validates(w.connections, w.admitted, op, w.allow, Some(task))
    ensures Fits(op)
  {
  }

  lemma {:induction false} DecisionStep(w: World, chain: seq<Entry>, before: seq<Entry>, task: Task)
    requires Past(w, chain, before, task, |Block(w, task)| - 1)
    ensures Validates(w.connections, w.admitted, Decision(w, task), w.allow, Some(task))
    ensures Midway(w, chain + [Decided(Decision(w, task))], before, task, |Block(w, task)|)
  {
    hide Decision, Validates;
    DecisionFitsTask(w, task);
    Advance(w, chain, before, task, |Block(w, task)| - 1);
  }
}

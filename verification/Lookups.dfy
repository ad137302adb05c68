/** What a run finds when it looks tasks and results up on a chain that is on course. */
module Lookups {
  import opened Options
  import opened Offers
  import opened Decisions
  import opened History
  import opened Script
  import opened Course

  function RetainedTask(chain: seq<Entry>, id: TaskId): Option<Task> {
    var k := TaskPlace(chain, id);
    if k < |chain| then Some(chain[k].task) else None
  }

  function ResultPlace(chain: seq<Entry>, attempt: AttemptId): (k: nat)
    ensures k <= |chain| && (k < |chain| ==> chain[k].Finished? && chain[k].attempt == attempt)
    ensures forall j | 0 <= j < k :: !(chain[j].Finished? && chain[j].attempt == attempt)
  {
    if chain == [] || (chain[0].Finished? && chain[0].attempt == attempt) then 0
      else 1 + ResultPlace(chain[1..], attempt)
  }

  function RetainedResult(chain: seq<Entry>, attempt: AttemptId): Option<Record> {
    var k := ResultPlace(chain, attempt);
    if k < |chain| then Some(chain[k].record) else None
  }

  /** Which decision task an entry belongs to. */
  function Subject(e: Entry): Option<TaskId> {
    match e
    case TaskSet(task) => Some(task.Id())
    case Started(a) => AttemptSubject(a)
    case Finished(a, _) => AttemptSubject(a)
    case Decided(op) => Some(op.task)
  }

  function AttemptSubject(a: AttemptId): Option<TaskId> {
    if a.Jev? || a.Specialist? then Some(a.task) else None
  }

  ghost predicate Silent(chain: seq<Entry>, id: TaskId) {
    forall i | 0 <= i < |chain| :: Subject(chain[i]) != Some(id)
  }

  lemma {:induction false} FirstTask(chain: seq<Entry>, id: TaskId, k: nat)
    requires k < |chain| && chain[k].TaskSet? && chain[k].task.Id() == id
    requires forall j | 0 <= j < k :: !(chain[j].TaskSet? && chain[j].task.Id() == id)
    ensures RetainedTask(chain, id) == Some(chain[k].task)
  {
    assert TaskPlace(chain, id) == k;
  }

  lemma {:induction false} FirstResult(chain: seq<Entry>, attempt: AttemptId, k: nat)
    requires k < |chain| && chain[k].Finished? && chain[k].attempt == attempt
    requires forall j | 0 <= j < k :: !(chain[j].Finished? && chain[j].attempt == attempt)
    ensures RetainedResult(chain, attempt) == Some(chain[k].record)
  {
    assert ResultPlace(chain, attempt) == k;
  }

  /** What is found on a chain stays found as it grows. */
  lemma {:induction false} StillRetained(a: seq<Entry>, b: seq<Entry>, id: TaskId)
    requires RetainedTask(a, id).Some?
    ensures RetainedTask(a + b, id) == RetainedTask(a, id)
  {
    FirstTask(a + b, id, TaskPlace(a, id));
  }

  lemma {:induction false} BlockSubject(w: World, task: Task)
    requires Askable(w, task)
    ensures forall i | 0 <= i < |Block(w, task)| :: Subject(Block(w, task)[i]) == Some(task.Id())
  {
    DecisionFitsTask(w, task);
  }

  /** Each decision on course is about the connection or community its task names. */
  ghost predicate Fits(op: Operation) {
    op.task == if op.IsRural() then TaskId.Rural(op.community) else Urban(op.connection)
  }

  lemma {:induction false} OrdainedAt(w: World, ops: seq<Operation>, k: nat)
    requires Ordained(w, ops) && k < |ops|
    ensures Ordained(w, ops[..k]) && NextTask(w, ops[..k]).Some? && Askable(w, NextTask(w, ops[..k]).value)
    ensures ops[k] == Decision(w, NextTask(w, ops[..k]).value)
  {
    hide Decision, NextTask, Askable;
    var prior := ops[..|ops| - 1];
    if k < |ops| - 1 {
      OrdainedAt(w, prior, k);
      assert prior[..k] == ops[..k];
    }
  }

  lemma {:induction false} OpsFit(w: World, ops: seq<Operation>, k: nat)
    requires Ordained(w, ops) && k < |ops|
    ensures Fits(ops[k])
  {
    hide Decision, NextTask;
    OrdainedAt(w, ops, k);
    DecisionFitsTask(w, NextTask(w, ops[..k]).value);
  }

  lemma {:induction false} EventsSilent(w: World, ops: seq<Operation>, id: TaskId)
    requires Ordained(w, ops) && forall k | 0 <= k < |ops| :: ops[k].task != id
    ensures Silent(Events(w, ops), id)
  {
    hide Decision, NextTask, Block;
    if ops != [] {
      var prior := ops[..|ops| - 1];
      EventsSilent(w, prior, id);
      BlockSubject(w, NextTask(w, prior).value);
      DecisionFitsTask(w, NextTask(w, prior).value);
    }
  }

  /** Each decision's task is retained as it was put. */
  lemma {:induction false} TasksRetained(w: World, ops: seq<Operation>, k: nat)
    requires w.Sound() && Ordained(w, ops) && k < |ops|
    ensures RetainedTask(Events(w, ops), ops[k].task) == NextTask(w, ops[..k])
  {
    hide Decision, NextTask, Block;
    var prior := ops[..|ops| - 1];
    var task := NextTask(w, prior).value;
    if k < |ops| - 1 {
      TasksRetained(w, prior, k);
      assert prior[..k] == ops[..k];
      OrdainedAt(w, ops, k);
      StillRetained(Events(w, prior), Block(w, task), ops[k].task);
    } else {
      NextIsNew(w, prior);
      EventsSilent(w, prior, task.Id());
      DecisionFitsTask(w, task);
      var events := Events(w, prior);
      assert (events + Block(w, task))[|events|] == TaskSet(task);
      FirstTask(events + Block(w, task), task.Id(), |events|);
    }
  }

  lemma {:induction false} RuledAreRulings(ops: seq<Operation>, k: nat)
    requires k < |ops| && ops[k].IsRural() && ops[k].candidate != Gap
    ensures ops[k].community in Ruled(Rulings(ops))
  {
    var prior := ops[..|ops| - 1];
    if k < |ops| - 1 {
      RuledAreRulings(prior, k);
      assert forall r :: r in Rulings(prior) ==> r in Rulings(ops);
    } else {
      assert RulingOf(ops[k]) in Rulings(ops);
    }
  }

  /** Once one community is recorded as a gap the planner has nothing more to offer. */
  lemma {:induction false} GapsComeLast(w: World, ops: seq<Operation>, k: nat)
    requires w.Sound() && Ordained(w, ops) && k < |ops| && ops[k].IsRural() && ops[k].candidate == Gap
    ensures FirstOpen(w.connections, DoneConnections(ops)) == |w.connections|
    ensures w.rural.Some? && w.rural.value.offers(Selected(ops), Rulings(ops)).None?
  {
    hide Decision, Block, Askable;
    var prior := ops[..|ops| - 1];
    assert DoneConnections(prior) <= DoneConnections(ops);
    DecisionFitsTask(w, NextTask(w, prior).value);
    if k < |ops| - 1 {
      GapsComeLast(w, prior, k);
    }
    assert FirstOpen(w.connections, DoneConnections(prior)) == |w.connections|;
    assert FirstOpen(w.connections, DoneConnections(ops)) == |w.connections|;
  }

  /** The next task has not been decided, nor even put, before. */
  lemma {:induction false} NextIsNew(w: World, ops: seq<Operation>)
    requires w.Sound() && Ordained(w, ops) && NextTask(w, ops).Some?
    ensures forall k | 0 <= k < |ops| :: ops[k].task != NextTask(w, ops).value.Id()
  {
    hide Decision, Block, Askable;
    var id := NextTask(w, ops).value.Id();
    forall k | 0 <= k < |ops| ensures ops[k].task != id {
      OpsFit(w, ops, k);
      if id.Rural? && ops[k].IsRural() {
        if ops[k].candidate == Gap { GapsComeLast(w, ops, k); } else { RuledAreRulings(ops, k); }
        assert ops[k].community in DoneCommunities(ops);
      } else if id.Urban? && !ops[k].IsRural() {
        assert ops[k].connection in DoneConnections(ops);
      }
    }
  }

  lemma NextIsAskable(w: World, ops: seq<Operation>)
    requires w.Sound() && NextTask(w, ops).Some?
    ensures Askable(w, NextTask(w, ops).value)
  {
  }
}

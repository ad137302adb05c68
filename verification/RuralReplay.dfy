/** Rebuilding the planner's state from retained rural decisions. */
module RuralReplay {
  import opened Options
  import opened Access
  import opened Offers
  import opened Decisions
  import opened Script
  import opened Course
  import opened Lookups
  import opened Midend

  /** An earlier decision accepted the candidate's parent. */
  predicate ParentDecided(prior: seq<Operation>, a: CommunityAccess) {
    BindingOf(a).parent.Some? ==>
      exists i :: 0 <= i < |prior| && prior[i].SelectCommunityAccess? && prior[i].community == BindingOf(a).parent.value
  }

  /** The planner offers again what the retained task was about, and takes the retained decision. */
  predicate ReplaysOne(
      rural: Rural, selected: seq<AlignmentId>, rulings: seq<Ruling>, prior: seq<Operation>, op: Operation,
      task: Option<Task>)
    requires op.IsRural()
  {
    && task.Some? && task.value.RuralTask? && CandidateIn(task.value.offer.candidates, op.candidate).Some?
    && (op.candidate != Gap ==>
          var (now, held) := (rural.offers(selected, rulings),
            CandidateIn(task.value.offer.candidates, op.candidate).value.access);
          && now.Some? && now.value.community == task.value.offer.community && ParentDecided(prior, held)
          && (op.SelectCommunityAccess? ==>
                var accepted := CandidateIn(now.value.candidates, op.candidate);
                && accepted.Some? && PathOf(accepted.value.access) == PathOf(held)
                && BindingOf(accepted.value.access).parent == BindingOf(held).parent))
  }

  lemma {:induction false} RulingsGrow(ops: seq<Operation>, k: nat)
    requires k < |ops|
    ensures Rulings(ops[..k + 1]) == Rulings(ops[..k]) + if ops[k].IsRural()
      && ops[k].candidate != Gap then [RulingOf(ops[k])] else []
  {
    assert ops[..k + 1][..k] == ops[..k];
  }

  /** Feeds the retained rural decisions to the planner again. */
  method ReplayRulings(
      ghost w: World, rural: Rural, chain: seq<Entry>, ops: seq<Operation>) returns (r: Option<seq<Ruling>>)
    ensures r.Some? ==> r.value == Rulings(ops)
    ensures w.Sound() && w.rural == Some(rural) && Toward(w, chain, ops) ==> r.Some?
  {
    hide NextTask, Decision, World.Sound, Toward, ReplaysOne;
    var rulings: seq<Ruling> := [];
    for k := 0 to |ops|
      invariant rulings == Rulings(ops[..k])
    {
      RulingsGrow(ops, k);
      if ops[k].IsRural() {
        var task := RetainedTask(chain, ops[k].task);
        if w.Sound() && w.rural == Some(rural) && Toward(w, chain, ops) { ReplayStep(w, rural, chain, ops, k); }
        if !ReplaysOne(rural, Selected(ops), rulings, ops[..k], ops[k], task) {
          return None;
        }
        if ops[k].candidate != Gap {
          rulings := rulings + [RulingOf(ops[k])];
        }
      }
    }
    assert ops[..|ops|] == ops;
    r := Some(rulings);
  }

  /** Once a decision is rural all connections are decided, so the selected alignments stay. */
  lemma {:induction false} SelectedStays(w: World, ops: seq<Operation>, k: nat)
    requires Ordained(w, ops) && k < |ops| && ops[k].IsRural()
    ensures Selected(ops) == Selected(ops[..k]) && FirstOpen(w.connections, DoneConnections(ops)) == |w.connections|
    ensures w.rural.Some?
  {
    hide Decision, Block, Askable;
    var prior := ops[..|ops| - 1];
    DecisionFitsTask(w, NextTask(w, prior).value);
    if k < |ops| - 1 {
      SelectedStays(w, prior, k);
      assert prior[..k] == ops[..k];
    } else {
      assert prior == ops[..k];
    }
    assert DoneConnections(prior) <= DoneConnections(ops);
    assert FirstOpen(w.connections, DoneConnections(prior)) == |w.connections|;
    assert FirstOpen(w.connections, DoneConnections(ops)) == |w.connections|;
  }

  /** Every retained decision has its task on the chain, and validates. */
  lemma {:induction false} RetainedAt(w: World, chain: seq<Entry>, ops: seq<Operation>, k: nat)
    requires w.Sound() && Toward(w, chain, ops) && k < |ops|
    ensures RetainedTask(chain, ops[k].task) == NextTask(w, ops[..k]) && NextTask(w, ops[..k]).Some?
    ensures Ordained(w, ops) && Askable(w, NextTask(w, ops[..k]).value)
      && ops[k] == Decision(w, NextTask(w, ops[..k]).value)
    ensures Validates(w.connections, w.admitted, ops[k], w.allow, RetainedTask(chain, ops[k].task))
  {
    hide NextTask, Decision, Block, Askable, Validates, World.Sound;
    var i: nat :| Follows(w, chain, ops, i);
    OrdainedAt(w, ops, k);
    TasksRetained(w, ops, k);
    DecisionFitsTask(w, NextTask(w, ops[..k]).value);
    if i > 0 {
      StillRetained(Events(w, ops), Block(w, NextTask(w, ops).value)[..i], ops[k].task);
    }
  }

  lemma {:induction false} AcceptedWasSelected(ops: seq<Operation>, i: nat)
    requires i < |Rulings(ops)| && Rulings(ops)[i].Accepted?
    ensures exists j :: 0 <= j < |ops| && ops[j].SelectCommunityAccess? && ops[j].community == Rulings(ops)[i].community
  {
    var prior := ops[..|ops| - 1];
    if i < |Rulings(prior)| {
      AcceptedWasSelected(prior, i);
      var j :| 0 <= j < |prior| && prior[j].SelectCommunityAccess? && prior[j].community == Rulings(prior)[i].community;
      assert ops[j] == prior[j];
    }
  }

  lemma {:induction false} ReplayStep(w: World, rural: Rural, chain: seq<Entry>, ops: seq<Operation>, k: nat)
    requires w.Sound() && w.rural == Some(rural) && Toward(w, chain, ops) && k < |ops| && ops[k].IsRural()
    ensures ReplaysOne(rural, Selected(ops), Rulings(ops[..k]), ops[..k], ops[k], RetainedTask(chain, ops[k].task))
  {
    hide Decision, Block, Askable, Toward, Validates;
    RetainedAt(w, chain, ops, k);
    var (prior, op) := (ops[..k], ops[k]);
    var task := NextTask(w, prior).value;
    DecisionFitsTask(w, task);
    SelectedStays(w, ops, k);
    ValidFound(w, op, task);
    if op.candidate != Gap {
      var held := CandidateIn(task.offer.candidates, op.candidate).value.access;
      assert rural.offers(Selected(prior), Rulings(prior)) == Some(task.offer);
      assert ParentAccepted(Rulings(prior), held);
      var rulings := Rulings(prior);
      if i :| 0 <= i < |rulings| && rulings[i].Accepted? && Some(rulings[i].community) == BindingOf(held).parent {
        AcceptedWasSelected(prior, i);
      }
    }
  }

  lemma ValidFound(w: World, op: Operation, task: Task)
    requires op.IsRural() && Validates(w.connections, w.admitted, op, w.allow, Some(task))
    ensures task.RuralTask? && CandidateIn(task.offer.candidates, op.candidate).Some?
  {
  }
}

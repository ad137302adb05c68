/**
 Whole decision runs and provider-free replay.  However often runs are cut off and
 resumed, a branch ends with the events of one uninterrupted run; running again adds
 nothing, and replay returns the same operations.
 */
module DecisionRuns {
  import opened Options
  import opened Access
  import opened Offers
  import opened Decisions
  import opened Script
  import opened Lookups
  import opened Midend
  import opened RuralReplay

  // The community access a history says.

  /** Files a record under its community, in order of communities; a later record replaces an earlier one. */
  function Put(list: seq<CommunityAccess>, a: CommunityAccess): seq<CommunityAccess> {
    if list == [] || a.id < list[0].id then [a] + list
    else if a.id == list[0].id then [a] + list[1..]
    else [list[0]] + Put(list[1..], a)
  }

  predicate Ordered(list: seq<CommunityAccess>) {
    forall i, j | 0 <= i < j < |list| :: list[i].id < list[j].id
  }

  /** In ordered records the new one takes the place of its community's, and all others stay. */
  lemma {:induction false} PutFiles(list: seq<CommunityAccess>, a: CommunityAccess)
    requires Ordered(list)
    ensures Ordered(Put(list, a))
    ensures forall r :: r in Put(list, a) <==> r == a || (r in list && r.id != a.id)
  {
    if list != [] {
      var rest := list[1..];
      assert list == [list[0]] + rest;
      if a.id > list[0].id {
        PutFiles(rest, a);
        InFront(list[0], Put(rest, a));
      }
    }
  }

  lemma InFront(first: CommunityAccess, rest: seq<CommunityAccess>)
    requires Ordered(rest) && forall r <- rest :: first.id < r.id
    ensures Ordered([first] + rest)
  {
  }

  /** What a rural decision leaves its community with: the retained candidate, or nothing of its route. */
  function AccessOf(op: Operation, candidate: Candidate): CommunityAccess {
    if op.IsUnresolved() then
      candidate.access.(
        status := if candidate.id == Gap || candidate.access.status == NetworkGap then NetworkGap
          else Access.Unresolved,
        link := None)
    else candidate.access
  }

  function RetainedCandidate(chain: seq<Entry>, op: Operation): Option<Candidate>
    requires op.IsRural()
  {
    var task := RetainedTask(chain, op.task);
    if task.Some? && task.value.RuralTask? then CandidateIn(task.value.offer.candidates, op.candidate) else None
  }

  function RecordsFromHistory(chain: seq<Entry>, ops: seq<Operation>): Option<seq<CommunityAccess>> {
    if ops == [] then Some([])
    else
      var (before, op) := (RecordsFromHistory(chain, ops[..|ops| - 1]), ops[|ops| - 1]);
      if !op.IsRural() then before
      else if before.None? || RetainedCandidate(chain, op).None? then None
      else Some(Put(before.value, AccessOf(op, RetainedCandidate(chain, op).value)))
  }

  predicate AnyRural(ops: seq<Operation>) {
    exists i :: 0 <= i < |ops| && ops[i].IsRural()
  }

  /** The access a replay returns. */
  function ReplayedAccess(
      shown: seq<CommunityAccess>, chain: seq<Entry>, ops: seq<Operation>): Option<seq<CommunityAccess>> {
    if AnyRural(ops) then RecordsFromHistory(chain, ops) else Some(shown)
  }

  /** The access a run returns. */
  function RunAccess(w: World, chain: seq<Entry>, ops: seq<Operation>): Option<seq<CommunityAccess>> {
    if w.rural.Some? then RecordsFromHistory(chain, ops) else ReplayedAccess(w.shown, chain, ops)
  }

  /**
   Run and replay return the same access: without a rural decision both return what the report
   shows, which is nothing beside a planner.
   */
  lemma {:induction false} ReplayAgrees(w: World, chain: seq<Entry>, ops: seq<Operation>)
    requires w.Sound()
    ensures RunAccess(w, chain, ops) == ReplayedAccess(w.shown, chain, ops)
  {
    hide Rural.Sound;
    if !AnyRural(ops) { NoRuralNoRecords(chain, ops); }
  }

  lemma {:induction false} NoRuralNoRecords(chain: seq<Entry>, ops: seq<Operation>)
    requires !AnyRural(ops)
    ensures RecordsFromHistory(chain, ops) == Some([])
  {
    if ops != [] {
      assert !ops[|ops| - 1].IsRural();
      NoRuralNoRecords(chain, ops[..|ops| - 1]);
    }
  }

  /** On course every rural decision finds the candidate it repeats. */
  lemma {:induction false} CandidateRetained(w: World, chain: seq<Entry>, ops: seq<Operation>, k: nat)
    requires w.Sound() && Toward(w, chain, ops) && k < |ops| && ops[k].IsRural()
    ensures RetainedCandidate(chain, ops[k]).Some?
    ensures RetainedCandidate(chain, ops[k]).value.access.id == ops[k].community
    ensures BindingOf(RetainedCandidate(chain, ops[k]).value.access) == ops[k].binding
  {
    hide Decision, NextTask, Askable, Toward;
    RetainedAt(w, chain, ops, k);
  }

  /**
   The records say what was decided: one for each decided community, with the route
   that was selected for it, or with no route at all if its decision is unresolved.
   */
  ghost predicate SaysWhatWasDecided(ops: seq<Operation>, records: seq<CommunityAccess>) {
    && Ordered(records)
    && (forall r :: r in records ==> exists k :: 0 <= k < |ops| && ops[k].IsRural() && SaysDecision(ops[k], r))
    && (forall k | 0 <= k < |ops| && ops[k].IsRural() :: exists r :: r in records && SaysDecision(ops[k], r))
  }

  ghost predicate SaysDecision(op: Operation, r: CommunityAccess)
    requires op.IsRural()
  {
    && r.id == op.community
    && if op.IsUnresolved() then r.link.None? && r.status in {NetworkGap, Access.Unresolved}
      else BindingOf(r) == op.binding
  }

  lemma {:induction false} RecordsSayDecisions(w: World, chain: seq<Entry>, ops: seq<Operation>, n: nat)
    requires w.Sound() && Toward(w, chain, ops) && n <= |ops|
    ensures RecordsFromHistory(chain, ops[..n]).Some?
    ensures SaysWhatWasDecided(ops[..n], RecordsFromHistory(chain, ops[..n]).value)
  {
    hide Toward, BindingOf, World.Sound, RetainedCandidate, AccessOf, Put, SaysDecision;
    if n == 0 {
      assert ops[..n] == [];
    } else {
      var (prior, op) := (ops[..n - 1], ops[n - 1]);
      assert ops[..n] == prior + [op];
      RecordsSayDecisions(w, chain, ops, n - 1);
      RecordsOneMore(chain, prior, op);
      if op.IsRural() {
        CandidateRetained(w, chain, ops, n - 1);
        DecidedOnce(w, chain, ops, n - 1);
        RecordsStep(chain, prior, op, RecordsFromHistory(chain, prior).value);
      } else {
        SaysOneMore(prior, op, RecordsFromHistory(chain, prior).value);
      }
    }
  }

  /** A decision that is not rural leaves the records as they are; a rural one files what it leaves its community. */
  lemma {:induction false} RecordsOneMore(chain: seq<Entry>, prior: seq<Operation>, op: Operation)
    ensures RecordsFromHistory(chain, prior + [op]) ==
      var before := RecordsFromHistory(chain, prior);
      if !op.IsRural() then before
      else if before.None? || RetainedCandidate(chain, op).None? then None
      else Some(Put(before.value, AccessOf(op, RetainedCandidate(chain, op).value)))
  {
    hide RetainedCandidate, AccessOf, Put;
    var ops := prior + [op];
    assert ops[..|ops| - 1] == prior && ops[|ops| - 1] == op;
  }

  lemma {:induction false} SaysOneMore(prior: seq<Operation>, op: Operation, records: seq<CommunityAccess>)
    requires SaysWhatWasDecided(prior, records) && !op.IsRural()
    ensures SaysWhatWasDecided(prior + [op], records)
  {
    hide SaysDecision, Ordered;
    var ops := prior + [op];
    forall r | r in records ensures exists k :: 0 <= k < |ops| && ops[k].IsRural() && SaysDecision(ops[k], r) {
      var k :| 0 <= k < |prior| && prior[k].IsRural() && SaysDecision(prior[k], r);
      assert ops[k] == prior[k];
    }
  }

  lemma {:induction false} DecidedOnce(w: World, chain: seq<Entry>, ops: seq<Operation>, k: nat)
    requires w.Sound() && Toward(w, chain, ops) && k < |ops| && ops[k].IsRural()
    ensures forall j | 0 <= j < k && ops[j].IsRural() :: ops[j].community != ops[k].community
  {
    hide Decision, NextTask, Askable, World.Sound, Block;
    OrdainedAt(w, ops, k);
    NextIsNew(w, ops[..k]);
    DecisionFitsTask(w, NextTask(w, ops[..k]).value);
    OpsFit(w, ops, k);
    forall j | 0 <= j < k && ops[j].IsRural() ensures ops[j].community != ops[k].community {
      OpsFit(w, ops, j);
      assert ops[..k][j] == ops[j];
    }
  }

  lemma {:induction false} RecordsStep(
      chain: seq<Entry>, prior: seq<Operation>, op: Operation, records: seq<CommunityAccess>)
    requires SaysWhatWasDecided(prior, records) && op.IsRural() && RetainedCandidate(chain, op).Some?
    requires RetainedCandidate(chain, op).value.access.id == op.community
    requires BindingOf(RetainedCandidate(chain, op).value.access) == op.binding
    requires forall j | 0 <= j < |prior| && prior[j].IsRural() :: prior[j].community != op.community
    ensures SaysWhatWasDecided(prior + [op], Put(records, AccessOf(op, RetainedCandidate(chain, op).value)))
  {
    hide BindingOf, Put;
    var a := AccessOf(op, RetainedCandidate(chain, op).value);
    var filed := Put(records, a);
    PutFiles(records, a);
    var ops := prior + [op];
    assert ops[|prior|] == op && SaysDecision(op, a);
    forall r | r in filed ensures exists k :: 0 <= k < |ops| && ops[k].IsRural() && SaysDecision(ops[k], r) {
      if r != a {
        var k :| 0 <= k < |prior| && prior[k].IsRural() && SaysDecision(prior[k], r);
        assert ops[k] == prior[k];
      }
    }
    forall k | 0 <= k < |ops| && ops[k].IsRural() ensures exists r :: r in filed && SaysDecision(ops[k], r) {
      if k < |prior| {
        var r :| r in records && SaysDecision(prior[k], r);
        assert r in filed;
      }
    }
  }
}

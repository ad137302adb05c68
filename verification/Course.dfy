/** The one course a branch can take, and what a chain that follows it looks like wherever it was cut. */
module Course {
  import opened Decisions
  import opened Script

  function Operations(chain: seq<Entry>): seq<Operation> {
    if chain == [] then []
    else
      var before := Operations(chain[..|chain| - 1]);
      if chain[|chain| - 1].Decided? then before + [chain[|chain| - 1].operation] else before
  }

  /** Each decision is the one its task leads to, and each task the next after the decisions before it. */
  ghost predicate Ordained(w: World, ops: seq<Operation>) {
    ops == [] ||
      (var prior := ops[..|ops| - 1];
       && Ordained(w, prior) && NextTask(w, prior).Some? && Askable(w, NextTask(w, prior).value)
       && ops[|ops| - 1] == Decision(w, NextTask(w, prior).value))
  }

  /** The events of a branch that made these decisions. */
  ghost function Events(w: World, ops: seq<Operation>): seq<Entry>
    requires Ordained(w, ops)
  {
    if ops == [] then [] else Events(w, ops[..|ops| - 1]) + Block(w, NextTask(w, ops[..|ops| - 1]).value)
  }

  /** The chain holds these decisions' events and perhaps the beginning of the next block. */
  ghost predicate Follows(w: World, chain: seq<Entry>, ops: seq<Operation>, i: nat) {
    && Ordained(w, ops)
    && if i == 0 then chain == Events(w, ops)
       else
         && NextTask(w, ops).Some? && Askable(w, NextTask(w, ops).value) && i < |Block(w, NextTask(w, ops).value)|
         && chain == Events(w, ops) + Block(w, NextTask(w, ops).value)[..i]
  }

  ghost predicate OnCourse(w: World, chain: seq<Entry>) {
    exists i: nat :: Follows(w, chain, Operations(chain), i)
  }

  ghost predicate Complete(w: World, chain: seq<Entry>) {
    Follows(w, chain, Operations(chain), 0) && NextTask(w, Operations(chain)).None?
  }

  lemma {:induction false} OperationsConcat(a: seq<Entry>, b: seq<Entry>)
    ensures Operations(a + b) == Operations(a) + Operations(b)
  {
    if b == [] {
      assert a + b == a;
    } else {
      assert (a + b)[..|a + b| - 1] == a + b[..|b| - 1];
      OperationsConcat(a, b[..|b| - 1]);
    }
  }

  lemma {:induction false} NoOperations(chain: seq<Entry>)
    requires forall i | 0 <= i < |chain| :: !chain[i].Decided?
    ensures Operations(chain) == []
  {
    if chain != [] { NoOperations(chain[..|chain| - 1]); }
  }

  lemma {:induction false} BlockOperations(w: World, task: Task, i: nat)
    requires i <= |Block(w, task)|
    ensures Operations(Block(w, task)[..i]) == if i < |Block(w, task)| then [] else [Decision(w, task)]
  {
    var block := Block(w, task);
    if i < |block| {
      NoOperations(block[..i]);
    } else {
      assert block[..i] == block[..i - 1] + [block[i - 1]];
      NoOperations(block[..i - 1]);
      assert block[..i][..i - 1] == block[..i - 1];
    }
  }

  lemma {:induction false} EventsOperations(w: World, ops: seq<Operation>)
    requires Ordained(w, ops)
    ensures Operations(Events(w, ops)) == ops
  {
    hide Decision, NextTask, Block, Askable;
    if ops != [] {
      var prior := ops[..|ops| - 1];
      var task := NextTask(w, prior).value;
      EventsOperations(w, prior);
      BlockOperations(w, task, |Block(w, task)|);
      assert Block(w, task)[..|Block(w, task)|] == Block(w, task);
      OperationsConcat(Events(w, prior), Block(w, task));
    }
  }

  /** The decisions a chain follows are the ones on it. */
  lemma {:induction false} FollowsOperations(w: World, chain: seq<Entry>, ops: seq<Operation>, i: nat)
    requires Follows(w, chain, ops, i)
    ensures Operations(chain) == ops
  {
    EventsOperations(w, ops);
    if i > 0 {
      var task := NextTask(w, ops).value;
      BlockOperations(w, task, i);
      OperationsConcat(Events(w, ops), Block(w, task)[..i]);
    }
  }

  /** Of two decision sequences on course, the shorter begins the longer. */
  lemma {:induction false} OneCourse(w: World, a: seq<Operation>, b: seq<Operation>)
    requires Ordained(w, a) && Ordained(w, b) && |a| <= |b|
    ensures a == b[..|a|]
    decreases |b|
  {
    hide Decision, NextTask, Askable;
    if |a| < |b| {
      OneCourse(w, a, b[..|b| - 1]);
      assert b[..|b| - 1][..|a|] == b[..|a|];
    } else if a != [] {
      OneCourse(w, a[..|a| - 1], b[..|b| - 1]);
      assert b[..|b| - 1][..|a| - 1] == b[..|b| - 1];
      assert a == a[..|a| - 1] + [a[|a| - 1]] && b == b[..|b| - 1] + [b[|b| - 1]];
    }
  }

  /** With nothing left to ask, no decision sequence on course goes further. */
  lemma {:induction false} NothingFollowsTheEnd(w: World, a: seq<Operation>, b: seq<Operation>)
    requires Ordained(w, a) && Ordained(w, b) && NextTask(w, a).None?
    ensures |b| <= |a|
    decreases |b|
  {
    if |b| > |a| {
      var prior := b[..|b| - 1];
      NothingFollowsTheEnd(w, a, prior);
      assert prior[..|a|] == prior;
      OneCourse(w, a, prior);
    }
  }

  /** However they were cut and resumed, two finished branches hold the same events. */
  lemma {:induction false} OneEnd(w: World, chain: seq<Entry>, other: seq<Entry>)
    requires Complete(w, chain) && Complete(w, other)
    ensures chain == other
  {
    var (a, b) := (Operations(chain), Operations(other));
    NothingFollowsTheEnd(w, a, b);
    NothingFollowsTheEnd(w, b, a);
    OneCourse(w, a, b);
    assert b[..|a|] == b;
  }

  /** A branch on course holds no decision a finished one does not begin with. */
  lemma {:induction false} CourseLeadsToEnd(w: World, chain: seq<Entry>, end: seq<Entry>)
    requires OnCourse(w, chain) && Complete(w, end)
    ensures Operations(chain) <= Operations(end)
  {
    NothingFollowsTheEnd(w, Operations(end), Operations(chain));
    OneCourse(w, Operations(chain), Operations(end));
  }
}

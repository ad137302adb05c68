/** The append-only decision log, its branch heads, forks, and what a power cut can leave behind. */
module History {
  import opened Options
  import opened Decisions

  type Branch = int

  /** The branch a new history starts with. */
  const MAIN: Branch := 0

  /** Numbered across the whole log, whichever branch appended the event. */
  datatype EventId = EventId(branch: Branch, number: nat)

  datatype Event = Event(id: EventId, branch: Branch, parent: Option<EventId>, body: Entry)

  datatype HistoryError =
    | PowerCut
    | UnknownBranch
    | BranchExists
    | EventCycle
    | EventMissing
    | TaskNotOnBranch
    | UnfinishedAttempt(attempt: AttemptId)
    | Invalid

  datatype Outcome<+T> = Ok(value: T) | Err(error: HistoryError)

  /** Every event carries its own number, and its parent stands before it. */
  ghost predicate Log(events: seq<Event>) {
    forall i | 0 <= i < |events| ::
      && events[i].id == EventId(events[i].branch, i + 1)
      && (events[i].parent.Some? ==> events[i].parent.value.number <= i)
      && Retained(events, events[i].parent)
  }

  /** The head names an event of the log. */
  ghost predicate Retained(events: seq<Event>, head: Option<EventId>) {
    head.Some? ==> 1 <= head.value.number <= |events| && events[head.value.number - 1].id == head.value
  }

  /** The events from the first ancestor to the head. */
  ghost function Walk(events: seq<Event>, head: Option<EventId>): (chain: seq<Event>)
    requires Log(events) && Retained(events, head)
    ensures head.None? <==> chain == []
    ensures head.Some? ==> chain[|chain| - 1] == events[head.value.number - 1]
    decreases if head.Some? then head.value.number else 0
  {
    if head.None? then []
    else
      var event := events[head.value.number - 1];
      Walk(events, event.parent) + [event]
  }

  /** No two events share an id, also across branches and after crashes. */
  lemma {:induction false} IdsAreUnique(events: seq<Event>, i: int, j: int)
    requires Log(events) && 0 <= i < |events| && 0 <= j < |events| && events[i].id == events[j].id
    ensures i == j
  {
    assert events[i].id.number == i + 1 && events[j].id.number == j + 1;
  }

  /** Along a chain numbers grow and each event is the parent of the next, so no chain repeats an event. */
  ghost predicate Climbs(events: seq<Event>, chain: seq<Event>) {
    && (forall i | 0 <= i < |chain| :: chain[i] in events)
    && (forall i | 0 <= i < |chain| :: chain[i].parent == if i == 0 then None else Some(chain[i - 1].id))
    && (forall i, j | 0 <= i < j < |chain| :: chain[i].id.number < chain[j].id.number)
  }

  lemma {:induction false} ChainsClimb(events: seq<Event>, head: Option<EventId>)
    requires Log(events) && Retained(events, head)
    ensures Climbs(events, Walk(events, head))
    decreases if head.Some? then head.value.number else 0
  {
    if head.Some? {
      var event := events[head.value.number - 1];
      var before := Walk(events, event.parent);
      ChainsClimb(events, event.parent);
      assert event.id.number == head.value.number;
      if before != [] {
        assert before[|before| - 1].id == event.parent.value;
      }
      assert Climbs(events, before + [event]);
    }
  }

  /** Later events never change a chain. */
  lemma {:induction false} WalkIgnoresLater(events: seq<Event>, later: Event, head: Option<EventId>)
    requires Log(events) && Retained(events, head) && Log(events + [later])
    ensures Walk(events + [later], head) == Walk(events, head)
    decreases if head.Some? then head.value.number else 0
  {
    if head.Some? { WalkIgnoresLater(events, later, events[head.value.number - 1].parent); }
  }

  /** The chain before a place on it is the chain of the parent of the event there. */
  lemma {:induction false} WalkToPlace(events: seq<Event>, head: Option<EventId>, i: int)
    requires Log(events) && Retained(events, head) && 0 <= i < |Walk(events, head)|
    ensures Retained(events, Walk(events, head)[i].parent)
    ensures Walk(events, Walk(events, head)[i].parent) == Walk(events, head)[..i]
    decreases if head.Some? then head.value.number else 0
  {
    var chain := Walk(events, head);
    var event := events[head.value.number - 1];
    var before := Walk(events, event.parent);
    assert event in events;
    if i == |chain| - 1 {
      assert chain[..i] == before;
    } else {
      assert chain[i] == before[i] && chain[..i] == before[..i];
      WalkToPlace(events, event.parent, i);
    }
  }

  function Bodies(chain: seq<Event>): (bodies: seq<Entry>)
    ensures |bodies| == |chain| && forall i | 0 <= i < |chain| :: bodies[i] == chain[i].body
  {
    seq(|chain|, i requires 0 <= i < |chain| => chain[i].body)
  }

  /** The place of a decision task on a chain; its length if it is not there. */
  function TaskPlace(chain: seq<Entry>, task: TaskId): (k: nat)
    ensures k <= |chain| && (k < |chain| ==> chain[k].TaskSet? && chain[k].task.Id() == task)
    ensures forall j | 0 <= j < k :: !(chain[j].TaskSet? && chain[j].task.Id() == task)
  {
    if chain == [] || (chain[0].TaskSet? && chain[0].task.Id() == task) then 0 else 1 + TaskPlace(chain[1..], task)
  }

  /** What each branch holds is what its head leads back to. */
  ghost predicate Tracks(events: seq<Event>, heads: map<Branch, Option<EventId>>, chains: map<Branch, seq<Entry>>)
    requires Log(events)
  {
    && chains.Keys == heads.Keys
    && forall b <- heads :: Retained(events, heads[b]) && chains[b] == Bodies(Walk(events, heads[b]))
  }

  class HistoryStore {
    var events: seq<Event>
    var heads: map<Branch, Option<EventId>>
    /** How many more durable steps happen before the power is cut. */
    var power: nat
    /** The provider calls made, by branch and attempt, as the outside world saw them. */
    ghost var calls: seq<(Branch, AttemptId)>
    /** What each branch holds, oldest first. */
    ghost var chains: map<Branch, seq<Entry>>

    ghost predicate Valid()
      reads this
    {
      Log(events) && Tracks(events, heads, chains)
    }

    /** Units of power not yet used, or used by durable work: an appended event has two, a provider call one. */
    ghost function Account(): nat
      reads this`power, this`events, this`calls
    {
      power + 2 * |events| + |calls|
    }

    /** What a branch could still cost: the power left, and three units for every event it has. */
    ghost function Fuel(b: Branch): nat
      reads this`power, this`chains
    {
      power + if b in chains then 3 * |chains[b]| else 0
    }

    constructor (power: nat)
      ensures Valid() && events == [] && heads == map[MAIN := None] && chains == map[MAIN := []] && calls == []
    {
      events, heads, this.power, calls := [], map[MAIN := None], power, [];
      chains := map[MAIN := []];
    }

    /** One durable step, unless the power is cut first. */
    method Durable() returns (on: bool)
      modifies this`power
      ensures on == (old(power) > 0) && power == if on then old(power) - 1 else 0
    {
      on := power > 0;
      power := if on then power - 1 else 0;
    }

    /** A provider is called for an attempt, unless the power is cut first. */
    method Call(b: Branch, attempt: AttemptId) returns (on: bool)
      modifies this`power, this`calls
      ensures on ==> calls == old(calls) + [(b, attempt)]
      ensures !on ==> power == 0 && calls == old(calls)
      ensures Account() == old(Account()) && (old(Valid()) ==> Valid())
    {
      on := Durable();
      if on {
        calls := calls + [(b, attempt)];
      }
    }

    /**
     Follows parents from the branch head.  On any log whatever it ends; on a valid
     one neither a cycle nor a missing event is ever met.
     */
    method ReadChain(b: Branch) returns (r: Outcome<seq<Event>>)
      ensures b !in heads ==> r == Err(UnknownBranch)
      ensures b in heads ==> r.Ok? || r.error in {EventCycle, EventMissing}
      ensures Valid() && b in heads ==> r == Ok(Walk(events, heads[b]))
    {
      if b !in heads {
        return Err(UnknownBranch);
      }
      var byId := IndexById(events);
      var current := heads[b];
      var chain, seen := [], {};
      ghost var sound := Valid();
      while current.Some?
        invariant seen <= byId.Keys
        invariant sound ==> Rest(events, heads[b], current, chain, seen)
        decreases byId.Keys - seen
      {
        var id := current.value;
        if id in seen {
          return Err(EventCycle);
        }
        assert sound ==> events[id.number - 1].id in byId;
        if id !in byId {
          return Err(EventMissing);
        }
        seen := seen + {id};
        if sound {
          RestStep(events, heads[b], current, chain, seen);
        }
        current := byId[id].parent;
        chain := [byId[id]] + chain;
      }
      if sound { assert Walk(events, heads[b]) == [] + chain == chain; }
      r := Ok(chain);
    }

    /** Appends to one branch: the event line first, then the head.  A cut between leaves an event on no chain. */
    method Append(b: Branch, body: Entry) returns (r: Outcome<EventId>)
      requires Valid()
      modifies this`events, this`heads, this`power, this`chains
      ensures Valid() && heads.Keys == old(heads.Keys)
      ensures old(events) <= events && |events| <= |old(events)| + 1
      ensures b !in heads ==> r == Err(UnknownBranch) && events == old(events)
      ensures b in heads || b in old(chains) ==> r.Ok? || (r == Err(PowerCut) && power == 0)
      ensures Fuel(b) + (if r.Ok? then 0 else 1) >= old(Fuel(b))
      ensures Account() >= old(Account()) && (b in heads && old(power) >= 2 ==> r.Ok? && Account() == old(Account()))
      ensures r.Ok? ==> b in old(chains) && chains == old(chains)[b := old(chains)[b] + [body]]
      ensures r.Err? ==> chains == old(chains)
      ensures r.Ok? ==> events == old(events) + [Event(r.value, b, old(heads)[b], body)] && heads[b] == Some(r.value)
    {
      hide Log, Walk, Retained;
      if b !in heads {
        return Err(UnknownBranch);
      }
      var event := Event(EventId(b, |events| + 1), b, heads[b], body);
      var on := Durable();
      if !on {
        return Err(PowerCut);
      }
      EventTracked(events, heads, chains, event);
      events := events + [event];
      on := Durable();
      if !on {
        return Err(PowerCut);
      }
      HeadTracked(old(events), heads, chains, event);
      heads := heads[b := Some(event.id)];
      chains := chains[b := chains[b] + [body]];
      r := Ok(event.id);
    }

    /** A new branch that holds the source branch strictly before the named decision task; nothing else changes. */
    method Fork(source: Branch, target: Branch, task: TaskId) returns (r: Outcome<()>)
      requires Valid()
      modifies this`heads, this`power, this`chains
      ensures Valid()
      ensures r.Err? ==> chains == old(chains)
      ensures r == Err(BranchExists) <==> target in old(chains)
      ensures target !in old(chains) && source !in old(chains) ==> r == Err(UnknownBranch)
      ensures target !in old(chains) && source in old(chains) ==>
        var chain := old(chains)[source];
        var k := TaskPlace(chain, task);
        if k == |chain| then r == Err(TaskNotOnBranch)
        else if r.Ok? then chains == old(chains)[target := chain[..k]]
        else r == Err(PowerCut) && power == 0
      ensures old(power) > 0 ==> r != Err(PowerCut)
    {
      if target in heads {
        return Err(BranchExists);
      }
      var read := ReadChain(source);
      if read.Err? {
        return Err(read.error);
      }
      var chain := read.value;
      var k := TaskPlace(Bodies(chain), task);
      if k == |chain| {
        return Err(TaskNotOnBranch);
      }
      var on := Durable();
      if !on {
        return Err(PowerCut);
      }
      ForkTracked(events, heads, chains, source, k, target);
      heads := heads[target := chain[k].parent];
      chains := chains[target := chains[source][..k]];
      r := Ok(());
    }
  }

  /** Events by id; of two with the same id the later counts. */
  method IndexById(events: seq<Event>) returns (byId: map<EventId, Event>)
    ensures Log(events) ==> forall j | 0 <= j < |events| :: events[j].id in byId && byId[events[j].id] == events[j]
  {
    byId := map[];
    for i := 0 to |events|
      invariant Log(events) ==> forall j | 0 <= j < i :: events[j].id in byId && byId[events[j].id] == events[j]
    {
      byId := byId[events[i].id := events[i]];
    }
  }

  /** What has been read so far is the end of the chain, and the rest lies before everything seen. */
  ghost predicate Rest(
      events: seq<Event>, head: Option<EventId>, current: Option<EventId>, chain: seq<Event>, seen: set<EventId>)
    requires Log(events) && Retained(events, head)
  {
    && Retained(events, current) && Walk(events, head) == Walk(events, current) + chain
    && (current.Some? ==> forall id <- seen :: current.value.number < id.number)
  }

  lemma {:induction false} RestStep(
      events: seq<Event>, head: Option<EventId>, current: Option<EventId>, chain: seq<Event>, seen: set<EventId>)
    requires Log(events) && Retained(events, head) && current.Some?
      && Rest(events, head, current, chain, seen - {current.value})
    ensures var event := events[current.value.number - 1];
      Rest(events, head, event.parent, [event] + chain, seen)
  {
    var event := events[current.value.number - 1];
    assert event in events;
    assert Walk(events, current) + chain == Walk(events, event.parent) + ([event] + chain);
  }

  lemma {:induction false} LogGrows(events: seq<Event>, event: Event)
    requires Log(events) && event.id == EventId(event.branch, |events| + 1) && Retained(events, event.parent)
    ensures Log(events + [event])
    ensures forall head | Retained(events, head) ::
      Retained(events + [event], head) && Walk(events + [event], head) == Walk(events, head)
    ensures Walk(events + [event], Some(event.id)) == Walk(events, event.parent) + [event]
  {
    assert Log(events + [event]);
    forall head | Retained(events, head)
      ensures Retained(events + [event], head) && Walk(events + [event], head) == Walk(events, head)
    {
      WalkIgnoresLater(events, event, head);
    }
    assert Retained(events, event.parent);
  }

  /** A new event is on no chain yet. */
  lemma {:induction false} EventTracked(
      events: seq<Event>, heads: map<Branch, Option<EventId>>, chains: map<Branch, seq<Entry>>, event: Event)
    requires Log(events) && Tracks(events, heads, chains) && event.branch in heads
    requires event.id == EventId(event.branch, |events| + 1) && event.parent == heads[event.branch]
    ensures Log(events + [event]) && Tracks(events + [event], heads, chains)
    ensures Retained(events, event.parent)
      && Walk(events + [event], Some(event.id)) == Walk(events, event.parent) + [event]
  {
    LogGrows(events, event);
  }

  /** Moving the head to it extends that one branch. */
  lemma {:induction false} HeadTracked(
      events: seq<Event>, heads: map<Branch, Option<EventId>>, chains: map<Branch, seq<Entry>>, event: Event)
    requires Log(events) && Log(events + [event]) && Tracks(events + [event], heads, chains) && event.branch in heads
    requires event.id == EventId(event.branch, |events| + 1) && Retained(events, event.parent)
    requires Walk(events + [event], Some(event.id)) == Walk(events, event.parent) + [event]
    requires chains[event.branch] == Bodies(Walk(events, event.parent))
    ensures Tracks(events + [event], heads[event.branch := Some(event.id)],
                   chains[event.branch := chains[event.branch] + [event.body]])
  {
    assert Retained(events + [event], Some(event.id));
    assert Bodies(Walk(events, event.parent) + [event]) == Bodies(Walk(events, event.parent)) + [event.body];
  }

  lemma {:induction false} ForkTracked(
    events: seq<Event>, heads: map<Branch, Option<EventId>>, chains: map<Branch, seq<Entry>>, source: Branch, k: int,
      target: Branch)
    requires Log(events) && Tracks(events, heads, chains) && source in heads && target !in heads
    requires 0 <= k < |Walk(events, heads[source])|
    ensures Tracks(events, heads[target := Walk(events, heads[source])[k].parent],
      chains[target := chains[source][..k]])
  {
    hide Log, Retained, Walk;
    WalkToPlace(events, heads[source], k);
    var chain := Walk(events, heads[source]);
    assert Bodies(chain[..k]) == Bodies(chain)[..k];
  }
}

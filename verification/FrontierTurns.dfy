/** The backward search as steps between states, each settled by the one before. */
module FrontierTurns {
  import opened Networks
  import opened Queues
  import opened RoadGraph
  import opened Frontier
  import opened Determinism

  /** The labels, and the queue as its entries in no order. */
  datatype State = State(s: Search, queue: multiset<Entry>)

  // Where the search starts.

  /** Whether a partial target beats the label its node has so far. */
  predicate SeedReplaces(inst: Instance, s: Search, i: int)
    requires 0 <= i < |inst.partials| && inst.Seeds(i)
  {
    var n := inst.SeedNode(i);
    || n !in s.distances || n !in s.targets
    || Better(inst.SeedDistance(i), inst.partials[i].target.key, s.distances[n], s.targets[n].key)
  }

  /** The labels after partial target `i` takes its node. */
  function SeededBy(inst: Instance, s: Search, i: int): Search
    requires 0 <= i < |inst.partials| && inst.Seeds(i)
  {
    var n := inst.SeedNode(i);
    s.(distances := s.distances[n := inst.SeedDistance(i)], targets := s.targets[n := inst.partials[i].target],
       partials := s.partials[n := inst.partials[i]], frontier := s.frontier + {n})
  }

  function WholeLabels(inst: Instance): Search {
    Search(map n | n in inst.wholes :: 0.0, map[], inst.wholes, inst.wholes.Keys, map[])
  }

  ghost function ZeroEntries(nodes: set<NodeId>): multiset<Entry> {
    multiset(set n | n in nodes :: Entry(0.0, n))
  }

  lemma NoZeros()
    ensures ZeroEntries({}) == multiset{}
  {
  }

  lemma {:induction false} OneMoreZero(nodes: set<NodeId>, n: NodeId)
    requires n !in nodes
    ensures ZeroEntries(nodes + {n}) == ZeroEntries(nodes) + multiset{Entry(0.0, n)}
  {
    var (before, after) := (set m | m in nodes :: Entry(0.0, m), set m | m in nodes + {n} :: Entry(0.0, m));
    assert after == before + {Entry(0.0, n)} && Entry(0.0, n) !in before;
  }

  /** The state after the first `k` partial targets competed for their nodes. */
  ghost function Begun(inst: Instance, k: nat): State
    requires k <= |inst.partials|
  {
    if k == 0 then State(WholeLabels(inst), ZeroEntries(inst.wholes.Keys))
    else
      var before := Begun(inst, k - 1);
      if inst.Seeds(k - 1) && SeedReplaces(inst, before.s, k - 1) then
        State(SeededBy(inst, before.s, k - 1),
          before.queue + multiset{Entry(inst.SeedDistance(k - 1), inst.SeedNode(k - 1))})
      else before
  }

  // One turn of the loop.

  /** Over edge `e` the label `next`, `target` beats the one its tail has. */
  predicate Beaten(inst: Instance, s: Search, e: EdgeId, next: real, target: Target)
    requires 0 <= e < |inst.g.edges|
  {
    var n := inst.g.edges[e].from;
    n !in s.distances || n !in s.targets || Better(next, target.key, s.distances[n], s.targets[n].key)
  }

  function LabelTaken(inst: Instance, s: Search, e: EdgeId, next: real, target: Target): Search
    requires 0 <= e < |inst.g.edges|
  {
    var n := inst.g.edges[e].from;
    Search(s.distances[n := next], s.previous[n := e], s.targets[n := target],
           if n in s.partials then s.frontier - {n} else s.frontier, s.partials - {n})
  }

  ghost function RelaxedBy(inst: Instance, x: State, e: EdgeId, next: real, target: Target): State
    requires 0 <= e < |inst.g.edges|
  {
    if inst.Usable(e) && Beaten(inst, x.s, e, next, target) then
      State(LabelTaken(inst, x.s, e, next, target), x.queue + multiset{Entry(next, inst.g.edges[e].from)})
    else x
  }

  ghost function RelaxedOver(inst: Instance, x: State, todo: seq<EdgeId>, distance: real, target: Target): State
    requires forall k | 0 <= k < |todo| :: 0 <= todo[k] < |inst.g.edges|
    decreases |todo|
  {
    if todo == [] then x
    else RelaxedOver(inst, RelaxedBy(inst, x, todo[0], distance + inst.g.edges[todo[0]].length, target), todo[1..],
      distance, target)
  }

  lemma RelaxNone(inst: Instance, x: State, distance: real, target: Target)
    ensures RelaxedOver(inst, x, [], distance, target) == x
  {
  }

  lemma RelaxOne(inst: Instance, x: State, todo: seq<EdgeId>, distance: real, target: Target)
    requires todo != [] && forall k | 0 <= k < |todo| :: 0 <= todo[k] < |inst.g.edges|
    ensures RelaxedOver(inst, x, todo, distance, target) ==
      RelaxedOver(inst, RelaxedBy(inst, x, todo[0], distance + inst.g.edges[todo[0]].length, target), todo[1..],
        distance, target)
  {
  }

  predicate Stale(s: Search, least: Entry) {
    least.node in s.distances && least.distance > s.distances[least.node]
  }

  ghost function Turned(inst: Instance, x: State, least: Entry): State {
    var rest := State(x.s, x.queue - multiset{least});
    if Stale(x.s, least) || least.node !in x.s.targets then rest
    else RelaxedOver(inst, rest, inst.g.Incoming(least.node), least.distance, x.s.targets[least.node])
  }

  /** The first entry of the queue is taken, and passed over or expanded. */
  ghost predicate Turns(inst: Instance, x: State, y: State) {
    exists least :: First(x.queue, least) && y == Turned(inst, x, least)
  }

  ghost function Turn(inst: Instance): (State, State) -> bool {
    (x, y) => Turns(inst, x, y)
  }

  lemma {:induction false} TurnIsDeterministic(inst: Instance)
    ensures Deterministic(Turn(inst))
  {
    hide Turned;
    forall x, y, z | Turn(inst)(x, y) && Turn(inst)(x, z) ensures y == z {
      var least :| First(x.queue, least) && y == Turned(inst, x, least);
      var least' :| First(x.queue, least') && z == Turned(inst, x, least');
      FirstOnce(x.queue, least, least');
    }
  }

  lemma {:induction false} EmptyEnds(inst: Instance, s: Search)
    ensures Ended(Turn(inst), State(s, multiset{}))
  {
  }

  /** The labels with which the search ends. */
  ghost predicate EndsWith(inst: Instance, s: Search) {
    EndsIn(Turn(inst), Begun(inst, |inst.partials|), State(s, multiset{}))
  }

  /** What the search delivers: the labels it ends with follow from the frontier alone. */
  ghost function SearchOf(inst: Instance): Search {
    if exists s :: EndsWith(inst, s) then var s :| EndsWith(inst, s); s else WholeLabels(inst)
  }

  lemma {:induction false} EndsOnlyWith(inst: Instance, s: Search)
    requires EndsWith(inst, s)
    ensures s == SearchOf(inst)
  {
    TurnIsDeterministic(inst);
    OneEnd(Turn(inst), Begun(inst, |inst.partials|), State(s, multiset{}), State(SearchOf(inst), multiset{}));
  }
}

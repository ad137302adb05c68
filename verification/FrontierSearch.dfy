/** The backward search from the frontier, and reading a route back from its labels. */
module FrontierSearch {
  import opened Networks
  import opened Queues
  import opened RoadGraph
  import opened Frontier
  import opened FrontierSteps
  import opened Determinism
  import opened FrontierTurns

  /** Every label is still a seed's and waits in the queue. */
  ghost predicate Seeded(inst: Instance, upto: int, p: Progress)
    requires inst.Valid() && 0 <= upto <= |inst.partials|
  {
    && Shaped(inst, p) && p.floor == 0.0 && p.expanded == {}
    && (forall n <- p.s.distances :: AtSeed(inst, p.s, n) && Entry(p.s.distances[n], n) in p.queue)
    && Queued(p) && Covered(inst, upto, p.s) && Marks(inst, upto, p.s)
  }

  lemma SeededIsKept(inst: Instance, p: Progress)
    requires inst.Valid() && Seeded(inst, |inst.partials|, p)
    ensures p.floor == 0.0 && Kept(inst, p, [])
  {
  }

  lemma ZeroLabels(inst: Instance, distances: map<NodeId, real>)
    requires distances.Keys == inst.wholes.Keys && forall n <- distances :: distances[n] == 0.0
    ensures distances == WholeLabels(inst).distances
  {
    var labels := WholeLabels(inst).distances;
    assert forall n :: n in labels <==> n in distances;
    assert forall n | n in distances :: labels[n] == distances[n];
  }

  /** Labels every whole node with its own target at no distance. */
  method SeedWholes(inst: Instance) returns (s: Search, queue: seq<Entry>, ghost p: Progress)
    requires inst.Valid()
    ensures s == p.s && queue == p.queue && p.clock == 1 && Seeded(inst, 0, p)
    ensures State(s, multiset(queue)) == Begun(inst, 0)
  {
    hide ZeroEntries;
    NoZeros();
    var distances: map<NodeId, real> := map[];
    assert distances.Keys == {};
    queue := [];
    var todo := inst.wholes.Keys;
    while exists n :: n in todo
      invariant distances.Keys + todo == inst.wholes.Keys && distances.Keys !! todo
      invariant forall n <- distances :: distances[n] == 0.0 && Entry(0.0, n) in queue
      invariant forall q <- queue :: q.distance == 0.0 && q.node in distances
      invariant multiset(queue) == ZeroEntries(distances.Keys)
      decreases todo
    {
      var n :| n in todo;
      OneMoreZero(distances.Keys, n);
      todo := todo - {n};
      assert distances[n := 0.0].Keys == distances.Keys + {n};
      distances := distances[n := 0.0];
      queue := queue + [Entry(0.0, n)];
    }
    assert todo == {} && distances.Keys == inst.wholes.Keys;
    ZeroLabels(inst, distances);
    s := Search(distances, map[], inst.wholes, inst.wholes.Keys, map[]);
    p := Progress(s, queue, 0.0, map n | n in distances :: 0, 1, {});
  }

  lemma {:induction false} SeedTakes(inst: Instance, p: Progress, i: int, p': Progress)
    requires inst.Valid() && 0 <= i < |inst.partials| && inst.Seeds(i) && Seeded(inst, i, p)
      && SeedReplaces(inst, p.s, i)
    requires p' == p.(s := SeededBy(inst, p.s, i), queue := p.queue + [Entry(inst.SeedDistance(i), inst.SeedNode(i))],
                      rank := p.rank[inst.SeedNode(i) := 0])
    requires p.clock == 1
    ensures Seeded(inst, i + 1, p')
  {
    hide Marks, Covered;
    var n := inst.SeedNode(i);
    assert inst.g.edges[inst.partials[i].edge] in inst.g.edges;
    assert FrontierNet(inst).arcs[inst.partials[i].edge].from in FrontierNet(inst).Nodes();
    SeedAhead(inst, i);
    SeedTakesMarks(inst, p.s, i);
  }

  lemma SeedAhead(inst: Instance, i: int)
    requires inst.Valid() && 0 <= i < |inst.partials| && inst.Seeds(i)
    ensures inst.SeedDistance(i) >= 0.0
  {
    assert inst.Known(i) && inst.g.edges[inst.partials[i].edge] in inst.g.edges;
  }

  lemma {:induction false} SeedTakesMarks(inst: Instance, s: Search, i: int)
    requires inst.Valid() && 0 <= i < |inst.partials| && inst.Seeds(i) && Marks(inst, i, s) && Covered(inst, i, s)
    requires SeedReplaces(inst, s, i) && inst.SeedDistance(i) >= 0.0
    ensures Marks(inst, i + 1, SeededBy(inst, s, i)) && Covered(inst, i + 1, SeededBy(inst, s, i))
  {
    var s' := SeededBy(inst, s, i);
    var n := inst.SeedNode(i);
    forall m <- inst.wholes ensures Displaced(inst, i + 1, m) <==> Displaced(inst, i, m) || m == n {
      if m == n {
        assert !Better(0.0, inst.wholes[n].key, s.distances[n], s.targets[n].key);
        if !Displaced(inst, i, n) { assert WholeMark(inst, s, n); }
      }
    }
    forall m <- s'.partials ensures PartialMark(inst, s', m) {
      if m != n { assert PartialMark(inst, s, m); }
    }
  }

  lemma {:induction false} SeedLeaves(inst: Instance, s: Search, i: int)
    requires inst.Valid() && 0 <= i < |inst.partials| && Marks(inst, i, s) && Covered(inst, i, s)
    requires inst.Seeds(i) ==> !SeedReplaces(inst, s, i)
    requires forall m <- s.distances :: AtSeed(inst, s, m)
    ensures Marks(inst, i + 1, s) && Covered(inst, i + 1, s)
  {
    if inst.Seeds(i) {
      var n := inst.SeedNode(i);
      if n in inst.wholes && !Displaced(inst, i, n) {
        assert AtSeed(inst, s, n) && WholeMark(inst, s, n);
      }
      forall m <- inst.wholes ensures Displaced(inst, i + 1, m) <==> Displaced(inst, i, m) {}
    } else {
      forall m <- inst.wholes ensures Displaced(inst, i + 1, m) <==> Displaced(inst, i, m) {}
    }
  }

  /** Lets every partial target whose edge is known and not excluded compete for its node. */
  method SeedPartials(inst: Instance, s0: Search, queue0: seq<Entry>, ghost p0: Progress)
    returns (s: Search, queue: seq<Entry>, ghost p: Progress)
    requires inst.Valid() && s0 == p0.s && queue0 == p0.queue && p0.clock == 1 && Seeded(inst, 0, p0)
    requires State(s0, multiset(queue0)) == Begun(inst, 0)
    ensures s == p.s && queue == p.queue && Seeded(inst, |inst.partials|, p)
    ensures State(s, multiset(queue)) == Begun(inst, |inst.partials|)
  {
    s, queue, p := s0, queue0, p0;
    for i := 0 to |inst.partials|
      invariant s == p.s && queue == p.queue && p.clock == 1 && Seeded(inst, i, p)
      invariant State(s, multiset(queue)) == Begun(inst, i)
    {
      if inst.Seeds(i) && SeedReplaces(inst, s, i) {
        var n := inst.SeedNode(i);
        ghost var before := p;
        s := SeededBy(inst, s, i);
        queue := queue + [Entry(inst.SeedDistance(i), n)];
        p := p.(s := s, queue := queue, rank := p.rank[n := 0]);
        SeedTakes(inst, before, i, p);
      } else {
        SeedLeaves(inst, s, i);
      }
    }
  }

  /** Node `node` is being expanded: it carries `target` at the distance the search has come to. */
  ghost predicate Expanding(p: Progress, node: NodeId, distance: real, target: Target) {
    && node in p.s.distances && node in p.s.targets && p.s.targets.Keys == p.s.distances.Keys
    && p.s.distances[node] == distance == p.floor && distance >= 0.0 && p.s.targets[node] == target
  }

  /** The step taken for one edge into the node being expanded. */
  ghost function Stepped(inst: Instance, p: Progress, e: EdgeId, next: real, target: Target): Progress
    requires 0 <= e < |inst.g.edges| && p.s.targets.Keys == p.s.distances.Keys
  {
    if inst.Usable(e) && Beaten(inst, p.s, e, next, target) then Relabelled(inst, p, e, next, target) else p
  }

  lemma {:induction false} Step(
      inst: Instance, p: Progress, todo: seq<EdgeId>, node: NodeId, distance: real, next: real, target: Target)
    requires inst.Valid() && todo != [] && Kept(inst, p, todo) && Expanding(p, node, distance, target)
    requires 0 <= todo[0] < |inst.g.edges| && inst.g.edges[todo[0]].to == node
    requires next == distance + inst.g.edges[todo[0]].length
    ensures Kept(inst, Stepped(inst, p, todo[0], next, target), todo[1..])
    ensures Expanding(Stepped(inst, p, todo[0], next, target), node, distance, target)
    ensures Kept(inst, p, []) && (node, target.key) in p.expanded ==> Stepped(inst, p, todo[0], next, target) == p
  {
    var e := todo[0];
    assert inst.g.edges[e] in inst.g.edges;
    if inst.Usable(e) && Beaten(inst, p.s, e, next, target) {
      Relabel(inst, p, todo, next, target);
      if Kept(inst, p, []) && (node, target.key) in p.expanded { RelaxedAlready(inst, p, e, node, target); }
    } else {
      PassOver(inst, p, todo);
    }
  }

  /** Expanding a node again with the key it was expanded with offers nothing. */
  lemma RelaxedAlready(inst: Instance, p: Progress, e: EdgeId, node: NodeId, target: Target)
    requires inst.Valid() && Kept(inst, p, []) && Expanding(p, node, p.floor, target)
    requires e in FrontierNet(inst).open && inst.g.edges[e].to == node && (node, target.key) in p.expanded
    ensures RelaxedInto(inst, p.s, e)
  {
  }

  /** Offers the label of `node` over every usable edge into it. */
  method RelaxIncoming(inst: Instance, node: NodeId, distance: real, s0: Search, queue0: seq<Entry>, ghost p0: Progress)
    returns (s: Search, queue: seq<Entry>, ghost p: Progress)
    requires inst.Valid() && s0 == p0.s && queue0 == p0.queue
    requires node in s0.targets && Expanding(p0, node, distance, s0.targets[node])
    requires Kept(inst, p0, inst.g.Incoming(node)) && (node, s0.targets[node].key) in p0.expanded
    ensures s == p.s && queue == p.queue && Kept(inst, p, [])
    ensures p.expanded == p0.expanded && p.floor == p0.floor
    ensures Kept(inst, p0, []) ==> queue == queue0
    ensures State(s, multiset(queue)) ==
      RelaxedOver(inst, State(s0, multiset(queue0)), inst.g.Incoming(node), distance, s0.targets[node])
  {
    hide RelaxedOver, Kept, LabelTaken, Better;
    s, queue, p := s0, queue0, p0;
    var target := s.targets[node];
    var todo: seq<EdgeId> := inst.g.Incoming(node);
    ghost var again := Kept(inst, p0, []);
    while todo != []
      invariant s == p.s && queue == p.queue && p.expanded == p0.expanded
      invariant Expanding(p, node, distance, target)
      invariant forall k | 0 <= k < |todo| :: 0 <= todo[k] < |inst.g.edges| && inst.g.edges[todo[k]].to == node
      invariant Kept(inst, p, todo)
      invariant again ==> p == p0
      invariant RelaxedOver(inst, State(s, multiset(queue)), todo, distance, target) ==
        RelaxedOver(inst, State(s0, multiset(queue0)), inst.g.Incoming(node), distance, target)
    {
      var e := todo[0];
      var edge := inst.g.edges[e];
      var next := distance + edge.length;
      Step(inst, p, todo, node, distance, next, target);
      RelaxOne(inst, State(s, multiset(queue)), todo, distance, target);
      p := Stepped(inst, p, e, next, target);
      if inst.Usable(e) && Beaten(inst, s, e, next, target) {
        s := LabelTaken(inst, s, e, next, target);
        queue := queue + [Entry(next, edge.from)];
      }
      todo := todo[1..];
    }
    RelaxNone(inst, State(s, multiset(queue)), distance, target);
  }

  lemma {:induction false} TakeTurn(inst: Instance, from: State, n: nat, x: State, least: Entry, y: State)
    requires After(Turn(inst), from, n, x) && First(x.queue, least) && y == Turned(inst, x, least)
    ensures After(Turn(inst), from, n + 1, y)
  {
    hide Turned;
    assert Turn(inst)(x, y);
    OneMore(Turn(inst), from, n, x, y);
  }

  /** Passes over the popped entry if its node has a better label since, else expands its node. */
  method TakeEntry(inst: Instance, least: Entry, rest: seq<Entry>, s0: Search, ghost p0: Progress)
    returns (s: Search, queue: seq<Entry>, ghost p: Progress)
    requires inst.Valid() && s0 == p0.s && p0.floor >= 0.0 && Kept(inst, p0, [])
    requires least in p0.queue && forall q <- p0.queue :: Before(least, q)
    requires multiset(p0.queue) == multiset(rest) + multiset{least} && |rest| < |p0.queue|
    ensures s == p.s && queue == p.queue && p.floor >= 0.0 && Kept(inst, p, [])
    ensures State(s, multiset(queue)) == Turned(inst, State(s0, multiset(p0.queue)), least)
    ensures p.expanded > p0.expanded || (p.expanded == p0.expanded && |queue| < |p0.queue|)
    ensures p.expanded <= p0.expanded + Pairs(inst)
  {
    hide Pending, Done, Covered, Origins, Marks, RelaxedOver;
    s, queue, p := s0, rest, p0.(queue := rest);
    assert multiset(p0.queue) - multiset{least} == multiset(rest);
    if least.node in s.distances && least.distance > s.distances[least.node] {
      DropEntry(inst, p0, least, rest);
      return;
    }
    Open(inst, p0, least, rest, inst.g.Incoming(least.node));
    p := Opened(p0, least, rest);
    assert (least.node, s.targets[least.node].key) in Pairs(inst);
    s, queue, p := RelaxIncoming(inst, least.node, least.distance, s, queue, p);
  }

  /** The search backwards from the whole frontier, avoiding the excluded edge. */
  method FrontierSearchExcluding(inst: Instance) returns (s: Search, ghost rank: map<NodeId, nat>)
    requires inst.Valid()
    ensures Labels(inst, s) && Marks(inst, |inst.partials|, s)
    ensures Found(inst, s, rank)
    ensures s == SearchOf(inst)
  {
    hide After, Turn, Turned, Begun, SearchOf, First, Seeded, Kept, Labels, Marks;
    var queue;
    ghost var p;
    s, queue, p := SeedWholes(inst);
    s, queue, p := SeedPartials(inst, s, queue, p);
    SeededIsKept(inst, p);
    ghost var turns: nat := 0;
    ghost var begun := Begun(inst, |inst.partials|);
    NoSteps(Turn(inst), begun);
    while queue != []
      invariant s == p.s && queue == p.queue && p.floor >= 0.0 && Kept(inst, p, [])
      invariant After(Turn(inst), begun, turns, State(s, multiset(queue)))
      decreases Pairs(inst) - p.expanded, |queue|
    {
      var least, rest := Pop(queue);
      ghost var x := State(s, multiset(queue));
      FirstPopped(queue, least, rest);
      s, queue, p := TakeEntry(inst, least, rest, s, p);
      TakeTurn(inst, begun, turns, x, least, State(s, multiset(queue)));
      turns := turns + 1;
    }
    Finish(inst, p);
    EmptyEnds(inst, s);
    EndsOnlyWith(inst, s);
    rank := p.rank;
  }

  /** Every usable edge into a labelled node is relaxed and no seed beats its node's label. */
  ghost predicate Settled(inst: Instance, s: Search)
    requires inst.Valid()
  {
    && Covered(inst, |inst.partials|, s)
    && forall e <- FrontierNet(inst).open :: inst.g.edges[e].to in s.distances ==> RelaxedInto(inst, s, e)
  }

  /** No way of joining the frontier beats the labels once every edge is relaxed. */
  lemma {:induction false} NoBetterJoin(
      inst: Instance, s: Search, n: NodeId, walk: seq<EdgeId>, m: NodeId, d: real, t: Target)
    requires inst.Valid() && Settled(inst, s)
    requires IsWalk(FrontierNet(inst), n, walk, m) && IsSeed(inst, m, d, t)
    ensures n in s.distances
    ensures !Better(Cost(FrontierNet(inst), walk) + d, t.key, s.distances[n], s.targets[n].key)
    decreases |walk|
  {
    if walk != [] {
      var e := walk[0];
      NoBetterJoin(inst, s, inst.g.edges[e].to, walk[1..], m, d, t);
      assert RelaxedInto(inst, s, e);
    }
  }

  /** Each label is attained: follow it back to the seed it came from. */
  lemma {:induction false} LabelAttained(
      inst: Instance, s: Search, rank: map<NodeId, nat>, n: NodeId) returns (walk: seq<EdgeId>)
    requires inst.Valid() && Traceable(inst, s, rank) && Marks(inst, |inst.partials|, s)
    requires n in s.distances && n in s.targets && n in rank
    ensures Joins(inst, n, walk, s.targets[n], s.distances[n])
    decreases rank[n]
  {
    var net := FrontierNet(inst);
    if AtSeed(inst, s, n) {
      walk := [];
      assert IsWalk(net, n, [], n) && Cost(net, []) == 0.0;
      if n in s.partials { assert PartialMark(inst, s, n); }
      assert IsSeed(inst, n, s.distances[n], s.targets[n]);
    } else {
      assert Extends(inst, s, rank, n);
      var e := s.previous[n];
      var rest := LabelAttained(inst, s, rank, inst.g.edges[e].to);
      var m, d :| IsWalk(net, inst.g.edges[e].to, rest, m) && IsSeed(inst, m, d, s.targets[n])
        && s.distances[inst.g.edges[e].to] == Cost(net, rest) + d;
      walk := [e] + rest;
      assert walk[1..] == rest;
      assert IsWalk(net, n, walk, m);
    }
  }

  lemma {:induction false} NoJoinBeats(inst: Instance, s: Search, n: NodeId, walk: seq<EdgeId>, t: Target, total: real)
    requires inst.Valid() && Settled(inst, s) && Joins(inst, n, walk, t, total)
    ensures n in s.distances && !Better(total, t.key, s.distances[n], s.targets[n].key)
  {
    var m, d :| IsWalk(FrontierNet(inst), n, walk, m) && IsSeed(inst, m, d, t)
      && total == Cost(FrontierNet(inst), walk) + d;
    NoBetterJoin(inst, s, n, walk, m, d, t);
  }

  lemma {:induction false} LabelIsLeast(inst: Instance, s: Search, rank: map<NodeId, nat>, n: NodeId)
    requires inst.Valid() && Settled(inst, s) && Traceable(inst, s, rank) && Marks(inst, |inst.partials|, s)
    requires rank.Keys == s.distances.Keys && n in s.distances
    ensures LeastJoin(inst, n, s.distances[n], s.targets[n])
  {
    var walk := LabelAttained(inst, s, rank, n);
    forall walk, t, total | Joins(inst, n, walk, t, total)
      ensures !Better(total, t.key, s.distances[n], s.targets[n].key) {
      NoJoinBeats(inst, s, n, walk, t, total);
    }
  }

  lemma {:induction false} LabelsAreLeast(inst: Instance, s: Search, rank: map<NodeId, nat>)
    requires inst.Valid() && Settled(inst, s) && Traceable(inst, s, rank) && Marks(inst, |inst.partials|, s)
    requires rank.Keys == s.distances.Keys
    ensures Labels(inst, s)
  {
    forall n <- s.distances ensures LeastJoin(inst, n, s.distances[n], s.targets[n]) && CanJoin(inst, n) {
      LabelIsLeast(inst, s, rank, n);
    }
    forall n | CanJoin(inst, n) ensures n in s.distances {
      var walk, t, total :| Joins(inst, n, walk, t, total);
      NoJoinBeats(inst, s, n, walk, t, total);
    }
  }

  lemma {:induction false} Finish(inst: Instance, p: Progress)
    requires inst.Valid() && Kept(inst, p, []) && p.queue == []
    ensures Found(inst, p.s, p.rank)
  {
    assert Settled(inst, p.s);
    forall n <- p.s.distances ensures AtSeed(inst, p.s, n) || Extends(inst, p.s, p.rank, n) {
      if !AtSeed(inst, p.s, n) {
        assert Parented(inst, p, n) && RelaxedInto(inst, p.s, p.s.previous[n]);
      }
    }
    LabelsAreLeast(inst, p.s, p.rank);
  }
}

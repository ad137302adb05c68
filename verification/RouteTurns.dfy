/** The forward search as steps between states, and the one route read back from where it ends. */
module RouteTurns {
  import opened Options
  import opened Networks
  import opened Queues
  import opened RoadGraph
  import opened Determinism

  /** Labels, the node and edge behind each, and the queue as its entries in no order. */
  datatype State = State(dist: map<NodeId, real>, previous: map<NodeId, (NodeId, EdgeId)>, queue: multiset<Entry>)

  /** What is searched for. */
  datatype Query = Query(g: Graph, start: NodeId, end: NodeId, role: Role, respectAccess: bool)

  predicate Improves(q: Query, dist: map<NodeId, real>, e: EdgeId, next: real)
    requires 0 <= e < |q.g.edges|
  {
    var edge := q.g.edges[e];
    (!q.respectAccess || edge.CyclingAllowed()) && (edge.to !in dist || next < dist[edge.to])
  }

  ghost function RelaxedBy(q: Query, x: State, node: NodeId, e: EdgeId): State
    requires 0 <= e < |q.g.edges| && node in x.dist
    ensures node in RelaxedBy(q, x, node, e).dist
  {
    var edge := q.g.edges[e];
    var next := x.dist[node] + RouteWeight(edge, q.role);
    if Improves(q, x.dist, e, next) then
      State(x.dist[edge.to := next], x.previous[edge.to := (node, e)], x.queue + multiset{Entry(next, edge.to)})
    else x
  }

  ghost function RelaxedOver(q: Query, x: State, node: NodeId, todo: seq<EdgeId>): State
    requires node in x.dist && forall k | 0 <= k < |todo| :: 0 <= todo[k] < |q.g.edges|
    decreases |todo|
  {
    if todo == [] then x else RelaxedOver(q, RelaxedBy(q, x, node, todo[0]), node, todo[1..])
  }

  lemma RelaxNone(q: Query, x: State, node: NodeId)
    requires node in x.dist
    ensures RelaxedOver(q, x, node, []) == x
  {
  }

  lemma RelaxOne(q: Query, x: State, node: NodeId, todo: seq<EdgeId>)
    requires todo != [] && node in x.dist && forall k | 0 <= k < |todo| :: 0 <= todo[k] < |q.g.edges|
    ensures RelaxedOver(q, x, node, todo) == RelaxedOver(q, RelaxedBy(q, x, node, todo[0]), node, todo[1..])
  {
  }

  ghost function Turned(q: Query, x: State, least: Entry): State {
    var rest := State(x.dist, x.previous, x.queue - multiset{least});
    if least.node !in x.dist || least.distance > x.dist[least.node] then rest
    else RelaxedOver(q, rest, least.node, q.g.Outgoing(least.node))
  }

  /** Unless the first entry is for the end, it is taken, and passed over or settled. */
  ghost predicate Turns(q: Query, x: State, y: State) {
    exists least :: First(x.queue, least) && least.node != q.end && y == Turned(q, x, least)
  }

  ghost function Turn(q: Query): (State, State) -> bool {
    (x, y) => Turns(q, x, y)
  }

  lemma {:induction false} TurnIsDeterministic(q: Query)
    ensures Deterministic(Turn(q))
  {
    hide Turned;
    forall x, y, z | Turn(q)(x, y) && Turn(q)(x, z) ensures y == z {
      var least :| First(x.queue, least) && y == Turned(q, x, least);
      var least' :| First(x.queue, least') && z == Turned(q, x, least');
      FirstOnce(x.queue, least, least');
    }
  }

  /** Where the search begins. */
  function Outset(q: Query): State {
    State(map[q.start := 0.0], map[], multiset{Entry(0.0, q.start)})
  }

  lemma StaleTurn(q: Query, x: State, least: Entry)
    requires least.node in x.dist && least.distance > x.dist[least.node]
    ensures Turned(q, x, least) == State(x.dist, x.previous, x.queue - multiset{least})
  {
  }

  lemma SettlingTurn(q: Query, x: State, least: Entry)
    requires least.node in x.dist && least.distance <= x.dist[least.node]
    ensures Turned(q, x, least) ==
      RelaxedOver(q, State(x.dist, x.previous, x.queue - multiset{least}), least.node, q.g.Outgoing(least.node))
  {
  }

  lemma {:induction false} TakeTurn(q: Query, n: nat, x: State, least: Entry, y: State)
    requires After(Turn(q), Outset(q), n, x) && First(x.queue, least) && least.node != q.end && y == Turned(q, x, least)
    ensures After(Turn(q), Outset(q), n + 1, y)
  {
    hide Turned;
    assert Turn(q)(x, y);
    OneMore(Turn(q), Outset(q), n, x, y);
  }

  /** With the queue empty, or the end in front, there is no further turn. */
  lemma {:induction false} Arrived(q: Query, x: State)
    requires x.queue == multiset{} || exists least :: First(x.queue, least) && least.node == q.end
    ensures Ended(Turn(q), x)
  {
    hide Turned;
    forall least | First(x.queue, least) ensures least.node == q.end {
      if ahead :| First(x.queue, ahead) && ahead.node == q.end { FirstOnce(x.queue, least, ahead); }
    }
  }

  // Reading the route back.

  /** `walk` lists the edges behind the labels from `m` to `n`, none of them into the start. */
  ghost predicate Behind(
      previous: map<NodeId, (NodeId, EdgeId)>, start: NodeId, n: NodeId, walk: seq<EdgeId>, m: NodeId)
    decreases |walk|
  {
    if walk == [] then m == n
    else
      && n != start && n in previous && walk[|walk| - 1] == previous[n].1
      && Behind(previous, start, previous[n].0, walk[..|walk| - 1], m)
  }

  lemma {:induction false} BehindOnce(
    previous: map<NodeId, (NodeId, EdgeId)>, start: NodeId, n: NodeId, walk: seq<EdgeId>, walk': seq<EdgeId>)
    requires Behind(previous, start, n, walk, start) && Behind(previous, start, n, walk', start)
    ensures walk == walk'
    decreases |walk|
  {
    if n != start {
      BehindOnce(previous, start, previous[n].0, walk[..|walk| - 1], walk'[..|walk'| - 1]);
      assert walk == walk[..|walk| - 1] + [walk[|walk| - 1]] && walk' == walk'[..|walk'| - 1] + [walk'[|walk'| - 1]];
    }
  }

  lemma {:induction false} FurtherBehind(
    previous: map<NodeId, (NodeId, EdgeId)>, start: NodeId, n: NodeId, walk: seq<EdgeId>, m: NodeId)
    requires Behind(previous, start, n, walk, m) && m != start && m in previous
    ensures Behind(previous, start, n, [previous[m].1] + walk, previous[m].0)
    decreases |walk|
  {
    var longer := [previous[m].1] + walk;
    if walk == [] {
      assert longer[..0] == [];
    } else {
      FurtherBehind(previous, start, previous[n].0, walk[..|walk| - 1], m);
      assert longer[..|longer| - 1] == [previous[m].1] + walk[..|walk| - 1];
    }
  }

  ghost function ReadBack(q: Query, dist: map<NodeId, real>, previous: map<NodeId, (NodeId, EdgeId)>): Option<Route> {
    if q.end in dist && exists walk :: Behind(previous, q.start, q.end, walk, q.start) && InGraph(q.g, walk) then
      var walk :| Behind(previous, q.start, q.end, walk, q.start) && InGraph(q.g, walk);
      Some(RouteFromParts(q.g, walk, EdgeLengths(q.g, walk), dist[q.end], NodesAlong(q.g, q.start, walk)))
    else None
  }

  lemma {:induction false} ReadBackIs(
    q: Query, dist: map<NodeId, real>, previous: map<NodeId, (NodeId, EdgeId)>, walk: seq<EdgeId>)
    requires q.end in dist && Behind(previous, q.start, q.end, walk, q.start) && InGraph(q.g, walk)
    ensures ReadBack(q, dist, previous) ==
      Some(RouteFromParts(q.g, walk, EdgeLengths(q.g, walk), dist[q.end], NodesAlong(q.g, q.start, walk)))
  {
    forall walk' | Behind(previous, q.start, q.end, walk', q.start) ensures walk' == walk {
      BehindOnce(previous, q.start, q.end, walk', walk);
    }
  }

  /** What the search delivers: the route follows from the graph and the query alone. */
  ghost function RouteDue(q: Query): Option<Route> {
    if exists x :: EndsIn(Turn(q), Outset(q), x) then
      var x :| EndsIn(Turn(q), Outset(q), x);
      ReadBack(q, x.dist, x.previous)
    else None
  }

  lemma {:induction false} RouteDueIs(q: Query, x: State)
    requires EndsIn(Turn(q), Outset(q), x)
    ensures RouteDue(q) == ReadBack(q, x.dist, x.previous)
  {
    hide ReadBack, Turn, After;
    TurnIsDeterministic(q);
    forall y | EndsIn(Turn(q), Outset(q), y) ensures y == x { OneEnd(Turn(q), Outset(q), y, x); }
  }
}

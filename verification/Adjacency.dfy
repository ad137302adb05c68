/**
 Urban adjacency: every node goes to the nearest place, and places whose regions
 touch along an edge are prepared as connections.
 */
module Adjacency {
  import opened Options
  import opened Networks
  import opened Queues
  import opened RoadGraph
  import opened Dijkstra

  /** `start` is the node the place attaches to, if any. */
  datatype Place = Place(id: int, start: Option<NodeId>)

  /** The network that ignores direction: arc 2e is edge e forwards, 2e+1 backwards. */
  ghost function UndirectedNet(g: Graph): (net: Network)
    requires g.Valid()
    ensures net.Valid() && |net.arcs| == 2 * |g.edges|
    ensures forall k :: k in net.open <==> 0 <= k < 2 * |g.edges|
    ensures forall k | 0 <= k < 2 * |g.edges| :: net.arcs[k] == ArcAt(g, k)
  {
    Network(
      seq(2 * |g.edges|, k requires 0 <= k < 2 * |g.edges| => ArcAt(g, k)),
      set k | 0 <= k < 2 * |g.edges| && ArcAt(g, k).weight >= 0.0)
  }

  function ArcAt(g: Graph, k: int): Arc
    requires 0 <= k < 2 * |g.edges|
  {
    var e := g.edges[k / 2];
    if k % 2 == 0 then Arc(e.from, e.to, e.length) else Arc(e.to, e.from, e.length)
  }

  /** The arcs leading away from `n`, in edge order. */
  function ArcsAt(g: Graph, n: NodeId): (list: seq<int>)
    ensures forall k :: k in list <==> 0 <= k < 2 * |g.edges| && ArcAt(g, k).from == n
    ensures forall i | 0 <= i < |list| :: 0 <= list[i] < 2 * |g.edges| && ArcAt(g, list[i]).from == n
  {
    Select((k: int) => 0 <= k < 2 * |g.edges| && ArcAt(g, k).from == n, 2 * |g.edges|)
  }

  type Owners = map<NodeId, (real, int)>

  /** Whether place `p` at distance `d` takes `n` from the owner known so far. */
  predicate ShouldTake(places: seq<Place>, owners: Owners, n: NodeId, d: real, p: int)
    requires 0 <= p < |places| && forall m <- owners :: 0 <= owners[m].1 < |places|
  {
    n !in owners || d < owners[n].0 || (d == owners[n].0 && places[p].id < places[owners[n].1].id)
  }

  /** `walk` leads from where place `p` attaches to `n`. */
  ghost predicate Leads(net: Network, places: seq<Place>, p: int, walk: seq<int>, n: NodeId)
    requires net.Valid()
  {
    0 <= p < |places| && places[p].start.Some? && IsWalk(net, places[p].start.value, walk, n)
  }

  /** Place `p` reaches `n` over a walk of cost `d`. */
  ghost predicate ReachedAt(net: Network, places: seq<Place>, p: int, n: NodeId, d: real)
    requires net.Valid()
  {
    exists walk :: Leads(net, places, p, walk, n) && Cost(net, walk) == d
  }

  /** Less distance wins, then the lesser id, then the earlier place. */
  predicate NoFarther(places: seq<Place>, p: int, d: real, q: int, d': real)
    requires 0 <= p < |places| && 0 <= q < |places|
  {
    d < d' || (d == d' && (places[p].id < places[q].id || (places[p].id == places[q].id && p <= q)))
  }

  /** Among the first `upto` places, `owners` names the nearest to each node that any of them reaches. */
  ghost predicate OwnedBy(net: Network, places: seq<Place>, upto: int, owners: Owners)
    requires net.Valid()
  {
    && (forall n <- owners ::
      0 <= owners[n].1 < upto <= |places| && ReachedAt(net, places, owners[n].1, n, owners[n].0))
    && (forall n, q, walk | q < upto && Leads(net, places, q, walk, n) ::
          n in owners && NoFarther(places, owners[n].1, owners[n].0, q, Cost(net, walk)))
  }

  /** `owners` is `base` with each settled node offered to place `p`. */
  ghost predicate Offered(places: seq<Place>, base: Owners, owners: Owners, p: int, s: Search)
    requires 0 <= p < |places| && forall m <- base :: 0 <= base[m].1 < |places|
  {
    && owners.Keys == base.Keys + s.settled && s.settled <= s.dist.Keys
    && (forall n <- owners :: n !in s.settled ==> owners[n] == base[n])
    && (forall n <- s.settled :: owners[n] == if ShouldTake(places, base, n, s.dist[n], p) then (s.dist[n], p)
      else base[n])
  }

  /** Gives one more place every node it is nearest to. */
  method OfferPlace(g: Graph, places: seq<Place>, p: int, base: Owners) returns (owners: Owners)
    requires g.Valid() && 0 <= p < |places| && places[p].start.Some?
    requires OwnedBy(UndirectedNet(g), places, p, base)
    ensures OwnedBy(UndirectedNet(g), places, p + 1, owners)
  {
    ghost var s;
    owners, s := SearchFrom(g, places, p, base);
    Exhausted(UndirectedNet(g), places[p].start.value, s);
    Resettle(UndirectedNet(g), places, p, base, owners, s);
  }

  /** Searches outwards from one place, offering it each node as that node is settled. */
  method SearchFrom(g: Graph, places: seq<Place>, p: int, base: Owners) returns (owners: Owners, ghost s: Search)
    requires g.Valid() && 0 <= p < |places| && places[p].start.Some?
    requires forall m <- base :: 0 <= base[m].1 < |places|
    ensures Sound(UndirectedNet(g), places[p].start.value, s) && Linked(UndirectedNet(g), places[p].start.value, s)
    ensures Closed(UndirectedNet(g), s, []) && s.queue == []
    ensures Offered(places, base, owners, p, s)
  {
    hide Linked, Closed, ArcsAt, Offered;
    ghost var net := UndirectedNet(g);
    var start := places[p].start.value;
    owners := base;
    var distances: map<NodeId, real> := map[start := 0.0];
    var queue := [Entry(0.0, start)];
    s := Dijkstra.Start(start);
    Begun(net, start);
    NothingOffered(places, base, p, s);
    ghost var left := net.Nodes() + {start};
    while queue != []
      invariant distances == s.dist && queue == s.queue
      invariant Sound(net, start, s) && Linked(net, start, s) && Closed(net, s, [])
      invariant left == net.Nodes() + {start} - s.settled
      invariant Offered(places, base, owners, p, s)
      decreases left, |queue|
    {
      var least, rest := Pop(queue);
      queue := rest;
      if least.node in distances && least.distance > distances[least.node] {
        DropStale(net, start, s, least, rest);
        OfferedIgnoresQueue(places, base, owners, p, s, rest);
        s := s.(queue := rest);
        continue;
      }
      left := left - {least.node};
      distances, queue, owners, s := SettleNode(g, net, places, base, p, least, rest, distances, owners, s);
    }
  }

  lemma {:induction false} NothingOffered(places: seq<Place>, base: Owners, p: int, s: Search)
    requires 0 <= p < |places| && (forall m <- base :: 0 <= base[m].1 < |places|) && s.settled == {}
    ensures Offered(places, base, base, p, s)
  {
  }

  lemma {:induction false} OfferedIgnoresQueue(
      places: seq<Place>, base: Owners, owners: Owners, p: int, s: Search, rest: seq<Entry>)
    requires 0 <= p < |places| && (forall m <- base :: 0 <= base[m].1 < |places|) && Offered(places, base, owners, p, s)
    ensures Offered(places, base, owners, p, s.(queue := rest))
  {
  }

  /** Settles the entry just popped: its node is offered to the place and its arcs are tried. */
  method SettleNode(
    g: Graph, ghost net: Network, places: seq<Place>, ghost base: Owners, p: int, least: Entry, rest: seq<Entry>,
    distances: map<NodeId, real>, held: Owners, ghost before: Search)
    returns (distances': map<NodeId, real>, queue: seq<Entry>, owners: Owners, ghost s: Search)
    requires g.Valid() && net == UndirectedNet(g) && 0 <= p < |places| && places[p].start.Some?
    requires forall m <- base :: 0 <= base[m].1 < |places|
    requires var start := places[p].start.value;
      Sound(net, start, before) && Linked(net, start, before) && Closed(net, before, [])
    requires least in before.queue && forall q <- before.queue :: Before(least, q)
    requires multiset(before.queue) == multiset(rest) + multiset{least}
    requires distances == before.dist && least.distance <= before.dist[least.node]
    requires Offered(places, base, held, p, before)
    ensures distances' == s.dist && queue == s.queue
    ensures var start := places[p].start.value; Sound(net, start, s) && Linked(net, start, s) && Closed(net, s, [])
    ensures Offered(places, base, owners, p, s)
    ensures s.settled == before.settled + {least.node}
    ensures least.node in before.settled ==> queue == rest
  {
    var start := places[p].start.value;
    Settle(net, start, before, least, rest);
    owners := Take(places, base, held, p, least.node, least.distance, before);
    distances', queue, s := RelaxAround(g, net, start, least.node, distances, rest, before);
  }

  /** Gives the node just settled to place `p` if that is where it belongs. */
  method Take(places: seq<Place>, ghost base: Owners, held: Owners, p: int, n: NodeId, d: real, ghost before: Search)
    returns (owners: Owners)
    requires 0 <= p < |places| && forall m <- base :: 0 <= base[m].1 < |places|
    requires Offered(places, base, held, p, before) && n in before.dist && d == before.dist[n]
    ensures Offered(places, base, owners, p, before.(settled := before.settled + {n}))
  {
    owners := if ShouldTake(places, held, n, d, p) then held[n := (d, p)] else held;
  }

  /** Tries every arc leaving `node`, settling it. */
  method RelaxAround(
    g: Graph, ghost net: Network, start: NodeId, node: NodeId,
    distances: map<NodeId, real>, queue: seq<Entry>, ghost before: Search)
    returns (distances': map<NodeId, real>, queue': seq<Entry>, ghost s: Search)
    requires g.Valid() && net == UndirectedNet(g)
    requires node in before.dist && distances == before.dist && Closed(net, before, [])
    requires Sound(net, start, Settled(before, node, queue)) && Linked(net, start, Settled(before, node, queue))
    ensures distances' == s.dist && queue' == s.queue
    ensures Sound(net, start, s) && Linked(net, start, s) && Closed(net, s, [])
    ensures s.settled == before.settled + {node}
    ensures forall n <- s.settled :: n in before.dist && s.dist[n] == before.dist[n]
    ensures node in before.settled ==> queue' == queue
  {
    hide Linked, ArcsAt;
    distances', queue', s := distances, queue, Settled(before, node, queue);
    var todo: seq<int> := ArcsAt(g, node);
    while todo != []
      invariant distances' == s.dist && queue' == s.queue
      invariant Sound(net, start, s) && Linked(net, start, s) && Closed(net, s, todo)
      invariant forall k | 0 <= k < |todo| :: 0 <= todo[k] < 2 * |g.edges| && ArcAt(g, todo[k]).from == node
      invariant s.settled == before.settled + {node} && node in s.dist && s.floor == s.dist[node]
      invariant forall n <- s.settled :: n in before.dist && s.dist[n] == before.dist[n]
      invariant node in before.settled ==> Closed(net, s, []) && queue' == queue
    {
      var a := ArcAt(g, todo[0]);
      var next := distances'[node] + a.weight;
      assert node in before.settled ==> Relaxed(net, s.dist, todo[0]);
      if a.to !in distances' || next < distances'[a.to] {
        Improve(net, start, s, todo, next);
        s := Improved(net, s, todo[0], next);
        distances' := distances'[a.to := next];
        queue' := queue' + [Entry(next, a.to)];
      } else {
        Skip(net, s, todo);
      }
      todo := todo[1..];
    }
  }

  /** Offering every node of one more place keeps the nearest-place reading. */
  lemma {:induction false} Resettle(net: Network, places: seq<Place>, p: int, base: Owners, owners: Owners, s: Search)
    requires net.Valid() && 0 <= p < |places| && places[p].start.Some?
    requires OwnedBy(net, places, p, base) && Offered(places, base, owners, p, s) && s.settled == s.dist.Keys
    requires forall n :: n in s.dist <==> Reaches(net, places[p].start.value, n)
    requires forall n <- s.dist :: IsDistance(net, places[p].start.value, n, s.dist[n])
    ensures OwnedBy(net, places, p + 1, owners)
  {
    forall n <- owners ensures 0 <= owners[n].1 < p + 1 && ReachedAt(net, places, owners[n].1, n, owners[n].0) {
      if n in s.settled {
        var walk :| IsWalk(net, places[p].start.value, walk, n) && Cost(net, walk) == s.dist[n];
        assert Leads(net, places, p, walk, n);
      }
    }
    forall n, q, walk | q < p + 1 && Leads(net, places, q, walk, n)
      ensures n in owners && NoFarther(places, owners[n].1, owners[n].0, q, Cost(net, walk))
    {
      if q == p {
        assert Reaches(net, places[p].start.value, n);
      } else {
        assert n in base && NoFarther(places, base[n].1, base[n].0, q, Cost(net, walk));
      }
    }
  }

  /** Assigns every node to its nearest place. */
  method AssignOwners(g: Graph, places: seq<Place>) returns (owners: Owners)
    requires g.Valid()
    ensures OwnedBy(UndirectedNet(g), places, |places|, owners)
  {
    owners := map[];
    for p := 0 to |places|
      invariant OwnedBy(UndirectedNet(g), places, p, owners)
    {
      if places[p].start.Some? {
        owners := OfferPlace(g, places, p, owners);
      }
    }
  }

  /** Places `l < r` own the two ends of edge `e`. */
  ghost predicate Touches(g: Graph, owners: Owners, e: EdgeId, l: int, r: int) {
    && 0 <= e < |g.edges| && l < r
    && var (from, to) := (g.edges[e].from, g.edges[e].to);
       from in owners && to in owners
       && ((owners[from].1 == l && owners[to].1 == r) || (owners[from].1 == r && owners[to].1 == l))
  }

  ghost predicate Grouped(g: Graph, owners: Owners, upto: int, groups: map<(int, int), set<EdgeId>>) {
    && (forall l, r :: (l, r) in groups <==> exists e :: e < upto && Touches(g, owners, e, l, r))
    && (forall l, r, e | (l, r) in groups :: e in groups[(l, r)] <==> e < upto && Touches(g, owners, e, l, r))
  }

  /** For each pair of places that touch, the edges where they do. */
  method GroupEdges(g: Graph, owners: Owners) returns (groups: map<(int, int), set<EdgeId>>)
    ensures Grouped(g, owners, |g.edges|, groups)
  {
    groups := map[];
    for i := 0 to |g.edges|
      invariant Grouped(g, owners, i, groups)
    {
      var edge := g.edges[i];
      if edge.from in owners && edge.to in owners && owners[edge.from].1 != owners[edge.to].1 {
        var left, right := owners[edge.from].1, owners[edge.to].1;
        var pair := if left < right then (left, right) else (right, left);
        GroupGrows(g, owners, i, pair, groups);
        groups := groups[pair := (if pair in groups then groups[pair] else {}) + {i}];
      } else {
        GroupStays(g, owners, i, groups);
      }
    }
  }

  lemma {:induction false} GroupGrows(
      g: Graph, owners: Owners, i: nat, pair: (int, int), groups: map<(int, int), set<EdgeId>>)
    requires Grouped(g, owners, i, groups) && Touches(g, owners, i, pair.0, pair.1)
    ensures Grouped(g, owners, i + 1, groups[pair := (if pair in groups then groups[pair] else {}) + {i}])
  {
    var groups' := groups[pair := (if pair in groups then groups[pair] else {}) + {i}];
    var next := i + 1;
    OnlyPair(g, owners, i, pair);
    hide Touches;
    forall l, r ensures (l, r) in groups' <==> exists e :: e < next && Touches(g, owners, e, l, r) {
      if (l, r) in groups {
        var e :| e < i && Touches(g, owners, e, l, r);
      }
      if e :| e < next && Touches(g, owners, e, l, r) && e != i { assert (l, r) in groups; }
    }
  }

  /** An edge touches one pair of places only. */
  lemma {:induction false} OnlyPair(g: Graph, owners: Owners, e: EdgeId, pair: (int, int))
    requires Touches(g, owners, e, pair.0, pair.1)
    ensures forall l, r :: Touches(g, owners, e, l, r) <==> (l, r) == pair
  {
  }

  lemma {:induction false} GroupStays(g: Graph, owners: Owners, i: nat, groups: map<(int, int), set<EdgeId>>)
    requires Grouped(g, owners, i, groups) && forall l, r :: !Touches(g, owners, i, l, r)
    ensures Grouped(g, owners, i + 1, groups)
  {
    hide Touches;
    var next := i + 1;
    forall l, r ensures (l, r) in groups <==> exists e :: e < next && Touches(g, owners, e, l, r) {
      if e :| e < next && Touches(g, owners, e, l, r) { assert e < i; }
    }
  }

  /** The prepared adjacencies between places that each own part of the graph. */
  method PrepareAdjacencies(g: Graph, places: seq<Place>) returns (owners: Owners, groups: map<(int, int), set<EdgeId>>)
    requires g.Valid()
    ensures OwnedBy(UndirectedNet(g), places, |places|, owners)
    ensures Grouped(g, owners, |g.edges|, groups)
  {
    owners := AssignOwners(g, places);
    groups := GroupEdges(g, owners);
  }

  /** Whoever is nearest to a node on a shortest walk is nearest to its end. */
  lemma NearestOnTheWay(places: seq<Place>, p: int, c: real, rest: real, q: int, d: real)
    requires 0 <= p < |places| && 0 <= q < |places|
    requires NoFarther(places, q, d, p, c) && NoFarther(places, p, c + rest, q, d + rest)
    ensures q == p && d == c
  {
  }

  /** Each node on a shortest walk from a place to a node it owns belongs to that place too. */
  lemma {:induction false} RegionsAreStarShaped(
      net: Network, places: seq<Place>, owners: Owners, n: NodeId, m: NodeId, first: seq<int>, second: seq<int>)
    requires net.Valid() && OwnedBy(net, places, |places|, owners) && n in owners
    requires Leads(net, places, owners[n].1, first, m) && IsWalk(net, m, second, n)
    requires Cost(net, first) + Cost(net, second) == owners[n].0
    ensures m in owners && owners[m] == (Cost(net, first), owners[n].1)
  {
    var p := owners[n].1;
    assert m in owners && NoFarther(places, owners[m].1, owners[m].0, p, Cost(net, first));
    var q, d := owners[m].1, owners[m].0;
    var near :| Leads(net, places, q, near, m) && Cost(net, near) == d;
    Onward(net, places, owners, q, near, m, second, n);
    NearestOnTheWay(places, p, Cost(net, first), Cost(net, second), q, d);
  }

  lemma {:induction false} Onward(
      net: Network, places: seq<Place>, owners: Owners, q: int, near: seq<int>, m: NodeId, second: seq<int>, n: NodeId)
    requires net.Valid() && OwnedBy(net, places, |places|, owners)
    requires Leads(net, places, q, near, m) && IsWalk(net, m, second, n)
    ensures n in owners && NoFarther(places, owners[n].1, owners[n].0, q, Cost(net, near) + Cost(net, second))
  {
    WalkConcat(net, places[q].start.value, near, m, second, n);
    assert Leads(net, places, q, near + second, n);
  }

  /** Places linked by a chain in which each next pair is prepared as an adjacency. */
  ghost predicate Chain(groups: map<(int, int), set<EdgeId>>, from: int, chain: seq<int>, to: int)
    decreases |chain|
  {
    if chain == [] then from == to
    else ((from, chain[0]) in groups || (chain[0], from) in groups) && Chain(groups, chain[0], chain[1..], to)
  }

  /** Along any undirected walk, the owners of its ends are chained. */
  lemma {:induction false} OwnersChained(
    g: Graph, places: seq<Place>, owners: Owners, groups: map<(int, int), set<EdgeId>>, n: NodeId, walk: seq<int>,
      m: NodeId)
    returns (chain: seq<int>)
    requires g.Valid() && OwnedBy(UndirectedNet(g), places, |places|, owners) && Grouped(g, owners, |g.edges|, groups)
    requires n in owners && IsWalk(UndirectedNet(g), n, walk, m)
    ensures m in owners && Chain(groups, owners[n].1, chain, owners[m].1)
    decreases |walk|
  {
    var net := UndirectedNet(g);
    if walk == [] {
      chain := [];
    } else {
      var a := ArcAt(g, walk[0]);
      var out :| Leads(net, places, owners[n].1, out, n);
      WalkSnoc(net, places[owners[n].1].start.value, out, n, walk[0]);
      assert Leads(net, places, owners[n].1, out + [walk[0]], a.to);
      chain := OwnersChained(g, places, owners, groups, a.to, walk[1..], m);
      if owners[n].1 != owners[a.to].1 {
        var l, r := owners[n].1, owners[a.to].1;
        assert Touches(g, owners, walk[0] / 2, if l < r then l else r, if l < r then r else l);
        chain := [owners[a.to].1] + chain;
      }
    }
  }

  /** Places that own where they attach, in one undirected component, are linked through prepared adjacencies. */
  lemma {:induction false} PlacesConnected(
    g: Graph, places: seq<Place>, owners: Owners, groups: map<(int, int), set<EdgeId>>, p: int, q: int)
    requires g.Valid() && OwnedBy(UndirectedNet(g), places, |places|, owners) && Grouped(g, owners, |g.edges|, groups)
    requires 0 <= p < |places| && places[p].start.Some? && 0 <= q < |places| && places[q].start.Some?
    requires places[p].start.value in owners && owners[places[p].start.value].1 == p
    requires places[q].start.value in owners && owners[places[q].start.value].1 == q
    requires Reaches(UndirectedNet(g), places[p].start.value, places[q].start.value)
    ensures exists chain :: Chain(groups, p, chain, q)
  {
    var walk :| IsWalk(UndirectedNet(g), places[p].start.value, walk, places[q].start.value);
    var chain := OwnersChained(g, places, owners, groups, places[p].start.value, walk, places[q].start.value);
  }
}

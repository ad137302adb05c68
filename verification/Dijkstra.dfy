/**
 What every step of a least-distance search keeps.  The search loops themselves
 are methods elsewhere; `Search` collects their working state, and the lemmas
 here say what settling a node and relaxing an arc do to it.
 */
module Dijkstra {
  import opened Networks
  import opened Queues

  /**
   `previous` gives the node and arc behind each label, `hops` the number of arcs
   behind it, and `floor` the last settled distance.
   */
  datatype Search = Search(
    dist: map<NodeId, real>, previous: map<NodeId, (NodeId, int)>, hops: map<NodeId, nat>,
    settled: set<NodeId>, queue: seq<Entry>, floor: real)

  ghost predicate Sound(net: Network, start: NodeId, s: Search)
    requires net.Valid()
  {
    && s.hops.Keys == s.dist.Keys && s.settled <= s.dist.Keys <= net.Nodes() + {start}
    && start in s.dist && s.dist[start] == 0.0 && s.floor >= 0.0
    && (forall n <- s.settled :: s.dist[n] <= s.floor)
    && (forall q <- s.queue :: q.node in s.dist && s.dist[q.node] <= q.distance && s.floor <= q.distance)
    && (forall n <- s.dist :: n in s.settled || Entry(s.dist[n], n) in s.queue)
  }

  /** Every label but the start's comes over one open arc from a settled node fewer hops away. */
  ghost predicate Linked(net: Network, start: NodeId, s: Search)
    requires net.Valid()
  {
    && s.hops.Keys == s.dist.Keys && s.settled <= s.dist.Keys
    && forall n <- s.dist :: n != start ==> n in s.previous && Link(net, s, n, s.previous[n].0, s.previous[n].1)
  }

  ghost predicate Link(net: Network, s: Search, n: NodeId, parent: NodeId, e: int)
    requires net.Valid() && s.hops.Keys == s.dist.Keys && s.settled <= s.dist.Keys && n in s.dist
  {
    && e in net.open && net.arcs[e].from == parent && net.arcs[e].to == n
    && parent in s.settled
    && s.dist[n] == s.dist[parent] + net.arcs[e].weight
    && s.hops[n] == s.hops[parent] + 1
  }

  /** Following arc `e` cannot improve on the distances known. */
  ghost predicate Relaxed(net: Network, dist: map<NodeId, real>, e: int)
    requires net.Valid() && e in net.open
  {
    var a := net.arcs[e];
    a.from in dist && a.to in dist && dist[a.to] <= dist[a.from] + a.weight
  }

  /** Every open arc leaving a settled node is relaxed, those in `todo` apart. */
  ghost predicate Closed(net: Network, s: Search, todo: seq<int>)
    requires net.Valid()
  {
    forall e <- net.open :: net.arcs[e].from in s.settled && e !in todo ==> Relaxed(net, s.dist, e)
  }

  ghost function Start(start: NodeId): Search {
    Search(map[start := 0.0], map[], map[start := 0], {}, [Entry(0.0, start)], 0.0)
  }

  ghost function Settled(s: Search, n: NodeId, rest: seq<Entry>): Search
    requires n in s.dist
  {
    s.(settled := s.settled + {n}, queue := rest, floor := s.dist[n])
  }

  ghost function Improved(net: Network, s: Search, e: int, next: real): Search
    requires net.Valid() && e in net.open && net.arcs[e].from in s.hops
  {
    var a := net.arcs[e];
    s.(dist := s.dist[a.to := next], previous := s.previous[a.to := (a.from, e)],
       hops := s.hops[a.to := s.hops[a.from] + 1], queue := s.queue + [Entry(next, a.to)])
  }

  /** A search that has only just begun. */
  lemma {:induction false} Begun(net: Network, start: NodeId)
    requires net.Valid()
    ensures Sound(net, start, Start(start)) && Linked(net, start, Start(start)) && Closed(net, Start(start), [])
  {
    assert IsWalk(net, start, [], start) && Cost(net, []) == 0.0;
  }

  /** Dropping a stale entry keeps the search sound. */
  lemma {:induction false} DropStale(net: Network, start: NodeId, s: Search, least: Entry, rest: seq<Entry>)
    requires net.Valid() && Sound(net, start, s)
    requires multiset(s.queue) == multiset(rest) + multiset{least}
    requires least.node in s.dist && s.dist[least.node] < least.distance
    ensures Sound(net, start, s.(queue := rest))
    ensures Linked(net, start, s) ==> Linked(net, start, s.(queue := rest))
    ensures forall todo :: Closed(net, s, todo) ==> Closed(net, s.(queue := rest), todo)
  {
    PopMembers(s.queue, rest, least);
  }

  /** Settling the first entry of the queue raises the floor to its distance. */
  lemma {:induction false} Settle(net: Network, start: NodeId, s: Search, least: Entry, rest: seq<Entry>)
    requires net.Valid() && Sound(net, start, s)
    requires least in s.queue && forall q <- s.queue :: Before(least, q)
    requires multiset(s.queue) == multiset(rest) + multiset{least}
    requires least.distance <= s.dist[least.node]
    ensures least.distance == s.dist[least.node]
    ensures Sound(net, start, Settled(s, least.node, rest))
    ensures Linked(net, start, s) ==> Linked(net, start, Settled(s, least.node, rest))
  {
    PopMembers(s.queue, rest, least);
  }

  /** An arc that is closed, or already relaxed, needs no step. */
  lemma {:induction false} Skip(net: Network, s: Search, todo: seq<int>)
    requires net.Valid() && Closed(net, s, todo) && todo != []
    requires todo[0] in net.open ==> Relaxed(net, s.dist, todo[0])
    ensures Closed(net, s, todo[1..])
  {
    assert todo == [todo[0]] + todo[1..];
  }

  /** The arc `e` leads from the node just settled to a label it improves. */
  ghost predicate Improves(net: Network, s: Search, e: int, next: real)
    requires net.Valid()
  {
    && e in net.open && net.arcs[e].from in s.settled && s.settled <= s.dist.Keys && s.dist.Keys == s.hops.Keys
    && s.dist[net.arcs[e].from] == s.floor && next == s.floor + net.arcs[e].weight
    && (net.arcs[e].to in s.dist ==> next < s.dist[net.arcs[e].to])
  }

  /** Relaxing an arc out of the node just settled keeps everything. */
  lemma {:induction false} Improve(net: Network, start: NodeId, s: Search, todo: seq<int>, next: real)
    requires net.Valid() && Sound(net, start, s) && Linked(net, start, s) && Closed(net, s, todo)
    requires todo != [] && Improves(net, s, todo[0], next)
    ensures Sound(net, start, Improved(net, s, todo[0], next))
    ensures Linked(net, start, Improved(net, s, todo[0], next))
    ensures Closed(net, Improved(net, s, todo[0], next), todo[1..])
  {
    assert net.arcs[todo[0]].to !in s.settled && net.arcs[todo[0]].to != start;
    ImproveSound(net, start, s, todo[0], next);
    ImproveLinked(net, start, s, todo[0], next);
    ImproveClosed(net, s, todo, next);
  }

  lemma {:induction false} ImproveSound(net: Network, start: NodeId, s: Search, e: int, next: real)
    requires net.Valid() && Sound(net, start, s) && Improves(net, s, e, next)
    requires net.arcs[e].to !in s.settled && net.arcs[e].to != start
    ensures Sound(net, start, Improved(net, s, e, next))
  {
    var t := Improved(net, s, e, next);
    forall n <- t.dist ensures n in t.settled || Entry(t.dist[n], n) in t.queue {}
  }

  lemma {:induction false} ImproveLinked(net: Network, start: NodeId, s: Search, e: int, next: real)
    requires net.Valid() && Linked(net, start, s) && Improves(net, s, e, next)
    requires net.arcs[e].to !in s.settled && net.arcs[e].to != start
    ensures Linked(net, start, Improved(net, s, e, next))
  {
    var t := Improved(net, s, e, next);
    forall n <- t.dist | n != start
      ensures n in t.previous && Link(net, t, n, t.previous[n].0, t.previous[n].1)
    {
      if n != net.arcs[e].to { assert Link(net, s, n, s.previous[n].0, s.previous[n].1); }
    }
  }

  lemma {:induction false} ImproveClosed(net: Network, s: Search, todo: seq<int>, next: real)
    requires net.Valid() && Closed(net, s, todo) && todo != [] && Improves(net, s, todo[0], next)
    requires net.arcs[todo[0]].to !in s.settled
    ensures Closed(net, Improved(net, s, todo[0], next), todo[1..])
  {
    var t := Improved(net, s, todo[0], next);
    assert todo == [todo[0]] + todo[1..];
    forall f <- net.open | net.arcs[f].from in t.settled && f !in todo[1..]
      ensures Relaxed(net, t.dist, f)
    {
      if f != todo[0] { assert Relaxed(net, s.dist, f); }
    }
  }

  /** The labels behind a node trace a walk of exactly its distance. */
  lemma {:induction false} Trace(net: Network, start: NodeId, s: Search, n: NodeId) returns (walk: seq<int>)
    requires net.Valid() && Sound(net, start, s) && Linked(net, start, s) && n in s.dist
    ensures IsWalk(net, start, walk, n) && Cost(net, walk) == s.dist[n]
    decreases s.hops[n]
  {
    if n == start {
      walk := [];
    } else {
      var (parent, e) := s.previous[n];
      assert Link(net, s, n, parent, e);
      walk := Trace(net, start, s, parent);
      WalkSnoc(net, start, walk, parent, e);
      walk := walk + [e];
    }
  }

  /**
   No walk can undercut the labels: from any labelled node, a walk either ends at
   a node whose label is no greater, or costs at least `bound`, a lower bound on
   every label not yet settled.
   */
  lemma {:induction false} NoShortcut(
      net: Network, start: NodeId, s: Search, bound: real, from: NodeId, walk: seq<int>, to: NodeId)
    requires net.Valid() && Sound(net, start, s) && Closed(net, s, [])
    requires forall n <- s.dist :: n in s.settled || bound <= s.dist[n]
    requires from in s.dist && IsWalk(net, from, walk, to)
    ensures bound <= s.dist[from] + Cost(net, walk) || (to in s.settled && s.dist[to] <= s.dist[from] + Cost(net, walk))
    decreases |walk|
  {
    CostNonNegative(net, walk);
    if walk != [] && from in s.settled {
      assert Relaxed(net, s.dist, walk[0]);
      NoShortcut(net, start, s, bound, net.arcs[walk[0]].to, walk[1..], to);
    }
  }

  /** A label no greater than every unsettled one is the distance from the start. */
  lemma {:induction false} LabelIsDistance(net: Network, start: NodeId, s: Search, n: NodeId)
    requires net.Valid() && Sound(net, start, s) && Linked(net, start, s) && Closed(net, s, [])
    requires n in s.dist && forall m <- s.dist :: m in s.settled || s.dist[n] <= s.dist[m]
    ensures IsDistance(net, start, n, s.dist[n])
  {
    var walk := Trace(net, start, s, n);
    forall walk | IsWalk(net, start, walk, n) ensures s.dist[n] <= Cost(net, walk) {
      NoShortcut(net, start, s, s.dist[n], start, walk, n);
    }
  }

  /** With the queue empty, the labels are exactly the distances of the reachable nodes. */
  lemma {:induction false} Exhausted(net: Network, start: NodeId, s: Search)
    requires net.Valid() && Sound(net, start, s) && Linked(net, start, s) && Closed(net, s, []) && s.queue == []
    ensures s.settled == s.dist.Keys
    ensures forall n :: n in s.dist <==> Reaches(net, start, n)
    ensures forall n <- s.dist :: IsDistance(net, start, n, s.dist[n])
  {
    forall n | n in s.dist ensures IsDistance(net, start, n, s.dist[n]) && Reaches(net, start, n) {
      LabelIsDistance(net, start, s, n);
    }
    forall n | Reaches(net, start, n) ensures n in s.dist {
      var walk :| IsWalk(net, start, walk, n);
      NoShortcut(net, start, s, Cost(net, walk) + 1.0, start, walk, n);
    }
  }
}

/** Option, the stock optional value. */
module Options {
  datatype Option<+T> = None | Some(value: T)
}

/** Sequences read from the other end. */
module Sequences {
  function Reversed<T>(s: seq<T>): (back: seq<T>)
    ensures |back| == |s|
  {
    if s == [] then [] else Reversed(s[1..]) + [s[0]]
  }
}

/**
 Weighted directed networks and the walks through them.  Every search of the
 compiler (role routes, rural frontier, urban adjacency) runs over one of these:
 `arcs` is the full edge table and `open` holds the indices the search may use.
 Identifiers are integers, of which only equality and order are used.
 */
module Networks {

  type NodeId = int

  datatype Arc = Arc(from: NodeId, to: NodeId, weight: real)

  datatype Network = Network(arcs: seq<Arc>, open: set<int>) {
    ghost predicate Valid() {
      forall e <- open :: 0 <= e < |arcs| && arcs[e].weight >= 0.0
    }

    ghost function Nodes(): set<NodeId> {
      (set e | 0 <= e < |arcs| :: arcs[e].from) + (set e | 0 <= e < |arcs| :: arcs[e].to)
    }
  }

  /** `walk` lists open arcs leading head to tail from `from` to `to`. */
  ghost predicate IsWalk(net: Network, from: NodeId, walk: seq<int>, to: NodeId)
    requires net.Valid()
    decreases |walk|
  {
    if walk == [] then from == to
    else
      && walk[0] in net.open
      && net.arcs[walk[0]].from == from
      && IsWalk(net, net.arcs[walk[0]].to, walk[1..], to)
  }

  ghost function Cost(net: Network, walk: seq<int>): (c: real)
    requires net.Valid()
  {
    if walk == [] then 0.0
    else (if walk[0] in net.open then net.arcs[walk[0]].weight else 0.0) + Cost(net, walk[1..])
  }

  lemma {:induction false} CostNonNegative(net: Network, walk: seq<int>)
    requires net.Valid()
    ensures Cost(net, walk) >= 0.0
  {
    if walk != [] { CostNonNegative(net, walk[1..]); }
  }

  /** Walks compose, and their costs add. */
  lemma {:induction false} WalkConcat(
      net: Network, from: NodeId, first: seq<int>, mid: NodeId, second: seq<int>, to: NodeId)
    requires net.Valid() && IsWalk(net, from, first, mid) && IsWalk(net, mid, second, to)
    ensures IsWalk(net, from, first + second, to)
    ensures Cost(net, first + second) == Cost(net, first) + Cost(net, second)
    decreases |first|
  {
    if first == [] {
      assert first + second == second;
    } else {
      assert (first + second)[1..] == first[1..] + second;
      WalkConcat(net, net.arcs[first[0]].to, first[1..], mid, second, to);
    }
  }

  lemma {:induction false} WalkSnoc(net: Network, from: NodeId, walk: seq<int>, mid: NodeId, e: int)
    requires net.Valid() && IsWalk(net, from, walk, mid) && e in net.open && net.arcs[e].from == mid
    ensures IsWalk(net, from, walk + [e], net.arcs[e].to)
    ensures Cost(net, walk + [e]) == Cost(net, walk) + net.arcs[e].weight
  {
    assert [e][1..] == [];
    assert IsWalk(net, mid, [e], net.arcs[e].to);
    WalkConcat(net, from, walk, mid, [e], net.arcs[e].to);
  }

  /** `to` can be reached from `from` over open arcs. */
  ghost predicate Reaches(net: Network, from: NodeId, to: NodeId)
    requires net.Valid()
  {
    exists walk :: IsWalk(net, from, walk, to)
  }

  /** `d` is the least cost of any open walk from `from` to `to`. */
  ghost predicate IsDistance(net: Network, from: NodeId, to: NodeId, d: real)
    requires net.Valid()
  {
    && (exists walk :: IsWalk(net, from, walk, to) && Cost(net, walk) == d)
    && (forall walk :: IsWalk(net, from, walk, to) ==> d <= Cost(net, walk))
  }
}

/** The priority queue shared by the searches. */
module Queues {
  import opened Networks

  datatype Entry = Entry(distance: real, node: NodeId)

  /** The queue order: least distance first, then the greatest node. */
  predicate Before(left: Entry, right: Entry) {
    left.distance < right.distance
    || (left.distance == right.distance && left.node >= right.node)
  }

  /** Removes the entry that comes before all others. */
  method Pop(queue: seq<Entry>) returns (least: Entry, rest: seq<Entry>)
    requires queue != []
    ensures least in queue && forall q <- queue :: Before(least, q)
    ensures multiset(queue) == multiset(rest) + multiset{least}
    ensures |rest| == |queue| - 1
  {
    var best := 0;
    for i := 1 to |queue|
      invariant 0 <= best < i
      invariant forall k :: 0 <= k < i ==> Before(queue[best], queue[k])
    {
      if Before(queue[i], queue[best]) {
        best := i;
      }
    }
    least, rest := queue[best], queue[..best] + queue[best + 1..];
    assert queue == queue[..best] + [queue[best]] + queue[best + 1..];
  }

  ghost predicate First(queue: multiset<Entry>, e: Entry) {
    e in queue && forall q | q in queue :: Before(e, q)
  }

  lemma FirstOnce(queue: multiset<Entry>, e: Entry, f: Entry)
    requires First(queue, e) && First(queue, f)
    ensures e == f
  {
    assert Before(e, f) && Before(f, e);
  }

  lemma {:induction false} FirstPopped(queue: seq<Entry>, least: Entry, rest: seq<Entry>)
    requires least in queue && (forall q <- queue :: Before(least, q))
      && multiset(queue) == multiset(rest) + multiset{least}
    ensures First(multiset(queue), least) && multiset(rest) == multiset(queue) - multiset{least}
  {
    forall q | q in multiset(queue) ensures Before(least, q) { assert q in queue; }
  }

  /** What membership says after a pop: only copies of the popped entry can go. */
  lemma {:induction false} PopMembers(queue: seq<Entry>, rest: seq<Entry>, least: Entry)
    requires multiset(queue) == multiset(rest) + multiset{least}
    ensures forall q :: q in rest ==> q in queue
    ensures forall q :: q in queue && q != least ==> q in rest
  {
    forall q | q in rest ensures q in queue { assert multiset(rest)[q] > 0; assert multiset(queue)[q] > 0; }
    forall q | q in queue && q != least ensures q in rest { assert multiset(queue)[q] > 0; }
  }
}

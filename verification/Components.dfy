/** The groups of nodes joined by edges that are present in both directions. */
module Components {
  import opened Networks
  import opened RoadGraph

  /** The edges whose opposite direction is also present; all cost nothing here. */
  ghost function ReciprocalNet(g: Graph): (net: Network)
    ensures net.Valid() && |net.arcs| == |g.edges|
    ensures forall e | 0 <= e < |g.edges| :: net.arcs[e] == Arc(g.edges[e].from, g.edges[e].to, 0.0)
    ensures forall e :: e in net.open <==> 0 <= e < |g.edges| && HasOpposite(g, e)
  {
    Network(
      seq(|g.edges|, e requires 0 <= e < |g.edges| => Arc(g.edges[e].from, g.edges[e].to, 0.0)),
      set e | 0 <= e < |g.edges| && HasOpposite(g, e))
  }

  ghost predicate HasOpposite(g: Graph, e: EdgeId)
    requires 0 <= e < |g.edges|
  {
    exists f :: 0 <= f < |g.edges| && g.edges[f].from == g.edges[e].to && g.edges[f].to == g.edges[e].from
  }

  ghost function GraphNodes(g: Graph): set<NodeId> {
    (set e | 0 <= e < |g.edges| :: g.edges[e].from) + (set e | 0 <= e < |g.edges| :: g.edges[e].to)
  }

  /** The nodes joined to `n` by an edge in each direction. */
  ghost predicate Neighbours(g: Graph, n: NodeId, m: NodeId) {
    && (exists e :: 0 <= e < |g.edges| && g.edges[e].from == n && g.edges[e].to == m)
    && (exists f :: 0 <= f < |g.edges| && g.edges[f].from == m && g.edges[f].to == n)
  }

  ghost predicate IsAdjacency(g: Graph, adjacency: map<NodeId, set<NodeId>>) {
    && adjacency.Keys == GraphNodes(g)
    && forall n <- adjacency, m :: m in adjacency[n] <==> Neighbours(g, n, m)
  }

  lemma {:induction false} NeighbourStep(g: Graph, n: NodeId, m: NodeId)
    requires Neighbours(g, n, m)
    ensures exists e :: e in ReciprocalNet(g).open && g.edges[e].from == n && g.edges[e].to == m
    ensures n in GraphNodes(g) && m in GraphNodes(g)
  {
    var e :| 0 <= e < |g.edges| && g.edges[e].from == n && g.edges[e].to == m;
    assert HasOpposite(g, e);
  }

  ghost predicate ClosedUnder(g: Graph, s: set<NodeId>) {
    forall n <- s, m :: Neighbours(g, n, m) ==> m in s
  }

  /** A set closed under the relation holds all that can be reached from it. */
  lemma {:induction false} ReachStays(g: Graph, s: set<NodeId>, from: NodeId, walk: seq<int>, to: NodeId)
    requires ClosedUnder(g, s) && from in s && IsWalk(ReciprocalNet(g), from, walk, to)
    ensures to in s
    decreases |walk|
  {
    if walk != [] {
      var e := walk[0];
      assert HasOpposite(g, e);
      assert Neighbours(g, from, g.edges[e].to);
      ReachStays(g, s, g.edges[e].to, walk[1..], to);
    }
  }

  ghost predicate Inhabited(s: set<NodeId>) { exists n :: n in s }

  /** Exactly the nodes that can be reached from any one of its members. */
  ghost predicate IsComponent(g: Graph, c: set<NodeId>) {
    && Inhabited(c) && c <= GraphNodes(g) && ClosedUnder(g, c)
    && forall n <- c, m <- c :: Reaches(ReciprocalNet(g), n, m)
  }

  lemma {:induction false} ReverseWalk(g: Graph, from: NodeId, walk: seq<int>, to: NodeId)
    requires IsWalk(ReciprocalNet(g), from, walk, to)
    ensures Reaches(ReciprocalNet(g), to, from)
    decreases |walk|
  {
    var net := ReciprocalNet(g);
    if walk == [] {
      assert IsWalk(net, to, [], from);
    } else {
      var e := walk[0];
      ReverseWalk(g, g.edges[e].to, walk[1..], to);
      assert HasOpposite(g, e);
      var f :| 0 <= f < |g.edges| && g.edges[f].from == g.edges[e].to && g.edges[f].to == g.edges[e].from;
      assert HasOpposite(g, f);
      var back :| IsWalk(net, to, back, g.edges[e].to);
      WalkSnoc(net, to, back, g.edges[e].to, f);
    }
  }

  lemma {:induction false} ReachNeighbour(g: Graph, start: NodeId, n: NodeId, m: NodeId)
    requires Reaches(ReciprocalNet(g), start, n) && Neighbours(g, n, m)
    ensures Reaches(ReciprocalNet(g), start, m)
  {
    NeighbourStep(g, n, m);
    var e :| e in ReciprocalNet(g).open && g.edges[e].from == n && g.edges[e].to == m;
    var walk :| IsWalk(ReciprocalNet(g), start, walk, n);
    WalkSnoc(ReciprocalNet(g), start, walk, n, e);
  }

  /** Every node reached from `start` reaches every other one. */
  lemma {:induction false} ReachedMutually(g: Graph, start: NodeId, c: set<NodeId>)
    requires forall n <- c :: Reaches(ReciprocalNet(g), start, n)
    ensures forall n <- c, m <- c :: Reaches(ReciprocalNet(g), n, m)
  {
    var net := ReciprocalNet(g);
    forall n <- c, m <- c ensures Reaches(net, n, m) {
      var out :| IsWalk(net, start, out, n);
      ReverseWalk(g, start, out, n);
      var back :| IsWalk(net, n, back, start);
      var on :| IsWalk(net, start, on, m);
      WalkConcat(net, n, back, start, on, m);
    }
  }

  method BuildAdjacency(g: Graph) returns (adjacency: map<NodeId, set<NodeId>>)
    ensures IsAdjacency(g, adjacency)
  {
    var directed: set<(NodeId, NodeId)> := {};
    for i := 0 to |g.edges|
      invariant forall p :: p in directed <==> exists e :: 0 <= e < i && g.edges[e].from == p.0 && g.edges[e].to == p.1
    {
      directed := directed + {(g.edges[i].from, g.edges[i].to)};
    }
    adjacency := map[];
    for i := 0 to |g.edges|
      invariant forall n :: n in adjacency <==> exists e :: 0 <= e < i && (g.edges[e].from == n || g.edges[e].to == n)
      invariant forall n <- adjacency, m :: m in adjacency[n] <==> Paired(g, directed, i, n, m)
    {
      var from, to := g.edges[i].from, g.edges[i].to;
      ghost var before := adjacency;
      if from !in adjacency { adjacency := adjacency[from := {}]; }
      if to !in adjacency { adjacency := adjacency[to := {}]; }
      if (to, from) in directed {
        adjacency := adjacency[from := adjacency[from] + {to}];
        adjacency := adjacency[to := adjacency[to] + {from}];
      }
    }
    assert forall n :: n in adjacency.Keys <==> n in GraphNodes(g);
    forall n <- adjacency, m ensures m in adjacency[n] <==> Neighbours(g, n, m) {
      if Neighbours(g, n, m) {
        var e :| 0 <= e < |g.edges| && g.edges[e].from == n && g.edges[e].to == m;
        assert (n, m) in directed && (m, n) in directed;
      }
    }
  }

  /** One of the first `i` edges joins the two nodes, and its opposite is present. */
  ghost predicate Paired(g: Graph, directed: set<(NodeId, NodeId)>, i: int, n: NodeId, m: NodeId)
    requires 0 <= i <= |g.edges|
  {
    exists e :: 0 <= e < i && (g.edges[e].to, g.edges[e].from) in directed
      && ((g.edges[e].from == n && g.edges[e].to == m) || (g.edges[e].from == m && g.edges[e].to == n))
  }

  method PopFirst(s: set<NodeId>) returns (least: NodeId, rest: set<NodeId>)
    requires exists n :: n in s
    ensures least in s && (forall n <- s :: least <= n) && rest == s - {least}
  {
    least :| least in s;
    var todo := s - {least};
    while exists n :: n in todo
      invariant todo <= s && least in s && forall n <- s :: n in todo || least <= n
      decreases todo
    {
      var n :| n in todo;
      todo := todo - {n};
      if n < least { least := n; }
    }
    rest := s - {least};
  }

  ghost predicate Flooded(
      g: Graph, start: NodeId, before: set<NodeId>, component: set<NodeId>, remaining: set<NodeId>) {
    && start in component && component <= before && remaining == before - component
    && forall n <- component :: Reaches(ReciprocalNet(g), start, n)
  }

  /** Only stacked nodes, and `node` towards `todo`, can have neighbours outside. */
  ghost predicate OpenOnlyAt(g: Graph, component: set<NodeId>, stack: seq<NodeId>, node: NodeId, todo: set<NodeId>) {
    && (forall n <- stack :: n in component)
    && forall n <- component, m :: Neighbours(g, n, m) ==> m in component || n in stack || (n == node && m in todo)
  }

  /** Moves the remaining neighbours of `node` into the component and onto the stack. */
  method Visit(
    g: Graph, adjacency: map<NodeId, set<NodeId>>, ghost start: NodeId, ghost before: set<NodeId>, node: NodeId,
    component: set<NodeId>, remaining: set<NodeId>, stack: seq<NodeId>)
    returns (component': set<NodeId>, remaining': set<NodeId>, stack': seq<NodeId>)
    requires IsAdjacency(g, adjacency) && before <= GraphNodes(g) && ClosedUnder(g, GraphNodes(g) - before)
    requires Flooded(g, start, before, component, remaining) && node in component
    requires OpenOnlyAt(g, component, stack + [node], start, {})
    ensures Flooded(g, start, before, component', remaining')
    ensures OpenOnlyAt(g, component', stack', start, {})
    ensures remaining' < remaining || (remaining' == remaining && stack' == stack)
  {
    hide ReciprocalNet, Reaches, Neighbours, GraphNodes;
    component', remaining', stack' := component, remaining, stack;
    var todo := adjacency[node];
    while exists n :: n in todo
      invariant Flooded(g, start, before, component', remaining') && node in component'
      invariant todo <= adjacency[node] && OpenOnlyAt(g, component', stack', node, todo)
      invariant remaining' < remaining || (remaining' == remaining && stack' == stack)
      decreases todo
    {
      var neighbour;
      neighbour, todo := PopFirst(todo);
      NeighbourStep(g, node, neighbour);
      if neighbour in remaining' {
        ReachNeighbour(g, start, node, neighbour);
        remaining' := remaining' - {neighbour};
        component' := component' + {neighbour};
        stack' := stack' + [neighbour];
      } else {
        NeighbourStays(g, before, node, neighbour);
      }
    }
  }

  /** Nodes taken by earlier components have no neighbours among those still there. */
  lemma {:induction false} NeighbourStays(g: Graph, before: set<NodeId>, n: NodeId, m: NodeId)
    requires ClosedUnder(g, GraphNodes(g) - before) && n in before && Neighbours(g, n, m)
    ensures m in before
  {
    NeighbourStep(g, n, m);
    assert Neighbours(g, m, n);
  }

  /** The component of `start`, taken out of `remaining`. */
  method Flood(g: Graph, adjacency: map<NodeId, set<NodeId>>, start: NodeId, before: set<NodeId>)
    returns (component: set<NodeId>, remaining: set<NodeId>)
    requires IsAdjacency(g, adjacency) && before <= GraphNodes(g) && start in before
    requires ClosedUnder(g, GraphNodes(g) - before)
    ensures IsComponent(g, component) && start in component
    ensures component <= before && remaining == before - component
  {
    var net := ReciprocalNet(g);
    remaining := before - {start};
    component := {start};
    var stack := [start];
    assert IsWalk(net, start, [], start);
    while stack != []
      invariant Flooded(g, start, before, component, remaining) && OpenOnlyAt(g, component, stack, start, {})
      decreases remaining, |stack|
    {
      var node := stack[|stack| - 1];
      assert stack == stack[..|stack| - 1] + [node];
      stack := stack[..|stack| - 1];
      component, remaining, stack := Visit(g, adjacency, start, before, node, component, remaining, stack);
    }
    ReachedMutually(g, start, component);
  }

  /** The order components are reported in: larger first, then by least member. */
  ghost predicate Precedes(left: set<NodeId>, right: set<NodeId>) {
    |left| > |right| || (|left| == |right| && exists n :: n in left && forall m <- right :: n < m)
  }

  ghost predicate Sorted(list: seq<set<NodeId>>) {
    forall i, j | 0 <= i < j < |list| :: Precedes(list[i], list[j])
  }

  ghost function Parts(list: seq<set<NodeId>>): set<set<NodeId>> {
    set c | c in list
  }

  /** The parts and the rest share no node and together hold all. */
  ghost predicate Partition(all: set<NodeId>, parts: set<set<NodeId>>, rest: set<NodeId>) {
    && (forall c <- parts :: c !! rest)
    && (forall c <- parts, d <- parts :: c == d || c !! d)
    && (forall n :: n in all <==> n in rest || exists c :: c in parts && n in c)
  }

  lemma {:induction false} PartitionGrows(all: set<NodeId>, parts: set<set<NodeId>>, rest: set<NodeId>, c: set<NodeId>)
    requires Partition(all, parts, rest) && c <= rest
    ensures Partition(all, parts + {c}, rest - c)
  {
    forall n ensures n in all <==> n in rest - c || exists d :: d in parts + {c} && n in d {
      if n in c { assert c in parts + {c}; }
      if d :| d in parts && n in d { assert d in parts + {c}; }
    }
  }

  /** Inserts a component where the order puts it. */
  method Insert(list: seq<set<NodeId>>, c: set<NodeId>) returns (list': seq<set<NodeId>>)
    requires Sorted(list) && Inhabited(c) && forall i | 0 <= i < |list| :: Inhabited(list[i]) && list[i] !! c
    ensures Sorted(list') && Parts(list') == Parts(list) + {c}
  {
    hide Precedes;
    var i := |list|;
    while i > 0
      invariant 0 <= i <= |list|
      invariant forall k | i <= k < |list| :: Precedes(c, list[k])
    {
      var behind := GoesBefore(c, list[i - 1]);
      if !behind {
        break;
      }
      i := i - 1;
    }
    forall k | 0 <= k < i ensures Precedes(list[k], c) {
      if k < i - 1 { PrecedesTransitive(list[k], list[i - 1], c); }
    }
    list' := list[..i] + [c] + list[i..];
    assert list == list[..i] + list[i..];
  }

  /** Larger components come first, of equally large ones that with the least node. */
  method GoesBefore(c: set<NodeId>, other: set<NodeId>) returns (first: bool)
    requires Inhabited(c) && Inhabited(other) && c !! other
    ensures if first then Precedes(c, other) else Precedes(other, c)
  {
    var least, _ := PopFirst(c);
    var rival, _ := PopFirst(other);
    first := !(|other| > |c| || (|other| == |c| && rival < least));
  }

  lemma {:induction false} PrecedesTransitive(a: set<NodeId>, b: set<NodeId>, c: set<NodeId>)
    requires Precedes(a, b) && Precedes(b, c)
    ensures Precedes(a, c)
  {
    if |a| == |c| {
      var n :| n in a && forall m <- b :: n < m;
      var k :| k in b && forall m <- c :: k < m;
    }
  }

  lemma {:induction false} ClosedGrows(g: Graph, rest: set<NodeId>, c: set<NodeId>)
    requires rest <= GraphNodes(g) && ClosedUnder(g, GraphNodes(g) - rest) && ClosedUnder(g, c) && c <= GraphNodes(g)
    ensures ClosedUnder(g, GraphNodes(g) - (rest - c))
  {
    forall n <- GraphNodes(g) - (rest - c), m | Neighbours(g, n, m) ensures m in GraphNodes(g) - (rest - c) {
      NeighbourStep(g, n, m);
      if n in c { assert m in c; } else { assert n in GraphNodes(g) - rest; }
    }
  }

  /** The components found so far, and the nodes still to be placed. */
  ghost predicate Placed(g: Graph, list: seq<set<NodeId>>, remaining: set<NodeId>) {
    && remaining <= GraphNodes(g) && ClosedUnder(g, GraphNodes(g) - remaining)
    && Partition(GraphNodes(g), Parts(list), remaining)
    && forall i | 0 <= i < |list| :: IsComponent(g, list[i])
  }

  lemma {:induction false} FreshComponent(g: Graph, list: seq<set<NodeId>>, remaining: set<NodeId>, c: set<NodeId>)
    requires Placed(g, list, remaining) && c <= remaining
    ensures forall i | 0 <= i < |list| :: Inhabited(list[i]) && list[i] !! c
  {
    forall i | 0 <= i < |list| ensures Inhabited(list[i]) && list[i] !! c {
      assert list[i] in Parts(list);
    }
  }

  lemma {:induction false} Place(
      g: Graph, list: seq<set<NodeId>>, remaining: set<NodeId>, c: set<NodeId>, list': seq<set<NodeId>>)
    requires Placed(g, list, remaining) && IsComponent(g, c) && c <= remaining && Parts(list') == Parts(list) + {c}
    ensures Placed(g, list', remaining - c)
  {
    PartitionGrows(GraphNodes(g), Parts(list), remaining, c);
    ClosedGrows(g, remaining, c);
    forall i | 0 <= i < |list'| ensures IsComponent(g, list'[i]) {
      assert list'[i] in Parts(list');
    }
  }

  lemma {:induction false} SharedIffJoined(g: Graph, c: set<NodeId>, n: NodeId, m: NodeId)
    requires IsComponent(g, c) && n in c
    ensures m in c <==> Reaches(ReciprocalNet(g), n, m)
  {
    if Reaches(ReciprocalNet(g), n, m) {
      var walk :| IsWalk(ReciprocalNet(g), n, walk, m);
      ReachStays(g, c, n, walk, m);
    }
  }

  /**
   The components partition the nodes, a largest one first; two nodes share one
   exactly when reciprocal edges join them.
   */
  method ReciprocalComponents(g: Graph) returns (components: seq<set<NodeId>>)
    ensures Partition(GraphNodes(g), Parts(components), {})
    ensures forall i, n, m | 0 <= i < |components| && n in components[i] ::
      m in components[i] <==> Reaches(ReciprocalNet(g), n, m)
    ensures Sorted(components)
  {
    var adjacency := BuildAdjacency(g);
    var remaining := adjacency.Keys;
    components := [];
    while exists n :: n in remaining
      invariant Placed(g, components, remaining) && Sorted(components)
      decreases remaining
    {
      var start, _ := PopFirst(remaining);
      ghost var held, before := components, remaining;
      var component;
      component, remaining := Flood(g, adjacency, start, remaining);
      FreshComponent(g, components, before, component);
      components := Insert(components, component);
      Place(g, held, before, component, components);
    }
    assert remaining == {};
    forall i, n, m | 0 <= i < |components| && n in components[i]
      ensures m in components[i] <==> Reaches(ReciprocalNet(g), n, m)
    {
      SharedIffJoined(g, components[i], n, m);
    }
  }
}

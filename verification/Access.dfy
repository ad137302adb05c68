/**
 Accepted rural access records, the points where later routes may join them, and
 the length that remains from each such point.
 */
module Access {
  import opened Options
  import opened Sequences
  import opened Networks
  import opened RoadGraph
  import opened Frontier
  import opened FrontierRoutes

  /** Where a place meets the graph: a fraction along an edge, and the end node if it is one. */
  datatype Attachment = Attachment(edge: EdgeId, fraction: real, node: Option<NodeId>) {
    ghost predicate Valid(g: Graph) {
      && 0 <= edge < |g.edges| && 0.0 <= fraction <= 1.0
      && (node.Some? ==>
        (node.value == g.edges[edge].from && fraction == 0.0) || (node.value == g.edges[edge].to && fraction == 1.0))
    }
  }

  /** The accepted community a record joins, where, and what remains from there. */
  datatype Parent = Parent(id: CommunityId, junction: Stop, remaining: real)

  /** The route a record stands for: path edges, entered at `pathStart` and left at `pathEnd`. */
  datatype Link = Link(
    terminal: Terminal, parent: Option<Parent>, order: nat, depth: nat, newLink: real, full: real,
    path: seq<EdgeId>, pathStart: Option<real>, pathEnd: Option<real>)
  {
    /** What remains beyond this record's own path. */
    function Inherited(): real { full - newLink }

    function StartAt(i: int): real { if i == 0 then (if pathStart.Some? then pathStart.value else 0.0) else 0.0 }

    function EndAt(i: int): real { if i + 1 == |path| then (if pathEnd.Some? then pathEnd.value else 1.0) else 1.0 }
  }

  datatype Status = Served | OnSpine | AtUrbanEntry | NetworkGap | Unresolved

  /** One community's record; gaps and unresolved records carry no link. */
  datatype CommunityAccess = CommunityAccess(
    id: CommunityId, status: Status, attachment: Option<Attachment>, link: Option<Link>)

  type Records = map<CommunityId, CommunityAccess>

  /** Edges drawn alike join the same nodes. */
  ghost predicate GeometryAgrees(g: Graph) {
    forall e, f | 0 <= e < |g.edges| && 0 <= f < |g.edges| ::
      && (g.edges[e].geometry == g.edges[f].geometry ==>
        g.edges[e].from == g.edges[f].from && g.edges[e].to == g.edges[f].to)
      && (g.edges[e].geometry == Reversed(g.edges[f].geometry) ==>
        g.edges[e].from == g.edges[f].to && g.edges[e].to == g.edges[f].from)
  }

  /** A fraction along one edge as a fraction along another drawn the same way or the opposite way. */
  function NormalizeEdgeFraction(g: Graph, source: EdgeId, fraction: real, target: EdgeId): Option<real> {
    if !(0 <= source < |g.edges|) || !(0 <= target < |g.edges|) then None
    else if source == target || g.edges[source].geometry == g.edges[target].geometry then Some(fraction)
    else if g.edges[source].geometry == Reversed(g.edges[target].geometry) then Some(1.0 - fraction)
    else None
  }

  predicate OnGraph(g: Graph, path: seq<EdgeId>) {
    forall i | 0 <= i < |path| :: 0 <= path[i] < |g.edges|
  }

  /** The stretch of path edge `i` that the record travels. */
  function Piece(g: Graph, link: Link, i: int): real
    requires OnGraph(g, link.path) && 0 <= i < |link.path|
  {
    StretchBetween(g, link.path[i], link.StartAt(i), link.EndAt(i))
  }

  /** The length of the path from edge `i` on. */
  function Tail(g: Graph, link: Link, i: int): real
    requires OnGraph(g, link.path) && 0 <= i <= |link.path|
    decreases |link.path| - i
  {
    if i == |link.path| then 0.0 else Piece(g, link, i) + Tail(g, link, i + 1)
  }

  /** The nodes where later routes may join, with what remains from each; the first mention of a node counts. */
  function NodeTargetsUpto(g: Graph, a: CommunityAccess, k: int): map<NodeId, real>
    requires a.link.Some? && OnGraph(g, a.link.value.path) && 0 <= k <= |a.link.value.path|
    decreases k
  {
    var link := a.link.value;
    if k == 0 then
      if a.attachment.Some? && a.attachment.value.node.Some?
      then map[a.attachment.value.node.value := link.newLink + link.Inherited()] else map[]
    else
      var nodes := NodeTargetsUpto(g, a, k - 1);
      var edge := g.edges[link.path[k - 1]];
      var entered := if link.StartAt(k - 1) == 0.0 && edge.from !in nodes
                     then nodes[edge.from := Tail(g, link, k - 1) + link.Inherited()] else nodes;
      if link.EndAt(k - 1) == 1.0 && edge.to !in entered
      then entered[edge.to := Tail(g, link, k) + link.Inherited()] else entered
  }

  function NodeTargets(g: Graph, a: CommunityAccess): map<NodeId, real>
    requires a.link.Some? && OnGraph(g, a.link.value.path)
  {
    NodeTargetsUpto(g, a, |a.link.value.path|)
  }

  method AccessFrontierTargets(g: Graph, a: CommunityAccess) returns (nodes: map<NodeId, real>)
    requires a.link.Some? && OnGraph(g, a.link.value.path)
    ensures nodes == NodeTargets(g, a)
  {
    var link := a.link.value;
    nodes := map[];
    if a.attachment.Some? && a.attachment.value.node.Some? {
      nodes := nodes[a.attachment.value.node.value := link.newLink + link.Inherited()];
    }
    for i := 0 to |link.path|
      invariant nodes == NodeTargetsUpto(g, a, i)
    {
      var edge := g.edges[link.path[i]];
      if link.StartAt(i) == 0.0 && edge.from !in nodes {
        nodes := nodes[edge.from := Tail(g, link, i) + link.Inherited()];
      }
      if link.EndAt(i) == 1.0 && edge.to !in nodes {
        nodes := nodes[edge.to := Tail(g, link, i + 1) + link.Inherited()];
      }
    }
  }

  /** The nodes a path passes, its entry's tail included and its exit only if it is reached. */
  ghost predicate RepeatsNoNode(g: Graph, link: Link)
    requires OnGraph(g, link.path)
  {
    && (forall i, j | 0 <= i < j < |link.path| :: g.edges[link.path[i]].from != g.edges[link.path[j]].from)
    && (link.path != [] && link.EndAt(|link.path| - 1) == 1.0 ==>
          forall i | 0 <= i < |link.path| :: g.edges[link.path[i]].from != g.edges[link.path[|link.path| - 1]].to)
  }

  ghost predicate RepeatsNoGeometry(g: Graph, link: Link)
    requires OnGraph(g, link.path)
  {
    forall i, j | 0 <= i < j < |link.path| :: NormalizeEdgeFraction(g, link.path[j], 0.0, link.path[i]).None?
  }

  /** The path passes no node twice and no edge twice, in either direction. */
  ghost predicate RepeatFree(g: Graph, link: Link)
    requires OnGraph(g, link.path)
  {
    RepeatsNoNode(g, link) && RepeatsNoGeometry(g, link)
  }

  /** What every planned record satisfies whatever was accepted: a contiguous, cycleable path with sound fractions. */
  ghost predicate PathSound(g: Graph, a: CommunityAccess) {
    && a.link.Some? && a.attachment.Some? && a.attachment.value.Valid(g)
    && var link := a.link.value;
       && OnGraph(g, link.path)
       && (link.path == [] ==> link.newLink == 0.0 && link.pathStart.None? && link.pathEnd.None?)
       && (forall i | 0 <= i < |link.path| :: g.edges[link.path[i]].CyclingAllowed())
       && (forall i | 0 <= i < |link.path| - 1 :: g.edges[link.path[i]].to == g.edges[link.path[i + 1]].from)
       && (forall i | 0 <= i < |link.path| :: 0.0 <= link.StartAt(i) <= link.EndAt(i) <= 1.0)
       && (a.attachment.value.node.Some? && link.path != [] ==>
             link.StartAt(0) == 0.0 && g.edges[link.path[0]].from == a.attachment.value.node.value)
  }

  /** The index of the first path edge that leaves `n`, or the path's length. */
  function FirstLeaving(g: Graph, path: seq<EdgeId>, n: NodeId, i: int): (k: int)
    requires OnGraph(g, path) && 0 <= i <= |path|
    ensures i <= k <= |path| && forall j | i <= j < k :: g.edges[path[j]].from != n
    ensures k < |path| ==> g.edges[path[k]].from == n
    decreases |path| - i
  {
    if i == |path| || g.edges[path[i]].from == n then i else FirstLeaving(g, path, n, i + 1)
  }

  function FirstEntering(g: Graph, path: seq<EdgeId>, n: NodeId, i: int): (k: int)
    requires OnGraph(g, path) && 0 <= i <= |path|
    ensures i <= k <= |path| && forall j | i <= j < k :: g.edges[path[j]].to != n
    ensures k < |path| ==> g.edges[path[k]].to == n
    decreases |path| - i
  {
    if i == |path| || g.edges[path[i]].to == n then i else FirstEntering(g, path, n, i + 1)
  }

  /** The first path edge drawn like `edge`, with the fraction along it. */
  function FirstAlong(g: Graph, path: seq<EdgeId>, edge: EdgeId, fraction: real, i: int): (found: Option<(int, real)>)
    requires OnGraph(g, path) && 0 <= i <= |path|
    ensures found.Some? ==> i <= found.value.0 < |path|
    decreases |path| - i
  {
    if i == |path| then None
    else if NormalizeEdgeFraction(g, edge, fraction, path[i]).Some?
    then Some((i, NormalizeEdgeFraction(g, edge, fraction, path[i]).value))
    else FirstAlong(g, path, edge, fraction, i + 1)
  }

  /** Where on the parent's path the junction lies: an edge index and the fraction to start from. */
  function Locate(g: Graph, link: Link, junction: Stop): Option<(int, real)>
    requires OnGraph(g, link.path)
  {
    match junction
    case OnEdge(edge, fraction) => FirstAlong(g, link.path, edge, fraction, 0)
    case AtNode(n) =>
      var leaving := FirstLeaving(g, link.path, n, 0);
      if leaving < |link.path| then Some((leaving, 0.0))
      else
        var entering := FirstEntering(g, link.path, n, 0);
        Some((if entering < |link.path| then entering + 1 else |link.path|, 0.0))
    case AttachedTo(_) => None
  }

  /** The length of the path from a place on it. */
  function LengthFrom(g: Graph, link: Link, place: (int, real)): real
    requires OnGraph(g, link.path) && 0 <= place.0
  {
    if place.0 >= |link.path| then 0.0
    else StretchBetween(g, link.path[place.0], place.1, link.EndAt(place.0)) + Tail(g, link, place.0 + 1)
  }

  /** The junction can be found on the record's path, ahead of its end, and `remaining` is the length from there on. */
  ghost predicate JunctionHolds(g: Graph, link: Link, junction: Stop, remaining: real)
    requires OnGraph(g, link.path)
  {
    var place := Locate(g, link, junction);
    && place.Some? && 0 <= place.value.0
    && (place.value.0 < |link.path| ==> 0.0 <= place.value.1 <= link.EndAt(place.value.0))
    && remaining == LengthFrom(g, link, place.value) + link.Inherited()
  }

  /** On a repeat-free path, what a node target says remains is what lies ahead of that node. */
  lemma {:induction false} NodeTargetHolds(g: Graph, a: CommunityAccess, k: int, n: NodeId)
    requires PathSound(g, a) && RepeatFree(g, a.link.value) && a.link.value.newLink == Tail(g, a.link.value, 0)
    requires 0 <= k <= |a.link.value.path| && n in NodeTargetsUpto(g, a, k)
    ensures JunctionHolds(g, a.link.value, AtNode(n), NodeTargetsUpto(g, a, k)[n])
    decreases k
  {
    hide RepeatFree, JunctionHolds, Locate, Piece;
    var link := a.link.value;
    if k == 0 {
      if link.path == [] { NowhereLeft(g, a, n); } else { LeavingHolds(g, a, 0); }
    } else if n in NodeTargetsUpto(g, a, k - 1) {
      NodeTargetHolds(g, a, k - 1, n);
    } else {
      var edge := g.edges[link.path[k - 1]];
      if link.StartAt(k - 1) == 0.0 && edge.from == n {
        LeavingHolds(g, a, k - 1);
      } else {
        assert edge.to == n && link.EndAt(k - 1) == 1.0;
        if k < |link.path| { LeavingHolds(g, a, k); } else { EnteringHolds(g, a); }
      }
    }
  }

  /** An empty path is joined where it stands. */
  lemma {:induction false} NowhereLeft(g: Graph, a: CommunityAccess, n: NodeId)
    requires PathSound(g, a) && a.link.value.path == []
    ensures JunctionHolds(g, a.link.value, AtNode(n), a.link.value.newLink + a.link.value.Inherited())
  {
  }

  /** From a node the path leaves, whole edges ahead remain. */
  lemma {:induction false} LeavingHolds(g: Graph, a: CommunityAccess, i: int)
    requires PathSound(g, a) && RepeatFree(g, a.link.value) && 0 <= i < |a.link.value.path|
      && a.link.value.StartAt(i) == 0.0
    ensures var link := a.link.value;
      JunctionHolds(g, link, AtNode(g.edges[link.path[i]].from), Tail(g, link, i) + link.Inherited())
  {
    var link := a.link.value;
    LeavingAt(g, link, i);
    assert Tail(g, link, i) == Piece(g, link, i) + Tail(g, link, i + 1);
  }

  /** From the path's last node nothing of it remains. */
  lemma {:induction false} EnteringHolds(g: Graph, a: CommunityAccess)
    requires PathSound(g, a) && RepeatFree(g, a.link.value) && a.link.value.path != []
    requires a.link.value.EndAt(|a.link.value.path| - 1) == 1.0
    ensures var link := a.link.value;
      JunctionHolds(g, link, AtNode(g.edges[link.path[|link.path| - 1]].to),
        Tail(g, link, |link.path|) + link.Inherited())
  {
    EnteringLast(g, a.link.value);
  }

  lemma {:induction false} LeavingAt(g: Graph, link: Link, i: int)
    requires OnGraph(g, link.path) && RepeatsNoNode(g, link) && 0 <= i < |link.path|
    ensures Locate(g, link, AtNode(g.edges[link.path[i]].from)) == Some((i, 0.0))
  {
    var k := FirstLeaving(g, link.path, g.edges[link.path[i]].from, 0);
    assert k <= i && g.edges[link.path[k]].from == g.edges[link.path[i]].from;
  }

  lemma {:induction false} EnteringLast(g: Graph, link: Link)
    requires OnGraph(g, link.path) && RepeatsNoNode(g, link) && link.path != [] && link.EndAt(|link.path| - 1) == 1.0
    requires forall i | 0 <= i < |link.path| - 1 :: g.edges[link.path[i]].to == g.edges[link.path[i + 1]].from
    ensures Locate(g, link, AtNode(g.edges[link.path[|link.path| - 1]].to)) == Some((|link.path|, 0.0))
  {
    var n := g.edges[link.path[|link.path| - 1]].to;
    forall i | 0 <= i < |link.path| - 1 ensures g.edges[link.path[i]].to != n {
      assert g.edges[link.path[i]].to == g.edges[link.path[i + 1]].from;
    }
  }

  /** On a path that repeats no geometry, a point on path edge `i` is found there. */
  lemma {:induction false} AlongAt(g: Graph, path: seq<EdgeId>, i: int, fraction: real, from: int)
    requires OnGraph(g, path) && 0 <= from <= i < |path|
    requires forall j | from <= j < i :: NormalizeEdgeFraction(g, path[i], 0.0, path[j]).None?
    ensures FirstAlong(g, path, path[i], fraction, from) == Some((i, fraction))
    decreases i - from
  {
    if from < i { AlongAt(g, path, i, fraction, from + 1); }
  }

  /** A point ahead on path edge `i`: what remains is the rest of that edge and of the path. */
  lemma {:induction false} EdgeTargetHolds(g: Graph, a: CommunityAccess, i: int, fraction: real)
    requires PathSound(g, a) && RepeatFree(g, a.link.value) && 0 <= i < |a.link.value.path|
    requires 0.0 <= fraction <= a.link.value.EndAt(i)
    ensures var link := a.link.value;
      JunctionHolds(g, link, OnEdge(link.path[i], fraction),
        StretchBetween(g, link.path[i], fraction, link.EndAt(i)) + Tail(g, link, i + 1) + link.Inherited())
  {
    AlongAt(g, a.link.value.path, i, fraction, 0);
  }
}

/** The strategic spines that rural routes may join: which spines each edge carries, and the node index kept in step. */
module SpineTargets {
  import opened Sequences
  import opened Networks
  import opened RoadGraph
  import opened Frontier

  datatype BaselineRole = ARoad | CurrentNcn | DeclassifiedNcn | OtherRole

  /** A sourced corridor; its edge ids need not all be in the graph. */
  datatype SourceCorridor = SourceCorridor(id: SpineId, role: BaselineRole, edges: seq<EdgeId>) {
    /** A-roads count wherever they run, cycle routes only where cycling is allowed. */
    predicate Admits(g: Graph, e: EdgeId) {
      role == ARoad || ((role == CurrentNcn || role == DeclassifiedNcn) && 0 <= e < |g.edges|
        && g.edges[e].CyclingAllowed())
    }
  }

  /** A decided alignment. */
  datatype Alignment = Alignment(id: SpineId, path: seq<EdgeId>)

  /** The spine an officer's network-wide scope puts in place of all others. */
  const OFFICER: SpineId := 0

  type Targets = map<int, set<SpineId>>

  function SpinesOf(targets: Targets, key: int): set<SpineId> {
    if key in targets then targets[key] else {}
  }

  function InsertSpine(targets: Targets, key: int, spine: SpineId): Targets {
    targets[key := SpinesOf(targets, key) + {spine}]
  }

  /** Edge `e` carries the spine and ends at the node. */
  ghost predicate Carries(g: Graph, edges: Targets, e: EdgeId, n: NodeId, spine: SpineId) {
    0 <= e < |g.edges| && spine in SpinesOf(edges, e) && (g.edges[e].from == n || g.edges[e].to == n)
  }

  /** Each node's spines are exactly those carried by the first `k` edges at it, and nothing is indexed for no spine. */
  ghost predicate AgreesUpto(g: Graph, nodes: Targets, edges: Targets, k: nat) {
    && (forall n, spine :: spine in SpinesOf(nodes, n) <==> exists e :: e < k && Carries(g, edges, e, n, spine))
    && (forall n <- nodes :: nodes[n] != {})
  }

  ghost predicate Agrees(g: Graph, nodes: Targets, edges: Targets) {
    AgreesUpto(g, nodes, edges, |g.edges|)
  }

  lemma Inserted(targets: Targets, key: int, spine: SpineId)
    ensures forall k ::
      SpinesOf(InsertSpine(targets, key, spine), k) == SpinesOf(targets, k) + if k == key then {spine} else {}
  {
  }

  /** A spine put on an edge and on both its ends keeps the index in step. */
  lemma {:induction false} InsertAgrees(g: Graph, nodes: Targets, edges: Targets, e: EdgeId, spine: SpineId)
    requires Agrees(g, nodes, edges) && 0 <= e < |g.edges|
    ensures Agrees(g, InsertSpine(InsertSpine(nodes, g.edges[e].from, spine), g.edges[e].to, spine),
      InsertSpine(edges, e, spine))
  {
    hide InsertSpine, SpinesOf, Agrees;
    var (from, to) := (g.edges[e].from, g.edges[e].to);
    Inserted(edges, e, spine);
    InsertedTwice(nodes, from, to, spine);
    AgreesIndexed(g, nodes, edges);
    SpineAgrees(g, nodes, InsertSpine(InsertSpine(nodes, from, spine), to, spine), edges,
      InsertSpine(edges, e, spine), e, spine);
  }

  lemma IndexedInsert(targets: Targets, key: int, spine: SpineId)
    ensures AllIndexed(targets) ==> AllIndexed(InsertSpine(targets, key, spine))
  {
  }

  lemma AgreesIndexed(g: Graph, nodes: Targets, edges: Targets)
    requires Agrees(g, nodes, edges)
    ensures AllIndexed(nodes)
  {
  }

  lemma {:induction false} SpineAgrees(
      g: Graph, nodes: Targets, nodes': Targets, edges: Targets, edges': Targets, e: EdgeId, spine: SpineId)
    requires Agrees(g, nodes, edges) && AllIndexed(nodes') && 0 <= e < |g.edges|
    requires forall n :: (SpinesOf(nodes', n) ==
      SpinesOf(nodes, n) + if n == g.edges[e].from || n == g.edges[e].to then {spine} else {})
    requires forall f :: SpinesOf(edges', f) == SpinesOf(edges, f) + if f == e then {spine} else {}
    ensures Agrees(g, nodes', edges')
  {
    hide SpinesOf;
    var k := |g.edges|;
    forall n, s ensures s in SpinesOf(nodes', n) <==> exists f :: f < k && Carries(g, edges', f, n, s) {
      if f :| f < k && Carries(g, edges, f, n, s) { assert Carries(g, edges', f, n, s); }
      if s == spine && (n == g.edges[e].from || n == g.edges[e].to) { assert Carries(g, edges', e, n, s); }
      if f :| f < k && Carries(g, edges', f, n, s) {
        assert Carries(g, edges, f, n, s) || (f == e && s == spine);
      }
    }
  }

  /** One more edge's spines, put on both its ends, carry the index one edge on. */
  lemma {:induction false} EdgeAgrees(g: Graph, nodes: Targets, nodes': Targets, edges: Targets, k: nat)
    requires k < |g.edges| && AgreesUpto(g, nodes, edges, k) && AllIndexed(nodes')
    requires forall n :: (SpinesOf(nodes', n) ==
      SpinesOf(nodes, n) + if n == g.edges[k].from || n == g.edges[k].to then SpinesOf(edges, k) else {})
    ensures AgreesUpto(g, nodes', edges, k + 1)
  {
    var next := k + 1;
    forall n, s ensures s in SpinesOf(nodes', n) <==> exists f :: f < next && Carries(g, edges, f, n, s) {
      if s in SpinesOf(edges, k) && (n == g.edges[k].from || n == g.edges[k].to) { assert Carries(g, edges, k, n, s); }
      if f :| f < next && Carries(g, edges, f, n, s) {
        assert f == k || (f < k && Carries(g, edges, f, n, s));
      }
    }
  }

  ghost predicate AllIndexed(targets: Targets) {
    forall key <- targets :: targets[key] != {}
  }

  // What the indexes hold, as functions of what is put in.

  /** The alignments whose paths take the edge. */
  function SpinesOver(alignments: seq<Alignment>, e: EdgeId): set<SpineId> {
    set i | 0 <= i < |alignments| && e in alignments[i].path :: alignments[i].id
  }

  /** The edges with each alignment put on the graph's edges of its path. */
  function EdgesWith(g: Graph, edges: Targets, alignments: seq<Alignment>): Targets {
    var taken := set e | 0 <= e < |g.edges| && SpinesOver(alignments, e) != {};
    map e | e in edges.Keys + taken :: SpinesOf(edges, e) + if e in taken then SpinesOver(alignments, e) else {}
  }

  /** The spines carried by the edges at a node. */
  function SpinesAt(g: Graph, edges: Targets, n: NodeId): set<SpineId> {
    set e, spine | 0 <= e < |g.edges| && (g.edges[e].from == n || g.edges[e].to == n) && spine in SpinesOf(edges, e) ::
      spine
  }

  /** The node index of the edges. */
  function NodesOf(g: Graph, edges: Targets): Targets {
    var ends := (set e | 0 <= e < |g.edges| :: g.edges[e].from) + (set e | 0 <= e < |g.edges| :: g.edges[e].to);
    map n | n in ends && SpinesAt(g, edges, n) != {} :: SpinesAt(g, edges, n)
  }

  /** An index is settled by the spines it finds for each key. */
  lemma {:induction false} IndexIsOne(a: Targets, b: Targets)
    requires AllIndexed(a) && AllIndexed(b) && forall k :: SpinesOf(a, k) == SpinesOf(b, k)
    ensures a == b
  {
    forall k ensures k in a <==> k in b {
      assert SpinesOf(a, k) == SpinesOf(b, k);
    }
    forall k | k in a ensures a[k] == b[k] {
      assert SpinesOf(a, k) == SpinesOf(b, k);
    }
  }

  /** An index in step with the edges is theirs. */
  lemma {:induction false} NodesAgree(g: Graph, nodes: Targets, edges: Targets)
    requires Agrees(g, nodes, edges)
    ensures nodes == NodesOf(g, edges)
  {
    forall n ensures SpinesOf(nodes, n) == SpinesOf(NodesOf(g, edges), n) {
      forall spine ensures spine in SpinesOf(nodes, n) <==> spine in SpinesAt(g, edges, n) {
        if e :| e < |g.edges| && Carries(g, edges, e, n, spine) { assert spine in SpinesAt(g, edges, n); }
        if spine in SpinesAt(g, edges, n) {
          var e :| 0 <= e < |g.edges| && (g.edges[e].from == n || g.edges[e].to == n) && spine in SpinesOf(edges, e);
          assert Carries(g, edges, e, n, spine);
        }
      }
    }
    IndexIsOne(nodes, NodesOf(g, edges));
  }

  /** Edges that gained exactly the alignments over them are the edges with the alignments. */
  lemma {:induction false} EdgesGained(g: Graph, edges: Targets, alignments: seq<Alignment>, edges': Targets)
    requires AllIndexed(edges) && AllIndexed(edges')
    requires forall e, spine :: spine in SpinesOf(edges', e) <==>
      || spine in SpinesOf(edges, e)
      || (0 <= e < |g.edges| && exists i ::
        0 <= i < |alignments| && alignments[i].id == spine && e in alignments[i].path)
    ensures edges' == EdgesWith(g, edges, alignments)
  {
    var due := EdgesWith(g, edges, alignments);
    forall e ensures SpinesOf(edges', e) == SpinesOf(due, e) {
      forall spine ensures spine in SpinesOf(edges', e) <==> spine in SpinesOf(due, e) {
        assert spine in SpinesOver(alignments, e) <==>
            exists i :: 0 <= i < |alignments| && alignments[i].id == spine && e in alignments[i].path;
      }
    }
    IndexIsOne(edges', due);
  }

  class SpineTargetIndex {
    const g: Graph
    var targetNodes: Targets
    var targetEdges: Targets

    ghost predicate Valid()
      reads this
    {
      Agrees(g, targetNodes, targetEdges) && AllIndexed(targetEdges)
    }

    /** The spines of the source inventory: each admitted corridor on each of its edges. */
    constructor (g: Graph, inventory: seq<SourceCorridor>)
      ensures Valid() && this.g == g
      ensures forall e, spine :: spine in SpinesOf(targetEdges, e) <==>
        exists i ::
          0 <= i < |inventory| && inventory[i].id == spine && e in inventory[i].edges && inventory[i].Admits(g, e)
    {
      this.g := g;
      targetNodes, targetEdges := map[], map[];
      new;
      targetEdges := InventoryEdges(g, inventory);
      RebuildTargetNodes();
    }

    /** Builds the node index afresh from the edges. */
    method RebuildTargetNodes()
      requires AllIndexed(targetEdges)
      modifies this`targetNodes
      ensures Valid()
    {
      targetNodes := map[];
      for e := 0 to |g.edges|
        invariant AgreesUpto(g, targetNodes, targetEdges, e)
      {
        var nodes := IndexEnds(targetNodes, g.edges[e].from, g.edges[e].to, SpinesOf(targetEdges, e));
        EdgeAgrees(g, targetNodes, nodes, targetEdges, e);
        targetNodes := nodes;
      }
    }

    /** Adds each selected alignment as a spine on the edges of its path. */
    method AddSelectedAlignmentTargets(alignments: seq<Alignment>)
      requires Valid()
      modifies this
      ensures Valid()
      ensures forall e, spine :: spine in SpinesOf(targetEdges, e) <==>
        || spine in SpinesOf(old(targetEdges), e)
        || (0 <= e < |g.edges| && exists i ::
          0 <= i < |alignments| && alignments[i].id == spine && e in alignments[i].path)
      ensures targetEdges == EdgesWith(g, old(targetEdges), alignments) && targetNodes == NodesOf(g, targetEdges)
    {
      hide EdgesWith, NodesOf;
      for i := 0 to |alignments|
        invariant Valid()
        invariant forall e, spine :: spine in SpinesOf(targetEdges, e) <==>
          || spine in SpinesOf(old(targetEdges), e)
          || (0 <= e < |g.edges| && exists j :: 0 <= j < i && alignments[j].id == spine && e in alignments[j].path)
      {
        AddAlignment(alignments[i]);
      }
      EdgesGained(g, old(targetEdges), alignments, targetEdges);
      NodesAgree(g, targetNodes, targetEdges);
    }

    method AddAlignment(alignment: Alignment)
      requires Valid()
      modifies this
      ensures Valid()
      ensures forall e :: (SpinesOf(targetEdges, e) ==
        SpinesOf(old(targetEdges), e) + if 0 <= e < |g.edges| && e in alignment.path then {alignment.id} else {})
    {
      for k := 0 to |g.edges|
        invariant Valid()
        invariant forall e :: (SpinesOf(targetEdges, e) ==
          SpinesOf(old(targetEdges), e) + if 0 <= e < k && e in alignment.path then {alignment.id} else {})
      {
        if k in alignment.path {
          InsertAgrees(g, targetNodes, targetEdges, k, alignment.id);
          targetEdges := InsertSpine(targetEdges, k, alignment.id);
          targetNodes := InsertSpine(targetNodes, g.edges[k].from, alignment.id);
          targetNodes := InsertSpine(targetNodes, g.edges[k].to, alignment.id);
        }
      }
    }

    /** Drops every edge drawn like one of the displaced geometries, in either direction. */
    method ExcludeDisplacedBaselineTargets(geometries: seq<seq<Point>>)
      requires Valid()
      modifies this
      ensures Valid()
      ensures forall e :: (SpinesOf(targetEdges, e) ==
        if 0 <= e < |g.edges| && DrawnLikeAny(g.edges[e].geometry, geometries) then {}
          else SpinesOf(old(targetEdges), e))
    {
      targetEdges := map e | e in targetEdges
        && !(0 <= e < |g.edges| && DrawnLikeAny(g.edges[e].geometry, geometries)) :: targetEdges[e];
      RebuildTargetNodes();
    }

    /**
     An officer's scope.  An edge the graph does not have refuses it and changes
     nothing; otherwise selected edges carry the officer's spine alone, edges only
     deselected carry none, and all others what they carried.
     */
    method ApplyStrategicNetworkScope(selected: seq<EdgeId>, deselected: seq<EdgeId>) returns (ok: bool)
      requires Valid()
      modifies this
      ensures Valid()
      ensures ok <==> forall e :: e in selected || e in deselected ==> 0 <= e < |g.edges|
      ensures !ok ==> targetNodes == old(targetNodes) && targetEdges == old(targetEdges)
      ensures ok ==> forall e :: (SpinesOf(targetEdges, e) ==
        if e in selected then {OFFICER} else if e in deselected then {} else SpinesOf(old(targetEdges), e))
      ensures ok ==> forall e :: e !in selected && e in deselected ==> e !in targetEdges
    {
      var scoped := selected + deselected;
      for i := 0 to |scoped|
        invariant forall j | 0 <= j < i :: 0 <= scoped[j] < |g.edges|
        invariant targetNodes == old(targetNodes) && targetEdges == old(targetEdges) && Valid()
      {
        if !(0 <= scoped[i] < |g.edges|) {
          assert scoped[i] in selected || scoped[i] in deselected;
          return false;
        }
      }
      targetEdges := map e | e in targetEdges && e !in scoped :: targetEdges[e];
      for i := 0 to |selected|
        invariant AllIndexed(targetEdges)
        invariant forall e :: (SpinesOf(targetEdges, e) ==
          if e in selected[..i] then {OFFICER} else if e in scoped then {} else SpinesOf(old(targetEdges), e))
      {
        assert selected[..i + 1] == selected[..i] + [selected[i]];
        targetEdges := InsertSpine(targetEdges, selected[i], OFFICER);
      }
      assert selected[..|selected|] == selected;
      assert forall e :: e in scoped <==> e in selected || e in deselected;
      RebuildTargetNodes();
      return true;
    }
  }

  predicate DrawnLikeAny(geometry: seq<Point>, geometries: seq<seq<Point>>) {
    exists i :: 0 <= i < |geometries| && (geometry == geometries[i] || Reversed(geometry) == geometries[i])
  }

  /** Puts the spines on both ends of an edge. */
  method IndexEnds(before: Targets, from: NodeId, to: NodeId, spines: set<SpineId>) returns (nodes: Targets)
    requires AllIndexed(before)
    ensures AllIndexed(nodes)
    ensures forall n :: SpinesOf(nodes, n) == SpinesOf(before, n) + if n == from || n == to then spines else {}
  {
    hide InsertSpine, SpinesOf, AllIndexed;
    nodes := before;
    var todo := spines;
    while exists s :: s in todo
      invariant todo <= spines && AllIndexed(nodes)
      invariant forall n :: SpinesOf(nodes, n) == SpinesOf(before, n) + if n == from || n == to then spines - todo
        else {}
      decreases todo
    {
      var s :| s in todo;
      todo := todo - {s};
      InsertedTwice(nodes, from, to, s);
      nodes := InsertSpine(InsertSpine(nodes, from, s), to, s);
      assert spines - todo == (spines - todo - {s}) + {s};
    }
    assert todo == {};
  }

  lemma {:induction false} InsertedTwice(nodes: Targets, from: NodeId, to: NodeId, spine: SpineId)
    ensures var twice := InsertSpine(InsertSpine(nodes, from, spine), to, spine);
      && (forall n :: SpinesOf(twice, n) == SpinesOf(nodes, n) + if n == from || n == to then {spine} else {})
      && (AllIndexed(nodes) ==> AllIndexed(twice))
  {
    hide InsertSpine, SpinesOf;
    Inserted(nodes, from, spine);
    Inserted(InsertSpine(nodes, from, spine), to, spine);
    IndexedInsert(nodes, from, spine);
    IndexedInsert(InsertSpine(nodes, from, spine), to, spine);
  }

  /** Each admitted corridor on each of its edges. */
  method InventoryEdges(g: Graph, inventory: seq<SourceCorridor>) returns (edges: Targets)
    ensures AllIndexed(edges)
    ensures forall e, spine :: spine in SpinesOf(edges, e) <==>
      exists i ::
        0 <= i < |inventory| && inventory[i].id == spine && e in inventory[i].edges && inventory[i].Admits(g, e)
  {
    edges := map[];
    for i := 0 to |inventory|
      invariant AllIndexed(edges)
      invariant forall e, spine :: spine in SpinesOf(edges, e) <==>
        exists j :: 0 <= j < i && inventory[j].id == spine && e in inventory[j].edges && inventory[j].Admits(g, e)
    {
      ghost var sofar := edges;
      var source := inventory[i];
      for k := 0 to |source.edges|
        invariant AllIndexed(edges)
        invariant forall e :: (SpinesOf(edges, e) ==
          SpinesOf(sofar, e) + if e in source.edges[..k] && source.Admits(g, e) then {source.id} else {})
      {
        assert source.edges[..k + 1] == source.edges[..k] + [source.edges[k]];
        if source.Admits(g, source.edges[k]) {
          edges := InsertSpine(edges, source.edges[k], source.id);
        }
      }
      assert source.edges[..|source.edges|] == source.edges;
    }
  }
}

/**
 The frontier of a planning state: the admitted spines, the towns' sourced entries and
 every point of an accepted path, each with what remains from there to its terminal.
 */
module AccessFrontier {
  import opened Options
  import opened IdOrder
  import opened Networks
  import opened RoadGraph
  import opened Frontier
  import opened Access
  import opened Journey

  /** What a target's key text spells out; `rank` orders keys as their texts are ordered. */
  datatype Key =
    | SpineNodeKey(spines: set<SpineId>, node: NodeId)
    | SpineEdgeKey(spines: set<SpineId>, edge: EdgeId)
    | SpinePointKey(spines: set<SpineId>, edge: EdgeId, fraction: real)
    | CommunityNodeKey(id: CommunityId, node: NodeId)
    | CommunityEdgeKey(id: CommunityId, edge: EdgeId, fraction: real)

  /** What stays fixed while communities are decided. */
  datatype Context = Context(
    g: Graph, rank: Key -> int, spineNodes: map<NodeId, set<SpineId>>, spineEdges: map<EdgeId, set<SpineId>>,
    urban: seq<EdgeTarget>)
  {
    /** Cycleable edges have some length, like drawings join like nodes, and town entries lie on cycleable edges. */
    ghost predicate Valid() {
      && g.Valid() && GeometryAgrees(g)
      && (forall e | 0 <= e < |g.edges| && g.edges[e].CyclingAllowed() :: g.edges[e].length > 0.0)
      && (forall i | 0 <= i < |urban| :: UrbanTarget(urban[i]))
    }

    ghost predicate UrbanTarget(t: EdgeTarget) {
      && OnCycleableEdge(g, t)
      && t.target.community.None? && t.target.remaining == 0.0
      && t.target.terminal.UrbanEntry? && t.target.terminal.edge == t.edge && t.target.terminal.fraction == t.fraction
    }

    function Instance(
        wholes: map<NodeId, Target>, partials: seq<EdgeTarget>, excluded: Option<EdgeId>): Frontier.Instance {
      Frontier.Instance(g, wholes, partials, excluded)
    }
  }

  /** A partial target lies on a cycleable edge, and its junction is that very point. */
  ghost predicate OnCycleableEdge(g: Graph, t: EdgeTarget) {
    && 0 <= t.edge < |g.edges| && g.edges[t.edge].CyclingAllowed() && 0.0 <= t.fraction <= 1.0
    && t.target.junction == OnEdge(t.edge, t.fraction)
  }

  /** The record's own length is the one its path measures, on a path that repeats nothing. */
  ghost predicate Readable(g: Graph, a: CommunityAccess) {
    && a.link.Some? && OnGraph(g, a.link.value.path)
    && RepeatFree(g, a.link.value) && a.link.value.newLink == Tail(g, a.link.value, 0)
  }

  /** A community target names an accepted record, inherits its terminal, and says truly what remains. */
  ghost predicate Remains(g: Graph, records: Records, t: Target)
    requires Filed(g, records)
  {
    match t.community
    case None => t.remaining == 0.0
    case Some(id) =>
      && id in records && t.terminal == records[id].link.value.terminal
      && (Readable(g, records[id]) ==> JunctionHolds(g, records[id].link.value, t.junction, t.remaining))
  }

  /** A terminal joined part-way along an edge is a town entry, and every town entry is joined at its own point. */
  ghost predicate NamesEnd(t: Target) {
    t.community.None? && (t.junction.OnEdge? || t.terminal.UrbanEntry?) ==>
      t.terminal.UrbanEntry? && t.junction == OnEdge(t.terminal.edge, t.terminal.fraction)
  }

  ghost predicate TargetHolds(g: Graph, records: Records, t: Target)
    requires Filed(g, records)
  {
    Remains(g, records, t) && NamesEnd(t)
  }

  function SpineTarget(ctx: Context, n: NodeId): Target
    requires n in ctx.spineNodes
  {
    Target(ctx.rank(SpineNodeKey(ctx.spineNodes[n], n)), Spine(ctx.spineNodes[n]), None, AtNode(n), 0.0)
  }

  function NodeTarget(ctx: Context, a: CommunityAccess, n: NodeId): Target
    requires a.link.Some? && OnGraph(ctx.g, a.link.value.path) && n in NodeTargets(ctx.g, a)
  {
    Target(ctx.rank(CommunityNodeKey(a.id, n)), a.link.value.terminal, Some(a.id), AtNode(n), NodeTargets(ctx.g, a)[n])
  }

  /** The start of an accepted path that begins part-way along an edge. */
  function StartTarget(ctx: Context, a: CommunityAccess): Option<EdgeTarget>
    requires a.link.Some?
  {
    var link := a.link.value;
    if link.path != [] && link.pathStart.Some? && link.pathStart.value > 0.0 then
      var (e, f) := (link.path[0], link.pathStart.value);
      Some(EdgeTarget(e, f,
        Target(ctx.rank(CommunityEdgeKey(a.id, e, f)), link.terminal, Some(a.id), OnEdge(e, f), link.full)))
    else None
  }

  lemma {:induction false} StartTargetHolds(ctx: Context, records: Records, id: CommunityId)
    requires ctx.Valid() && Filed(ctx.g, records) && id in records && StartTarget(ctx, records[id]).Some?
    ensures TargetHolds(ctx.g, records, StartTarget(ctx, records[id]).value.target)
    ensures OnCycleableEdge(ctx.g, StartTarget(ctx, records[id]).value)
  {
    var a := records[id];
    var link := a.link.value;
    assert link.StartAt(0) <= link.EndAt(0);
    if Readable(ctx.g, a) {
      EdgeTargetHolds(ctx.g, a, 0, link.pathStart.value);
      assert Tail(ctx.g, link, 0) == Piece(ctx.g, link, 0) + Tail(ctx.g, link, 1);
    }
  }

  lemma {:induction false} NodeTargetIsTrue(ctx: Context, records: Records, id: CommunityId, n: NodeId)
    requires ctx.Valid() && Filed(ctx.g, records) && id in records && n in NodeTargets(ctx.g, records[id])
    ensures TargetHolds(ctx.g, records, NodeTarget(ctx, records[id], n))
  {
    var a := records[id];
    if Readable(ctx.g, a) { NodeTargetHolds(ctx.g, a, |a.link.value.path|, n); }
  }

  /** The target at a whole node is its spine's or that of an accepted record whose path passes it. */
  ghost predicate WholeFrom(ctx: Context, records: Records, done: set<CommunityId>, n: NodeId, t: Target)
    requires Filed(ctx.g, records)
  {
    || (n in ctx.spineNodes && t == SpineTarget(ctx, n))
    || (exists id ::
      id in done && id in records && n in NodeTargets(ctx.g, records[id]) && t == NodeTarget(ctx, records[id], n))
  }

  ghost predicate PartialFrom(ctx: Context, records: Records, done: set<CommunityId>, t: EdgeTarget)
    requires Filed(ctx.g, records)
  {
    t in ctx.urban || exists id :: id in done && id in records && StartTarget(ctx, records[id]) == Some(t)
  }

  /** The frontier offered by the spines, the town entries and the records in `done`. */
  ghost predicate FrontierUpto(
    ctx: Context, records: Records, done: set<CommunityId>, wholes: map<NodeId, Target>, partials: seq<EdgeTarget>)
    requires Filed(ctx.g, records)
  {
    && (forall n <- wholes :: WholeFrom(ctx, records, done, n, wholes[n]))
    && (forall n, t :: WholeFrom(ctx, records, done, n, t) ==> n in wholes && wholes[n].key <= t.key)
    && (forall i | 0 <= i < |partials| :: PartialFrom(ctx, records, done, partials[i]))
    && (forall t :: PartialFrom(ctx, records, done, t) ==> t in partials)
  }

  ghost predicate FrontierOf(ctx: Context, records: Records, wholes: map<NodeId, Target>, partials: seq<EdgeTarget>)
    requires Filed(ctx.g, records)
  {
    FrontierUpto(ctx, records, records.Keys, wholes, partials)
  }

  /** Adds a target to its node unless one with no greater key is there already. */
  function InsertTarget(targets: map<NodeId, Target>, n: NodeId, t: Target): map<NodeId, Target> {
    if n !in targets || t.key < targets[n].key then targets[n := t] else targets
  }

  function SpineTargets(ctx: Context): map<NodeId, Target> {
    map n | n in ctx.spineNodes :: SpineTarget(ctx, n)
  }

  /** The targets with those of one accepted record put in. */
  function WithNodesOf(ctx: Context, a: CommunityAccess, before: map<NodeId, Target>): map<NodeId, Target>
    requires a.link.Some? && OnGraph(ctx.g, a.link.value.path)
  {
    var nodes := NodeTargets(ctx.g, a);
    map n | n in before.Keys + nodes.Keys ::
      if n in nodes then InsertTarget(before, n, NodeTarget(ctx, a, n))[n] else before[n]
  }

  function WithStartOf(ctx: Context, a: CommunityAccess, before: seq<EdgeTarget>): seq<EdgeTarget>
    requires a.link.Some?
  {
    if StartTarget(ctx, a).Some? then before + [StartTarget(ctx, a).value] else before
  }

  /** The frontier built from the records with these ids, one after the other. */
  ghost function FrontierOver(
      ctx: Context, records: Records, ids: seq<CommunityId>): (map<NodeId, Target>, seq<EdgeTarget>)
    requires Filed(ctx.g, records) && forall i | 0 <= i < |ids| :: ids[i] in records
  {
    if ids == [] then (SpineTargets(ctx), ctx.urban)
    else
      var last := ids[|ids| - 1];
      assert last in records && PathSound(ctx.g, records[last]);
      var before := FrontierOver(ctx, records, ids[..|ids| - 1]);
      var a := records[last];
      (WithNodesOf(ctx, a, before.0), WithStartOf(ctx, a, before.1))
  }

  /** The frontier follows from the records, taken in order of their ids. */
  ghost function FrontierDue(ctx: Context, records: Records): (map<NodeId, Target>, seq<EdgeTarget>)
    requires Filed(ctx.g, records)
  {
    var ids := IdsOf(records.Keys);
    assert forall i | 0 <= i < |ids| :: ids[i] in ids;
    FrontierOver(ctx, records, ids)
  }

  method SpineFrontier(ctx: Context) returns (wholes: map<NodeId, Target>)
    ensures forall n :: n in wholes <==> n in ctx.spineNodes
    ensures forall n <- wholes :: wholes[n] == SpineTarget(ctx, n)
    ensures wholes == SpineTargets(ctx)
  {
    wholes := map[];
    var todo := ctx.spineNodes.Keys;
    while exists n :: n in todo
      invariant todo <= ctx.spineNodes.Keys && wholes.Keys == ctx.spineNodes.Keys - todo
      invariant forall n <- wholes :: n in ctx.spineNodes && wholes[n] == SpineTarget(ctx, n)
      decreases todo
    {
      var n :| n in todo;
      todo := todo - {n};
      wholes := InsertTarget(wholes, n, SpineTarget(ctx, n));
    }
    assert todo == {};
  }

  /** Adds the node targets of one accepted record. */
  method AddNodeTargets(
      ctx: Context, a: CommunityAccess, before: map<NodeId, Target>) returns (wholes: map<NodeId, Target>)
    requires a.link.Some? && OnGraph(ctx.g, a.link.value.path)
    ensures wholes == WithNodesOf(ctx, a, before)
  {
    var nodes := AccessFrontierTargets(ctx.g, a);
    wholes := before;
    var todo := nodes.Keys;
    while exists n :: n in todo
      invariant todo <= nodes.Keys
      invariant forall n :: n in wholes <==> n in before || n in nodes.Keys - todo
      invariant forall n <- wholes ::
        (wholes[n] == if n in nodes.Keys - todo then InsertTarget(before, n, NodeTarget(ctx, a, n))[n] else before[n])
      decreases todo
    {
      var n :| n in todo;
      todo := todo - {n};
      wholes := InsertTarget(wholes, n, NodeTarget(ctx, a, n));
    }
    assert todo == {};
    ghost var due := WithNodesOf(ctx, a, before);
    assert forall n :: n in wholes <==> n in due;
    assert forall n | n in wholes :: wholes[n] == due[n];
  }

  lemma {:induction false} FrontierAdds(
    ctx: Context, records: Records, done: set<CommunityId>, id: CommunityId, wholes: map<NodeId, Target>,
      partials: seq<EdgeTarget>,
    wholes': map<NodeId, Target>, partials': seq<EdgeTarget>)
    requires Filed(ctx.g, records) && id in records && FrontierUpto(ctx, records, done, wholes, partials)
    requires wholes' == WithNodesOf(ctx, records[id], wholes) && partials' == WithStartOf(ctx, records[id], partials)
    ensures FrontierUpto(ctx, records, done + {id}, wholes', partials')
  {
    forall n <- wholes' ensures WholeFrom(ctx, records, done + {id}, n, wholes'[n]) {
      if n in wholes { assert WholeFrom(ctx, records, done, n, wholes[n]); }
    }
    forall n, t | WholeFrom(ctx, records, done + {id}, n, t) ensures n in wholes' && wholes'[n].key <= t.key {
      if WholeFrom(ctx, records, done, n, t) { assert n in wholes && wholes[n].key <= t.key; }
    }
    forall t | PartialFrom(ctx, records, done + {id}, t) ensures t in partials' {
      if PartialFrom(ctx, records, done, t) { assert t in partials; }
    }
    forall i | 0 <= i < |partials'| ensures PartialFrom(ctx, records, done + {id}, partials'[i]) {
      if i < |partials| { assert PartialFrom(ctx, records, done, partials[i]); }
    }
  }

  /** The frontier built so far is the one offered by the records put in, in this order. */
  ghost predicate BuiltFrom(
    ctx: Context, records: Records, done: set<CommunityId>, ids: seq<CommunityId>, wholes: map<NodeId, Target>,
      partials: seq<EdgeTarget>)
    requires Filed(ctx.g, records)
  {
    && FrontierUpto(ctx, records, done, wholes, partials) && (forall i | 0 <= i < |ids| :: ids[i] in records)
    && (wholes, partials) == FrontierOver(ctx, records, ids)
  }

  /** Puts one more record in. */
  method AddRecord(
    ctx: Context, records: Records, ghost done: set<CommunityId>, ghost ids: seq<CommunityId>, id: CommunityId,
    before: map<NodeId, Target>, starts: seq<EdgeTarget>)
      returns (wholes: map<NodeId, Target>, partials: seq<EdgeTarget>)
    requires Filed(ctx.g, records) && id in records && BuiltFrom(ctx, records, done, ids, before, starts)
    ensures BuiltFrom(ctx, records, done + {id}, ids + [id], wholes, partials)
  {
    hide FrontierUpto, WithNodesOf, WithStartOf, NodeTargets;
    partials := WithStartOf(ctx, records[id], starts);
    wholes := AddNodeTargets(ctx, records[id], before);
    FrontierAdds(ctx, records, done, id, before, starts, wholes, partials);
    assert (ids + [id])[..|ids|] == ids;
  }

  /** The frontier of a state, from its spines, town entries and accepted records. */
  method FrontierTargets(
      ctx: Context, records: Records) returns (wholes: map<NodeId, Target>, partials: seq<EdgeTarget>)
    requires Filed(ctx.g, records)
    ensures FrontierOf(ctx, records, wholes, partials)
    ensures (wholes, partials) == FrontierDue(ctx, records)
  {
    hide BuiltFrom, FrontierDue, FrontierOf, IdsOf, Filed, SpineTargets, SpineTarget;
    wholes := SpineFrontier(ctx);
    partials := ctx.urban;
    var todo := records.Keys;
    ghost var ids: seq<CommunityId> := [];
    NoRecordsYet(ctx, records, wholes);
    assert records.Keys - todo == {};
    while exists id :: id in todo
      invariant todo <= records.Keys && ids + IdsOf(todo) == IdsOf(records.Keys)
      invariant BuiltFrom(ctx, records, records.Keys - todo, ids, wholes, partials)
      decreases todo
    {
      var id := TakeLeast(todo);
      IdsFromLeast(todo, id);
      wholes, partials := AddRecord(ctx, records, records.Keys - todo, ids, id, wholes, partials);
      assert records.Keys - (todo - {id}) == records.Keys - todo + {id};
      ids := ids + [id];
      todo := todo - {id};
    }
    assert records.Keys - todo == records.Keys && todo == {};
    NoIds();
    assert ids == IdsOf(records.Keys);
    AllBuilt(ctx, records, wholes, partials);
  }

  lemma AllBuilt(ctx: Context, records: Records, wholes: map<NodeId, Target>, partials: seq<EdgeTarget>)
    requires Filed(ctx.g, records) && BuiltFrom(ctx, records, records.Keys, IdsOf(records.Keys), wholes, partials)
    ensures FrontierOf(ctx, records, wholes, partials) && (wholes, partials) == FrontierDue(ctx, records)
  {
  }

  lemma NoRecordsYet(ctx: Context, records: Records, wholes: map<NodeId, Target>)
    requires Filed(ctx.g, records) && wholes == SpineTargets(ctx)
    ensures BuiltFrom(ctx, records, {}, [], wholes, ctx.urban)
  {
  }

  /** Every target on the frontier says truly what remains, and sits where its junction says. */
  lemma {:induction false} FrontierHolds(
      ctx: Context, records: Records, wholes: map<NodeId, Target>, partials: seq<EdgeTarget>)
    requires ctx.Valid() && Filed(ctx.g, records) && FrontierOf(ctx, records, wholes, partials)
    ensures forall n <- wholes :: TargetHolds(ctx.g, records, wholes[n]) && wholes[n].junction == AtNode(n)
    ensures forall i | 0 <= i < |partials| ::
      TargetHolds(ctx.g, records, partials[i].target) && OnCycleableEdge(ctx.g, partials[i])
    ensures ctx.Instance(wholes, partials, None).Valid()
  {
    forall n <- wholes ensures TargetHolds(ctx.g, records, wholes[n]) && wholes[n].junction == AtNode(n) {
      assert WholeFrom(ctx, records, records.Keys, n, wholes[n]);
      if id :| id in records && n in NodeTargets(ctx.g, records[id]) && wholes[n] == NodeTarget(ctx, records[id], n) {
        NodeTargetIsTrue(ctx, records, id, n);
      }
    }
    forall i | 0 <= i < |partials|
      ensures TargetHolds(ctx.g, records, partials[i].target) && OnCycleableEdge(ctx.g, partials[i])
    {
      assert PartialFrom(ctx, records, records.Keys, partials[i]);
      if id :| id in records && StartTarget(ctx, records[id]) == Some(partials[i]) {
        StartTargetHolds(ctx, records, id);
      } else {
        assert partials[i] in ctx.urban;
      }
    }
  }

  /** A place to join stays one, with no more left to go, once another record is accepted. */
  lemma {:induction false} SeedStays(
    ctx: Context, records: Records, records': Records, wholes: map<NodeId, Target>, partials: seq<EdgeTarget>,
    wholes': map<NodeId, Target>, partials': seq<EdgeTarget>, m: NodeId, rest: real, t: Target)
    returns (t': Target)
    requires Filed(ctx.g, records) && Filed(ctx.g, records') && forall id <- records ::
      id in records' && records'[id] == records[id]
    requires FrontierOf(ctx, records, wholes, partials) && FrontierOf(ctx, records', wholes', partials')
    requires IsSeed(ctx.Instance(wholes, partials, None), m, rest, t)
    ensures IsSeed(ctx.Instance(wholes', partials', None), m, rest, t')
  {
    var inst, inst' := ctx.Instance(wholes, partials, None), ctx.Instance(wholes', partials', None);
    if m in wholes && rest == 0.0 && t == wholes[m] {
      assert WholeFrom(ctx, records, records.Keys, m, t);
      assert WholeFrom(ctx, records', records'.Keys, m, t);
      t' := wholes'[m];
    } else {
      var i :| 0 <= i < |partials| && inst.Seeds(i) && inst.SeedNode(i) == m && inst.SeedDistance(i) == rest
        && partials[i].target == t;
      assert PartialFrom(ctx, records, records.Keys, partials[i]);
      assert PartialFrom(ctx, records', records'.Keys, partials[i]);
      var j :| 0 <= j < |partials'| && partials'[j] == partials[i];
      assert inst'.Seeds(j) && inst'.SeedNode(j) == m && inst'.SeedDistance(j) == rest;
      t' := t;
    }
  }

  /** Accepting one more record only adds ways to join: every walk to the frontier stays one, of the same length. */
  lemma {:induction false} FrontierOnlyGrows(
    ctx: Context, records: Records, added: CommunityAccess, wholes: map<NodeId, Target>, partials: seq<EdgeTarget>,
    wholes': map<NodeId, Target>, partials': seq<EdgeTarget>, n: NodeId, walk: seq<EdgeId>, t: Target, d: real)
    returns (t': Target)
    requires ctx.g.Valid() && added.id !in records
    requires Filed(ctx.g, records) && Filed(ctx.g, records[added.id := added])
    requires FrontierOf(ctx, records, wholes, partials)
      && FrontierOf(ctx, records[added.id := added], wholes', partials')
    requires ctx.Instance(wholes, partials, None).Valid() && ctx.Instance(wholes', partials', None).Valid()
    requires Joins(ctx.Instance(wholes, partials, None), n, walk, t, d)
    ensures Joins(ctx.Instance(wholes', partials', None), n, walk, t', d)
  {
    var inst := ctx.Instance(wholes, partials, None);
    var m, rest :| IsWalk(FrontierNet(inst), n, walk, m) && IsSeed(inst, m, rest, t)
      && d == Cost(FrontierNet(inst), walk) + rest;
    t' := SeedStays(ctx, records, records[added.id := added], wholes, partials, wholes', partials', m, rest, t);
  }

  /** So accepting a record never increases a node's distance to the frontier. */
  lemma {:induction false} DistancesNeverGrow(
    ctx: Context, records: Records, added: CommunityAccess, wholes: map<NodeId, Target>, partials: seq<EdgeTarget>,
    wholes': map<NodeId, Target>, partials': seq<EdgeTarget>, s: Search, s': Search)
    requires ctx.g.Valid() && added.id !in records
    requires Filed(ctx.g, records) && Filed(ctx.g, records[added.id := added])
    requires FrontierOf(ctx, records, wholes, partials)
      && FrontierOf(ctx, records[added.id := added], wholes', partials')
    requires ctx.Instance(wholes, partials, None).Valid() && ctx.Instance(wholes', partials', None).Valid()
    requires Labels(ctx.Instance(wholes, partials, None), s) && Labels(ctx.Instance(wholes', partials', None), s')
    ensures forall n <- s.distances :: n in s'.distances && s'.distances[n] <= s.distances[n]
  {
    forall n <- s.distances ensures n in s'.distances && s'.distances[n] <= s.distances[n] {
      assert LeastJoin(ctx.Instance(wholes, partials, None), n, s.distances[n], s.targets[n]);
      var walk :| Joins(ctx.Instance(wholes, partials, None), n, walk, s.targets[n], s.distances[n]);
      var t' := FrontierOnlyGrows(ctx, records, added, wholes, partials, wholes', partials', n, walk, s.targets[n],
        s.distances[n]);
      assert CanJoin(ctx.Instance(wholes', partials', None), n);
      assert LeastJoin(ctx.Instance(wholes', partials', None), n, s'.distances[n], s'.targets[n]);
    }
  }
}

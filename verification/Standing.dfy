/** What stays true of accepted records while the planner works: a forest whose lengths can be read back. */
module Standing {
  import opened Options
  import opened RoadGraph
  import opened Frontier
  import opened FrontierRoutes
  import opened Access
  import opened Journey
  import opened AccessFrontier
  import opened AttachmentRoutes
  import opened NewLinks

  /** The point part-way along an edge where the path is left, if it is left at one. */
  function EndPoint(link: Link): Option<(EdgeId, real)> {
    if link.path == [] then None
    else if link.parent.Some? then
      if link.parent.value.junction.OnEdge? then Some((link.parent.value.junction.edge,
        link.parent.value.junction.fraction)) else None
    else if link.terminal.UrbanEntry? then Some((link.terminal.edge, link.terminal.fraction))
    else None
  }

  /**
   The path is recorded as ending where it is left.  It is not so exactly where it is left
   part-way on an edge drawn like its junction's, for then the edge's own end is recorded.
   */
  predicate EndsAsRecorded(g: Graph, link: Link) {
    EndPoint(link).Some? ==>
      var (e, f) := EndPoint(link).value;
      var last := |link.path| - 1;
      NormalizeEdgeFraction(g, e, f, link.path[last]) == Some(link.EndAt(last))
  }

  /**
   What a link owes its parent: accepted earlier, one level up, same terminal, and a junction where
   that much remains.
   */
  ghost predicate OwesParent(g: Graph, records: Records, link: Link)
    requires Filed(g, records)
  {
    match link.parent
    case None => link.depth == 0 && link.Inherited() == 0.0
    case Some(p) =>
      && p.id in records
      && var above := records[p.id].link.value;
         && above.order < link.order && link.depth == above.depth + 1 && above.terminal == link.terminal
         && link.Inherited() == p.remaining
         && (Readable(g, records[p.id]) ==> JunctionHolds(g, above, p.junction, p.remaining))
  }

  /** A record that can be accepted next to the others. */
  ghost predicate RecordStands(g: Graph, records: Records, order: nat, a: CommunityAccess)
    requires Filed(g, records)
  {
    && PathSound(g, a) && a.link.value.order == order && OwesParent(g, records, a.link.value)
    && (EndsAsRecorded(g, a.link.value) <==> a.link.value.newLink == Tail(g, a.link.value, 0))
  }

  /** The accepted records after `order - 1` acceptances. */
  ghost predicate Stands(g: Graph, records: Records, order: nat) {
    && Filed(g, records)
    && (forall id <- records ::
      RecordStands(g, records, records[id].link.value.order, records[id]) && records[id].link.value.order < order)
    && (forall id <- records, other <- records ::
          records[id].link.value.order == records[other].link.value.order ==> id == other)
  }

  /** Whatever the planner may offer stands: the junction it recorded is one that remains as stated. */
  lemma {:induction false} PlannedStands(
      ctx: Context, records: Records, order: nat, id: CommunityId, status: Status, a: Attachment, route: Route,
      t: Target)
    requires ctx.Valid() && Stands(ctx.g, records, order) && a.Valid(ctx.g) && Planned(ctx, records, a, route, t)
    ensures RecordStands(ctx.g, records, order,
      CommunityAccess(id, status, Some(a), Some(PlanLink(ctx.g, records, order, a, route, t))))
  {
    hide Plans, GeometryAgrees;
    PlanIsSound(ctx.g, records, order, id, status, a, route, t);
    PlanEnds(ctx, records, order, a, route, t);
  }

  /** A planned link measures its path exactly when its end is recorded as it is. */
  lemma {:induction false} PlanEnds(ctx: Context, records: Records, order: nat, a: Attachment, route: Route, t: Target)
    requires ctx.Valid() && Filed(ctx.g, records) && a.Valid(ctx.g) && Planned(ctx, records, a, route, t)
    ensures var link := PlanLink(ctx.g, records, order, a, route, t);
      OnGraph(ctx.g, link.path) && (EndsAsRecorded(ctx.g, link) <==> link.newLink == Tail(ctx.g, link, 0))
  {
    hide GeometryAgrees, NormalizeEdgeFraction;
    var link := PlanLink(ctx.g, records, order, a, route, t);
    PlanIsSound(ctx.g, records, order, 0, Served, a, route, t);
    if route.edges != [] {
      var last := route.edges[|route.edges| - 1];
      var end :| RunsTo(ctx.g, a, route, end) && EndsThere(ctx.g, a, route.edges, end, t.junction);
      if t.junction.OnEdge? {
        assert EndPoint(link) == Some((t.junction.edge, t.junction.fraction));
        if last == t.junction.edge {
          SamePlace(ctx.g, last, t.junction.fraction);
        } else {
          assert ctx.g.edges[last].length > 0.0;
          TwinEndMeasures(ctx.g, records, order, a, route, t, end);
        }
      }
    }
  }

  lemma SamePlace(g: Graph, e: EdgeId, fraction: real)
    requires 0 <= e < |g.edges|
    ensures NormalizeEdgeFraction(g, e, fraction, e) == Some(fraction)
  {
  }

  /** Accepting a record that stands keeps all records standing. */
  lemma {:induction false} AcceptKeepsStanding(g: Graph, records: Records, order: nat, a: CommunityAccess)
    requires Stands(g, records, order) && a.id !in records && RecordStands(g, records, order, a)
    ensures Stands(g, records[a.id := a], order + 1)
  {
    var records' := records[a.id := a];
    assert Filed(g, records');
    forall id <- records' ensures RecordStands(g, records', records'[id].link.value.order, records'[id]) {
      if id != a.id { assert RecordStands(g, records, records[id].link.value.order, records[id]); }
    }
  }

  /** Standing records form a forest. */
  lemma {:induction false} StandingIsForest(g: Graph, records: Records, order: nat)
    requires Stands(g, records, order)
    ensures Forest(g, records)
  {
    forall id <- records ensures RecordStands(g, records, records[id].link.value.order, records[id]) {}
  }

  /** The paths repeat nothing and end where their records say. */
  ghost predicate Clean(g: Graph, records: Records)
    requires Filed(g, records)
  {
    forall id <- records :: RepeatFree(g, records[id].link.value) && EndsAsRecorded(g, records[id].link.value)
  }

  /**
   In every standing state whose paths are clean, each stored full length is the
   length of the journey re-walked to the root, and that walk never fails.
   */
  lemma {:induction false} StandingIsWalked(g: Graph, records: Records, order: nat, id: CommunityId)
    requires Stands(g, records, order) && Clean(g, records) && id in records
    ensures var route := AccessToRoot(g, records, records[id].link.value);
      route.Some? && route.value.length == records[id].link.value.full
  {
    StandingIsForest(g, records, order);
    forall other <- records ensures Measured(g, records, other) {
      assert RecordStands(g, records, records[other].link.value.order, records[other]);
      var link := records[other].link.value;
      if link.parent.Some? {
        assert RecordStands(g, records, records[link.parent.value.id].link.value.order, records[link.parent.value.id]);
        assert Readable(g, records[link.parent.value.id]);
      }
    }
    StoredEqualsWalked(g, records, id);
  }

  /** Standing records always have a root, at depth nothing, with the record's own terminal. */
  lemma {:induction false} StandingReachesRoot(g: Graph, records: Records, order: nat, id: CommunityId)
    requires Stands(g, records, order) && id in records
    ensures var root := RootAccess(records, id, {});
      && root.Some? && root.value in records && records[root.value].link.Some?
        && records[root.value].link.value.parent.None?
      && records[root.value].link.value.terminal == records[id].link.value.terminal
  {
    StandingIsForest(g, records, order);
    RootReached(g, records, id, {});
  }

  /** The journey re-walked from the record to the root is as long as the full length stored. */
  ghost predicate WalkAgrees(g: Graph, records: Records, id: CommunityId)
    requires Filed(g, records) && id in records
  {
    var route := AccessToRoot(g, records, records[id].link.value);
    route.Some? && route.value.length == records[id].link.value.full
  }

  /** The records accepted before this one. */
  function Before(records: Records, order: nat): Records
    requires forall id <- records :: records[id].link.Some?
  {
    map id | id in records && records[id].link.value.order < order :: records[id]
  }

  lemma {:induction false} BeforeStands(g: Graph, records: Records, order: nat, id: CommunityId)
    requires Stands(g, records, order) && id in records
    ensures var k := records[id].link.value.order;
      Stands(g, Before(records, k), k) && id !in Before(records, k)
        && RecordStands(g, Before(records, k), k, records[id])
  {
    var k := records[id].link.value.order;
    var below := Before(records, k);
    assert RecordStands(g, records, k, records[id]);
    forall other <- below ensures RecordStands(g, below, below[other].link.value.order, below[other]) {
      assert RecordStands(g, records, records[other].link.value.order, records[other]);
    }
  }

  /** If every walk agrees, every record's end is recorded as it is: by induction, earlier records first. */
  lemma {:induction false} AgreeingEnds(g: Graph, records: Records, order: nat, id: CommunityId)
    requires Stands(g, records, order) && id in records
    requires forall other <- records :: RepeatFree(g, records[other].link.value) && WalkAgrees(g, records, other)
    ensures EndsAsRecorded(g, records[id].link.value)
    decreases records[id].link.value.order
  {
    hide EndsAsRecorded, WalkAgrees, RepeatFree, RecordStands;
    var k := records[id].link.value.order;
    forall other <- Before(records, k) ensures EndsAsRecorded(g, records[other].link.value) {
      AgreeingEnds(g, records, order, other);
    }
    AgreeingEnd(g, records, order, id);
  }

  /** One record whose walk agrees, on top of earlier ones recorded as they end, is recorded as it ends. */
  lemma {:induction false} AgreeingEnd(g: Graph, records: Records, order: nat, id: CommunityId)
    requires Stands(g, records, order) && id in records && WalkAgrees(g, records, id)
    requires forall other <- records :: RepeatFree(g, records[other].link.value)
    requires forall other <- Before(records, records[id].link.value.order) ::
      EndsAsRecorded(g, records[other].link.value)
    ensures EndsAsRecorded(g, records[id].link.value)
  {
    hide EndsAsRecorded, RepeatFree, OwesParent, RootwardSuffix, AccessToRoot;
    var k := records[id].link.value.order;
    BeforeStands(g, records, order, id);
    NewRecordWalk(g, Before(records, k), k, records[id]);
    WalkIsLocal(g, records, order, id);
  }

  /** The walk from a record meets only records accepted before it. */
  lemma {:induction false} WalkIsLocal(g: Graph, records: Records, order: nat, id: CommunityId)
    requires Stands(g, records, order) && id in records
    ensures var below := Before(records, records[id].link.value.order);
      && Filed(g, below[id := records[id]])
      && AccessToRoot(g, below[id := records[id]], records[id].link.value) ==
        AccessToRoot(g, records, records[id].link.value)
  {
    BeforeStands(g, records, order, id);
    var (link, below) := (records[id].link.value, Before(records, records[id].link.value.order));
    var near := below[id := records[id]];
    assert Filed(g, near);
    forall other <- near
      ensures near[other].link.value.parent.Some? ==> near[other].link.value.parent.value.id in near {
      if other != id { assert RecordStands(g, below, below[other].link.value.order, below[other]); }
    }
    if link.parent.Some? {
      RootwardSame(g, near, records, link.parent.value.id, link.parent.value.junction, {});
    }
  }

  /** A walk among records that name only each other is the same among more records. */
  lemma {:induction false} RootwardSame(
    g: Graph, records: Records, more: Records, parent: CommunityId, junction: Stop, visiting: set<CommunityId>)
    requires Filed(g, records) && Filed(g, more) && (forall id <- records :: id in more && more[id] == records[id])
      && parent in records
    requires forall id <- records :: records[id].link.value.parent.Some? ==>
      records[id].link.value.parent.value.id in records
    ensures RootwardSuffix(g, more, parent, junction, visiting) ==
      RootwardSuffix(g, records, parent, junction, visiting)
    decreases records.Keys - visiting
  {
    var link := records[parent].link.value;
    if parent !in visiting && link.parent.Some? {
      RootwardSame(g, records, more, link.parent.value.id, link.parent.value.junction, visiting + {parent});
    }
  }

  /**
   Exactly when stored lengths and walks agree throughout a state on repeat-free paths: every
   path is recorded as ending where it is left.
   */
  lemma {:induction false} WalksAgreeIff(g: Graph, records: Records, order: nat)
    requires Stands(g, records, order) && forall id <- records :: RepeatFree(g, records[id].link.value)
    ensures (forall id <- records :: WalkAgrees(g, records, id)) <==>
      (forall id <- records :: EndsAsRecorded(g, records[id].link.value))
  {
    hide EndsAsRecorded, RepeatFree;
    if forall id <- records :: WalkAgrees(g, records, id) {
      forall id <- records ensures EndsAsRecorded(g, records[id].link.value) { AgreeingEnds(g, records, order, id); }
    }
    if forall id <- records :: EndsAsRecorded(g, records[id].link.value) {
      forall id <- records ensures WalkAgrees(g, records, id) { StandingIsWalked(g, records, order, id); }
    }
  }

  /**
   A townward link that was cut on the twin of its junction's edge is recorded as
   running to the twin's end: its journey re-walks longer than stored by exactly the
   stretch not taken, so the two agree if and only if nothing was cut off.
   */
  lemma {:induction false} TwinEndOverwalks(
      g: Graph, records: Records, order: nat, made: CommunityAccess, route: Route, t: Target, end: real)
    requires Stands(g, records, order) && Clean(g, records) && made.id !in records
      && RecordStands(g, records, order, made)
    requires made.link.value == PlanLink(g, records, order, made.attachment.value, route, t)
      && route.length == Sum(route.lengths)
    requires route.edges != [] && !EndsOnJunction(route.edges, t.junction)
      && RunsTo(g, made.attachment.value, route, end)
    requires g.edges[route.edges[|route.edges| - 1]].length > 0.0
    ensures Filed(g, records[made.id := made])
    ensures var walked := AccessToRoot(g, records[made.id := made], made.link.value);
      && walked.Some?
      && walked.value.length == made.link.value.full + StretchBetween(g, route.edges[|route.edges| - 1], end, 1.0)
      && (walked.value.length == made.link.value.full <==> end == 1.0)
  {
    NewRecordWalk(g, records, order, made);
    TwinEndMeasures(g, records, order, made.attachment.value, route, t, end);
  }

  /** A new record on top of clean ones is walked along its own path, then along what it inherits. */
  lemma {:induction false} NewRecordWalk(g: Graph, records: Records, order: nat, made: CommunityAccess)
    requires Stands(g, records, order) && Clean(g, records) && made.id !in records
      && RecordStands(g, records, order, made)
    ensures Filed(g, records[made.id := made])
    ensures var walked := AccessToRoot(g, records[made.id := made], made.link.value);
      walked.Some? && walked.value.length == Tail(g, made.link.value, 0) + made.link.value.Inherited()
  {
    AcceptKeepsStanding(g, records, order, made);
    PathRouteFromLength(g, made, (0, made.link.value.StartAt(0)));
    if made.link.value.parent.Some? {
      TwinRootward(g, records, order, made);
    }
  }

  /** Among clean records that stand, each inherits what remains at its junction. */
  lemma {:induction false} CleanIsMeasured(g: Graph, records: Records, order: nat)
    requires Stands(g, records, order) && Clean(g, records)
    ensures forall other <- records :: Measured(g, records, other)
  {
    forall other <- records ensures Measured(g, records, other) {
      assert RecordStands(g, records, records[other].link.value.order, records[other]);
      var link := records[other].link.value;
      if link.parent.Some? {
        assert RecordStands(g, records, records[link.parent.value.id].link.value.order, records[link.parent.value.id]);
      }
    }
  }

  lemma {:induction false} ParentHolds(g: Graph, records: Records, order: nat, made: CommunityAccess)
    requires Stands(g, records, order) && Clean(g, records)
    requires RecordStands(g, records, order, made) && made.link.value.parent.Some?
    ensures var p := made.link.value.parent.value;
      p.id in records && JunctionHolds(g, records[p.id].link.value, p.junction, p.remaining)
  {
    var p := made.link.value.parent.value;
    assert RecordStands(g, records, records[p.id].link.value.order, records[p.id]);
  }

  /** Below a newly accepted record, the walk to the root is the one its parent already had. */
  lemma {:induction false} TwinRootward(g: Graph, records: Records, order: nat, made: CommunityAccess)
    requires Stands(g, records, order) && Clean(g, records) && made.id !in records
    requires RecordStands(g, records, order, made) && made.link.value.parent.Some?
    requires Filed(g, records[made.id := made])
    ensures var p := made.link.value.parent.value;
      var rest := RootwardSuffix(g, records[made.id := made], p.id, p.junction, {});
      rest.Some? && rest.value.length == p.remaining
  {
    hide Clean, Measured, JunctionHolds, RootwardSuffix;
    var p := made.link.value.parent.value;
    StandingIsForest(g, records, order);
    CleanIsMeasured(g, records, order);
    ParentHolds(g, records, order, made);
    RootwardLength(g, records, p.id, p.junction, p.remaining, {});
    RootwardSame(g, records, records[made.id := made], p.id, p.junction, {});
  }
}

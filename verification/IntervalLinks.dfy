/** Joining an accepted path that the community already lies beside. */
module IntervalLinks {
  import opened Options
  import opened IdOrder
  import opened RoadGraph
  import opened Frontier
  import opened FrontierRoutes
  import opened Access
  import opened Journey
  import opened AccessFrontier
  import opened AttachmentRoutes
  import opened NewLinks

  /** The attachment lies on path edge `i` of the record, at or before the point where the path leaves it. */
  predicate LiesBeside(g: Graph, link: Link, a: Attachment, i: int)
    requires OnGraph(g, link.path) && 0 <= i < |link.path|
  {
    var f := NormalizeEdgeFraction(g, a.edge, a.fraction, link.path[i]);
    f.Some? && f.value <= link.EndAt(i)
  }

  /** Before the path's start, a link to the start; on the path, none at all. */
  function IntervalChoice(ctx: Context, r: CommunityAccess, a: Attachment, i: int): Option<(Route, Target)>
    requires r.link.Some? && OnGraph(ctx.g, r.link.value.path) && 0 <= i < |r.link.value.path|
    requires LiesBeside(ctx.g, r.link.value, a, i)
  {
    var link := r.link.value;
    var e := link.path[i];
    var f := NormalizeEdgeFraction(ctx.g, a.edge, a.fraction, e).value;
    var start := link.StartAt(i);
    if f < start then
      var route := PartialEdgeRoute(ctx.g, e, f, start);
      if route.None? then None
      else Some((route.value,
        Target(ctx.rank(CommunityEdgeKey(r.id, e, start)), link.terminal, Some(r.id), OnEdge(e, start), link.full)))
    else
      var remaining := StretchBetween(ctx.g, e, f, link.EndAt(i)) + Tail(ctx.g, link, i + 1) + link.Inherited();
      Some((EmptyRoute(ctx.g),
        Target(ctx.rank(CommunityEdgeKey(r.id, e, f)), link.terminal, Some(r.id), OnEdge(e, f), remaining)))
  }

  /** Such a choice always exists and can be recorded. */
  lemma {:induction false} IntervalPlans(ctx: Context, records: Records, id: CommunityId, a: Attachment, i: int)
    requires ctx.Valid() && Filed(ctx.g, records) && id in records && a.Valid(ctx.g)
    requires 0 <= i < |records[id].link.value.path| && LiesBeside(ctx.g, records[id].link.value, a, i)
    ensures var choice := IntervalChoice(ctx, records[id], a, i); choice.Some? && Recordable(ctx, records, a, choice)
  {
    var r := records[id];
    var link := r.link.value;
    var e := link.path[i];
    var f := NormalizeEdgeFraction(ctx.g, a.edge, a.fraction, e).value;
    var start := link.StartAt(i);
    var (route, t) := IntervalChoice(ctx, r, a, i).value;
    assert 0.0 <= f && link.StartAt(i) <= link.EndAt(i) <= 1.0;
    if f < start {
      var length := StretchBetween(ctx.g, e, f, start);
      SumOne(length);
      assert PathStart(ctx.g, a, e) == f;
      assert a.node.Some? ==> ctx.g.edges[e].from == a.node.value;
      assert RunsTo(ctx.g, a, route, start) && EndsThere(ctx.g, a, route.edges, start, t.junction);
      if Readable(ctx.g, r) { EdgeTargetHolds(ctx.g, r, 0, start); }
    } else {
      assert EndsThere(ctx.g, a, [], 1.0, t.junction);
      if Readable(ctx.g, r) { EdgeTargetHolds(ctx.g, r, i, f); }
    }
  }

  /** Path edge `i` of record `id` offers this choice. */
  ghost predicate Interval(
      ctx: Context, records: Records, a: Attachment, id: CommunityId, i: int, choice: (Route, Target))
    requires Filed(ctx.g, records)
  {
    && id in records && 0 <= i < |records[id].link.value.path| && LiesBeside(ctx.g, records[id].link.value, a, i)
    && IntervalChoice(ctx, records[id], a, i) == Some(choice)
  }

  /** By key, then record, then place on its path. */
  predicate Earlier(key: int, id: CommunityId, i: int, key': int, id': CommunityId, i': int) {
    key < key' || (key == key' && (id < id' || (id == id' && i <= i')))
  }

  /** The record was looked at, or is being looked at and the place on its path was passed. */
  predicate Seen(done: set<CommunityId>, now: CommunityId, k: nat, id: CommunityId, i: int) {
    id in done || (id == now && i < k)
  }

  /** The earliest choice of all seen, or none if there was none. */
  ghost predicate EarliestSeen(
    ctx: Context, records: Records, a: Attachment, done: set<CommunityId>, now: CommunityId, k: nat,
      best: Option<(Route, Target)>)
    requires Filed(ctx.g, records)
  {
    match best
    case None => forall id, i, c | Interval(ctx, records, a, id, i, c) :: !Seen(done, now, k, id, i)
    case Some(b) => exists id, i ::
      Seen(done, now, k, id, i) && Interval(ctx, records, a, id, i, b)
      && NoneEarlier(ctx, records, a, done, now, k, b.1.key, id, i)
  }

  ghost predicate NoneEarlier(
    ctx: Context, records: Records, a: Attachment, done: set<CommunityId>, now: CommunityId, k: nat, key: int,
      id: CommunityId, i: int)
    requires Filed(ctx.g, records)
  {
    forall id', i', c | Interval(ctx, records, a, id', i', c) && Seen(done, now, k, id', i') ::
      Earlier(key, id, i, c.1.key, id', i')
  }

  /** The earliest choice beside any accepted path. */
  ghost predicate EarliestInterval(ctx: Context, records: Records, a: Attachment, best: Option<(Route, Target)>)
    requires Filed(ctx.g, records)
  {
    EarliestSeen(ctx, records, a, records.Keys, 0, 0, best)
  }

  lemma {:induction false} EarliestIsOne(
      ctx: Context, records: Records, a: Attachment, b: Option<(Route, Target)>, c: Option<(Route, Target)>)
    requires Filed(ctx.g, records) && EarliestInterval(ctx, records, a, b) && EarliestInterval(ctx, records, a, c)
    ensures b == c
  {
    hide IntervalChoice, LiesBeside;
    if b.Some? && c.Some? {
      var id, i :| Interval(ctx, records, a, id, i, b.value)
        && NoneEarlier(ctx, records, a, records.Keys, 0, 0, b.value.1.key, id, i);
      var id', i' :| Interval(ctx, records, a, id', i', c.value)
        && NoneEarlier(ctx, records, a, records.Keys, 0, 0, c.value.1.key, id', i');
      assert Earlier(b.value.1.key, id, i, c.value.1.key, id', i')
        && Earlier(c.value.1.key, id', i', b.value.1.key, id, i);
    }
  }

  /** Which place is taken follows from the records and the attachment. */
  ghost function IntervalDue(ctx: Context, records: Records, a: Attachment): Option<(Route, Target)>
    requires Filed(ctx.g, records)
  {
    if exists best :: EarliestInterval(ctx, records, a, best) then
      var best :| EarliestInterval(ctx, records, a, best);
      best
    else None
  }

  /** One more place on the path of the record now looked at, which no record looked at before follows. */
  lemma {:induction false} OneMorePlace(
    ctx: Context, records: Records, a: Attachment, done: set<CommunityId>, now: CommunityId, k: nat,
    before: Option<(Route, Target)>, best: Option<(Route, Target)>)
    requires Filed(ctx.g, records) && now in records && now !in done && forall id <- done :: id < now
    requires k < |records[now].link.value.path| && EarliestSeen(ctx, records, a, done, now, k, before)
    requires
      if LiesBeside(ctx.g, records[now].link.value, a, k) then
        var choice := IntervalChoice(ctx, records[now], a, k);
        choice.Some? && best == if before.None? || choice.value.1.key < before.value.1.key then choice else before
      else best == before
    ensures EarliestSeen(ctx, records, a, done, now, k + 1, best)
  {
    hide IntervalChoice, LiesBeside;
    if before.None? {
      if best.Some? {
        assert Interval(ctx, records, a, now, k, best.value) && Seen(done, now, k + 1, now, k);
        assert NoneEarlier(ctx, records, a, done, now, k + 1, best.value.1.key, now, k);
      }
    } else {
      var id, i :| Seen(done, now, k, id, i) && Interval(ctx, records, a, id, i, before.value)
        && NoneEarlier(ctx, records, a, done, now, k, before.value.1.key, id, i);
      if best == before {
        assert Seen(done, now, k + 1, id, i)
          && NoneEarlier(ctx, records, a, done, now, k + 1, before.value.1.key, id, i);
      } else {
        assert Interval(ctx, records, a, now, k, best.value) && Seen(done, now, k + 1, now, k);
        assert NoneEarlier(ctx, records, a, done, now, k + 1, best.value.1.key, now, k);
      }
    }
  }

  /** The whole path was passed. */
  lemma {:induction false} RecordDone(
    ctx: Context, records: Records, a: Attachment, done: set<CommunityId>, now: CommunityId, next: CommunityId,
      best: Option<(Route, Target)>)
    requires Filed(ctx.g, records) && now in records
      && EarliestSeen(ctx, records, a, done, now, |records[now].link.value.path|, best)
    ensures EarliestSeen(ctx, records, a, done + {now}, next, 0, best)
  {
    hide IntervalChoice, LiesBeside;
    var n := |records[now].link.value.path|;
    if best.Some? {
      var id, i :| Seen(done, now, n, id, i) && Interval(ctx, records, a, id, i, best.value)
        && NoneEarlier(ctx, records, a, done, now, n, best.value.1.key, id, i);
      assert Seen(done + {now}, next, 0, id, i)
        && NoneEarlier(ctx, records, a, done + {now}, next, 0, best.value.1.key, id, i);
    }
  }

  lemma {:induction false} RecordStarts(
    ctx: Context, records: Records, a: Attachment, done: set<CommunityId>, before: CommunityId, now: CommunityId,
      best: Option<(Route, Target)>)
    requires Filed(ctx.g, records) && EarliestSeen(ctx, records, a, done, before, 0, best)
    ensures EarliestSeen(ctx, records, a, done, now, 0, best)
  {
    hide IntervalChoice, LiesBeside;
    if best.Some? {
      var id, i :| Seen(done, before, 0, id, i) && Interval(ctx, records, a, id, i, best.value)
        && NoneEarlier(ctx, records, a, done, before, 0, best.value.1.key, id, i);
      assert Seen(done, now, 0, id, i) && NoneEarlier(ctx, records, a, done, now, 0, best.value.1.key, id, i);
    }
  }

  lemma NothingSeen(ctx: Context, records: Records, a: Attachment)
    requires Filed(ctx.g, records)
    ensures EarliestSeen(ctx, records, a, {}, 0, 0, None)
  {
  }

  /** Along one record's path, on top of the choice brought in. */
  method BesideRecord(
    ctx: Context, ghost records: Records, r: CommunityAccess, a: Attachment, ghost done: set<CommunityId>,
      before: Option<(Route, Target)>)
    returns (best: Option<(Route, Target)>)
    requires ctx.Valid() && Filed(ctx.g, records) && r.id in records && records[r.id] == r && a.Valid(ctx.g)
    requires r.id !in done && (forall id <- done :: id < r.id) && EarliestSeen(ctx, records, a, done, r.id, 0, before)
    requires Recordable(ctx, records, a, before)
    ensures Recordable(ctx, records, a, best)
    ensures EarliestSeen(ctx, records, a, done, r.id, |r.link.value.path|, best)
  {
    hide LiesBeside, IntervalChoice, Recordable, EarliestSeen;
    best := before;
    var link := r.link.value;
    for i := 0 to |link.path|
      invariant Recordable(ctx, records, a, best) && EarliestSeen(ctx, records, a, done, r.id, i, best)
    {
      ghost var sofar := best;
      if LiesBeside(ctx.g, link, a, i) {
        IntervalPlans(ctx, records, r.id, a, i);
        var choice := IntervalChoice(ctx, r, a, i);
        if best.None? || choice.value.1.key < best.value.1.key {
          best := choice;
        }
      }
      OneMorePlace(ctx, records, a, done, r.id, i, sofar, best);
    }
  }

  /** The attachment lies beside some accepted path. */
  ghost predicate Beside(g: Graph, records: Records, a: Attachment)
    requires Filed(g, records)
  {
    exists id :: id in records && BesideOne(g, records[id].link.value, a)
  }

  ghost predicate BesideOne(g: Graph, link: Link, a: Attachment)
    requires OnGraph(g, link.path)
  {
    exists i :: 0 <= i < |link.path| && LiesBeside(g, link, a, i)
  }

  lemma {:induction false} BesideIffInterval(
      ctx: Context, records: Records, a: Attachment, best: Option<(Route, Target)>)
    requires ctx.Valid() && Filed(ctx.g, records) && a.Valid(ctx.g) && EarliestInterval(ctx, records, a, best)
    ensures best.Some? <==> Beside(ctx.g, records, a)
  {
    hide IntervalChoice, LiesBeside;
    if best.Some? {
      var id, i :| Seen(records.Keys, 0, 0, id, i) && Interval(ctx, records, a, id, i, best.value);
      assert BesideOne(ctx.g, records[id].link.value, a);
    } else if Beside(ctx.g, records, a) {
      var id :| id in records && BesideOne(ctx.g, records[id].link.value, a);
      var i :| 0 <= i < |records[id].link.value.path| && LiesBeside(ctx.g, records[id].link.value, a, i);
      var choice := IntervalHere(ctx, records, a, id, i);
    }
  }

  lemma {:induction false} IntervalHere(
      ctx: Context, records: Records, a: Attachment, id: CommunityId, i: int) returns (choice: (Route, Target))
    requires ctx.Valid() && Filed(ctx.g, records) && a.Valid(ctx.g)
    requires id in records && 0 <= i < |records[id].link.value.path| && LiesBeside(ctx.g, records[id].link.value, a, i)
    ensures Interval(ctx, records, a, id, i, choice) && Seen(records.Keys, 0, 0, id, i)
  {
    hide LiesBeside;
    IntervalPlans(ctx, records, id, a, i);
    choice := IntervalChoice(ctx, records[id], a, i).value;
  }

  /**
   The choice of least key beside any accepted path, the earlier record and place winning a tie;
   there is one exactly when the attachment lies beside one.
   */
  method AcceptedIntervalRoute(ctx: Context, records: Records, a: Attachment) returns (best: Option<(Route, Target)>)
    requires ctx.Valid() && Filed(ctx.g, records) && a.Valid(ctx.g)
    ensures Recordable(ctx, records, a, best)
    ensures EarliestInterval(ctx, records, a, best) && best == IntervalDue(ctx, records, a)
    ensures best.Some? <==> Beside(ctx.g, records, a)
  {
    hide Planned, Beside, EarliestSeen, GeometryAgrees, BesideOne, LiesBeside;
    best := None;
    var todo := records.Keys;
    assert records.Keys - todo == {};
    NothingSeen(ctx, records, a);
    while exists id :: id in todo
      invariant todo <= records.Keys && Recordable(ctx, records, a, best)
      invariant forall id <- records.Keys - todo, other <- todo :: id < other
      invariant EarliestSeen(ctx, records, a, records.Keys - todo, 0, 0, best)
      decreases todo
    {
      var id := TakeLeast(todo);
      ghost var done := records.Keys - todo;
      todo := todo - {id};
      assert records.Keys - todo == done + {id};
      RecordStarts(ctx, records, a, done, 0, id, best);
      best := BesideRecord(ctx, records, records[id], a, done, best);
      RecordDone(ctx, records, a, done, id, 0, best);
    }
    assert records.Keys - todo == records.Keys;
    BesideIffInterval(ctx, records, a, best);
    EarliestIsOne(ctx, records, a, best, IntervalDue(ctx, records, a));
  }
}

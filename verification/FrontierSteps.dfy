/**
 What every step of the backward frontier search keeps.  A label may still improve
 on a tie after its node was expanded, so the search corrects labels: a label that
 lags behind its parent's is allowed as long as the parent is still queued.
 */
module FrontierSteps {
  import opened Networks
  import opened Queues
  import opened RoadGraph
  import opened Frontier
  import opened FrontierTurns

  /**
   The search in progress: `rank` counts label changes, `floor` is the last expanded
   distance and `expanded` holds every node and key expanded so far.
   */
  datatype Progress = Progress(
    s: Search, queue: seq<Entry>, floor: real, rank: map<NodeId, nat>, clock: nat, expanded: set<(NodeId, int)>)

  ghost function Keys(inst: Instance): set<int> {
    (set n | n in inst.wholes :: inst.wholes[n].key)
    + (set i | 0 <= i < |inst.partials| :: inst.partials[i].target.key)
  }

  ghost function Universe(inst: Instance): set<NodeId>
    requires inst.Valid()
  {
    FrontierNet(inst).Nodes() + inst.wholes.Keys
  }

  /** All node and key pairs that can ever be expanded. */
  ghost function Pairs(inst: Instance): set<(NodeId, int)>
    requires inst.Valid()
  {
    set n, k | n in Universe(inst) && k in Keys(inst) :: (n, k)
  }

  ghost predicate Shaped(inst: Instance, p: Progress)
    requires inst.Valid()
  {
    && p.s.targets.Keys == p.s.distances.Keys && p.rank.Keys == p.s.distances.Keys
    && forall n <- p.s.distances ::
         n in Universe(inst) && p.s.distances[n] >= 0.0 && p.s.targets[n].key in Keys(inst) && p.rank[n] < p.clock
  }

  /** Nothing is gained by entering the label of the edge's head over the edge. */
  ghost predicate RelaxedInto(inst: Instance, s: Search, e: EdgeId)
    requires 0 <= e < |inst.g.edges|
  {
    var edge := inst.g.edges[e];
    && edge.to in s.distances && edge.to in s.targets && edge.from in s.distances && edge.from in s.targets
    && !Better(s.distances[edge.to] + edge.length, s.targets[edge.to].key, s.distances[edge.from],
      s.targets[edge.from].key)
  }

  /** The label of `n` extends its parent's, or lags behind it. */
  ghost predicate Parented(inst: Instance, p: Progress, n: NodeId)
    requires inst.Valid() && Shaped(inst, p) && n in p.s.distances
  {
    && n in p.s.previous && p.s.previous[n] in FrontierNet(inst).open
    && var edge := inst.g.edges[p.s.previous[n]];
       edge.from == n && edge.to in p.s.distances
       && (Extends(inst, p.s, p.rank, n) || !RelaxedInto(inst, p.s, p.s.previous[n]))
  }

  ghost predicate Origins(inst: Instance, p: Progress)
    requires inst.Valid() && Shaped(inst, p)
  {
    forall n <- p.s.distances :: AtSeed(inst, p.s, n) || Parented(inst, p, n)
  }

  ghost predicate Queued(p: Progress) {
    forall q <- p.queue :: q.node in p.s.distances && p.s.distances[q.node] <= q.distance && p.floor <= q.distance
  }

  /** Every usable edge into a labelled node is relaxed, still to be tried, or its head is queued. */
  ghost predicate Pending(inst: Instance, p: Progress, todo: seq<EdgeId>)
    requires inst.Valid()
  {
    forall e <- FrontierNet(inst).open :: inst.g.edges[e].to in p.s.distances ==>
      || Entry(p.s.distances[inst.g.edges[e].to], inst.g.edges[e].to) in p.queue
      || e in todo || RelaxedInto(inst, p.s, e)
  }

  /** An expanded node keeps its distance, and nothing more comes of expanding it with the same key. */
  ghost predicate Done(inst: Instance, p: Progress, todo: seq<EdgeId>)
    requires inst.Valid()
  {
    forall x <- p.expanded ::
      && x.0 in p.s.distances && x.0 in p.s.targets && p.s.distances[x.0] <= p.floor && p.s.targets[x.0].key <= x.1
      && (p.s.targets[x.0].key == x.1 ==>
            forall e <- FrontierNet(inst).open :: inst.g.edges[e].to == x.0 && e !in todo ==> RelaxedInto(inst, p.s, e))
  }

  /** No seed beats the label of its node. */
  ghost predicate Covered(inst: Instance, upto: int, s: Search)
    requires 0 <= upto <= |inst.partials|
  {
    && s.targets.Keys == s.distances.Keys
    && (forall n <- inst.wholes ::
      n in s.distances && !Better(0.0, inst.wholes[n].key, s.distances[n], s.targets[n].key))
    && (forall i | 0 <= i < upto && inst.Seeds(i) ::
          inst.SeedNode(i) in s.distances
          && !Better(inst.SeedDistance(i), inst.partials[i].target.key, s.distances[inst.SeedNode(i)],
            s.targets[inst.SeedNode(i)].key))
  }

  ghost predicate Kept(inst: Instance, p: Progress, todo: seq<EdgeId>)
    requires inst.Valid()
  {
    && Shaped(inst, p) && Origins(inst, p) && Queued(p)
    && Pending(inst, p, todo) && Done(inst, p, todo)
    && Covered(inst, |inst.partials|, p.s) && Marks(inst, |inst.partials|, p.s)
  }

  /** The search after node `edge.from` takes the label that edge `e` offers. */
  ghost function Relabelled(inst: Instance, p: Progress, e: EdgeId, next: real, t: Target): Progress
    requires 0 <= e < |inst.g.edges|
  {
    var n := inst.g.edges[e].from;
    p.(s := LabelTaken(inst, p.s, e, next, t), queue := p.queue + [Entry(next, n)], rank := p.rank[n := p.clock],
      clock := p.clock + 1)
  }

  /** Edge `e` leads into the node being expanded and offers its tail a better label. */
  ghost predicate Offers(inst: Instance, p: Progress, e: EdgeId, next: real, t: Target)
    requires inst.Valid()
  {
    && e in FrontierNet(inst).open && Shaped(inst, p)
    && var edge := inst.g.edges[e];
       edge.to in p.s.distances && p.s.distances[edge.to] == p.floor && p.s.targets[edge.to] == t
       && next == p.floor + edge.length
       && (edge.from in p.s.distances ==> Better(next, t.key, p.s.distances[edge.from], p.s.targets[edge.from].key))
  }

  lemma {:induction false} RelabelShaped(inst: Instance, p: Progress, e: EdgeId, next: real, t: Target)
    requires inst.Valid() && Offers(inst, p, e, next, t) && p.floor >= 0.0
    ensures Shaped(inst, Relabelled(inst, p, e, next, t))
  {
    assert inst.g.edges[e] in inst.g.edges;
    assert FrontierNet(inst).arcs[e].from in FrontierNet(inst).Nodes();
  }

  lemma {:induction false} RelabelOrigins(inst: Instance, p: Progress, e: EdgeId, next: real, t: Target)
    requires inst.Valid() && Offers(inst, p, e, next, t) && Origins(inst, p) && p.floor >= 0.0
    ensures Shaped(inst, Relabelled(inst, p, e, next, t)) && Origins(inst, Relabelled(inst, p, e, next, t))
  {
    RelabelShaped(inst, p, e, next, t);
    var p' := Relabelled(inst, p, e, next, t);
    assert inst.g.edges[e] in inst.g.edges;
    forall n <- p'.s.distances ensures AtSeed(inst, p'.s, n) || Parented(inst, p', n) {
      if n == inst.g.edges[e].from {
        assert Extends(inst, p'.s, p'.rank, n);
      } else if AtSeed(inst, p.s, n) {
        assert AtSeed(inst, p'.s, n);
      } else {
        RelabelParented(inst, p, e, next, t, n);
      }
    }
  }

  /** A node whose parent is relabelled falls behind it; any other keeps its reading. */
  lemma RelabelParented(inst: Instance, p: Progress, e: EdgeId, next: real, t: Target, n: NodeId)
    requires inst.Valid() && Offers(inst, p, e, next, t) && n in p.s.distances && n != inst.g.edges[e].from
    requires Parented(inst, p, n) && Shaped(inst, Relabelled(inst, p, e, next, t))
    ensures Parented(inst, Relabelled(inst, p, e, next, t), n)
  {
  }

  lemma {:induction false} RelabelPending(inst: Instance, p: Progress, todo: seq<EdgeId>, next: real, t: Target)
    requires inst.Valid() && todo != [] && Offers(inst, p, todo[0], next, t) && Pending(inst, p, todo)
    ensures Pending(inst, Relabelled(inst, p, todo[0], next, t), todo[1..])
  {
    hide Traceable, Marks, Covered, Labels;
    var e := todo[0];
    var p' := Relabelled(inst, p, e, next, t);
    assert todo == [e] + todo[1..];
    assert inst.g.edges[e] in inst.g.edges;
    forall f <- FrontierNet(inst).open | inst.g.edges[f].to in p'.s.distances
      ensures Entry(p'.s.distances[inst.g.edges[f].to], inst.g.edges[f].to) in p'.queue
           || f in todo[1..] || RelaxedInto(inst, p'.s, f)
    {
    }
  }

  lemma {:induction false} RelabelDone(inst: Instance, p: Progress, todo: seq<EdgeId>, next: real, t: Target)
    requires inst.Valid() && todo != [] && Offers(inst, p, todo[0], next, t) && Done(inst, p, todo)
    ensures Done(inst, Relabelled(inst, p, todo[0], next, t), todo[1..])
  {
    var e := todo[0];
    var p' := Relabelled(inst, p, e, next, t);
    assert todo == [e] + todo[1..];
    assert inst.g.edges[e] in inst.g.edges;
    forall x <- p'.expanded
      ensures x.0 in p'.s.distances && x.0 in p'.s.targets && p'.s.distances[x.0] <= p'.floor
        && p'.s.targets[x.0].key <= x.1
      ensures p'.s.targets[x.0].key == x.1 ==>
        forall f <- FrontierNet(inst).open :: inst.g.edges[f].to == x.0 && f !in todo[1..] ==>
          RelaxedInto(inst, p'.s, f)
    {
      if p'.s.targets[x.0].key == x.1 {
        forall f <- FrontierNet(inst).open | inst.g.edges[f].to == x.0 && f !in todo[1..]
          ensures RelaxedInto(inst, p'.s, f) {
          if f != e { assert RelaxedInto(inst, p.s, f); }
        }
      }
    }
  }

  lemma {:induction false} RelabelMarks(inst: Instance, p: Progress, e: EdgeId, next: real, t: Target)
    requires inst.Valid() && Offers(inst, p, e, next, t)
    requires Covered(inst, |inst.partials|, p.s) && Marks(inst, |inst.partials|, p.s)
    ensures Covered(inst, |inst.partials|, Relabelled(inst, p, e, next, t).s)
    ensures Marks(inst, |inst.partials|, Relabelled(inst, p, e, next, t).s)
  {
    hide Covered, Displaced, WholeMark;
    RelabelCovered(inst, p, e, next, t);
    var s' := Relabelled(inst, p, e, next, t).s;
    forall n <- inst.wholes | !Displaced(inst, |inst.partials|, n) ensures WholeMark(inst, s', n) {
      RelabelWhole(inst, p, e, next, t, n);
    }
    forall n <- s'.partials ensures PartialMark(inst, s', n) {
      assert PartialMark(inst, p.s, n);
    }
  }

  lemma {:induction false} RelabelWhole(inst: Instance, p: Progress, e: EdgeId, next: real, t: Target, n: NodeId)
    requires inst.Valid() && Offers(inst, p, e, next, t) && Covered(inst, |inst.partials|, p.s)
    requires n in inst.wholes && WholeMark(inst, p.s, n)
    ensures WholeMark(inst, Relabelled(inst, p, e, next, t).s, n)
  {
    hide Displaced;
    assert inst.g.edges[e] in inst.g.edges;
  }

  lemma {:induction false} RelabelCovered(inst: Instance, p: Progress, e: EdgeId, next: real, t: Target)
    requires inst.Valid() && Offers(inst, p, e, next, t) && Covered(inst, |inst.partials|, p.s)
    ensures Covered(inst, |inst.partials|, Relabelled(inst, p, e, next, t).s)
  {
  }

  /** Taking a better label keeps everything. */
  lemma {:induction false} Relabel(inst: Instance, p: Progress, todo: seq<EdgeId>, next: real, t: Target)
    requires inst.Valid() && todo != [] && Kept(inst, p, todo) && Offers(inst, p, todo[0], next, t) && p.floor >= 0.0
    ensures Kept(inst, Relabelled(inst, p, todo[0], next, t), todo[1..])
  {
    assert inst.g.edges[todo[0]] in inst.g.edges;
    RelabelOrigins(inst, p, todo[0], next, t);
    RelabelPending(inst, p, todo, next, t);
    RelabelDone(inst, p, todo, next, t);
    RelabelMarks(inst, p, todo[0], next, t);
  }

  /** An edge that is closed to the search, or offers nothing, needs no step. */
  lemma {:induction false} PassOver(inst: Instance, p: Progress, todo: seq<EdgeId>)
    requires inst.Valid() && todo != [] && Kept(inst, p, todo)
    requires todo[0] in FrontierNet(inst).open ==> RelaxedInto(inst, p.s, todo[0])
    ensures Kept(inst, p, todo[1..])
  {
    assert todo == [todo[0]] + todo[1..];
  }

  /** The search with the popped entry's node ready to be expanded. */
  ghost function Opened(p: Progress, least: Entry, rest: seq<Entry>): Progress
    requires least.node in p.s.targets
  {
    p.(queue := rest, floor := least.distance, expanded := p.expanded + {(least.node, p.s.targets[least.node].key)})
  }

  lemma {:induction false} DropEntry(inst: Instance, p: Progress, least: Entry, rest: seq<Entry>)
    requires inst.Valid() && Kept(inst, p, []) && least.node in p.s.distances
      && p.s.distances[least.node] < least.distance
    requires multiset(p.queue) == multiset(rest) + multiset{least}
    ensures Kept(inst, p.(queue := rest), [])
  {
    PopMembers(p.queue, rest, least);
  }

  lemma {:induction false} Open(inst: Instance, p: Progress, least: Entry, rest: seq<Entry>, into: seq<EdgeId>)
    requires inst.Valid() && Kept(inst, p, []) && least in p.queue && forall q <- p.queue :: Before(least, q)
    requires multiset(p.queue) == multiset(rest) + multiset{least}
    requires least.node in p.s.distances && least.distance <= p.s.distances[least.node]
    requires forall e :: e in into <==> 0 <= e < |inst.g.edges| && inst.g.edges[e].to == least.node
    ensures least.distance == p.s.distances[least.node]
    ensures Kept(inst, Opened(p, least, rest), into)
    ensures (least.node, p.s.targets[least.node].key) in p.expanded ==> Kept(inst, Opened(p, least, rest), [])
  {
    PopMembers(p.queue, rest, least);
    OpenPending(inst, p, least, rest, into);
    OpenDone(inst, p, least, rest, into);
  }

  lemma OpenPending(inst: Instance, p: Progress, least: Entry, rest: seq<Entry>, into: seq<EdgeId>)
    requires inst.Valid() && Pending(inst, p, []) && Done(inst, p, []) && least.node in p.s.distances
      && least.node in p.s.targets
    requires forall q :: q in p.queue && q != least ==> q in rest
    requires forall e :: e in into <==> 0 <= e < |inst.g.edges| && inst.g.edges[e].to == least.node
    ensures Pending(inst, Opened(p, least, rest), into)
    ensures (least.node, p.s.targets[least.node].key) in p.expanded ==> Pending(inst, Opened(p, least, rest), [])
  {
  }

  lemma OpenDone(inst: Instance, p: Progress, least: Entry, rest: seq<Entry>, into: seq<EdgeId>)
    requires inst.Valid() && Shaped(inst, p) && Done(inst, p, []) && p.floor <= least.distance
    requires least.node in p.s.distances && least.distance == p.s.distances[least.node]
    requires forall e :: e in into <==> 0 <= e < |inst.g.edges| && inst.g.edges[e].to == least.node
    ensures Done(inst, Opened(p, least, rest), into)
    ensures (least.node, p.s.targets[least.node].key) in p.expanded ==> Done(inst, Opened(p, least, rest), [])
  {
  }
}

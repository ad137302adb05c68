/** Every course ends, and a run with power enough reaches the end. */
module Endings {
  import opened Options
  import opened Frontier
  import opened Offers
  import opened Decisions
  import opened Script
  import opened Course
  import opened Lookups
  import opened Runs
  import opened RuralRuns

  // What is still to be decided.

  ghost function OpenConnections(w: World, ops: seq<Operation>): set<ConnectionId> {
    (set c | c in w.connections) - DoneConnections(ops)
  }

  ghost function OpenPlaces(w: World, ops: seq<Operation>): set<CommunityId> {
    if w.rural.None? then {} else w.rural.value.places - Ruled(Rulings(ops))
  }

  ghost function OpenGaps(w: World, ops: seq<Operation>): set<CommunityId> {
    if w.rural.None? then {}
    else
      var records := w.rural.value.records(Selected(ops), Rulings(ops));
      (set r | r in records :: r.id) - DoneCommunities(ops)
  }

  lemma {:induction false} UrbanLess(w: World, ops: seq<Operation>, op: Operation)
    requires w.Sound() && Ordained(w, ops + [op]) && FirstOpen(w.connections, DoneConnections(ops)) < |w.connections|
    ensures OpenConnections(w, ops + [op]) < OpenConnections(w, ops)
  {
    hide Decision, Askable, World.Sound;
    var k := FirstOpen(w.connections, DoneConnections(ops));
    OrdainedAt(w, ops + [op], |ops|);
    assert (ops + [op])[..|ops|] == ops;
    DecisionFitsTask(w, NextTask(w, ops).value);
    DoneGrows(ops, op);
    assert w.connections[k] in OpenConnections(w, ops) && w.connections[k] !in OpenConnections(w, ops + [op]);
  }

  lemma {:induction false} RuralLess(w: World, ops: seq<Operation>, op: Operation)
    requires w.Sound() && Ordained(w, ops + [op]) && AllConnected(w, ops, |w.connections|) && w.rural.Some?
    ensures OpenConnections(w, ops + [op]) == OpenConnections(w, ops)
    ensures
      || OpenPlaces(w, ops + [op]) < OpenPlaces(w, ops)
      || (OpenPlaces(w, ops + [op]) == OpenPlaces(w, ops) && OpenGaps(w, ops + [op]) < OpenGaps(w, ops))
  {
    hide Decision, World.Sound, Selected, Rulings, DoneCommunities, DoneConnections, AllConnected;
    var rural := w.rural.value;
    OrdainedAt(w, ops + [op], |ops|);
    assert (ops + [op])[..|ops|] == ops;
    OfferNotGap(w, rural, ops, op);
    RuralAdds(w, ops, op);
    DoneGrows(ops, op);
    RuralNext(w, rural, ops);
    DecisionFitsTask(w, NextTask(w, ops).value);
    if op.candidate != Gap {
      OfferLess(w, rural, ops, op);
    } else {
      GapLess(w, rural, ops, op);
    }
  }

  lemma {:induction false} OfferLess(w: World, rural: Rural, ops: seq<Operation>, op: Operation)
    requires w.Sound() && w.rural == Some(rural) && op.IsRural() && Rulings(ops + [op]) == Rulings(ops) + [RulingOf(op)]
    requires rural.offers(Selected(ops), Rulings(ops)).Some?
      && op.community == rural.offers(Selected(ops), Rulings(ops)).value.community
    ensures OpenPlaces(w, ops + [op]) < OpenPlaces(w, ops)
  {
    hide Rural.Sound, Selected, Rulings;
    SoundAt(rural, Selected(ops), Rulings(ops));
    assert RulingOf(op) in Rulings(ops + [op]);
    assert Ruled(Rulings(ops)) <= Ruled(Rulings(ops + [op]));
    assert op.community in OpenPlaces(w, ops) && op.community !in OpenPlaces(w, ops + [op]);
  }

  lemma {:induction false} GapLess(w: World, rural: Rural, ops: seq<Operation>, op: Operation)
    requires w.rural == Some(rural) && op.IsRural() && Rulings(ops + [op]) == Rulings(ops)
      && Selected(ops + [op]) == Selected(ops)
    requires DoneCommunities(ops + [op]) == DoneCommunities(ops) + {op.community}
    requires var records := rural.records(Selected(ops), Rulings(ops));
      var k := FirstGap(records, DoneCommunities(ops)); k < |records| && op.community == records[k].id
    ensures OpenPlaces(w, ops + [op]) == OpenPlaces(w, ops) && OpenGaps(w, ops + [op]) < OpenGaps(w, ops)
  {
    hide Selected, Rulings, DoneCommunities;
    var records := rural.records(Selected(ops), Rulings(ops));
    var k := FirstGap(records, DoneCommunities(ops));
    assert records[k] in records;
    assert op.community in OpenGaps(w, ops) && op.community !in OpenGaps(w, ops + [op]);
  }

  /** From any decisions on course, some more lead to the end. */
  lemma {:induction false} LeadsToEnd(w: World, ops: seq<Operation>) returns (end: seq<Operation>)
    requires w.Sound() && Ordained(w, ops)
    ensures Ordained(w, end) && NextTask(w, end).None?
    decreases OpenConnections(w, ops), OpenPlaces(w, ops), OpenGaps(w, ops)
  {
    hide Decision, Askable, World.Sound, OpenConnections, OpenPlaces, OpenGaps, NextRural;
    if NextTask(w, ops).None? {
      return ops;
    }
    var op := Decision(w, NextTask(w, ops).value);
    NextIsAskable(w, ops);
    assert (ops + [op])[..|ops|] == ops;
    if FirstOpen(w.connections, DoneConnections(ops)) < |w.connections| {
      UrbanLess(w, ops, op);
    } else {
      RuralLess(w, ops, op);
    }
    end := LeadsToEnd(w, ops + [op]);
  }

  /** There is an end to the course. */
  lemma {:induction false} CourseEnds(w: World) returns (end: seq<Entry>)
    requires w.Sound()
    ensures Complete(w, end)
  {
    hide NextTask, Decision, Askable, World.Sound;
    var ops := LeadsToEnd(w, []);
    end := Events(w, ops);
    EventsOperations(w, ops);
  }

  lemma {:induction false} EventsBegin(w: World, ops: seq<Operation>, n: nat)
    requires Ordained(w, ops) && n <= |ops|
    ensures Ordained(w, ops[..n]) && Events(w, ops[..n]) <= Events(w, ops)
    decreases |ops|
  {
    hide NextTask, Decision, Askable, Block;
    if n < |ops| {
      var prior := ops[..|ops| - 1];
      EventsBegin(w, prior, n);
      assert prior[..n] == ops[..n];
    } else {
      assert ops[..n] == ops;
    }
  }

  /** A branch on course holds no event a finished one does not begin with. */
  lemma {:induction false} WithinEnd(w: World, chain: seq<Entry>, end: seq<Entry>)
    requires OnCourse(w, chain) && Complete(w, end)
    ensures chain <= end
  {
    hide NextTask, Decision, Askable, Block;
    var (ops, all) := (Operations(chain), Operations(end));
    CourseLeadsToEnd(w, chain, end);
    var i: nat :| Follows(w, chain, ops, i);
    EventsBegin(w, all, |ops|);
    assert all[..|ops|] == ops && (|ops| == |all| ==> all[..|ops|] == all);
    if i > 0 {
      EventsBegin(w, all, |ops| + 1);
      assert all[..|ops| + 1][..|ops|] == ops;
    }
  }
}

/**
 What a run writes: given the configuration, deterministic providers and the planner,
 the next task and its whole block of events follow from the decisions made so far.
 */
module Script {
  import opened Options
  import opened Frontier
  import opened Access
  import opened Offers
  import opened RuralChoice
  import opened Decisions

  /** The rural planner by what it offers and ends with, given the selected alignments and the rulings so far. */
  datatype Rural = Rural(
    places: set<CommunityId>,
    offers: (seq<AlignmentId>, seq<Ruling>) -> Option<Offer>,
    records: (seq<AlignmentId>, seq<Ruling>) -> seq<CommunityAccess>,
    profiles: Profiles)
  {
    /** Offers name a community of the planner not yet ruled on, with distinct candidates under accepted parents. */
    ghost predicate Sound() {
      && (forall selected, rulings :: offers(selected, rulings).Some? ==>
        SoundOffer(places, rulings, offers(selected, rulings).value))
      && (forall selected, rulings, i, j :: 0 <= i < j < |records(selected, rulings)| ==>
            records(selected, rulings)[i].id != records(selected, rulings)[j].id)
    }
  }

  ghost predicate SoundOffer(places: set<CommunityId>, rulings: seq<Ruling>, offer: Offer) {
    && offer.community in places && offer.community !in Ruled(rulings) && SoundCandidates(offer)
    && (forall i | 0 <= i < |offer.candidates| ::
      offer.candidates[i].id != Gap && ParentAccepted(rulings, offer.candidates[i].access))
  }

  predicate SoundCandidates(offer: Offer) {
    && offer.candidates != []
    && (forall i | 0 <= i < |offer.candidates| :: offer.candidates[i].access.id == offer.community)
    && (forall i, j | 0 <= i < j < |offer.candidates| :: offer.candidates[i].id != offer.candidates[j].id)
  }

  function Ruled(rulings: seq<Ruling>): set<CommunityId> {
    set r | r in rulings :: r.community
  }

  predicate ParentAccepted(rulings: seq<Ruling>, a: CommunityAccess) {
    BindingOf(a).parent.Some? ==>
      exists i :: 0 <= i < |rulings| && rulings[i].Accepted? && rulings[i].community == BindingOf(a).parent.value
  }

  datatype World = World(
    connections: seq<ConnectionId>, admitted: map<AlignmentId, ConnectionId>,
    relevant: (ConnectionId, seq<Operation>) -> seq<Operation>,
    shown: seq<CommunityAccess>, live: bool, allow: bool,
    classifier: Option<Task -> Option<Choice>>, specialist: Option<Task -> Option<Proposal>>, rural: Option<Rural>)
  {
    /** A planner comes with a prepared report, and a prepared report shows no access yet. */
    ghost predicate Sound() { rural.Some? ==> rural.value.Sound() && shown == [] }
  }

  // What the operations so far amount to.

  function DoneConnections(ops: seq<Operation>): set<ConnectionId> {
    set op | op in ops && !op.IsRural() :: op.connection
  }

  function DoneCommunities(ops: seq<Operation>): set<CommunityId> {
    set op | op in ops && op.IsRural() :: op.community
  }

  function Selected(ops: seq<Operation>): seq<AlignmentId> {
    if ops == [] then []
    else
      var (before, op) := (Selected(ops[..|ops| - 1]), ops[|ops| - 1]);
      if op.SelectAlignment? then before + [op.alignment] else before
  }

  function RulingOf(op: Operation): Ruling
    requires op.IsRural()
  {
    if op.SelectCommunityAccess? then Accepted(op.community, op.candidate) else Rejected(op.community)
  }

  /** The planner's part of the operations; gaps are recorded without asking it. */
  function Rulings(ops: seq<Operation>): seq<Ruling> {
    if ops == [] then []
    else
      var (before, op) := (Rulings(ops[..|ops| - 1]), ops[|ops| - 1]);
      if op.IsRural() && op.candidate != Gap then before + [RulingOf(op)] else before
  }

  // The next task.

  function FirstOpen(connections: seq<ConnectionId>, done: set<ConnectionId>): (k: nat)
    ensures k <= |connections| && (forall j | 0 <= j < k :: connections[j] in done)
      && (k < |connections| ==> connections[k] !in done)
  {
    if connections == [] || connections[0] !in done then 0 else 1 + FirstOpen(connections[1..], done)
  }

  function FirstGap(records: seq<CommunityAccess>, done: set<CommunityId>): (k: nat)
    ensures k <= |records| && (forall j | 0 <= j < k :: records[j].id in done)
      && (k < |records| ==> records[k].id !in done)
  {
    if records == [] || records[0].id !in done then 0 else 1 + FirstGap(records[1..], done)
  }

  function UrbanTaskFor(w: World, connection: ConnectionId, ops: seq<Operation>): Task {
    UrbanTask(connection, w.relevant(connection, ops), w.allow)
  }

  function GapTask(w: World, a: CommunityAccess): Task {
    RuralTask(Offer(a.id, [Candidate(Gap, a)]), w.allow)
  }

  predicate IsGap(task: Task) { task.RuralTask? && |task.offer.candidates| == 1 && task.offer.candidates[0].id == Gap }

  /** Connections in order, then rural offers until the planner has none, then the communities no offer reached. */
  function NextTask(w: World, ops: seq<Operation>): Option<Task> {
    var k := FirstOpen(w.connections, DoneConnections(ops));
    if k < |w.connections| then Some(UrbanTaskFor(w, w.connections[k], ops))
    else if w.rural.None? then None
    else NextRural(w, w.rural.value, ops)
  }

  function NextRural(w: World, rural: Rural, ops: seq<Operation>): Option<Task> {
    var offer := rural.offers(Selected(ops), Rulings(ops));
    if offer.Some? then Some(RuralTask(offer.value, w.allow))
    else
      var records := rural.records(Selected(ops), Rulings(ops));
      var k := FirstGap(records, DoneCommunities(ops));
      if k < |records| then Some(GapTask(w, records[k])) else None
  }

  // What is written about one task.

  ghost predicate Askable(w: World, task: Task) {
    if task.UrbanTask? then task.connection in w.connections
    else
      && SoundCandidates(task.offer)
      && (IsGap(task) || forall i | 0 <= i < |task.offer.candidates| :: task.offer.candidates[i].id != Gap)
  }

  /** The decision made without asking anyone. */
  function WithoutAsking(w: World, task: Task): Option<Operation>
  {
    if task.UrbanTask? then None
    else if IsGap(task) then Some(RuralUnresolved(task, MechanicalGap, Mechanical, Some(NeedsEvidence)))
    else if w.rural.None? then None
    else
      var found := MechanicalCandidate(w.rural.value.profiles, task.offer.candidates);
      if found.Some? then Some(RuralSelect(task, MechanicalRural, found.value, false)) else None
  }

  function ClassifierAnswer(w: World, task: Task): Option<Choice> {
    if w.live && w.classifier.Some? then w.classifier.value(task) else None
  }

  predicate AsksSpecialist(w: World, task: Task, choice: Option<Choice>) {
    ClassifierOperation(w.admitted, task, choice).None? && ShouldEscalate(choice) && w.live && w.specialist.Some?
  }

  function Consultation(w: World, task: Task): seq<Entry> {
    var choice := ClassifierAnswer(w, task);
    [Started(Jev(task.Id())), Finished(Jev(task.Id()), Record(choice, None))]
    + if AsksSpecialist(w, task, choice) then
        [Started(Specialist(task.Id())), Finished(Specialist(task.Id()), Record(None, w.specialist.value(task)))]
      else []
  }

  /** The decision from the providers' answers. */
  function Verdict(w: World, task: Task, choice: Option<Choice>, proposal: Option<Proposal>): Operation
  {
    var chosen := ClassifierOperation(w.admitted, task, choice);
    if chosen.Some? then chosen.value
    else if AsksSpecialist(w, task, choice) then
      var proposed := SpecialistOperation(w.admitted, task, proposal, w.allow, ClassifierMarker(choice));
      if proposed.Some? then proposed.value else AfterSpecialist(task, choice)
    else AfterClassifier(task, choice)
  }

  function Decision(w: World, task: Task): Operation
  {
    if WithoutAsking(w, task).Some? then WithoutAsking(w, task).value
    else
      var choice := ClassifierAnswer(w, task);
      Verdict(w, task, choice, if AsksSpecialist(w, task, choice) then w.specialist.value(task) else None)
  }

  /** The whole block of events about one task. */
  function Block(w: World, task: Task): (block: seq<Entry>)
    ensures |block| >= 2 && block[0] == TaskSet(task) && block[|block| - 1] == Decided(Decision(w, task))
    ensures forall i | 0 <= i < |block| - 1 :: !block[i].Decided?
  {
    [TaskSet(task)] + (if WithoutAsking(w, task).Some? then []
      else Consultation(w, task)) + [Decided(Decision(w, task))]
  }

  /** A decision is about its task's own connection or community. */
  lemma {:induction false} DecisionFitsTask(w: World, task: Task)
    requires Askable(w, task)
    ensures var op := Decision(w, task);
      && op.task == task.Id() && op.IsRural() == task.RuralTask?
      && (task.UrbanTask? ==> op.connection == task.connection)
      && (task.RuralTask? ==> op.community == task.offer.community && (op.candidate == Gap <==> IsGap(task)))
      && Validates(w.connections, w.admitted, op, w.allow, Some(task))
  {
    if task.RuralTask? {
      forall i | 0 <= i < |task.offer.candidates|
        ensures CandidateIn(task.offer.candidates, task.offer.candidates[i].id) == Some(task.offer.candidates[i])
      {
        FoundById(task.offer.candidates, i);
      }
    }
  }
}

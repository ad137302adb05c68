/** Decision tasks, provider answers and the typed operations they lead to. */
module Decisions {
  import opened Options
  import opened Frontier
  import opened Access
  import opened Offers

  type ConnectionId = int
  type AlignmentId = int

  datatype TaskId = Urban(connection: ConnectionId) | Rural(community: CommunityId)

  /** A question put to the providers: what was decided before, or the rural offer to choose from. */
  datatype Task =
    | UrbanTask(connection: ConnectionId, prior: seq<Operation>, allow: bool)
    | RuralTask(offer: Offer, allow: bool)
  {
    function Id(): TaskId {
      match this
      case UrbanTask(connection, _, _) => Urban(connection)
      case RuralTask(offer, _) => Rural(offer.community)
    }
  }

  datatype AttemptId = Jev(task: TaskId) | Specialist(task: TaskId) | MechanicalRural | MechanicalGap

  datatype Marker = Unknown | NeedsEvidence | NoneAdopted

  datatype Choice = Abstain(marker: Marker) | PickAlignment(alignment: AlignmentId) | PickCandidate(
    candidate: CandidateId)

  /** What a specialist proposes; `reasoned` and `uncertain` say whether a reason and an uncertainty were given. */
  datatype Proposal =
    | Adopt(choice: Choice, site: Option<TaskId>, provisional: bool, reasoned: bool, uncertain: bool)
    | LeaveUnresolved(reasoned: bool)

  datatype Class = Mechanical | Classifier | Agent

  /** The facts of a rural candidate that its operation repeats. */
  datatype Binding = Binding(parent: Option<CommunityId>, terminal: Option<Terminal>, newLink: Option<real>,
    full: Option<real>)

  datatype Operation =
    | SelectAlignment(task: TaskId, attempt: AttemptId, connection: ConnectionId, alignment: AlignmentId,
      class_: Class, provisional: bool)
    | Unresolved(task: TaskId, attempt: AttemptId, connection: ConnectionId, class_: Class, marker: Option<Marker>)
    | SelectCommunityAccess(task: TaskId, attempt: AttemptId, community: CommunityId, candidate: CandidateId,
      class_: Class,
                            provisional: bool, binding: Binding)
    | UnresolvedCommunityAccess(task: TaskId, attempt: AttemptId, community: CommunityId, candidate: CandidateId,
      class_: Class,
                                marker: Option<Marker>, binding: Binding)
  {
    predicate IsRural() { SelectCommunityAccess? || UnresolvedCommunityAccess? }

    predicate IsUnresolved() { Unresolved? || UnresolvedCommunityAccess? }

    predicate IsProvisional() { (SelectAlignment? || SelectCommunityAccess?) && provisional }
  }

  /** A retained provider answer. */
  datatype Record = Record(choice: Option<Choice>, proposal: Option<Proposal>)

  /** What one event of the decision history says. */
  datatype Entry =
    | TaskSet(task: Task)
    | Started(attempt: AttemptId)
    | Finished(attempt: AttemptId, record: Record)
    | Decided(operation: Operation)

  function BindingOf(a: CommunityAccess): Binding {
    if a.link.None? then Binding(None, None, None, None)
    else
      var link := a.link.value;
      Binding(if link.parent.Some? then Some(link.parent.value.id)
        else None, Some(link.terminal), Some(link.newLink), Some(link.full))
  }

  function RuralSelect(task: Task, attempt: AttemptId, candidate: Candidate, provisional: bool): Operation {
    SelectCommunityAccess(
      task.Id(), attempt, candidate.access.id, candidate.id,
      if provisional then Agent else if attempt == MechanicalRural then Mechanical else Classifier,
      provisional, BindingOf(candidate.access))
  }

  /** An unresolved rural decision repeats the facts of the offer's first candidate. */
  function RuralUnresolved(task: Task, attempt: AttemptId, class_: Class, marker: Option<Marker>): Operation
    requires task.RuralTask?
  {
    var first := if task.offer.candidates != [] then task.offer.candidates[0]
                 else Candidate(Gap, CommunityAccess(task.offer.community, Access.Unresolved, None, None));
    UnresolvedCommunityAccess(task.Id(), attempt, first.access.id, first.id, class_, marker, BindingOf(first.access))
  }

  function UnresolvedFor(task: Task, attempt: AttemptId, class_: Class, marker: Option<Marker>): Operation
  {
    match task
    case UrbanTask(connection, _, _) => Operation.Unresolved(task.Id(), attempt, connection, class_, marker)
    case RuralTask(_, _) => RuralUnresolved(task, attempt, class_, marker)
  }

  predicate ShouldEscalate(choice: Option<Choice>) { choice.None? || choice.value.Abstain? }

  function ClassifierMarker(choice: Option<Choice>): Option<Marker> {
    if choice.Some? && choice.value.Abstain? then Some(choice.value.marker) else None
  }

  function ClassifierClass(choice: Option<Choice>): Class { if choice.Some? then Classifier else Mechanical }

  /** The option adopted, if it is among those its question admits. */
  function Adopted(
      admitted: map<AlignmentId, ConnectionId>, task: Task, attempt: AttemptId, choice: Choice,
      provisional: bool): Option<Operation> {
    match task
    case UrbanTask(connection, _, _) =>
      if choice.PickAlignment? && choice.alignment in admitted && admitted[choice.alignment] == connection then
        Some(SelectAlignment(task.Id(), attempt, connection, choice.alignment, if provisional then Agent
          else Classifier, provisional))
      else None
    case RuralTask(offer, _) =>
      if choice.PickCandidate? && CandidateIn(offer.candidates, choice.candidate).Some? then
        Some(RuralSelect(task, attempt, CandidateIn(offer.candidates, choice.candidate).value, provisional))
      else None
  }

  function ClassifierOperation(
      admitted: map<AlignmentId, ConnectionId>, task: Task, choice: Option<Choice>): Option<Operation> {
    if ShouldEscalate(choice) then None else Adopted(admitted, task, Jev(task.Id()), choice.value, false)
  }

  /**
   A specialist may select only provisionally, with policy, reason and uncertainty, or leave the
   question unresolved with a reason.
   */
  function SpecialistOperation(
    admitted: map<AlignmentId, ConnectionId>, task: Task, proposal: Option<Proposal>, allow: bool,
      marker: Option<Marker>): Option<Operation>
  {
    match proposal
    case None => None
    case Some(Adopt(choice, site, provisional, reasoned, uncertain)) =>
      if (site.Some? && site.value != task.Id()) || !allow || !provisional || !reasoned || !uncertain then None
      else Adopted(admitted, task, Specialist(task.Id()), choice, true)
    case Some(LeaveUnresolved(reasoned)) =>
      if reasoned then Some(UnresolvedFor(task, Specialist(task.Id()), Agent, marker)) else None
  }

  /** What is recorded when the specialist's answer is unusable. */
  function AfterSpecialist(task: Task, choice: Option<Choice>): Operation
  {
    if task.UrbanTask? then UnresolvedFor(task, Specialist(task.Id()), Mechanical, ClassifierMarker(choice))
    else AfterClassifier(task, choice)
  }

  /** What is recorded when the classifier's answer is unusable and nobody else is asked. */
  function AfterClassifier(task: Task, choice: Option<Choice>): Operation
  {
    UnresolvedFor(task, Jev(task.Id()), ClassifierClass(choice), ClassifierMarker(choice))
  }

  /** A recorded operation is one its task and the policy admit. */
  predicate Validates(
      connections: seq<ConnectionId>, admitted: map<AlignmentId, ConnectionId>, op: Operation, allow: bool,
      task: Option<Task>) {
    if op.IsRural() then
      && task.Some? && task.value.RuralTask? && op.task == task.value.Id() && op.task == Rural(op.community)
      && (op.IsProvisional() ==> allow)
      && var found := CandidateIn(task.value.offer.candidates, op.candidate);
         found.Some? && found.value.access.id == op.community && BindingOf(found.value.access) == op.binding
    else
      && op.connection in connections && op.task == Urban(op.connection)
      && (op.SelectAlignment? ==>
            op.alignment in admitted && admitted[op.alignment] == op.connection && (op.provisional ==> allow))
  }
}

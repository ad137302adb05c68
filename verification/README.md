# Strategic active-travel network: a verified model

The compiler turns a road graph into a strategic cycling network. This project models
its decision-making core in Dafny and proves what that core promises:

- **Searches.** The forward search for role routes, the backward search from a frontier
  of whole nodes and points part-way along edges, the reciprocal components and the
  urban regions (`Network`, `Dijkstra`, `RouteTurns`, `RouteSearch`, `Frontier*`, `RoleRoutes`,
  `Components`, `Adjacency`; `Determinism` says why a search can end in one way only).
- **Rural access.** The planner that offers one community at a time, accepts or rejects,
  and lets every accepted path become a frontier for later ones; and the journey
  that is re-walked afterwards (`IdOrder`, `Access`, `Journey`, `AccessFrontier`,
  `AttachmentRoutes`, `NewLinks`, `IntervalLinks`, `Townward`, `Standing`, `TwinCut`, `Offers`,
  `PlannerStates`, `Planner`, `Partition`, `ShortStop`, `SpineTargets`).
- **Decision history.** The append-only event log with branch heads and forks, power cuts
  between any two durable steps, provider attempts, resumable runs and provider-free replay
  (`Decisions`, `RuralChoice`, `History`, `Attempts`, `Script`, `Course`, `Lookups`,
  `Settling`, `Midend`, `Runs`, `RuralReplay`, `RuralRuns`, `Gaps`, `DecisionRuns`,
  `Resumption`, `Endings`, `Replays`; `PlannerSoundness` gives a run the planner it relies on).
- **Kernels.** The type-tagged canonical encoding (`JsonText`, `Canonical`), write-once tile
  publication (`TileCache`), the flat tag-collection parser (`TagCollection`) and the
  point-in-ring rule (`Ring`).

`dafny verify dfyconfig.toml` checks the whole project.

## How the model is cut

- Node, edge, community and other ids are integers; only equality and order are used. An edge
  id is the edge's place in the edge table. Frontier keys are integers given by a ranking of
  what the key text spells out. Lengths, costs and fractions are reals.
- A binary heap is a sequence with a proved extract-min (`Queues.Pop`).
- A crash is a power budget: every durable write and every provider call uses one unit, and when
  none is left the step does not happen and the run ends. The event line and the head file are
  two separate writes, so a cut may fall between them. Every step keeps the account
  (`History.HistoryStore.Account`, `Fuel`), so no run can plead a cut without having used its
  power, nor use power without adding events.
- A provider is a function from the decision task to its answer. Where the statement is about
  calls at most once, nothing is assumed about the answers.
- The rural planner inside a decision run is a function of the selected alignments and the
  rulings so far. That is what the planner class is: its offers and final records equal
  `PlannerStates.OfferAfter` and `RecordsAfter` of its setup and rulings, whatever order its
  loops take things in, and `PlannerSoundness.PlannedRunIsSound` proves that this function has
  all that the theorems about runs rely on. What it makes of the selected alignments is
  `WithSelected`: the spine indexes exactly as `AddSelectedAlignmentTargets` leaves them.
- Tile workers are a state machine: one look at, or one atomic change of, the shared cache per
  step, in any interleaving of any number of workers.

## What the proofs brought to light

- `FrontierRoutes.MarksHonestIffNoTieSteals`: a frontier node keeps its mark while taking
  another node's target exactly if some zero-length tie lets a lesser key through
  (`ZeroLengthEdgeStealsTarget` is an instance); with positive lengths it never happens.
- `Standing.WalksAgreeIff`: a townward link cut part-way on the reverse twin of its junction's
  edge is recorded as running to the twin's end. Throughout a state on repeat-free paths, stored
  lengths and re-walked journeys agree if and only if every path is recorded as ending where it
  is left (`EndsAsRecorded`, which looks at the last edge, the junction and the recorded end
  only). `TwinEndOverwalks` says by how much one such link misses, and `TwinCut.TwinCutOverwalks`
  is a street on which the planner's townward candidate is one.
- `NewLinks.RouteFromAttachment`: excluding an edge filters the search but not the attachment
  seeds, so the route uses the excluded edge if and only if it is a reverse of the attached edge
  and setting out on it wins by length, key and edge (`SetsOutOn`). Mostly this is no detour at
  all: where the shortest route needs the edge only to set out, the search without it comes to
  a link of the same length and key again (`DetourIsNone`); the planner drops it when the path is
  the same, so for such an edge nothing may be listed. But it can be a longer route that the
  planner does list as a detour around the very edge it sets out on (`ExcludedReverseIsTaken`).
  Around every other edge of the shortest route the best detour keeps off it and is listed
  (`Offers.TrueDetourListed`).
- `ShortStop.LeftBeforeEntered`: with an edge of no length the planner can file what is no path. The
  route stops at a node that carries the target of a town entry on the street it came along, and
  is recorded as left at that entry, behind the point where it sets out. So what the planner
  promises of junctions and paths asks for positive lengths; that every community is
  decided once and ends with one record does not (`Partition.OneRecordEach`).
- `Canonical.OrderFreeIffKeysDecide`: the order in which sets and mappings list their members
  can show in an encoding, and does so exactly where some mapping inside the value has two keys
  that encode alike with values that do not; two not-a-number keys are such a pair
  (`NanKeysShowOrder`). Whether a value is of that kind can be told without encoding it: some
  mapping has two keys that are the same typed value with values that are not
  (`OrderFreeIffSameKeysDecide`).

## Model

| member | source | states |
|---|---|---|
| Queues.Pop | rust/src/graph.rs:262-275 | the queue hands out a least entry, by distance then node, and keeps all others |
| RouteSearch.RouteInternal | rust/src/graph.rs:254-295 | a route is returned exactly when the end is reachable over admitted edges; it is a contiguous directed walk and its search cost is the least over all walks, despite early exit and stale entries |
| RouteSearch.RouteFromSearch | rust/src/graph.rs:610-632 | reading back through `previous` terminates in the walk the labels describe |
| RouteTurns.RouteDueIs | rust/src/graph.rs:254-295 | the route follows from the graph and the query alone: whatever order the queue keeps equal entries in, the search ends in one state and reads one route back |
| Dijkstra.LabelIsDistance | rust/src/graph.rs:262-294 | the label of a node popped from the queue is its true distance |
| Dijkstra.Exhausted | rust/src/graph.rs:262-294 | once the queue is empty exactly the reachable nodes are labelled |
| RoleRoutes.OptimalKeepsExchange | rust/src/graph.rs:1167-1193 | against the direct route, strategic-spine and ncn-informed routes buy length only at their exchange rate, keep at least the direct share, and every role's stretch is bounded |
| RoleRoutes.ShareGrows | rust/src/compiler.rs:4056-4065 | a share does not fall when the part grows by at least as much as the whole |
| RoleRoutes.ConnectionCandidates | rust/src/compiler.rs:3838-3866 | one candidate per distinct path, every role carried by a candidate that shows an optimal route of that role, each within its exchange against the direct route, which comes first |
| RoleRoutes.AddRole | rust/src/compiler.rs:3847-3865 | a role joins the candidate with its path as an alias or becomes a new candidate, and nothing shown before is lost |
| RoleRoutes.PrepareConnection | rust/src/compiler.rs:3810-3820 | the direction is left to right when that is travelable, else right to left; there are candidates exactly if one direction is |
| Components.ReciprocalComponents | rust/src/graph.rs:1233-1270 | the components partition the nodes of the graph, two nodes share one exactly if joined by edges present in both directions, and a largest comes first |
| Components.Flood | rust/src/graph.rs:1245-1261 | the worklist ends having visited exactly the nodes reachable from its start |
| Components.SharedIffJoined | rust/src/graph.rs:1233-1270 | sharing a component is the same as being joined reciprocally |
| Adjacency.OfferPlace | rust/src/compiler.rs:3916-3950 | searching from one more place gives it exactly the nodes it is nearest to, ties going to the lesser id |
| Adjacency.AssignOwners | rust/src/compiler.rs:3915-3951 | every node is owned by the place that is least by undirected distance and then place id among those reaching it |
| Adjacency.GroupEdges | rust/src/compiler.rs:3952-3975 | edges between regions are grouped under the ordered pair of their owners, all of them and only them |
| Adjacency.PrepareAdjacencies | rust/src/compiler.rs:3900-3995 | the prepared adjacencies are exactly the pairs of owners that some edge joins |
| Adjacency.RegionsAreStarShaped | rust/src/compiler.rs:3915-3951 | every node on a shortest walk from an owner to a node it owns has the same owner |
| Adjacency.PlacesConnected | rust/src/compiler.rs:3900-3995 | two places that own their attachment nodes in one undirected component are linked by a chain of prepared adjacencies |
| FrontierSearch.FrontierSearchExcluding | rust/src/graph.rs:382-474 | every node gets the least (distance, key) over all cycleable walks that avoid the excluded edge and join the frontier, and no label exactly if there is none; labels can be traced back and marks are as stated |
| FrontierSearch.LabelsAreLeast | rust/src/graph.rs:436-472 | once the queue is empty every label is a least join and every joinable node has one |
| FrontierTurns.EndsOnlyWith | rust/src/graph.rs:382-474 | the labels, the edges behind them and the marks with which the backward search ends follow from its frontier alone |
| FrontierRoutes.FollowLabels | rust/src/graph.rs:645-662 | following `previous` from a labelled node ends at a frontier node |
| FrontierRoutes.RouteFromFrontierNode | rust/src/graph.rs:634-679 | the route read back is contiguous, measures exactly the label's distance and carries the label's target; it is missing only if it would end on an edge closed to cycling |
| FrontierRoutes.ReadsOnce | rust/src/graph.rs:645-662 | there is one way to follow the labels |
| FrontierRoutes.MarksHonestIffNoTieSteals | rust/src/graph.rs:455-468 | marked nodes carry their own seed's target if and only if no zero-length tie steals one |
| FrontierRoutes.PositiveLengthsSuffice | rust/src/graph.rs:172-180 | with positive lengths on cycleable edges no tie steals a target |
| FrontierRoutes.ZeroLengthEdgeStealsTarget | rust/src/graph.rs:461-466 | an instance in which a marked whole node has taken another node's target |
| AttachmentRoutes.SeedSound | rust/src/graph.rs:887-940 | every seed leads from the attachment along a cycleable edge to that edge's end, by the length of the stretch |
| AttachmentRoutes.PrependRuns | rust/src/graph.rs:942-966 | prefixing a seed keeps the route contiguous and adds the seed's length |
| NewLinks.RouteFromAttachment | rust/src/graph.rs:485-528 | the link from an attachment is the least (length, key) over every way of setting out and joining, exists exactly if there is one and can be recorded; it uses the excluded edge exactly if setting out on it wins, and then only as its first edge, a reverse of the attached one |
| NewLinks.BestSeedRoute | rust/src/graph.rs:511-527 | over all seeds the chosen link is a least one by length, key and first edge |
| NewLinks.FirstEdgeIff | rust/src/graph.rs:511-527 | the chosen link sets out on an edge if and only if some join along it has none ahead by length, key and edge |
| NewLinks.DetourIsNone | rust/src/graph.rs:485-528 | where the shortest link sets out on an edge and goes on without it, excluding that edge leads to a link of the same length and key that sets out on it again |
| NewLinks.ExcludedReverseIsTaken | rust/src/graph.rs:511-527 | an instance in which the detour around an edge is longer than the shortest route and yet sets out on that edge |
| Townward.CyclingRouteFromAttachment | rust/src/graph.rs:530-552 | the route from an attachment to a node is a shortest over all ways of setting out and exists whenever one does |
| Townward.RouteToPartial | rust/src/compiler.rs:2495-2538 | the cut at a partial target is where the route first meets its point ahead of its own start |
| Townward.FirstCrossing | rust/src/compiler.rs:2464-2492 | of all cuts at frontier nodes and partial targets the chosen is one that none beats by length and then key |
| Townward.DestinationCandidate | rust/src/compiler.rs:2426-2493 | a townward candidate is a shortest route to the town cut where it first meets the frontier, exists exactly if such a cut does, and can be recorded |
| Access.AccessFrontierTargets | rust/src/compiler.rs:3330-3406 | every node an accepted path passes, first mention first, with what remains from there |
| Access.NodeTargetHolds | rust/src/compiler.rs:3330-3406 | on a repeat-free path what a node target says remains is what lies ahead of the place where the junction is found again |
| Access.EdgeTargetHolds | rust/src/compiler.rs:3145-3175 | the same for a point part-way along a path edge |
| Journey.AccessPathRouteFrom | rust/src/compiler.rs:1254-1299 | the path's route from a place on it, or none if an edge cannot be travelled so |
| Journey.PathRouteLength | rust/src/compiler.rs:1254-1299 | walking a sound path from a place on it never fails and covers exactly what lies ahead |
| Journey.RootwardLength | rust/src/compiler.rs:1147-1228 | from a junction that holds, the walk over all ancestors succeeds and measures what the child recorded as remaining |
| Journey.StoredEqualsWalked | rust/src/compiler.rs:1129-1145 | each stored full length is the length of the walked journey |
| Journey.RootReached | rust/src/compiler.rs:1469-1491 | the chain of parents always ends in a root at depth nothing with the same terminal |
| AccessFrontier.FrontierTargets | rust/src/compiler.rs:3125-3186 | the frontier is exactly the spine nodes, town entries and accepted paths, the least key winning at each node, and follows from the records taken in order of their ids |
| AccessFrontier.FrontierHolds | rust/src/compiler.rs:3125-3186 | every target of the frontier says truly what remains and sits where its junction says |
| AccessFrontier.FrontierOnlyGrows | rust/src/compiler.rs:3125-3186 | a walk to the frontier stays one of the same length once another record is accepted |
| AccessFrontier.DistancesNeverGrow | rust/src/compiler.rs:2594-2622 | accepting a record never increases a node's distance to the frontier |
| AttachmentRoutes.PlanIsSound | rust/src/compiler.rs:2666-2791 | whatever link is planned records a contiguous cycleable path, an order, a depth one below its parent and lengths that add up |
| AttachmentRoutes.TwinEndMeasures | rust/src/compiler.rs:2696-2701 | a path that ends on the reverse twin of its junction's edge is measured to the twin's end |
| IntervalLinks.AcceptedIntervalRoute | rust/src/compiler.rs:3207-3328 | of all places on accepted paths the attachment lies beside, the one of least key is taken, the earlier record and place winning a tie; there is one exactly if it lies beside a path, and it can be recorded |
| Standing.PlannedStands | rust/src/compiler.rs:2666-2791 | every record the planner may file names a junction at which what it says remains does remain |
| Standing.AcceptKeepsStanding | rust/src/compiler.rs:2594-2622 | accepting a record that stands keeps all standing |
| Standing.StandingIsWalked | rust/src/compiler.rs:1129-1299 | in every standing state whose paths repeat nothing, each stored full length is the length re-walked to the root, and the walk never fails |
| Standing.WalksAgreeIff | rust/src/compiler.rs:1129-1299 | throughout a state on repeat-free paths, stored lengths and walks agree if and only if every path is recorded as ending where it is left |
| Standing.PlanEnds | rust/src/compiler.rs:2696-2701 | a planned link measures its path exactly when its end is recorded as it is |
| Standing.StandingReachesRoot | rust/src/compiler.rs:1469-1491 | every accepted record reaches a root with its own terminal |
| Standing.TwinEndOverwalks | rust/src/compiler.rs:2699-2701 | a link cut on a reverse twin is re-walked longer than stored by the stretch not taken, equal if and only if nothing was cut off |
| TwinCut.TwinCutOverwalks | rust/src/compiler.rs:2426-2538 | a street on which the townward candidate is cut on a twin edge: ten metres are stored, fourteen walked |
| Offers.ChooseRoute | rust/src/compiler.rs:2263-2272 | a community beside an accepted path takes its earliest choice, else its edge's spine, else the least link by length and key; no link to the frontier is shorter, and there is a choice exactly if there is a link |
| Offers.ShortestPending | rust/src/compiler.rs:2259-2291 | the leader takes its own choice, and no pending community has a shorter link, lesser ids winning ties |
| Offers.LeaderIsOne | rust/src/compiler.rs:2259-2291 | there is one leader, with one route and target |
| Offers.DetourAround | rust/src/compiler.rs:2310-2321 | a detour is a least link of the search without the edge, keeps off it except as a winning first edge that is a reverse of the attached one, and follows from the frontier; the attached edge itself has none |
| Offers.Detours | rust/src/compiler.rs:2307-2346 | every detour can be recorded, goes round an edge of the shortest route and differs from it; around every edge the best detour is listed unless it is the shortest route over again |
| Offers.TrueDetourListed | rust/src/compiler.rs:2307-2346 | around an edge that is no reverse of the attached one the best detour keeps off it altogether, and is listed if there is one |
| Offers.TownwardCandidates | rust/src/compiler.rs:2388-2417 | townward candidates can be recorded and repeat no path and no id, what stood before stays in front, and no town's way is missing |
| Planner.RuralAccessPlanner.constructor | rust/src/compiler.rs:2106-2145 | every rural community starts pending and nothing is accepted |
| Planner.RuralAccessPlanner.ComputeOffer | rust/src/compiler.rs:2248-2424 | the offer opens with a shortest link any pending community would take, then the preferred detour if there is one, then every town's way; all can be accepted as things stand, and without an offer nobody has a link; community, ids, paths and parents follow from the setup and the state |
| Planner.RuralAccessPlanner.OfferNext | rust/src/compiler.rs:2232-2246 | the offer is the one the state calls for, the same for the same setup and rulings, and a cached one is repeated until it is ruled on |
| Planner.RuralAccessPlanner.Accept | rust/src/compiler.rs:2594-2622 | exactly the named candidate of the state's offer is filed, its community is no longer pending, the order grows by one; each error is met exactly as named and changes nothing |
| Planner.RuralAccessPlanner.Reject | rust/src/compiler.rs:2624-2642 | the community of the state's offer is decided without a link and no accepted record changes; it fails only when there is nothing to offer |
| Planner.RuralAccessPlanner.IntoRecords | rust/src/compiler.rs:2644-2664 | exactly one record per rural community, in order: those decided, and a gap for each still pending; the same for the same setup and rulings |
| IntervalLinks.EarliestIsOne | rust/src/compiler.rs:3316-3323 | which place is taken is settled: there are never two earliest choices |
| PlannerStates.AcceptConserves | rust/src/compiler.rs:2608-2621 | accepting keeps pending and decided communities a partition of the rural ones, and only accepted ones can be parents |
| PlannerStates.RejectConserves | rust/src/compiler.rs:2629-2641 | rejecting keeps the partition and adds nobody who could be a parent |
| PlannerStates.NextOfferNoShorter | rust/src/compiler.rs:2624-2642 | after a rejection the next offer is no shorter than the one rejected, lesser ids first |
| PlannerStates.OfferIsLeastChoice | rust/src/compiler.rs:2259-2302 | the offer opens with its community's own choice, and no pending community's choice comes before it by length and then id |
| PlannerStates.RejectLeavesChoices | rust/src/compiler.rs:2624-2642 | a rejection leaves what every other community takes as it was, route, target and all, and the next offer is the least of those |
| PlannerStates.RuledIsOne | rust/src/midend.rs:1034-1124 | the same rulings lead to the same planner state, so replaying them restores it |
| PlannerStates.RuledIsProper | rust/src/compiler.rs:2594-2642 | in every state any rulings lead to, the records stand, the partition holds, everyone ruled on is decided and the accepted are those with a primary record |
| Partition.CandidatesLink | rust/src/compiler.rs:2666-2791 | on any graph the candidates put together for a leader are linked records of its own community |
| Partition.RulingsConserve | rust/src/compiler.rs:2594-2642 | whatever linked candidates are offered, rulings keep every community either pending or decided with one record, those with links filed and the rest not |
| Partition.OneRecordEach | rust/src/compiler.rs:2644-2662 | on any graph the final records hold each community exactly once, in order of ids, with a link exactly if it was filed |
| Partition.PlannerRulesOnLinks | rust/src/compiler.rs:2594-2642 | the rulings that lead the planner anywhere are rulings on linked candidates |
| ShortStop.LeftBeforeEntered | rust/src/compiler.rs:2683-2701 | on a street with a stub of no length the community takes a route recorded as left before it is entered, which is no path |
| ShortStop.FileBackwards | rust/src/compiler.rs:2683-2701 | the frontier built and searched there does lead to that record |
| PlannerSoundness.StandingOfferIsSound | rust/src/compiler.rs:2248-2424 | a standing offer names a community not ruled on, with distinct candidates whose parents were accepted |
| PlannerSoundness.OfferAfterIsSound | rust/src/compiler.rs:2232-2424 | whatever was ruled, the next offer names a community not ruled on, with distinct candidates under accepted parents |
| PlannerSoundness.PlannedRunIsSound | rust/src/midend.rs:1014-1028 | a run whose planner works on the prepared spines with the report's selected alignments put among them meets all that the theorems about runs ask |
| SpineTargets.SpineTargetIndex.constructor | rust/src/compiler.rs:3512-3564 | an edge carries exactly the admitted corridors over it, and the node index agrees |
| SpineTargets.SpineTargetIndex.RebuildTargetNodes | rust/src/compiler.rs:2219-2230 | the rebuilt node index is exactly the union of the spines on target edges at each node |
| SpineTargets.SpineTargetIndex.AddSelectedAlignmentTargets | rust/src/compiler.rs:2147-2165 | exactly the graph edges on the selected paths gain their alignments, the node index agrees, and both indexes are the functions of what was there and what was selected that a run's planner works on |
| SpineTargets.SpineTargetIndex.ExcludeDisplacedBaselineTargets | rust/src/compiler.rs:2167-2183 | exactly the edges drawn like a displaced geometry, either way round, lose their spines |
| SpineTargets.SpineTargetIndex.ApplyStrategicNetworkScope | rust/src/compiler.rs:2188-2217 | an unknown edge changes nothing; otherwise selected edges carry the officer spine alone, edges only deselected are absent, others are untouched |
| SpineTargets.InsertAgrees | rust/src/compiler.rs:3566-3581 | a spine put on an edge and on both its ends keeps the index in step |
| SpineTargets.EdgeAgrees | rust/src/compiler.rs:2219-2230 | indexing one more edge keeps the partial index exact |
| History.HistoryStore.ReadChain | rust/src/midend.rs:479-502 | reading ends on any log, and on a valid one neither a cycle nor a missing event is met |
| History.HistoryStore.Append | rust/src/midend.rs:504-524 | an append extends exactly one branch by one event; a cut between event line and head changes no branch, and with power for both writes it succeeds |
| History.HistoryStore.Fork | rust/src/midend.rs:1970-1995 | the new branch holds the source strictly before the named task's first event, nothing else changes, and each error is exactly as stated |
| History.IdsAreUnique | rust/src/midend.rs:510-513 | no two events of the log share an id |
| History.ChainsClimb | rust/src/midend.rs:479-524 | along a chain each event is the parent of the next and numbers grow |
| History.WalkToPlace | rust/src/midend.rs:479-502 | the chain before a place on it is the chain of the parent found there |
| History.WalkIgnoresLater | rust/src/midend.rs:479-524 | later events change no chain |
| Attempts.PendingAttempt | rust/src/midend.rs:526-544 | on an orderly branch the pending attempt is exactly a start that nothing follows |
| Attempts.Attempt | rust/src/midend.rs:1338-1472 | a retained result is used without a call; otherwise the start is durable before the single call and the result after it |
| Attempts.NotYetStarted | rust/src/midend.rs:753-764 | an attempt without a result on a branch with none open has never been started |
| Attempts.CallKeeps | rust/src/midend.rs:1338-1404 | calling a started attempt nobody was called for keeps every attempt of a branch called at most once |
| Attempts.ForkKeeps | rust/src/midend.rs:1970-1995 | a fork before a task keeps at-most-once calls and is never cut off in an attempt |
| RuralChoice.DominanceIsOneWay | rust/src/midend.rs:2319-2358 | dominance never goes both ways |
| RuralChoice.ComparedAlike | rust/src/midend.rs:2333-2346 | two candidates are always compared by equally many quantities |
| RuralChoice.MechanicalIgnoresOrder | rust/src/midend.rs:2304-2317 | what an offer settles by itself does not depend on how its candidates are listed |
| Script.DecisionFitsTask | rust/src/midend.rs:2947-3217 | the decision a block ends with is about its own connection or community and validates |
| Course.OneCourse | rust/src/midend.rs:741-1336 | of two decision sequences a run can make, the shorter begins the longer |
| Course.OneEnd | rust/src/midend.rs:741-1336 | two finished branches hold the same events |
| Course.CourseLeadsToEnd | rust/src/midend.rs:741-1336 | a branch on course holds no decision that a finished one does not begin with |
| Lookups.NextIsNew | rust/src/midend.rs:786-798 | the next decision task was never decided nor put before |
| Lookups.TasksRetained | rust/src/midend.rs:551-558 | each decision's task is retained as it was put |
| Lookups.GapsComeLast | rust/src/midend.rs:1281-1331 | once one community is recorded as a gap the planner has nothing more to offer |
| Settling.PutTask | rust/src/midend.rs:788-799 | a retained task is used as it was first put, else the generated one is recorded |
| Settling.AskClassifier | rust/src/midend.rs:1338-1404 | the classifier's answer, retained or asked for, is the one the course has, from wherever the block was cut |
| Settling.AskSpecialist | rust/src/midend.rs:1406-1472 | the same for the specialist |
| Settling.Consult | rust/src/midend.rs:800-931 | the providers' decision is the course's, and a cut leaves the block part-way |
| Settling.Decide | rust/src/midend.rs:945-953 | the decision is recorded only if it validates, and on course it always does |
| Midend.Settle | rust/src/midend.rs:785-964 | deciding a task from wherever it was cut ends its block, or leaves it part-way if the power is cut |
| Runs.RunUrban | rust/src/midend.rs:782-965 | all connections end decided, in order; with all decided nothing is written |
| RuralReplay.ReplayRulings | rust/src/midend.rs:1034-1124 | replaying retained rural decisions brings the planner to exactly the rulings they record, and on course never fails |
| RuralReplay.SelectedStays | rust/src/midend.rs:1016-1028 | once a rural decision is made the selected alignments no longer change |
| RuralRuns.RunOffers | rust/src/midend.rs:1126-1261 | the offer loop ends with the planner exhausted, on course throughout |
| RuralRuns.OfferIsNew | rust/src/midend.rs:1139-1144 | an offered community is never one already decided |
| Gaps.RunGaps | rust/src/midend.rs:1283-1331 | every community no offer reached is recorded, once, and then nothing is left to ask |
| DecisionRuns.RecordsSayDecisions | rust/src/midend.rs:2511-2552 | the records a history yields are one per decided community, in order, with the selected route or with none |
| DecisionRuns.ReplayAgrees | rust/src/midend.rs:967-982 | run and replay return the same community access |
| Resumption.RunInternal | rust/src/midend.rs:741-1003 | a run refuses an open attempt, otherwise carries a branch on course to its end or to a power cut, losing no decision, spending power on durable work alone and never more than three units an event beyond two; on a finished branch it writes and calls nothing |
| Resumption.RunRuralSequence | rust/src/midend.rs:1005-1336 | the rural part does the same from any point |
| Resumption.CourseIsValid | rust/src/midend.rs:765-775 | every retained operation of a branch on course validates |
| Replays.Replay | rust/src/midend.rs:1474-1520 | replay returns the branch's operations and their access exactly if all validate, and writes nothing |
| Replays.FinishedReplays | rust/src/midend.rs:1474-1520 | a finished branch always replays, to the run's operations and to its access |
| Replays.FinishedSaysDecisions | rust/src/midend.rs:2511-2552 | the access a finished run returns says what was decided for every community |
| Replays.FreshIsCourse | rust/src/midend.rs:741-764 | a branch that holds nothing yet is on course |
| Replays.RunThroughCuts | rust/src/midend.rs:741-1003 | whatever cuts fall, no attempt is called twice and a run that ends well has left the events of any other run that did; with power for three units an event of the whole course the last run ends well unless a cut left an attempt open |
| Replays.RunWithPower | rust/src/midend.rs:741-1003 | a run that is cut has added an event for at least every three units of its power beyond two, so enough power reaches the end |
| Endings.CourseEnds | rust/src/midend.rs:741-1336 | every course has an end: the connections, the places and the gaps run out |
| Endings.WithinEnd | rust/src/midend.rs:741-1336 | a branch on course holds no event that a finished one does not begin with |
| Replays.ForkIsCourse | rust/src/midend.rs:1970-1995 | a fork before a task of a branch on course is on course |
| JsonText.TokensDetermine | scripts/benchmark_cross_spine.py:236-249 | what is printed determines the tree and where it ends |
| Canonical.EncodedAlike | scripts/benchmark_cross_spine.py:124-250 | values that encode alike are the same typed value |
| Canonical.SameEncodesAlike | scripts/benchmark_cross_spine.py:124-250 | the same typed value encodes alike however sets and mappings list their members, if keys decide entries |
| Canonical.EncodingIsCanonical | scripts/benchmark_cross_spine.py:124-250 | two values encode alike if and only if they are the same typed value, under that condition |
| Canonical.OrderFreeIffKeysDecide | scripts/benchmark_cross_spine.py:124-250 | the order of members shows nowhere in a value if and only if, in every mapping inside it, keys that encode alike have values that do |
| Canonical.KeysDecideIff | scripts/benchmark_cross_spine.py:124-250 | whether keys decide entries is the same asked of encodings or of the typed values themselves |
| Canonical.OrderFreeIffSameKeysDecide | scripts/benchmark_cross_spine.py:124-250 | the order of members shows nowhere in a value if and only if, in every mapping inside it, keys that are the same typed value have values that are |
| Canonical.NanKeysShowOrder | scripts/benchmark_cross_spine.py:238-241 | two not-a-number keys with different values show their insertion order |
| Canonical.SortCanonical | scripts/benchmark_cross_spine.py:246-249 | sorting by printed key gives one result for all arrangements of items the keys tell apart |
| TileCache.RunKeeps | scripts/acquire_ea_elevation.py:522-556 | in every interleaving a published receipt or object never changes |
| TileCache.SuccessesAgree | scripts/acquire_ea_elevation.py:559-661 | all calls that succeed for one request return one digest, and the object hashes to it |
| TileCache.FreshIsSound | scripts/acquire_ea_elevation.py:559-596 | an empty cache with workers that have only begun meets what the theorems ask |
| TileCache.StepsRunOut | scripts/acquire_ea_elevation.py:616-661 | every worker ends within its failure budget, whatever the others do |
| TileCache.CachedCallsSucceed | scripts/acquire_ea_elevation.py:596-615 | without hash collisions a published tile is answered from the cache ever after |
| TagCollection.ParseStringifiedCollection | rust/src/geojson.rs:224-258 | the character loop reads exactly what the recursive reading says |
| TagCollection.RoundTrip | rust/src/geojson.rs:224-266 | reading back a printed list, tuple or set gives its items, a set's sorted, with or without a trailing comma and with space around |
| TagCollection.SortOrdered | rust/src/geojson.rs:254-256 | a set's items come out in order |
| Ring.PointInRing | rust/src/compiler.rs:3742-3759 | the loop answers whether an odd number of sides is crossed |
| Ring.RotationInvariant | rust/src/compiler.rs:3742-3759 | starting the ring at another vertex changes nothing |
| Ring.ReversalInvariant | rust/src/compiler.rs:3742-3759 | walking the ring the other way round changes nothing |
| Ring.ClosingVertexInvariant | rust/src/compiler.rs:3742-3759 | a closing vertex may be there or not (section 3.1.6 of RFC 7946 asks for it) |
| Ring.InsertedVertexInvariant | rust/src/compiler.rs:3742-3759 | a vertex put anywhere on a side changes nothing |

## Left out

- Geometry, projection, haversine lengths and polygonising: edge lengths and attachment fractions are given.
- Topography, moving time and the ranking of comfort detours: which detour is offered is a parameter of the planner (`prefer`), and profiles are a parameter of the mechanical choice.
- Provider transport, process execution, JSON and YAML files, torn lines and float text: durable state is a sequence of events and a branch map.
- The base file a run is bound to (rust/src/midend.rs:383-429): the planning base is fixed.
- Reason and uncertainty texts, receipts, progress events and provenance: a proposal only says whether it gives a reason and an uncertainty.
- Officer ledgers and their regenerated rural bindings (rust/src/midend.rs:1522-1949): the spine scope is modelled, the ledger is not.
- Id texts: `task:` and `task:rural:` ids are told apart by construction, spine ids hold no `+`, and an `edge:id@fraction` junction is a value, so its twelve digits are exact.
- Edge ids compare as texts in the last tie-break of equally long links with equal keys; here they compare by place in the edge table.
- Records written without a stored new-link length fall back to their access length (rust/src/compiler.rs:3340-3352); every record the planner files has one.
- Standing.StandingIsWalked: asks that paths repeat no node and no edge geometry, and that none is recorded as ending elsewhere than it is left, because junctions are found again by their first match (rust/src/compiler.rs:1186-1219) and the code does not exclude such paths.
- AccessFrontier.FrontierHolds: assumes positive lengths on cycleable edges, edges drawn alike joining the same nodes, and town entries on cycleable edges, which admission does not exclude.
- Offers.ChooseRoute: an attachment beside an accepted path takes the place of least key there, not of least length, so only links off accepted paths are claimed least over all ways of joining.
- Planner.RuralAccessPlanner.constructor: assumes of the graph what `AccessFrontier.FrontierHolds` assumes, because otherwise what the planner files need not be a path at all (`ShortStop.LeftBeforeEntered`); the partition of the communities is proved without it (`Partition.OneRecordEach`), the chain of parents is not.
- Planner.RuralAccessPlanner.ComputeOffer: journeys shown as destination evidence are not part of this model.
- Resumption.RunInternal: resuming under another configuration or with a provider that answers differently is covered only by the at-most-once and history invariants.
- Canonical.EncodedAlike: Python's exact spellings of integers, floats, bytes and dates are taken to identify them, and character escaping is below the level of tokens.
- TileCache.SuccessesAgree: nothing outside the workers changes the cache directory.

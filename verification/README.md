# Verification model of Ferrodoc

Ferrodoc turns documents into a graph of evidence, refines that graph with engines, and keeps every state
reproducible. This project models the parts of it whose correctness is hard to see from any one function, and proves
what they promise. `dafny verify dfyconfig.toml` checks everything.

**Evidence states** (`DocumentIr`, `EvidenceState`, `Materializer` and the modules of lemmas around them). A document is
rebuilt by replaying evidence deltas in place, sorting and validating. Each document is given its multiset of facts; one
delta adds exactly its own, and facts, header and selected views determine a valid canonical document. From that follow
append-only evidence, order independence, and the exact relation between full replay and a checkpoint with a tail. The
validator's worklist (`ReadingOrder`) and its other loops (`Validation`) are proved to accept exactly the valid documents,
`ValidityMeaning` says what those are point by point and record by record, `MaterializedForm` how a materialized document
is ordered, and `MaterializationChecks` and `Admission` when a materialization is refused.

**Progressive enrichment** (`PlanEstimates`, `ParetoPlans`, `EnrichmentPlanner`, `EnrichmentExecution`,
`EnrichmentRuntime`). Missing goals are split into atoms, a bounded product of alternatives is priced with interval
estimates, and a Pareto frontier is offered. Executing an offered plan adds one delta for each invocation; the progress
theorem spans planning, execution, materialization and planning again. `PlanMeasures`, `PlanAlternatives` and
`PlanMeaning` say what is offered in terms of the registered stages and accepted placements alone, `EvidenceAttribution`
what an engine's response becomes.

**Leases** (`LeaseScheduler`, `LeaseMeaning`, `SchedulerObject`). Admission by saturating addition, accounting by plain addition, warm
models: a transition system over one locked state.

**Host and child** (`Framing`, `EngineProtocol`, `EngineRuns`, `ProcessHost`). Length-prefixed frames over byte streams;
above them a host and a child with FIFO channels, timeouts, cancellation, child exits and restarts at any point.

**Stage cache** (`StageCache`, `StageCacheObject`). Writers and readers as sequences of single file operations, in any
interleaving, each of which may fail.

**Smaller algorithms** (`StumpRouter`, `Orderings`, `CandidatePlanner`, `PlannerMeaning`, `PlannedLease`,
`ExactQuantities`, `Identity`, `TextSegmentation`, `SegmentationMeaning`). Threshold search, candidate planning and its agreement with the scheduler, exact decimal
quantities, identity encoding, text segmentation.

## What the code does not promise

Five properties that read as promises hold only under a condition. Each is proved with its exact condition, and
with an input that breaks it:

- A checkpoint run can succeed where full replay reports conflicting hints, because it starts with no recorded hints
  (`CheckpointTransparency`, `CheckpointMayReplaceSelection`).
- The scheduler's plain additions can pass 64 bits when a budget is the largest 64-bit value (`NeverOverflowsIff`,
  `RamOverflow`, `DeviceOverflow`).
- An execution leaves its blob with the child when the wrapping request counter goes round between registration and
  release (`ExecutionLeavesRegistry`, `WrappedCounterKeepsBlob`).
- A candidate accepted without any known memory limit may be refused by the scheduler's default budget, and one on a
  device of unknown free memory by its missing budget (`AcceptedCandidateNormalizes`, `UnboundedPlanExceedsDefault`).
- A cache entry whose metadata file exceeds 1 MiB is published, then reported as corrupt by the put that published it
  and by every later read and put of its key (`Cache.Write`, `OversizedMetadataPoisons`, `LongMediaTypePoisons`).

## Assumptions

Hash functions, the canonical order of semantic keys, engine answers, placements, the clock and the operating system are
parameters; lemmas that need a hash or an encoding to be injective, or a codec to invert, require it explicitly.
A directory rename onto an existing entry fails, and writers' staging directories have distinct names. Registered stages
have distinct identities and proper intervals, as registration checks (crates/ferrodoc-runtime/src/enrichment.rs:431-470),
and rectangles no negative sides, as their constructor checks (crates/ferrodoc-core/src/geometry.rs:66-92).

## Model

| member | source | states |
|---|---|---|
| Materialization.CheckpointTransparency | crates/ferrodoc-ir/src/state.rs:376-445 | from a checkpoint reached by a prefix, full replay succeeds exactly when the tail run from the checkpoint succeeds and no tail hint contradicts a prefix hint, and then both return the same document |
| Materialization.FullImpliesTail | crates/ferrodoc-ir/src/state.rs:376-445 | whenever full replay of prefix and tail succeeds, the tail run from the checkpoint succeeds with the identical document |
| Materialization.TailImpliesFull | crates/ferrodoc-ir/src/state.rs:376-445 | a tail run whose hints do not contradict the prefix means full replay succeeds |
| CheckpointConflict.CheckpointMayReplaceSelection | crates/ferrodoc-ir/src/state.rs:589-606 | a concrete source, delta and tail where full replay reports conflicting hints and the run from the checkpoint succeeds: the checkpoint starts with no recorded hints |
| Materialization.OrderIndependence | crates/ferrodoc-ir/src/state.rs:415-445 | two orders of one delta list that both materialize against one manifest give the same document, selected views included |
| Materialization.OrderTransfer | crates/ferrodoc-ir/src/state.rs:415-445 | what one order materializes, another order of the same deltas materializes exactly when its deltas find their prerequisites in turn, and then to the same document |
| Materialization.AppendOnly | crates/ferrodoc-ir/src/state.rs:447-566 | a successful materialization holds every page, layer, artifact, region, evidence record and edge it started from, plus exactly those of its deltas, as multisets; its header is unchanged and it is valid |
| Conservation.ApplyFacts | crates/ferrodoc-ir/src/state.rs:519-566 | applying one delta adds exactly the facts of that delta and removes or alters none |
| Conservation.ReplayFacts | crates/ferrodoc-ir/src/state.rs:432-437 | the same for a whole replay |
| Conservation.CanonicalFacts | crates/ferrodoc-ir/src/state.rs:654-672 | putting a document in canonical order keeps its facts |
| Determination.Determined | crates/ferrodoc-ir/src/state.rs:654-672 | facts, header and selected views leave exactly one valid document in canonical order |
| Determination.ValidHasUniqueKeys | crates/ferrodoc-ir/src/lib.rs:407-428 | a valid document holds every page once and every region of a page once |
| Selections.ReplayTracked | crates/ferrodoc-ir/src/state.rs:567-608 | after a replay every region carries the last hint recorded for it, or the view it was introduced with, and the recorded hints are exactly those given |
| Selections.BirthsFunctional | crates/ferrodoc-ir/src/state.rs:567-608 | with unique keys each region was introduced with one selected view |
| ReplayAdmission.ApplyIff | crates/ferrodoc-ir/src/state.rs:447-608 | a delta applies exactly when it is admissible over the accumulated facts and its hints agree with the earlier ones, so success does not depend on storage order |
| ReplayAdmission.ReplayIff | crates/ferrodoc-ir/src/state.rs:432-437 | a replay succeeds exactly when its deltas are admissible in turn and all hints agree |
| Persistence.ScopeContainment | crates/ferrodoc-ir/src/state.rs:478-518 | at every step of a successful materialization a region-scoped delta leaves the evidence and the selected view of every earlier region outside its targets as they were |
| Persistence.ApplyElsewhere | crates/ferrodoc-ir/src/state.rs:478-608 | one region-scoped delta changes no region outside its targets, although ids the delta introduces are also admitted |
| Persistence.CellSourcesPersist | crates/ferrodoc-ir/src/lib.rs:554-642 | every table cell with source spans stays on its page in every later state, and its spans still resolve to bytes whose concatenation is the cell text |
| ReadingOrder.EnsureAcyclic | crates/ferrodoc-ir/src/lib.rs:678-713 | the worklist terminates and accepts exactly the edge multisets without a directed cycle |
| ReadingOrder.Exhausted | crates/ferrodoc-ir/src/lib.rs:678-713 | with nothing ready, every region was visited exactly when there is no cycle |
| ReadingOrder.StuckHasCycle | crates/ferrodoc-ir/src/lib.rs:678-713 | if the ready stack is empty and some region is unvisited, the unvisited regions contain a directed cycle |
| ReadingOrder.RankedIsAcyclic | crates/ferrodoc-ir/src/lib.rs:678-713 | a numbering that grows along every edge excludes a directed cycle |
| ReadingOrder.CountEdges | crates/ferrodoc-ir/src/lib.rs:682-691 | the indegrees and outgoing lists count every edge once |
| ReadingOrder.Relax | crates/ferrodoc-ir/src/lib.rs:698-707 | releasing a visited region keeps every count equal to the pending edges and pushes each newly free region once |
| Validation.Validate | crates/ferrodoc-ir/src/lib.rs:407-428 | validation accepts exactly the valid documents |
| Validation.ValidateEvidenceGrade | crates/ferrodoc-ir/src/lib.rs:436-450 | the evidence-grade check accepts exactly the valid documents whose table cells all carry source spans |
| Validation.ValidatePage | crates/ferrodoc-ir/src/lib.rs:468-552 | a page is accepted exactly when its identities, owners, geometry, selections and reading order are valid |
| Validation.ValidateTableCells | crates/ferrodoc-ir/src/lib.rs:554-642 | the cells are accepted exactly when they lie in the grid and on the page and their spans reconstruct their text |
| Validation.CellText | crates/ferrodoc-ir/src/lib.rs:612-638 | the span loop returns the concatenation of the span bytes, or fails exactly when a span does not resolve |
| Materializer.Materializer.ApplyDelta | crates/ferrodoc-ir/src/state.rs:447-610 | the in-place application ends in the specified state, or reports the specified failure |
| Materializer.Materializer.ReplayAll | crates/ferrodoc-ir/src/state.rs:432-437 | the in-place replay ends in the specified state with exactly the delta identities represented |
| Materializer.Materializer.Canonicalize | crates/ferrodoc-ir/src/state.rs:654-672 | the in-place sort ends in the canonical document; if that is valid, page indexes, record identities and region identities strictly ascend, edges by source and target, selected identities weakly |
| Materializer.MaterializeWithPrefix | crates/ferrodoc-ir/src/state.rs:415-445 | the method returns the specified materialization, of evidence grade and in order |
| Materializer.MaterializeState | crates/ferrodoc-ir/src/state.rs:367-373 | full replay returns the specified materialization |
| Materializer.MaterializeFromCheckpoint | crates/ferrodoc-ir/src/state.rs:376-413 | the checkpoint run makes the prefix and digest checks and returns the specified materialization |
| MaterializedForm.MaterializedForm | crates/ferrodoc-ir/src/state.rs:415-445 | every materialized document has strictly ascending page indexes and layer, artifact, region and evidence identities, edges by source and target, and each region shows the hint given for it or the view it was introduced with |
| MaterializedForm.CanonicalInOrder | crates/ferrodoc-ir/src/state.rs:654-672 | a valid document put in canonical order is in that order |
| MaterializedForm.ViewsAreGiven | crates/ferrodoc-ir/src/state.rs:567-608 | every selected view in the result is, up to order, one that a hint, an introduced region or the initial document gave |
| MaterializationChecks.MaterializesIff | crates/ferrodoc-ir/src/state.rs:415-445 | materialization succeeds exactly when the manifest speaks of the valid initial document, records exactly the identities represented, and the replay ends in a document of evidence grade |
| MaterializationChecks.ReplaysIff | crates/ferrodoc-ir/src/state.rs:432-437 | a replay succeeds exactly when each delta is admissible in turn and no two hints for one region differ |
| MaterializationChecks.CheckpointRunIff | crates/ferrodoc-ir/src/state.rs:376-413 | a checkpoint run is the tail materialization, refused exactly when the base state is no prefix or its nonempty history lacks a valid document with the recorded digest |
| MaterializationChecks.TamperedCheckpointRefused | crates/ferrodoc-ir/src/state.rs:397-411 | a document with another digest than the checkpoint of a nonempty prefix is refused |
| MaterializationChecks.IdentityCoversContent | crates/ferrodoc-ir/src/state.rs:179-196 | two deltas share an identity exactly when source, stage, producer, added pages, additions and hints agree, artifacts compared without their blob tokens |
| Admission.EnvelopeIff | crates/ferrodoc-ir/src/state.rs:209-245 | the envelope is accepted exactly when the schema is known, names and codes are not blank, and no page is added or extended twice |
| Admission.ContainmentIff | crates/ferrodoc-ir/src/state.rs:478-518 | additions are within scope exactly when each addition touches a page in scope and, under a region scope, writes only to targets and regions it introduces |
| Admission.HintContainedIff | crates/ferrodoc-ir/src/state.rs:567-584 | a hint is within scope exactly when, under a region scope, it aims at a target or a region the delta introduces |
| ValidityMeaning.SoundIff | crates/ferrodoc-ir/src/lib.rs:407-450 | over rectangles without negative sides, the validator accepts exactly the documents whose regions lie point by point in their pages, whose evidence and cells refer to records that are there, whose cells quote their spans, and whose edges have no cycle |
| ValidityMeaning.InsideIff | crates/ferrodoc-core/src/geometry.rs:226-232 | one rectangle contains another exactly when every point of the other is a point of it, in the same space |
| ValidityMeaning.QuotesIff | crates/ferrodoc-ir/src/lib.rs:612-638 | a cell text is accepted exactly when it is the concatenation of pieces of text evidence on the page, cut at whole characters |
| PlanEstimates.AggregateInterval | crates/ferrodoc-runtime/src/enrichment.rs:1164-1237 | aggregating proper intervals gives a proper interval, and fails exactly on overflow |
| PlanEstimates.AggregateWellFormed | crates/ferrodoc-runtime/src/enrichment.rs:1164-1237 | whatever the inputs, a known aggregate satisfies lower <= point <= upper |
| ParetoPlans.Irreflexive | crates/ferrodoc-runtime/src/enrichment.rs:1585-1610 | no plan with proper intervals dominates itself |
| ParetoPlans.Transitive | crates/ferrodoc-runtime/src/enrichment.rs:1585-1657 | dominance between plans with proper intervals is transitive |
| ParetoPlans.FrontierIsPareto | crates/ferrodoc-runtime/src/enrichment.rs:668-681 | the frontier of a nonempty candidate list is nonempty, drawn from it, undominated, and dominates every plan left out |
| ParetoPlans.ComputeFrontier | crates/ferrodoc-runtime/src/enrichment.rs:668-680 | the double loop computes that frontier, stopping at the first dominator and at the first failed comparison |
| ParetoPlans.IsDominated | crates/ferrodoc-runtime/src/enrichment.rs:670-676 | the inner loop stops at the first dominator |
| PlanMeasures.DominatedIff | crates/ferrodoc-runtime/src/enrichment.rs:1585-1657 | a plan dominates another exactly when all costs and estimates are known, the four memory peaks and the totals of latency and price are no higher, lower bounds of gain, success and quality reach the upper bounds of the other, upper bounds of cpu, gpu, read and write stay at or below its lower bounds, and at least one of these is strict; a comparison fails exactly when a total overflows |
| PlanMeasures.SummedMeans | crates/ferrodoc-runtime/src/enrichment.rs:1164-1237 | an aggregated sum adds lower bounds, points and upper bounds of all estimates, each capped, and is unknown as soon as one is |
| PlanMeasures.LowestMeans | crates/ferrodoc-runtime/src/enrichment.rs:1164-1237 | an aggregated minimum is the least bound of all estimates, and unknown as soon as one is |
| PlanMeasures.KnownSumMeans | crates/ferrodoc-runtime/src/enrichment.rs:1505-1518 | a known sum is the total, nothing when a value is unknown, an error when it passes 64 bits |
| PlanAlternatives.RequestValidIff | crates/ferrodoc-runtime/src/enrichment.rs:1270-1338 | a request is accepted exactly when it names this state, document and source, has goals, and every goal is about pages and regions that are there |
| PlanAlternatives.MissingIff | crates/ferrodoc-runtime/src/enrichment.rs:478-491 | planned for are exactly the single pages and regions asked for that no complete coverage entry includes |
| PlanAlternatives.IncludesIff | crates/ferrodoc-runtime/src/enrichment.rs:1429-1443 | one scope covers another exactly when every page or region asked about is among its own |
| PlanAlternatives.ChoicesAre | crates/ferrodoc-runtime/src/enrichment.rs:495-603 | the alternatives of a goal are exactly the first placement per backend and device of every ready stage that produces it, in semantic-key order; planning gives up at a goal without any |
| PlanAlternatives.BoundIff | crates/ferrodoc-runtime/src/enrichment.rs:604-617 | planning refuses exactly when the alternatives of some first goals make more than 64 combinations |
| PlanAlternatives.PrunedIsMade | crates/ferrodoc-runtime/src/enrichment.rs:620-646 | the plan of a pick is each picked key once, without narrow work beside whole-document work of its capability, in strictly ascending key order |
| PlanMeaning.AdmittedIff | crates/ferrodoc-runtime/src/enrichment.rs:1453-1518 | a plan is admitted exactly when for remote cost and latency, where a limit is set, all values are known and add up to no more, or some are unknown and that is allowed; a total that overflows is an error |
| PlanMeaning.ExplainMeans | crates/ferrodoc-runtime/src/enrichment.rs:684-768 | gains are added and capped at 10000, success and quality are the least, cpu, gpu, read and written bytes are added, each from the profile field of that name of the stage that runs |
| PlanMeaning.ExplainSucceeds | crates/ferrodoc-runtime/src/enrichment.rs:684-768 | an explanation fails exactly when the upper bounds of a sum, or of the accelerator time of one device family, pass 64 bits |
| PlanMeaning.MakesIff | crates/ferrodoc-runtime/src/enrichment.rs:635-660 | a pick becomes a candidate exactly when its plan keeps both limits and nothing overflows, and the candidate is then that plan with its key identity and its explanation |
| PlanMeaning.PlanMeans | crates/ferrodoc-runtime/src/enrichment.rs:472-682 | planning answers satisfied exactly when nothing is missing, nothing admissible only when a goal has no alternative or no pick makes a plan, and otherwise offers possible plans none of which beats another, so that each possible plan is offered or beaten under its identity |
| EnrichmentPlanner.AtomsCoverScope | crates/ferrodoc-runtime/src/enrichment.rs:1340-1358 | covering every atom of a scope is covering the scope |
| EnrichmentPlanner.CombinationsServe | crates/ferrodoc-runtime/src/enrichment.rs:604-634 | every combination serves every goal even though shared invocations are kept once |
| EnrichmentPlanner.PicksAreCombined | crates/ferrodoc-runtime/src/enrichment.rs:604-634 | every pick of one alternative per goal, shared invocations taken once, is among the combinations |
| EnrichmentPlanner.CombinedArePicks | crates/ferrodoc-runtime/src/enrichment.rs:604-634 | every combination is such a pick |
| EnrichmentPlanner.PrunedServes | crates/ferrodoc-runtime/src/enrichment.rs:635-646 | dropping narrow work beside whole-document work for the same capability loses no goal |
| EnrichmentPlanner.PlansServeGoals | crates/ferrodoc-runtime/src/enrichment.rs:472-682 | the candidates are those the planner makes of its alternatives, one for every plan identity; each serves every missing atomic goal, and the offered plans are their Pareto frontier |
| EnrichmentPlanner.OfferedPlans | crates/ferrodoc-runtime/src/enrichment.rs:472-682 | the offered plans are nonempty, attainable by one pick per goal, serve every missing goal and do not dominate one another; every attainable candidate is, under its plan identity, offered or dominated by an offered plan |
| EnrichmentRuntime.CollectChoices | crates/ferrodoc-runtime/src/enrichment.rs:497-580 | the stage loop collects the accepted placements of every ready stage |
| EnrichmentRuntime.Combine | crates/ferrodoc-runtime/src/enrichment.rs:604-634 | the product loop extends every partial plan by every alternative and refuses to grow past 64 plans |
| EnrichmentRuntime.CollectCandidates | crates/ferrodoc-runtime/src/enrichment.rs:635-660 | the candidate loop admits, identifies and explains each combination |
| EnrichmentRuntime.ComputePlan | crates/ferrodoc-runtime/src/enrichment.rs:472-682 | the planning method returns the specified outcome; with stages as registration leaves them that outcome is as `Planned` says: limits kept, explanations formed field by field, nothing beaten |
| EnrichmentRuntime.ExecutePlan | crates/ferrodoc-runtime/src/enrichment.rs:866-1088 | the execution method returns the specified deltas, manifest and document; what ran was offered now under the chosen identity, and the document gains exactly the evidence of the responses at the regions asked about and the layers they were read from |
| EvidenceAttribution.AttributableIff | crates/ferrodoc-runtime/src/enrichment.rs:1659-1760 | a response becomes a delta exactly when all its evidence names this invocation, table recognition gives only tables, and nonempty evidence lies on the page of its single target region and draws cells from text there |
| EvidenceAttribution.ResponseCarries | crates/ferrodoc-runtime/src/enrichment.rs:1659-1838 | the delta of a response holds exactly its evidence and new layers at the region asked about and nothing else, selects the listed evidence for table recognition only, and is attributed to its invocation and input state |
| EvidenceAttribution.DocumentGainsResponses | crates/ferrodoc-runtime/src/enrichment.rs:1020-1031 | an executed plan gives the document exactly the evidence of its responses, as often as listed, and each new layer once per response |
| EvidenceAttribution.ResponsesAreFound | crates/ferrodoc-runtime/src/enrichment.rs:1020-1031 | every record of every response is found in the resulting document at the region that was asked about |
| EnrichmentExecution.OfferedIff | crates/ferrodoc-runtime/src/enrichment.rs:874-915 | what is executed is a plan offered now for this request under the chosen identity, and without one nothing is |
| EnrichmentExecution.CoverageAfter | crates/ferrodoc-runtime/src/enrichment.rs:1020-1027 | after an execution a goal is complete exactly when it was before or an invocation with evidence serves it |
| EnrichmentExecution.ExecutionExtends | crates/ferrodoc-runtime/src/enrichment.rs:1020-1031 | the resulting document holds the facts of the input state plus those of the new deltas; its manifest adds exactly their identities and one coverage entry per invocation, and names that state as parent and that document as checkpoint |
| EnrichmentExecution.RequestStaysValid | crates/ferrodoc-runtime/src/enrichment.rs:1270-1291 | the same goals remain a valid request on the resulting state |
| EnrichmentExecution.MissingAfter | crates/ferrodoc-runtime/src/enrichment.rs:1020-1029 | exactly the goals missing before and served by no evidence are missing afterwards |
| EnrichmentExecution.ExecutionSatisfiesGoals | crates/ferrodoc-runtime/src/enrichment.rs:1020-1029 | progress: when every response carried evidence, re-planning the same goals on the result answers AlreadySatisfied |
| LeaseScheduler.Conservation | crates/ferrodoc-runtime/src/scheduler.rs:359-434 | after any sequence of acquisitions, observations, completions, drops and evictions the counters are the sums over live leases and warm models, within every budget |
| LeaseScheduler.ReleaseExact | crates/ferrodoc-runtime/src/scheduler.rs:359-434 | dropping a live lease never makes a saturating subtraction saturate |
| LeaseScheduler.GrantInvariant | crates/ferrodoc-runtime/src/scheduler.rs:404-427 | admitting a request that fits keeps every counter exact and within budget |
| LeaseScheduler.EvictInvariant | crates/ferrodoc-runtime/src/scheduler.rs:208-220 | evicting a warm model keeps every counter exact |
| LeaseScheduler.DrainedAdmitsAll | crates/ferrodoc-runtime/src/scheduler.rs:404-418 | with all leases dropped and all warm models evicted every normalized request is admitted |
| LeaseScheduler.NeverOverflowsIff | crates/ferrodoc-runtime/src/scheduler.rs:404-427 | the plain additions never exceed 64 bits in any run exactly when budgets are below the maximum (or, for host memory, at most one worker) |
| LeaseScheduler.RamOverflow | crates/ferrodoc-runtime/src/scheduler.rs:404-427 | a run of two leases overflows the host counter under a maximal budget |
| LeaseScheduler.DeviceOverflow | crates/ferrodoc-runtime/src/scheduler.rs:359-434 | a run with one warm model and one lease overflows a device counter under a maximal budget |
| LeaseMeaning.NormalizeIff | crates/ferrodoc-runtime/src/scheduler.rs:237-290 | a request is normalized exactly to its known values within the budgets, or the whole budgets where unknown values are guarded, with a warm model that fits the leased share |
| LeaseMeaning.FitsIff | crates/ferrodoc-runtime/src/scheduler.rs:404-418 | a normalized request fits exactly when a worker is free and host and device memory are within the budgets, as saturating addition counts |
| LeaseMeaning.EvictExactly | crates/ferrodoc-runtime/src/scheduler.rs:208-220 | evicting forgets that model alone and returns exactly its memory |
| LeaseMeaning.GrantExactly | crates/ferrodoc-runtime/src/scheduler.rs:420-427 | granting takes one worker and exactly the reserved memory |
| SchedulerObject.Scheduler.TryAcquire | crates/ferrodoc-runtime/src/scheduler.rs:144-165 | one admission attempt: a new lease is handed out and the counters grow by exactly its share, or nothing changes |
| SchedulerObject.Scheduler.Drop | crates/ferrodoc-runtime/src/scheduler.rs:359-380 | dropping returns the share and leaves the model of a completed lease warm, keeping the invariant |
| SchedulerObject.Scheduler.EvictWarm | crates/ferrodoc-runtime/src/scheduler.rs:208-220 | eviction reports whether the entry existed and returns its memory |
| SchedulerObject.Scheduler.LeaseMoves | crates/ferrodoc-runtime/src/scheduler.rs:310-351 | what its holder observes or completes under a lease keeps the scheduler valid |
| SchedulerObject.RunUnderLease | crates/ferrodoc-runtime/src/lib.rs:1306-1327 | one stage under a lease reserves nothing afterwards beyond what was, except for the model that successful work newly leaves warm; a refused request changes nothing |
| LeaseScheduler.GrantThenRelease | crates/ferrodoc-runtime/src/scheduler.rs:359-427 | granting and dropping a lease restores every counter but for a newly warm model |
| SchedulerObject.ResourceLease.Observe | crates/ferrodoc-runtime/src/scheduler.rs:310-346 | an observation records the larger peak, and the first peak above its reservation cancels the lease |
| Framing.StreamReadsBack | crates/ferrodoc-protocol/src/lib.rs:79-181 | a reader gets exactly the list of values written, then the end of the stream |
| Framing.SessionReadsBack | crates/ferrodoc-protocol/src/lib.rs:61-76 | after the preamble a session delivers exactly the values written; a stream that does not open with it delivers nothing |
| Framing.AcceptedIsFrame | crates/ferrodoc-protocol/src/lib.rs:153-181 | every value a reader accepts came from the frame of a payload within the limit, decoded to its last byte |
| Framing.TruncatedStream | crates/ferrodoc-protocol/src/lib.rs:153-181 | a stream cut at any byte delivers exactly the values whose frames are whole, then an I/O failure |
| Framing.WholeFramesMost | crates/ferrodoc-protocol/src/lib.rs:153-181 | how many frames are whole in the first k bytes |
| Framing.WrittenInjective | crates/ferrodoc-protocol/src/lib.rs:79-106 | two lists of values never leave the same bytes |
| Framing.WritableIff | crates/ferrodoc-protocol/src/lib.rs:79-106 | the writer accepts exactly payloads of one byte up to the negotiated limit and 16 MiB, and prefixes them with their length, most significant byte first |
| Framing.ReadFrameIff | crates/ferrodoc-protocol/src/lib.rs:153-181 | a reader reports a short stream as I/O failure, a zero or oversized length as such, an undecodable or partly decoded payload as malformed, and otherwise delivers the value |
| Framing.EncodeFrame | crates/ferrodoc-protocol/src/lib.rs:79-148 | however the serializer cuts a value into chunks, the bounded buffer accepts it exactly when its total size fits |
| Framing.BoundedBuffer.Write | crates/ferrodoc-protocol/src/lib.rs:136-145 | a chunk is appended whole, or refused and the buffer marked |
| Framing.ReadFrames | crates/ferrodoc-runtime/src/process.rs:496-516 | the reader thread delivers one event per frame until the first failure |
| Framing.DrainStderr | crates/ferrodoc-runtime/src/process.rs:518-537 | the trimmed buffer is the last bytes of all that was read |
| Framing.NegotiatesNewest | crates/ferrodoc-protocol/src/lib.rs:196-202 | negotiation picks the newest version both sides support, symmetrically, and fails only if there is none |
| EngineProtocol.RegistryRoundTrip | crates/ferrodoc-plugin-sdk/src/lib.rs:166-236 | registering and releasing a blob restores the registry, and resolving inside it gives exactly the bytes of the range |
| EngineProtocol.ResolveIff | crates/ferrodoc-plugin-sdk/src/lib.rs:203-236 | a scope resolves exactly when it is registered, of that media type, within the registered range and bytes, and of the digest given, and then to those bytes |
| EngineProtocol.RoundtripAnswers | crates/ferrodoc-runtime/src/process.rs:308-378 | from a quiet engine a round trip ends dead, or delivers the answer the child computed from this very request |
| EngineProtocol.AwaitAnswers | crates/ferrodoc-runtime/src/process.rs:336-377 | whatever the child and the clock do during the wait, a result other than the own answer kills the engine |
| EngineRuns.EveryAnswerIsItsOwn | crates/ferrodoc-runtime/src/process.rs:246-386 | after any run of operations, restarts and exits, every delivered message is the running child's answer to that very request, taken once |
| EngineRuns.RunLockstep | crates/ferrodoc-runtime/src/process.rs:246-486 | every run keeps host and child in agreement about every exchange, with nothing in flight between operations |
| EngineRuns.RunSettled | crates/ferrodoc-runtime/src/process.rs:246-486 | runs short of 2^64 requests stay within the restart bound and leave no blob with a live child |
| EngineRuns.ExecutionLeavesRegistry | crates/ferrodoc-runtime/src/process.rs:424-486 | an execution leaves a live child's registry as it found it exactly unless the request counter wraps between its registration and its release; a successful one always does, and returns the child's answer over the registered bytes |
| EngineRuns.HealthIsAnswered | crates/ferrodoc-runtime/src/process.rs:393-402 | a health report is the running child's answer to this very query |
| EngineRuns.EstimateIsAnswered | crates/ferrodoc-runtime/src/process.rs:404-422 | the candidates are the running child's answer to this very request and inventory |
| EngineRuns.WrappedCounterKeepsBlob | crates/ferrodoc-runtime/src/process.rs:300-306 | after 2^64 - 2 health checks one execution leaves its blob registered |
| EngineRuns.RepeatsIff | crates/ferrodoc-plugin-sdk/src/lib.rs:76-100 | the child refuses a request as a duplicate exactly when the counter has gone all the way round |
| EngineRuns.DeadUntilRestart | crates/ferrodoc-runtime/src/process.rs:246-260 | a dead engine does nothing until a restart within the bound, which starts a new child on empty channels |
| ProcessHost.BlobRegistry.Register | crates/ferrodoc-plugin-sdk/src/lib.rs:167-193 | the registry gains the blob, or is unchanged and the first failed check is reported |
| ProcessHost.BlobRegistry.Release | crates/ferrodoc-plugin-sdk/src/lib.rs:195-200 | the registry loses the blob, or is unchanged |
| ProcessHost.EngineServer.Serve | crates/ferrodoc-plugin-sdk/src/lib.rs:76-111 | one pass of the server loop: the new child state is the specified answer |
| ProcessHost.ProcessEngine.NextRequestId | crates/ferrodoc-runtime/src/process.rs:300-306 | the counter advances modulo 2^64 and the identifier is derived from it |
| ProcessHost.ProcessEngine.Roundtrip | crates/ferrodoc-runtime/src/process.rs:308-378 | the specified round trip: an engine alive afterwards delivered the child's answer to this very request, and any other end killed it |
| ProcessHost.ProcessEngine.Wait | crates/ferrodoc-runtime/src/process.rs:336-377 | the wait loop is the specified wait |
| ProcessHost.ProcessEngine.Execute | crates/ferrodoc-runtime/src/process.rs:424-486 | register, execute and release: success means that the child registered the resolved bytes under the input identifier, answered Execute with the caller's body and an input of the same identifier and media type, offset 0, full length and the digest of the bytes, and released them; a live child's registry is as it was unless the counter went round |
| ProcessHost.ProcessEngine.Shutdown | crates/ferrodoc-runtime/src/process.rs:264-298 | shutdown always leaves the engine dead, with the specified result |
| ProcessHost.ProcessEngine.Restart | crates/ferrodoc-runtime/src/process.rs:246-260 | succeeds exactly for a dead engine within the bound whose spawn succeeds, and starts a new child with no exchanges and no blobs |
| ProcessHost.ProcessEngine.Terminate | crates/ferrodoc-runtime/src/process.rs:380-385 | termination kills the child and marks the engine dead |
| StageCache.EntriesAreImmutable | crates/ferrodoc-runtime/src/cache.rs:206-274 | in every interleaving a published entry stays, complete and unchanged |
| StageCache.PutsAgree | crates/ferrodoc-runtime/src/cache.rs:206-274 | all puts of one key that return Ok agree on the bytes |
| StageCache.GetsReturnWhatWasPut | crates/ferrodoc-runtime/src/cache.rs:152-203 | every hit returns those bytes; a read begun after an acknowledged put and free of operating-system failures is a hit unless they exceed its bound |
| StageCache.RunSound | crates/ferrodoc-runtime/src/cache.rs:152-274 | every interleaving of writers and readers, failing anywhere, keeps the cache invariant and only adds entries |
| StageCache.PutKeepsSound | crates/ferrodoc-runtime/src/cache.rs:206-274 | each file operation of a writer keeps the invariant |
| StageCache.ReadKeepsSound | crates/ferrodoc-runtime/src/cache.rs:152-203 | each file operation of a reader keeps the invariant |
| StageCache.NothingStaged | crates/ferrodoc-runtime/src/cache.rs:206-274 | a writer has no staging directory before it starts staging, while it verifies, or once its put has returned Ok |
| StageCacheObject.ReadsIff | crates/ferrodoc-runtime/src/cache.rs:152-203 | over any entries, damaged ones included, a read hits exactly an entry that is whole, of that key, with metadata of at most 1 MiB, of the recorded length and digest and within the bound |
| StageCacheObject.PutAloneOutcome | crates/ferrodoc-runtime/src/cache.rs:206-274 | a writer that nothing disturbs ends after at most eleven file operations with the result and the entries of a sequential put |
| StageCacheObject.ReadAloneOutcome | crates/ferrodoc-runtime/src/cache.rs:152-203 | an undisturbed read is a miss exactly without an entry, the stored hit exactly when the entry is readable and within the bound, and a corruption report otherwise |
| StageCacheObject.UnreadableForever | crates/ferrodoc-runtime/src/cache.rs:152-203 | an entry that reads reject is rejected by every later read and put of its key |
| StageCacheObject.OversizedMetadataPoisons | crates/ferrodoc-runtime/src/cache.rs:206-274 | a put of a new key with metadata over 1 MiB publishes an entry that refuses it and every later read and put of the key |
| StageCacheObject.LongMediaTypePoisons | crates/ferrodoc-runtime/src/cache.rs:206-274 | one byte under an overlong media type, put into an empty cache, is such a put |
| StageCacheObject.Cache.Read | crates/ferrodoc-runtime/src/cache.rs:152-203 | the sequential read of whatever is there is the undisturbed read |
| StageCacheObject.Cache.Write | crates/ferrodoc-runtime/src/cache.rs:206-274 | a sequential put succeeds exactly when the key is new with metadata of at most 1 MiB, or stored with the same bytes; oversized metadata is published before it is reported |
| StumpRouter.Search | crates/ferrodoc-router/src/lib.rs:420-448 | the search returns the first best candidate, and no threshold in either direction scores more on the training records |
| StumpRouter.SearchIsOptimal | crates/ferrodoc-router/src/lib.rs:420-448 | a best candidate scores at least as well as every threshold and direction |
| StumpRouter.StumpHasCandidate | crates/ferrodoc-router/src/lib.rs:615-624 | every stump routes the records like a candidate from the observed counts and zero |
| StumpRouter.SameRoutesSameSum | crates/ferrodoc-router/src/lib.rs:626-692 | policies that route every record alike have the same totals |
| StumpRouter.ThresholdsExactly | crates/ferrodoc-router/src/lib.rs:420-427 | the candidates are exactly the observed counts and zero, strictly ascending |
| StumpRouter.ScoreIsMonotone | crates/ferrodoc-router/src/lib.rs:672-692 | under non-negative penalties, totals at least as good in quality, failures and latency score at least as much |
| StumpRouter.EvaluateRecords | crates/ferrodoc-router/src/lib.rs:626-692 | the scoring loop computes the specified score |
| StumpRouter.FindCommonEngine | crates/ferrodoc-router/src/lib.rs:599-613 | an engine is returned exactly when it is the only one offered for the route |
| StumpRouter.Train | crates/ferrodoc-router/src/lib.rs:397-519 | training fails exactly on an invalid objective, an empty partition or ambiguous engines; the model is qualified exactly when coverage and every held-out baseline comparison hold, and stores that coverage and the two scores of its stump |
| StumpRouter.GuardedDecision | crates/ferrodoc-router/src/lib.rs:695-734 | the decision is the model's recommendation when it may be used and is accepted, else the first accepted fallback, else the least accepted engine; it fails exactly when nothing is accepted |
| StumpRouter.RoutesIff | crates/ferrodoc-router/src/lib.rs:615-624 | a page without a count goes the native way, any other as its count compares with the threshold |
| StumpRouter.BaselineRoutes | crates/ferrodoc-router/src/lib.rs:300-337 | the baselines go always native, or native from 32 characters, one of them only if the page does not look scanned |
| PlannerMeaning.AcceptedIff | crates/ferrodoc-runtime/src/planner.rs:201-409 | a candidate is accepted exactly when it suits the engine, placement and inventory, the allow-list, model and network rules, and every limit is kept by a known value or by leave to be unknown |
| PlannerMeaning.KindIff | crates/ferrodoc-runtime/src/planner.rs:348-357 | the kind of a device is read off its name |
| PlannerMeaning.PreferenceIff | crates/ferrodoc-runtime/src/planner.rs:423-501 | one candidate precedes another exactly by the preferred device, then what the profile looks at, known before unknown, then the dictionary order of engine, backend and device |
| PlannerMeaning.PlanSelects | crates/ferrodoc-runtime/src/planner.rs:174-199 | selected is an acceptable candidate to which no acceptable one is preferred, the first of its equals, and none exactly when nothing is acceptable |
| PlannerMeaning.DecisionsByName | crates/ferrodoc-runtime/src/planner.rs:180-185 | every candidate is decided once, and the decisions come by name |
| CandidatePlanner.ReasonsAreViolations | crates/ferrodoc-runtime/src/planner.rs:201-342 | a reason is given exactly for each violated constraint, and a candidate is accepted exactly when none is |
| CandidatePlanner.PreferenceIsTotal | crates/ferrodoc-runtime/src/planner.rs:423-501 | the comparator is a total order on candidate identities |
| CandidatePlanner.PlanIsOrderIndependent | crates/ferrodoc-runtime/src/planner.rs:174-199 | candidates with distinct identities are planned alike in every order |
| CandidatePlanner.SelectionIsOptimal | crates/ferrodoc-runtime/src/planner.rs:174-199 | the selection is an accepted candidate to which no accepted one is preferred, and is absent exactly when none is accepted |
| CandidatePlanner.SelectionServesProfile | crates/ferrodoc-runtime/src/planner.rs:423-501 | no accepted candidate is on the preferred device unless the selected one is, and none placed alike serves the profile better: latency, quality, cost, or quality then latency then cost |
| CandidatePlanner.DecideCandidate | crates/ferrodoc-runtime/src/planner.rs:201-342 | the checks push the specified reasons in order |
| CandidatePlanner.CheckLimit | crates/ferrodoc-runtime/src/planner.rs:373-401 | a limit adds the specified reason, if any |
| CandidatePlanner.ComputePlan | crates/ferrodoc-runtime/src/planner.rs:174-199 | the planning method returns the specified report |
| PlannedLease.PolicyMeans | crates/ferrodoc-runtime/src/lib.rs:1127-1133 | the profile sets the cpu placement, a bound of 2 GiB, or one of the two network rules, and the options set the rest |
| PlannedLease.ConfigMeans | crates/ferrodoc-runtime/src/lib.rs:1158-1178 | the scheduler gets the optional limit, else the free memory, else 768 MiB, and at least one worker |
| PlannedLease.LeaseMeans | crates/ferrodoc-runtime/src/lib.rs:1284-1315 | the lease asks for the peaks of the candidate, device memory off the host only, and a warm model only with a digest and a positive size |
| PlannedLease.AcceptedCandidateNormalizes | crates/ferrodoc-runtime/src/lib.rs:1111-1187 | the scheduler normalizes the lease of an accepted candidate exactly when a memory limit bounds it (or its estimate suits the default budget), its device memory is known and its warm model fits the leased share |
| PlannedLease.SelectedCandidateNormalizes | crates/ferrodoc-runtime/src/lib.rs:1306-1315 | the same for the candidate a plan selects |
| PlannedLease.UnboundedPlanExceedsDefault | crates/ferrodoc-runtime/src/lib.rs:1158-1161 | without any known limit the planner accepts a candidate that the default budget refuses |
| PlannedLease.BudgetsMatchLookup | crates/ferrodoc-runtime/src/lib.rs:1163-1173 | with distinct device names the scheduler's budgets are what the planner looks up |
| ExactQuantities.ScaledParsingIsExact | crates/ferrodoc-core/src/quantity.rs:259-300 | a well-formed decimal of at most nine fraction digits is accepted exactly when number times multiplier is an integer below 2^64, and gives it |
| ExactQuantities.ParseBytesIff | crates/ferrodoc-core/src/quantity.rs:91-111 | a text is a byte count exactly when, trimmed, it is an unsigned decimal and a unit whose product is an integer below 2^64, and it is that integer |
| ExactQuantities.UnitsIff | crates/ferrodoc-core/src/quantity.rs:95-102 | the units are B, KB, MB and GB by thousands, KiB, MiB and GiB by 1024, and no others |
| ExactQuantities.DisplayReadsBack | crates/ferrodoc-core/src/quantity.rs:77-111 | parsing the printed form of any 64-bit byte count returns it |
| ExactQuantities.DisplayIsInjective | crates/ferrodoc-core/src/quantity.rs:77-87 | different byte counts print differently |
| Identity.PreimageInjective | crates/ferrodoc-core/src/id.rs:10-19 | different prefixes or part lists are never hashed as the same bytes |
| Identity.DerivePreimage | crates/ferrodoc-core/src/id.rs:10-19 | the loop builds that byte string |
| TextSegmentation.SegmentationConservesText | engines/ferrodoc-layout-rulebased/src/lib.rs:212-245 | no block is empty, and the blocks hold exactly the non-whitespace characters of the text in order |
| TextSegmentation.BlocksFollowLines | engines/ferrodoc-layout-rulebased/src/lib.rs:222-243 | no block holds a line break, and every heading and list item is a block of its own |
| SegmentationMeaning.SegmentIsGroups | engines/ferrodoc-layout-rulebased/src/lib.rs:212-245 | the blocks are the trimmed lines grouped by blank lines, standing lines and sentence ends, each group joined with spaces unless a line ends in a hyphen |
| SegmentationMeaning.LinesMeans | engines/ferrodoc-layout-rulebased/src/lib.rs:221-221 | the lines with their line breaks are the text |
| SegmentationMeaning.ListItemIff | engines/ferrodoc-layout-rulebased/src/lib.rs:257-273 | a list item starts with a bullet and a space, or a number, a point or parenthesis, and a space |
| Identity.PartAt | crates/ferrodoc-core/src/id.rs:10-19 | every part lies in what is hashed, behind its length in eight bytes |
| TextSegmentation.TextBlocks | engines/ferrodoc-layout-rulebased/src/lib.rs:212-245 | the loop computes the specified segmentation |

## Left out

- JSON, CBOR and SHA-256: parameters of the model, never computed.
- Floating point: geometry, confidence and router scores are exact reals, so no rounding is modelled; NaN cannot occur.
- Identities: numbers in the order of their digests, since every identity has a fixed prefix and a fixed width.
- Messages: error texts, diagnostics and rejection explanations are reduced to error kinds; a failed document validation
  is one kind.
- Estimate provenance: the source and benchmark digests of aggregated estimates.
- Plan explanations: accelerator time by device family decides only whether the explanation fails; its values, the stage
  profiles, prerequisites, cache states and escalation notes are not kept.
- Engine requests: the fields beyond the semantic key follow from the stage, capability and scope in
  that key; plan identities are a hash of the ordered keys.
- Durable store: execution is modelled without durable hits; the store is a wrapper over the cache.
- Execution resources: leases, stage-cache hits and traces taken while a plan executes are not part of the execution model.
- Absent targets: where the code panics on an evidence target that validation has already excluded, the model reports an
  invalid response.
- Ready stack: the order in which the initially ready regions are pushed is left open, as no result depends on it.
- SchedulerObject.Scheduler.TryAcquire: the waiting loop of a blocking acquisition is one look at the accounting per step
  of `LeaseScheduler.Next`; wake-ups and the clock are those steps.
- EngineProtocol.RoundtripAnswers: messages travel whole; bytes, limits and truncation are proved separately in `Framing`.
  A child is the plugin kit's server loop; a child written otherwise is not modelled beyond the envelope checks.
- ProcessHost.ProcessEngine.Shutdown: polling for the exit is one of three outcomes.
- Spawning: program discovery, environment, the hello exchange and descriptor validation are one success or failure.
- Write failures inside a frame: a failed write of a request is one outcome, which kills the engine.
- StageCache.PutKeepsSound: a file inside a directory appears whole or not at all (the source writes and renames it);
  temporary files left by failures, symbolic links and files altered from outside are not modelled.
- StumpRouter.Train: dataset validation, source digests and case lists are not modelled, nor are the page count and the image
  coverage, which neither the stump nor the trained baselines read.
- TextSegmentation.SegmentationConservesText: the heading test is any test of a line, since Unicode letter classes are not
  modelled; conservation does not depend on it.
- CandidatePlanner.Decide: the kind of a device is read from its canonical name.
- Document reconciliation of native and recognized text, conversion, rendering, model store, PDF parsing, rasterization,
  recognition engines, command line, configuration, hardware probing and schema export are not part of this model.

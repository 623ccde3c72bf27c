/** Executing an offered plan and re-planning on the result (crates/ferrodoc-runtime/src/enrichment.rs). */
module EnrichmentExecution {
  import opened Collections
  import opened DocumentIr
  import opened Validation
  import opened EvidenceState
  import opened Conservation
  import opened Selections
  import opened FactPresence
  import opened Materialization
  import opened PlanEstimates
  import opened ParetoPlans
  import opened EnrichmentPlanner

  const TABLE_RECOGNIZE := "table.recognize"
  const CANDIDATE := "candidate"

  /** Digest and text of the evidence parameters of an invocation, and its pipeline stage. */
  datatype Context = Context(
    setting: Setting,
    hashes: Hashes,
    pipelineStage: Invocation -> DocumentIr.Stage,
    evidenceParameters: Invocation -> string,
    configurationDigest: Invocation -> Digest)

  // ---- The delta of one engine response ----

  predicate ProvenanceMatches(c: Context, manifest: Manifest, i: Invocation, e: Evidence) {
    && e.provenance.schema == manifest.irSchema
    && e.provenance.inputDigest == manifest.sourceDigest
    && e.provenance.engineId == i.key.engineId
    && e.provenance.engineVersion == i.key.engineVersion
    && e.provenance.parameters == c.evidenceParameters(i)
    && e.provenance.stage == c.pipelineStage(i)
    && e.provenance.modelDigest == i.key.model
  }

  predicate TextIn(region: Region, id: Id) {
    exists e :: e in region.evidence && e.content.TextContent? && e.id == id
  }

  function SpansOf(e: Evidence): set<Id> {
    if e.content.TableContent?
    then set cell, span | cell in e.content.cells && span in cell.spans :: span.evidenceId
    else {}
  }

  function AllSpans(evidence: seq<Evidence>): set<Id> {
    set e, id | e in evidence && id in SpansOf(e) :: id
  }

  /** The layer map in identity order; reusing an identity with other provenance is an error. */
  function InsertLayer(layers: seq<SourceLayer>, layer: SourceLayer): Option<seq<SourceLayer>> {
    if layers == [] then Some([layer])
    else if layers[0].id == layer.id then (if layers[0] == layer then Some(layers) else None)
    else if layer.id < layers[0].id then Some([layer] + layers)
    else
      match InsertLayer(layers[1..], layer)
      case None => None
      case Some(rest) => Some([layers[0]] + rest)
  }

  function NewLayers(page: Page, capability: string, evidence: seq<Evidence>): Option<seq<SourceLayer>> {
    if evidence == [] then Some([])
    else
      match NewLayers(page, capability, evidence[..|evidence| - 1])
      case None => None
      case Some(layers) =>
        var e := evidence[|evidence| - 1];
        if Has(LayerId, page.layers, e.layerId) then Some(layers)
        else InsertLayer(layers, SourceLayer(e.layerId, UnknownLayer(capability), e.provenance))
  }

  function OwnedBy(target: PageRegionRef, layers: seq<SourceLayer>): seq<OwnedSourceLayer> {
    seq(|layers|, i requires 0 <= i < |layers| =>
      OwnedSourceLayer(RegionOwner(target.page, target.region), layers[i]))
  }

  function EvidenceIds(evidence: seq<Evidence>): seq<Id> {
    seq<Id>(|evidence|, i requires 0 <= i < |evidence| => evidence[i].id)
  }

  const TABLE_EXPLANATION := "selected targeted table structure over the retained text hypothesis"

  function DeltaOf(c: Context, manifest: Manifest, i: Invocation, required: set<Id>, additions: seq<PageDelta>,
                   hints: seq<SelectionHint>, hasEvidence: bool): EvidenceDelta {
    EvidenceDelta(EVIDENCE_DELTA_SCHEMA, manifest.sourceDigest, manifest.irSchema, c.pipelineStage(i),
      DeltaProducer(i.key.engineId, i.key.engineVersion, i.key.build, i.key.model, c.configurationDigest(i)),
      i.key.scope, Some(c.setting.stateId(manifest)), required, [], additions, hints, [],
      [CoverageEntry(i.key.capability, i.key.scope, if hasEvidence then COMPLETE else CANDIDATE)])
  }

  function TargetOf(scope: RefinementScope): Option<PageRegionRef> {
    if scope.Regions? && exists r :: r in scope.regions && scope.regions == {r}
    then
      var r :| r in scope.regions && scope.regions == {r};
      Some(r)
    else None
  }

  predicate OnlyTables(evidence: seq<Evidence>) {
    forall e :: e in evidence ==> e.content.TableContent?
  }

  predicate OnPage(evidence: seq<Evidence>, index: nat) {
    forall e :: e in evidence ==> e.geometry.None? || e.geometry.value.pageIndex == index
  }

  function DeltaFromResponse(c: Context, d: Document, manifest: Manifest, i: Invocation, evidence: seq<Evidence>)
    : Result<EvidenceDelta, PlanError>
  {
    if exists e :: e in evidence && !ProvenanceMatches(c, manifest, i, e) then Err(ResponseInvalid)
    else if i.key.capability == TABLE_RECOGNIZE && !OnlyTables(evidence) then Err(ResponseInvalid)
    else if evidence == [] then Ok(DeltaOf(c, manifest, i, {}, [], [], false))
    else
      match TargetOf(i.key.scope)
      case None => Err(ResponseInvalid)
      case Some(target) =>
        if !HasRegion(d, target) then Err(ResponseInvalid)
        else
          var page := PageAt(d, target.page).value;
          var region := page.regions[IndexOf(RegionId, page.regions, target.region)];
          if exists id :: id in AllSpans(evidence) && !TextIn(region, id) then Err(ResponseInvalid)
          else if !OnPage(evidence, page.index) then Err(ResponseInvalid)
          else
            match NewLayers(page, i.key.capability, evidence)
            case None => Err(ResponseInvalid)
            case Some(layers) =>
              var hints := if i.key.capability != TABLE_RECOGNIZE then []
                else [SelectionHint(target, SelectedView(EvidenceIds(evidence), Reconciled, TABLE_EXPLANATION))];
              var addition := PageDelta(target.page, OwnedBy(target, layers), [], [],
                [RegionEvidenceAddition(target.region, evidence)], []);
              Ok(DeltaOf(c, manifest, i, AllSpans(evidence), [addition], hints, true))
  }

  // ---- Execution ----

  datatype Execution = Execution(deltas: seq<EvidenceDelta>, manifest: Manifest, document: Document)

  function Deltas(c: Context, d: Document, manifest: Manifest, plan: seq<Invocation>, responses: seq<seq<Evidence>>)
    : Result<seq<EvidenceDelta>, PlanError>
    requires |plan| == |responses|
  {
    if plan == [] then Ok([])
    else
      var n := |plan| - 1;
      match Deltas(c, d, manifest, plan[..n], responses[..n])
      case Err(e) => Err(e)
      case Ok(before) =>
        match DeltaFromResponse(c, d, manifest, plan[n], responses[n])
        case Err(e) => Err(e)
        case Ok(delta) => Ok(before + [delta])
  }

  function CoverageOf(deltas: seq<EvidenceDelta>): seq<CoverageEntry> {
    if deltas == [] then [] else CoverageOf(deltas[..|deltas| - 1]) + deltas[|deltas| - 1].coverage
  }

  function IdsOf(hashes: Hashes, deltas: seq<EvidenceDelta>): set<Id> {
    set x | x in deltas :: hashes.delta(Projection(x))
  }

  function NextManifest(c: Context, manifest: Manifest, deltas: seq<EvidenceDelta>): Manifest {
    manifest.(
      deltaIds := manifest.deltaIds + IdsOf(c.hashes, deltas),
      coverage := manifest.coverage + CoverageOf(deltas),
      checkpoint := None,
      parents := {c.setting.stateId(manifest)})
  }

  const CHECKPOINT_REPRESENTATION := "application/vnd.ferrodoc.document-ir+json;version=1"

  function FindPlan(plans: seq<CandidatePlan>, id: Digest): Option<CandidatePlan> {
    if plans == [] then None
    else if plans[0].id == id then Some(plans[0])
    else FindPlan(plans[1..], id)
  }

  lemma {:induction false} FindPlanMember(plans: seq<CandidatePlan>, id: Digest)
    requires FindPlan(plans, id).Some?
    ensures FindPlan(plans, id).value in plans && FindPlan(plans, id).value.id == id
  {
    if plans[0].id != id {
      FindPlanMember(plans[1..], id);
    }
  }

  /** The plan of the current frontier with the identity of the chosen one, for the same request. */
  function OfferedPlan(
      c: Context, request: EnrichmentRequest, d: Document, manifest: Manifest, answers: Id, chosen: CandidatePlan)
    : Result<CandidatePlan, PlanError>
  {
    if !RequestValid(c.setting, request, d, manifest) then Err(InvalidRequest)
    else if answers != request.requestId || chosen.invocations == [] then Err(PlanNotOffered)
    else
      match Plan(c.setting, request, d, manifest)
      case Err(e) => Err(e)
      case Ok(outcome) =>
        match FindPlan(if outcome.CandidatePlans? then outcome.pareto else [], chosen.id)
        case None => Err(PlanNotOffered)
        case Some(plan) => Ok(plan)
  }

  lemma {:induction false} FindPlanFinds(plans: seq<CandidatePlan>, p: CandidatePlan)
    requires p in plans
    ensures FindPlan(plans, p.id).Some?
  {
    if plans[0].id != p.id {
      FindPlanFinds(plans[1..], p);
    }
  }

  /** The chosen plan is one that planning offers now, for the request it answers. */
  ghost predicate StillOffered(
      c: Context, request: EnrichmentRequest, d: Document, manifest: Manifest, answers: Id, chosen: CandidatePlan,
      offered: CandidatePlan)
  {
    && answers == request.requestId && chosen.invocations != []
    && Plan(c.setting, request, d, manifest).Ok? && Plan(c.setting, request, d, manifest).value.CandidatePlans?
    && offered in Plan(c.setting, request, d, manifest).value.pareto && offered.id == chosen.id
  }

  /** What is executed is the plan offered now under the identity of the chosen one; without such a plan nothing is. */
  lemma OfferedIff(
      c: Context, request: EnrichmentRequest, d: Document, manifest: Manifest, answers: Id, chosen: CandidatePlan)
    ensures OfferedPlan(c, request, d, manifest, answers, chosen).Ok?
       <==> exists p :: StillOffered(c, request, d, manifest, answers, chosen, p)
    ensures OfferedPlan(c, request, d, manifest, answers, chosen).Ok? ==>
              StillOffered(c, request, d, manifest, answers, chosen,
                OfferedPlan(c, request, d, manifest, answers, chosen).value)
  {
    var plan := OfferedPlan(c, request, d, manifest, answers, chosen);
    if plan.Ok? {
      OfferedIsFound(c, request, d, manifest, answers, chosen, plan.value);
    }
    if p :| StillOffered(c, request, d, manifest, answers, chosen, p) {
      FoundIsOffered(c, request, d, manifest, answers, chosen, p);
    }
  }

  lemma OfferedIsFound(
      c: Context, request: EnrichmentRequest, d: Document, manifest: Manifest, answers: Id, chosen: CandidatePlan,
      p: CandidatePlan)
    requires OfferedPlan(c, request, d, manifest, answers, chosen) == Ok(p)
    ensures StillOffered(c, request, d, manifest, answers, chosen, p)
  {
    FindPlanMember(Plan(c.setting, request, d, manifest).value.pareto, chosen.id);
  }

  lemma FoundIsOffered(
      c: Context, request: EnrichmentRequest, d: Document, manifest: Manifest, answers: Id, chosen: CandidatePlan,
      p: CandidatePlan)
    requires StillOffered(c, request, d, manifest, answers, chosen, p)
    ensures OfferedPlan(c, request, d, manifest, answers, chosen).Ok?
  {
    FindPlanFinds(Plan(c.setting, request, d, manifest).value.pareto, p);
  }

  /**
   * Executing the offered plan with the given engine responses, without a durable store: one
   * delta per invocation, then the canonical materialization from the given state.
   */
  ghost function Execute(
      c: Context, request: EnrichmentRequest, d: Document, manifest: Manifest, answers: Id, chosen: CandidatePlan,
      responses: seq<seq<Evidence>>, checkpointId: Id)
    : Result<Execution, PlanError>
  {
    match OfferedPlan(c, request, d, manifest, answers, chosen)
    case Err(e) => Err(e)
    case Ok(plan) =>
      if |responses| != |plan.invocations| then Err(EngineFailure)
      else
        match Deltas(c, d, manifest, plan.invocations, responses)
        case Err(e) => Err(e)
        case Ok(deltas) =>
          var next := NextManifest(c, manifest, deltas);
          match MaterializedFromCheckpoint(c.hashes, d, manifest, deltas, next)
          case Err(_) => Err(MaterializationFailed)
          case Ok(document) =>
            Ok(Execution(deltas,
              next.(checkpoint := Some(Checkpoint(c.hashes.document(document), checkpointId,
                  CHECKPOINT_REPRESENTATION))),
              document))
  }

  /** The invocations an execution runs. */
  function ExecutedPlan(
      c: Context, request: EnrichmentRequest, d: Document, manifest: Manifest, answers: Id, chosen: CandidatePlan)
    : seq<Invocation>
  {
    match OfferedPlan(c, request, d, manifest, answers, chosen)
    case Ok(plan) => plan.invocations
    case Err(_) => []
  }

  // ---- Coverage gained by an execution ----

  function EntryOf(i: Invocation, evidence: seq<Evidence>): CoverageEntry {
    CoverageEntry(i.key.capability, i.key.scope, if evidence != [] then COMPLETE else CANDIDATE)
  }

  lemma DeltaCoverage(c: Context, d: Document, manifest: Manifest, i: Invocation, evidence: seq<Evidence>)
    requires DeltaFromResponse(c, d, manifest, i, evidence).Ok?
    ensures DeltaFromResponse(c, d, manifest, i, evidence).value.coverage
      == [EntryOf(i, evidence)]
  {
  }

  /** The entries appended to the coverage, one per invocation. */
  lemma {:induction false} CoverageGained(
      c: Context, d: Document, manifest: Manifest, plan: seq<Invocation>, responses: seq<seq<Evidence>>)
    requires |plan| == |responses| && Deltas(c, d, manifest, plan, responses).Ok?
    ensures CoverageOf(Deltas(c, d, manifest, plan, responses).value) == Entries(plan, responses)
  {
    if plan != [] {
      var n := |plan| - 1;
      DeltasLast(c, d, manifest, plan, responses);
      CoverageGained(c, d, manifest, plan[..n], responses[..n]);
      DeltaCoverage(c, d, manifest, plan[n], responses[n]);
      CoverageOfLast(Deltas(c, d, manifest, plan[..n], responses[..n]).value,
        DeltaFromResponse(c, d, manifest, plan[n], responses[n]).value);
      EntriesLast(plan, responses);
    }
  }

  lemma EntriesLast(plan: seq<Invocation>, responses: seq<seq<Evidence>>)
    requires |plan| == |responses| > 0
    ensures var n := |plan| - 1;
            Entries(plan, responses) == Entries(plan[..n], responses[..n]) + [EntryOf(plan[n], responses[n])]
  {
  }

  lemma DeltasLast(c: Context, d: Document, manifest: Manifest, plan: seq<Invocation>, responses: seq<seq<Evidence>>)
    requires |plan| == |responses| > 0 && Deltas(c, d, manifest, plan, responses).Ok?
    ensures var n := |plan| - 1;
            && Deltas(c, d, manifest, plan[..n], responses[..n]).Ok?
            && DeltaFromResponse(c, d, manifest, plan[n], responses[n]).Ok?
            && Deltas(c, d, manifest, plan, responses).value
               == Deltas(c, d, manifest, plan[..n], responses[..n]).value
                  + [DeltaFromResponse(c, d, manifest, plan[n], responses[n]).value]
  {
  }

  function Entries(plan: seq<Invocation>, responses: seq<seq<Evidence>>): seq<CoverageEntry>
    requires |plan| == |responses|
  {
    seq(|plan|, k requires 0 <= k < |plan| => EntryOf(plan[k], responses[k]))
  }

  lemma CoverageOfLast(before: seq<EvidenceDelta>, delta: EvidenceDelta)
    ensures CoverageOf(before + [delta]) == CoverageOf(before) + delta.coverage
  {
    assert (before + [delta])[..|before|] == before;
  }

  /** Some invocation whose response carried evidence serves the goal. */
  ghost predicate ServedBy(plan: seq<Invocation>, responses: seq<seq<Evidence>>, goal: CapabilityGoal)
    requires |plan| == |responses|
  {
    exists k :: 0 <= k < |plan| && responses[k] != [] && Serves(plan[k], goal)
  }

  /** Exactly the goals complete before, or served by evidence, are complete afterwards. */
  lemma CoverageAfter(c: Context, d: Document, manifest: Manifest, plan: seq<Invocation>, responses: seq<seq<Evidence>>,
                      goal: CapabilityGoal)
    requires |plan| == |responses| && Deltas(c, d, manifest, plan, responses).Ok?
    ensures var next := NextManifest(c, manifest, Deltas(c, d, manifest, plan, responses).value);
            CoverageComplete(next.coverage, goal.capability, goal.scope)
            <==> CoverageComplete(manifest.coverage, goal.capability, goal.scope) || ServedBy(plan, responses, goal)
  {
    var entries := CoverageOf(Deltas(c, d, manifest, plan, responses).value);
    CoverageGained(c, d, manifest, plan, responses);
    var coverage := manifest.coverage + entries;
    if CoverageComplete(coverage, goal.capability, goal.scope) {
      var e :| e in coverage && e.capability == goal.capability && e.status == COMPLETE &&
          ScopeCovers(e.scope, goal.scope);
      if e !in manifest.coverage {
        var k :| 0 <= k < |entries| && entries[k] == e;
        assert Serves(plan[k], goal);
      }
    }
    if CoverageComplete(manifest.coverage, goal.capability, goal.scope) {
      var e :| e in manifest.coverage && e.capability == goal.capability && e.status == COMPLETE &&
          ScopeCovers(e.scope, goal.scope);
      assert e in coverage;
    }
    if k :| 0 <= k < |plan| && responses[k] != [] && Serves(plan[k], goal) {
      assert entries[k] in coverage;
    }
  }

  // ---- The request stays valid on the resulting state ----

  lemma RegionStays(d: Document, e: Document, target: PageRegionRef)
    requires DocumentFacts(d) <= DocumentFacts(e) && Distinct(PageId, e.pages) && HasRegion(d, target)
    ensures HasRegion(e, target)
  {
    PresentRegion(d, target);
    RegionPresentIff(e, target);
  }

  lemma ScopeStays(d: Document, e: Document, scope: RefinementScope)
    requires DocumentFacts(d) <= DocumentFacts(e) && Distinct(PageId, e.pages) && ScopeResolves(d, scope)
    ensures ScopeResolves(e, scope)
  {
    match scope {
      case WholeDocument =>
      case Pages(pageIds) =>
        forall p | p in pageIds
          ensures Has(PageId, e.pages, p)
        {
          PagePresentIff(d.pages, p);
          PagePresentIff(e.pages, p);
        }
      case Regions(regions) =>
        forall r | r in regions
          ensures HasRegion(e, r)
        {
          RegionStays(d, e, r);
        }
    }
  }

  lemma ExecutionParts(
      c: Context, request: EnrichmentRequest, d: Document, manifest: Manifest, answers: Id, chosen: CandidatePlan,
      responses: seq<seq<Evidence>>, checkpointId: Id)
      returns (plan: CandidatePlan, deltas: seq<EvidenceDelta>, result: Execution)
    requires Execute(c, request, d, manifest, answers, chosen, responses, checkpointId).Ok?
    ensures result == Execute(c, request, d, manifest, answers, chosen, responses, checkpointId).value
    ensures |responses| == |plan.invocations| && Deltas(c, d, manifest, plan.invocations, responses) == Ok(deltas)
    ensures result.deltas == deltas && DocumentValid(d)
    ensures result.manifest == NextManifest(c, manifest, deltas).(checkpoint := result.manifest.checkpoint)
    ensures result.manifest.checkpoint
         == Some(Checkpoint(c.hashes.document(result.document), checkpointId, CHECKPOINT_REPRESENTATION))
    ensures Materialized(c.hashes, d, manifest.deltaIds, deltas, NextManifest(c, manifest, deltas)) ==
            Ok(result.document)
    ensures RequestValid(c.setting, request, d, manifest)
    ensures OfferedPlan(c, request, d, manifest, answers, chosen) == Ok(plan)
    ensures Plan(c.setting, request, d, manifest).Ok? && Plan(c.setting, request, d, manifest).value.CandidatePlans?
    ensures plan in Plan(c.setting, request, d, manifest).value.pareto
  {
    plan := OfferedPlan(c, request, d, manifest, answers, chosen).value;
    FindPlanMember(Plan(c.setting, request, d, manifest).value.pareto, chosen.id);
    deltas := Deltas(c, d, manifest, plan.invocations, responses).value;
    result := Execute(c, request, d, manifest, answers, chosen, responses, checkpointId).value;
  }

  lemma ExecutionExtends(
      c: Context, request: EnrichmentRequest, d: Document, manifest: Manifest, answers: Id, chosen: CandidatePlan,
      responses: seq<seq<Evidence>>, checkpointId: Id)
    requires Execute(c, request, d, manifest, answers, chosen, responses, checkpointId).Ok?
    ensures var result := Execute(c, request, d, manifest, answers, chosen, responses, checkpointId).value;
            && DocumentFacts(result.document) == DocumentFacts(d) + Gather(DeltaFacts, result.deltas)
            && SameHeader(result.document, d) && EvidenceGrade(result.document)
            && |responses| == |ExecutedPlan(c, request, d, manifest, answers, chosen)|
            && Records(c, manifest, ExecutedPlan(c, request, d, manifest, answers, chosen), responses, checkpointId,
                 result)
  {
    var plan, deltas, result := ExecutionParts(c, request, d, manifest, answers, chosen, responses, checkpointId);
    AppendOnly(c.hashes, d, manifest.deltaIds, deltas, NextManifest(c, manifest, deltas));
    CoverageGained(c, d, manifest, plan.invocations, responses);
    assert Entries(plan.invocations, responses) == result.manifest.coverage[|manifest.coverage|..];
  }

  /**
   * The manifest of an execution: the input state's with the identities of the new deltas and one coverage entry for
   * each invocation, descended from that state alone and naming the resulting document as its checkpoint.
   */
  ghost predicate Records(
      c: Context, manifest: Manifest, plan: seq<Invocation>, responses: seq<seq<Evidence>>, checkpointId: Id,
      result: Execution)
    requires |plan| == |responses|
  {
    var next := result.manifest;
    && (forall id :: id in next.deltaIds <==>
          id in manifest.deltaIds || exists delta :: delta in result.deltas && id == c.hashes.delta(Projection(delta)))
    && manifest.coverage <= next.coverage && |next.coverage| == |manifest.coverage| + |plan|
    && (forall k: nat :: k < |plan| ==>
          next.coverage[|manifest.coverage|..][k]
          == CoverageEntry(plan[k].key.capability, plan[k].key.scope,
               if responses[k] == [] then "candidate" else "complete"))
    && next.parents == {c.setting.stateId(manifest)}
    && next.checkpoint == Some(Checkpoint(c.hashes.document(result.document), checkpointId,
         "application/vnd.ferrodoc.document-ir+json;version=1"))
    && next.schema == manifest.schema && next.sourceDigest == manifest.sourceDigest
    && next.irSchema == manifest.irSchema && next.policyId == manifest.policyId
  }

  /** The same goals, asked of the state an execution produced. */
  function Again(c: Context, request: EnrichmentRequest, result: Execution): EnrichmentRequest {
    request.(inputState := c.setting.stateId(result.manifest))
  }

  lemma RequestStaysValid(
      c: Context, request: EnrichmentRequest, d: Document, manifest: Manifest, answers: Id, chosen: CandidatePlan,
      responses: seq<seq<Evidence>>, checkpointId: Id)
    requires Execute(c, request, d, manifest, answers, chosen, responses, checkpointId).Ok?
    ensures var result := Execute(c, request, d, manifest, answers, chosen, responses, checkpointId).value;
            RequestValid(c.setting, Again(c, request, result), result.document, result.manifest)
  {
    var plan, _, result := ExecutionParts(c, request, d, manifest, answers, chosen, responses, checkpointId);
    ExecutionExtends(c, request, d, manifest, answers, chosen, responses, checkpointId);
    forall g | g in request.goals
      ensures ScopeValid(g.scope, result.document)
    {
      ScopeStays(d, result.document, g.scope);
    }
  }

  /**
   * After an execution, exactly the goals that were missing and that no evidence-carrying
   * invocation serves are still missing.
   */
  lemma MissingAfter(
      c: Context, request: EnrichmentRequest, d: Document, manifest: Manifest, answers: Id, chosen: CandidatePlan,
      responses: seq<seq<Evidence>>, checkpointId: Id)
    requires Execute(c, request, d, manifest, answers, chosen, responses, checkpointId).Ok?
    ensures var result := Execute(c, request, d, manifest, answers, chosen, responses, checkpointId).value;
            MissingGoals(request.goals, result.manifest.coverage)
            == set g | g in MissingGoals(request.goals, manifest.coverage) &&
                !ServedBy(ExecutedPlan(c, request, d, manifest, answers, chosen), responses, g)
  {
    var plan, _, result := ExecutionParts(c, request, d, manifest, answers, chosen, responses, checkpointId);
    forall g: CapabilityGoal
      ensures CoverageComplete(result.manifest.coverage, g.capability, g.scope)
        <==> CoverageComplete(manifest.coverage, g.capability, g.scope) || ServedBy(plan.invocations, responses, g)
    {
      CoverageAfter(c, d, manifest, plan.invocations, responses, g);
    }
  }

  /**
   * Progress: when every response of an executed plan carried evidence, planning the same goals
   * on the resulting state answers that they are already satisfied.
   */
  lemma ExecutionSatisfiesGoals(
      c: Context, request: EnrichmentRequest, d: Document, manifest: Manifest, answers: Id, chosen: CandidatePlan,
      responses: seq<seq<Evidence>>, checkpointId: Id)
    requires ValidSetting(c.setting)
    requires Execute(c, request, d, manifest, answers, chosen, responses, checkpointId).Ok?
    requires forall k :: 0 <= k < |responses| ==> responses[k] != []
    ensures var result := Execute(c, request, d, manifest, answers, chosen, responses, checkpointId).value;
            Plan(c.setting, Again(c, request, result), result.document, result.manifest) == Ok(AlreadySatisfied)
  {
    var plan, _, result := ExecutionParts(c, request, d, manifest, answers, chosen, responses, checkpointId);
    RequestStaysValid(c, request, d, manifest, answers, chosen, responses, checkpointId);
    MissingAfter(c, request, d, manifest, answers, chosen, responses, checkpointId);
    OfferedPlans(c.setting, request, d, manifest);
    forall g | g in MissingGoals(request.goals, manifest.coverage)
      ensures ServedBy(plan.invocations, responses, g)
    {
      assert PlanServes(plan.invocations, g);
      ServedByEvidence(plan.invocations, responses, g);
    }
  }

  lemma ServedByEvidence(plan: seq<Invocation>, responses: seq<seq<Evidence>>, g: CapabilityGoal)
    requires |plan| == |responses| && PlanServes(plan, g)
    requires forall k :: 0 <= k < |responses| ==> responses[k] != []
    ensures ServedBy(plan, responses, g)
  {
    var i :| i in plan && Serves(i, g);
    var k :| 0 <= k < |plan| && plan[k] == i;
    assert responses[k] != [];
  }
}

/**
 * What an engine's response becomes (crates/ferrodoc-runtime/src/enrichment.rs): exactly its evidence, at exactly the
 * region it was asked about.
 */
module EvidenceAttribution {
  import opened Collections
  import opened DocumentIr
  import opened Validation
  import opened EvidenceState
  import opened Conservation
  import opened Determination
  import opened FactPresence
  import opened ParetoPlans
  import opened EnrichmentPlanner
  import opened EnrichmentExecution

  // ---- Which responses are accepted ----

  ghost predicate IsRegion(d: Document, target: PageRegionRef, p: Page, r: Region) {
    p in d.pages && p.id == target.page && r in p.regions && r.id == target.region
  }

  /** Evidence that says of itself that this invocation produced it. */
  predicate Provenanced(c: Context, manifest: Manifest, i: Invocation, e: Evidence) {
    e.provenance == Provenance(manifest.irSchema, manifest.sourceDigest, i.key.engineId, i.key.engineVersion,
                               i.key.model, c.evidenceParameters(i), c.pipelineStage(i))
  }

  /** The table cells draw on text evidence of the region. */
  ghost predicate DrawsOn(r: Region, e: Evidence) {
    e.content.TableContent? ==>
      forall cell, span :: cell in e.content.cells && span in cell.spans ==> TextOf(r, span.evidenceId)
  }

  ghost predicate TextOf(r: Region, id: Id) {
    exists t :: t in r.evidence && t.id == id && t.content.TextContent?
  }

  /** Evidence that lies on the page and draws its table cells from text of the region. */
  ghost predicate Fits(p: Page, r: Region, e: Evidence) {
    && (e.geometry.Some? ==> e.geometry.value.pageIndex == p.index)
    && DrawsOn(r, e)
  }

  ghost predicate Attributable(c: Context, d: Document, manifest: Manifest, i: Invocation, evidence: seq<Evidence>) {
    && (forall e :: e in evidence ==> Provenanced(c, manifest, i, e))
    && (i.key.capability == "table.recognize" ==> forall e :: e in evidence ==> e.content.TableContent?)
    && (evidence != [] ==>
          exists target, p, r :: i.key.scope == Regions({target}) && IsRegion(d, target, p, r)
            && forall e :: e in evidence ==> Fits(p, r, e))
  }

  lemma TargetIff(scope: RefinementScope, target: PageRegionRef)
    ensures TargetOf(scope) == Some(target) <==> scope == Regions({target})
    ensures TargetOf(scope).None? <==> forall t :: scope != Regions({t})
  {
    if t :| scope == Regions({t}) {
      assert t in scope.regions;
    }
  }

  /** In a valid document the region of a target is the one looked up. */
  lemma LookedUp(d: Document, target: PageRegionRef, p: Page, r: Region)
    requires DocumentValid(d)
    ensures IsRegion(d, target, p, r)
       <==> HasRegion(d, target) && PageAt(d, target.page) == Some(p)
            && p.regions[IndexOf(RegionId, p.regions, target.region)] == r
  {
    if IsRegion(d, target, p, r) {
      var i := IndexOf(PageId, d.pages, target.page);
      HasMeans(PageId, d.pages, target.page);
      assert PageId(p) == target.page;
      DistinctEqual(PageId, d.pages, p, d.pages[i]);
      HasMeans(RegionId, p.regions, target.region);
      assert RegionId(r) == target.region;
      DistinctEqual(RegionId, p.regions, r, p.regions[IndexOf(RegionId, p.regions, target.region)]);
    } else if HasRegion(d, target) && PageAt(d, target.page) == Some(p) {
      assert PageId(d.pages[IndexOf(PageId, d.pages, target.page)]) == target.page;
      assert RegionId(p.regions[IndexOf(RegionId, p.regions, target.region)]) == target.region;
    }
  }

  // ---- The layers of new evidence ----

  ghost predicate Ascending(layers: seq<SourceLayer>) {
    forall i: nat, j: nat :: i < j < |layers| ==> layers[i].id < layers[j].id
  }

  lemma {:induction false} InsertLayerMeans(layers: seq<SourceLayer>, layer: SourceLayer)
    requires Ascending(layers)
    ensures InsertLayer(layers, layer).None? <==> exists l :: l in layers && l.id == layer.id && l != layer
    ensures InsertLayer(layers, layer).Some? ==>
              && Ascending(InsertLayer(layers, layer).value)
              && forall l :: l in InsertLayer(layers, layer).value <==> l in layers || l == layer
  {
    if layers != [] && layers[0].id < layer.id {
      InsertLayerMeans(layers[1..], layer);
      assert layers == [layers[0]] + layers[1..];
      if InsertLayer(layers[1..], layer).Some? {
        var rest := InsertLayer(layers[1..], layer).value;
        forall k: nat | k < |rest|
          ensures layers[0].id < rest[k].id
        {
          assert rest[k] in rest;
        }
      }
    } else if layers != [] && layers[0].id == layer.id {
      assert forall l :: l in layers && l.id == layer.id ==> l == layers[0];
    }
  }

  /** A layer that the page lacks and some evidence was read from. */
  ghost predicate NewLayer(p: Page, capability: string, evidence: seq<Evidence>, layer: SourceLayer) {
    && (forall l :: l in p.layers ==> l.id != layer.id)
    && exists e :: e in evidence && layer == SourceLayer(e.layerId, UnknownLayer(capability), e.provenance)
  }

  lemma {:induction false} NewLayersMean(p: Page, capability: string, evidence: seq<Evidence>, provenance: Provenance)
    requires forall e :: e in evidence ==> e.provenance == provenance
    ensures NewLayers(p, capability, evidence).Some?
    ensures var layers := NewLayers(p, capability, evidence).value;
            Ascending(layers) && forall l :: l in layers <==> NewLayer(p, capability, evidence, l)
  {
    if evidence != [] {
      var n := |evidence| - 1;
      var e := evidence[n];
      NewLayersMean(p, capability, evidence[..n], provenance);
      assert evidence == evidence[..n] + [e];
      var before := NewLayers(p, capability, evidence[..n]).value;
      var layer := SourceLayer(e.layerId, UnknownLayer(capability), e.provenance);
      HasMeans(LayerId, p.layers, e.layerId);
      InsertLayerMeans(before, layer);
      forall l | l in p.layers
        ensures LayerId(l) == l.id
      {
      }
    }
  }

  // ---- What the delta of a response carries ----

  /** Everything about the delta but its content. */
  predicate Attributed(c: Context, manifest: Manifest, i: Invocation, evidence: seq<Evidence>, delta: EvidenceDelta) {
    && delta.schema == "ferrodoc-evidence-delta/1"
    && delta.sourceDigest == manifest.sourceDigest && delta.irSchema == manifest.irSchema
    && delta.stage == c.pipelineStage(i)
    && delta.producer
       == DeltaProducer(i.key.engineId, i.key.engineVersion, i.key.build, i.key.model, c.configurationDigest(i))
    && delta.scope == i.key.scope && delta.inputState == Some(c.setting.stateId(manifest))
    && delta.diagnostics == []
    && delta.coverage
       == [CoverageEntry(i.key.capability, i.key.scope, if evidence == [] then "candidate" else "complete")]
  }

  /** How often a response at this region gives a fact: its evidence as often as listed, each new layer once. */
  ghost function Given(p: Page, r: Region, capability: string, evidence: seq<Evidence>, f: Fact): nat {
    match f
    case EvidenceFact(page, region, e) => if page == p.id && region == r.id then multiset(evidence)[e] else 0
    case LayerFact(page, layer) => if page == p.id && NewLayer(p, capability, evidence, layer) then 1 else 0
    case _ => 0
  }

  /** Table structure replaces the selected view by the evidence listed; nothing else is selected. */
  predicate HintsOf(capability: string, target: PageRegionRef, evidence: seq<Evidence>, hints: seq<SelectionHint>) {
    if capability != "table.recognize" then hints == []
    else
      && |hints| == 1 && hints[0].region == target && hints[0].selected.reason == Reconciled
      && |hints[0].selected.evidenceIds| == |evidence|
      && forall k: nat :: k < |evidence| ==> hints[0].selected.evidenceIds[k] == evidence[k].id
  }

  /** The evidence the table cells of a response draw on. */
  ghost predicate DrawnOn(evidence: seq<Evidence>, id: Id) {
    exists e, cell, span :: e in evidence && e.content.TableContent? && cell in e.content.cells && span in cell.spans
      && span.evidenceId == id
  }

  ghost predicate Carries(
      d: Document, target: PageRegionRef, p: Page, r: Region, capability: string, evidence: seq<Evidence>,
      delta: EvidenceDelta)
  {
    && IsRegion(d, target, p, r)
    && (forall f :: DeltaFacts(delta)[f] == Given(p, r, capability, evidence, f))
    && HintsOf(capability, target, evidence, delta.hints)
    && forall id :: id in delta.requiredEvidence <==> DrawnOn(evidence, id)
  }

  ghost predicate CarriesNothing(delta: EvidenceDelta) {
    DeltaFacts(delta) == multiset{} && delta.hints == [] && delta.requiredEvidence == {}
  }

  lemma SpansAre(evidence: seq<Evidence>, id: Id)
    ensures id in AllSpans(evidence) <==> DrawnOn(evidence, id)
  {
    if id in AllSpans(evidence) {
      var e :| e in evidence && id in SpansOf(e);
      var cell, span :| cell in e.content.cells && span in cell.spans && span.evidenceId == id;
    }
    if DrawnOn(evidence, id) {
      var e, cell, span :| e in evidence && e.content.TableContent? && cell in e.content.cells && span in cell.spans
        && span.evidenceId == id;
      assert id in SpansOf(e);
    }
  }

  lemma OneGiven(page: Id, region: Id, evidence: seq<Evidence>)
    ensures Gather(GivenFacts(page), [RegionEvidenceAddition(region, evidence)])
         == Gather(EvidenceFacts(page, region), evidence)
  {
    GatherOne(GivenFacts(page), RegionEvidenceAddition(region, evidence));
  }

  lemma AscendingOnce(layers: seq<SourceLayer>, layer: SourceLayer)
    requires Ascending(layers)
    ensures multiset(layers)[layer] == if layer in layers then 1 else 0
  {
    if layer in layers {
      var k: nat :| k < |layers| && layers[k] == layer;
      assert layers == layers[..k] + [layer] + layers[k + 1..];
      assert layer !in layers[..k] && layer !in layers[k + 1..];
    }
  }

  /** The facts of the one addition a response makes. */
  lemma AdditionGives(
      p: Page, r: Region, capability: string, evidence: seq<Evidence>, layers: seq<SourceLayer>, f: Fact)
    requires Ascending(layers) && forall l :: l in layers <==> NewLayer(p, capability, evidence, l)
    ensures var target := PageRegionRef(p.id, r.id);
            var a := PageDelta(p.id, OwnedBy(target, layers), [], [], [RegionEvidenceAddition(r.id, evidence)], []);
            AdditionFacts(a)[f] == Given(p, r, capability, evidence, f)
  {
    LayersGiven(p.id, r.id, layers, f);
    OneGiven(p.id, r.id, evidence);
    EvidenceCount(p.id, r.id, evidence, f);
    var a := PageDelta(p.id, OwnedBy(PageRegionRef(p.id, r.id), layers), [], [],
      [RegionEvidenceAddition(r.id, evidence)], []);
    OnlyLayersAndEvidence(a, f);
  }

  /** An addition without artifacts, regions or edges. */
  lemma OnlyLayersAndEvidence(a: PageDelta, f: Fact)
    requires a.artifacts == [] && a.regions == [] && a.edges == []
    ensures AdditionFacts(a)[f]
         == Gather(OwnedFacts(a.page), a.layers)[f] + Gather(GivenFacts(a.page), a.regionEvidence)[f]
  {
  }

  lemma LayersGiven(page: Id, region: Id, layers: seq<SourceLayer>, f: Fact)
    requires Ascending(layers)
    ensures Gather(OwnedFacts(page), OwnedBy(PageRegionRef(page, region), layers))[f]
         == if f.LayerFact? && f.page == page && f.layer in layers then 1 else 0
  {
    var owned := OwnedBy(PageRegionRef(page, region), layers);
    LayersOfFacts(page, owned);
    assert LayersOf(owned) == layers;
    LayerCount(page, layers, f);
    if f.LayerFact? {
      AscendingOnce(layers, f.layer);
    }
  }

  lemma OneAddition(delta: EvidenceDelta, f: Fact)
    requires delta.newPages == [] && |delta.pageAdditions| == 1
    ensures DeltaFacts(delta)[f] == AdditionFacts(delta.pageAdditions[0])[f]
  {
    GatherOne(AdditionFacts, delta.pageAdditions[0]);
    assert delta.pageAdditions == [delta.pageAdditions[0]];
  }

  lemma AcceptedResponse(
      c: Context, d: Document, manifest: Manifest, i: Invocation, evidence: seq<Evidence>, target: PageRegionRef,
      p: Page, r: Region)
    requires DocumentValid(d) && evidence != [] && i.key.scope == Regions({target}) && IsRegion(d, target, p, r)
    requires forall e :: e in evidence ==> Provenanced(c, manifest, i, e) && Fits(p, r, e)
    requires i.key.capability == "table.recognize" ==> forall e :: e in evidence ==> e.content.TableContent?
    ensures DeltaFromResponse(c, d, manifest, i, evidence).Ok?
    ensures var delta := DeltaFromResponse(c, d, manifest, i, evidence).value;
            Attributed(c, manifest, i, evidence, delta) && Carries(d, target, p, r, i.key.capability, evidence, delta)
  {
    TargetIff(i.key.scope, target);
    LookedUp(d, target, p, r);
    assert Provenanced(c, manifest, i, evidence[0]);
    forall e | e in evidence
      ensures e.provenance == evidence[0].provenance
    {
      assert Provenanced(c, manifest, i, e);
    }
    NewLayersMean(p, i.key.capability, evidence, evidence[0].provenance);
    SpansAllText(r, evidence, p);
    var layers := NewLayers(p, i.key.capability, evidence).value;
    var delta := DeltaFromResponse(c, d, manifest, i, evidence).value;
    forall f
      ensures DeltaFacts(delta)[f] == Given(p, r, i.key.capability, evidence, f)
    {
      AdditionGives(p, r, i.key.capability, evidence, layers, f);
      OneAddition(delta, f);
    }
    forall id
      ensures id in delta.requiredEvidence <==> DrawnOn(evidence, id)
    {
      SpansAre(evidence, id);
    }
  }

  lemma SpansAllText(r: Region, evidence: seq<Evidence>, p: Page)
    requires forall e :: e in evidence ==> Fits(p, r, e)
    ensures forall id :: id in AllSpans(evidence) ==> TextIn(r, id)
    ensures OnPage(evidence, p.index)
  {
    forall id | id in AllSpans(evidence)
      ensures TextIn(r, id)
    {
      SpansAre(evidence, id);
      var e, cell, span :| e in evidence && e.content.TableContent? && cell in e.content.cells && span in cell.spans
        && span.evidenceId == id;
      assert Fits(p, r, e);
    }
  }

  lemma DrawsOnText(r: Region, evidence: seq<Evidence>, e: Evidence)
    requires e in evidence && forall id :: id in AllSpans(evidence) ==> TextIn(r, id)
    ensures DrawsOn(r, e)
  {
    if e.content.TableContent? {
      forall cell, span | cell in e.content.cells && span in cell.spans
        ensures TextOf(r, span.evidenceId)
      {
        assert DrawnOn(evidence, span.evidenceId);
        SpansAre(evidence, span.evidenceId);
        assert TextIn(r, span.evidenceId);
      }
    }
  }

  lemma RefusedOtherwise(c: Context, d: Document, manifest: Manifest, i: Invocation, evidence: seq<Evidence>)
    requires DocumentValid(d) && evidence != [] && DeltaFromResponse(c, d, manifest, i, evidence).Ok?
    ensures Attributable(c, d, manifest, i, evidence)
  {
    var target := TargetOf(i.key.scope).value;
    TargetIff(i.key.scope, target);
    var p := PageAt(d, target.page).value;
    var r := p.regions[IndexOf(RegionId, p.regions, target.region)];
    LookedUp(d, target, p, r);
    forall e | e in evidence
      ensures Fits(p, r, e)
    {
      DrawsOnText(r, evidence, e);
    }
    assert forall e :: e in evidence ==> ProvenanceMatches(c, manifest, i, e);
    assert i.key.scope == Regions({target}) && IsRegion(d, target, p, r);
  }

  /** A response becomes a delta exactly when it is attributable to its invocation. */
  lemma AttributableIff(c: Context, d: Document, manifest: Manifest, i: Invocation, evidence: seq<Evidence>)
    requires DocumentValid(d)
    ensures DeltaFromResponse(c, d, manifest, i, evidence).Ok? <==> Attributable(c, d, manifest, i, evidence)
  {
    if evidence != [] {
      if Attributable(c, d, manifest, i, evidence) {
        var target, p, r :| i.key.scope == Regions({target}) && IsRegion(d, target, p, r)
          && forall e :: e in evidence ==> Fits(p, r, e);
        AcceptedResponse(c, d, manifest, i, evidence, target, p, r);
      }
      if DeltaFromResponse(c, d, manifest, i, evidence).Ok? {
        RefusedOtherwise(c, d, manifest, i, evidence);
      }
    }
  }

  /** The invocation asked about this region. */
  ghost predicate AsksAbout(d: Document, i: Invocation, p: Page, r: Region) {
    i.key.scope == Regions({PageRegionRef(p.id, r.id)}) && p in d.pages && r in p.regions
  }

  /**
   * The delta of a response: attributed to its invocation, and carrying exactly the response's evidence and new layers
   * at the region asked about, with no page, region, artifact or edge; nothing at all for an empty response.
   */
  lemma ResponseCarries(c: Context, d: Document, manifest: Manifest, i: Invocation, evidence: seq<Evidence>)
    requires DocumentValid(d) && DeltaFromResponse(c, d, manifest, i, evidence).Ok?
    ensures var delta := DeltaFromResponse(c, d, manifest, i, evidence).value;
            && Attributed(c, manifest, i, evidence, delta)
            && (if evidence == [] then CarriesNothing(delta)
                else exists p, r :: (
                  AsksAbout(d, i, p, r)
                  && Carries(d, PageRegionRef(p.id, r.id), p, r, i.key.capability, evidence, delta)))
  {
    if evidence != [] {
      AttributableIff(c, d, manifest, i, evidence);
      var target, p, r :| i.key.scope == Regions({target}) && IsRegion(d, target, p, r)
        && forall e :: e in evidence ==> Fits(p, r, e);
      AcceptedResponse(c, d, manifest, i, evidence, target, p, r);
      assert target == PageRegionRef(p.id, r.id);
      assert AsksAbout(d, i, p, r);
    }
  }

  // ---- What an execution adds to the document ----

  /** How often one response gives a fact to the document it was asked about. */
  ghost function GivenBy(d: Document, i: Invocation, evidence: seq<Evidence>, f: Fact): nat {
    if evidence != [] && exists p, r :: AsksAbout(d, i, p, r)
    then
      var p, r :| AsksAbout(d, i, p, r);
      Given(p, r, i.key.capability, evidence, f)
    else 0
  }

  ghost function GivenByAll(d: Document, plan: seq<Invocation>, responses: seq<seq<Evidence>>, f: Fact): nat
    requires |plan| == |responses|
  {
    if plan == [] then 0
    else
      var n := |plan| - 1;
      GivenByAll(d, plan[..n], responses[..n], f) + GivenBy(d, plan[n], responses[n], f)
  }

  lemma AskedOnce(d: Document, i: Invocation, p: Page, r: Region, q: Page, s: Region)
    requires DocumentValid(d) && AsksAbout(d, i, p, r) && AsksAbout(d, i, q, s)
    ensures p == q && r == s
  {
    var a, b := PageRegionRef(p.id, r.id), PageRegionRef(q.id, s.id);
    assert a in {b};
    assert PageId(p) == PageId(q) && RegionId(r) == RegionId(s);
    DistinctEqual(PageId, d.pages, p, q);
    DistinctEqual(RegionId, p.regions, r, s);
  }

  lemma GivenAsked(d: Document, i: Invocation, evidence: seq<Evidence>, p: Page, r: Region, f: Fact)
    requires DocumentValid(d) && AsksAbout(d, i, p, r) && evidence != []
    ensures GivenBy(d, i, evidence, f) == Given(p, r, i.key.capability, evidence, f)
  {
    forall q, s | AsksAbout(d, i, q, s)
      ensures q == p && s == r
    {
      AskedOnce(d, i, p, r, q, s);
    }
  }

  lemma DeltaGives(c: Context, d: Document, manifest: Manifest, i: Invocation, evidence: seq<Evidence>, f: Fact)
    requires DocumentValid(d) && DeltaFromResponse(c, d, manifest, i, evidence).Ok?
    ensures DeltaFacts(DeltaFromResponse(c, d, manifest, i, evidence).value)[f] == GivenBy(d, i, evidence, f)
  {
    var delta := DeltaFromResponse(c, d, manifest, i, evidence).value;
    ResponseCarries(c, d, manifest, i, evidence);
    if evidence != [] {
      var p, r :| AsksAbout(d, i, p, r)
        && Carries(d, PageRegionRef(p.id, r.id), p, r, i.key.capability, evidence, delta);
      GivenAsked(d, i, evidence, p, r, f);
    }
  }

  lemma {:induction false} DeltasGive(
      c: Context, d: Document, manifest: Manifest, plan: seq<Invocation>, responses: seq<seq<Evidence>>, f: Fact)
    requires DocumentValid(d) && |plan| == |responses| && Deltas(c, d, manifest, plan, responses).Ok?
    ensures Gather(DeltaFacts, Deltas(c, d, manifest, plan, responses).value)[f] == GivenByAll(d, plan, responses, f)
  {
    if plan != [] {
      var n := |plan| - 1;
      DeltasLast(c, d, manifest, plan, responses);
      DeltasGive(c, d, manifest, plan[..n], responses[..n], f);
      DeltaGives(c, d, manifest, plan[n], responses[n], f);
      var before := Deltas(c, d, manifest, plan[..n], responses[..n]).value;
      var delta := DeltaFromResponse(c, d, manifest, plan[n], responses[n]).value;
      GatherConcat(DeltaFacts, before, [delta]);
      GatherOne(DeltaFacts, delta);
    }
  }

  /** An executed plan gives the document exactly the evidence of its responses, and the layers they were read from. */
  lemma DocumentGainsResponses(
      c: Context, request: EnrichmentRequest, d: Document, manifest: Manifest, answers: Id, chosen: CandidatePlan,
      responses: seq<seq<Evidence>>, checkpointId: Id)
    requires Execute(c, request, d, manifest, answers, chosen, responses, checkpointId).Ok?
    ensures var plan := ExecutedPlan(c, request, d, manifest, answers, chosen);
            var after := Execute(c, request, d, manifest, answers, chosen, responses, checkpointId).value.document;
            && |responses| == |plan|
            && forall f :: DocumentFacts(after)[f] == DocumentFacts(d)[f] + GivenByAll(d, plan, responses, f)
  {
    var plan, deltas, result := ExecutionParts(c, request, d, manifest, answers, chosen, responses, checkpointId);
    ExecutionExtends(c, request, d, manifest, answers, chosen, responses, checkpointId);
    forall f
      ensures DocumentFacts(result.document)[f] == DocumentFacts(d)[f] + GivenByAll(d, plan.invocations, responses, f)
    {
      DeltasGive(c, d, manifest, plan.invocations, responses, f);
    }
  }

  lemma {:induction false} GivenAtLeast(
      d: Document, plan: seq<Invocation>, responses: seq<seq<Evidence>>, k: nat, f: Fact)
    requires |plan| == |responses| && k < |plan|
    ensures GivenBy(d, plan[k], responses[k], f) <= GivenByAll(d, plan, responses, f)
  {
    var n := |plan| - 1;
    if k < n {
      GivenAtLeast(d, plan[..n], responses[..n], k, f);
    }
  }

  /** So every record of every response is found, in the resulting document, at the region that was asked about. */
  lemma ResponsesAreFound(
      c: Context, request: EnrichmentRequest, d: Document, manifest: Manifest, answers: Id, chosen: CandidatePlan,
      responses: seq<seq<Evidence>>, checkpointId: Id, k: nat, e: Evidence)
    requires Execute(c, request, d, manifest, answers, chosen, responses, checkpointId).Ok?
    requires k < |responses| && e in responses[k]
    ensures var plan := ExecutedPlan(c, request, d, manifest, answers, chosen);
            var after := Execute(c, request, d, manifest, answers, chosen, responses, checkpointId).value.document;
            k < |plan| && exists target, p, r ::
              plan[k].key.scope == Regions({target}) && IsRegion(after, target, p, r) && e in r.evidence
  {
    var plan, deltas, result := ExecutionParts(c, request, d, manifest, answers, chosen, responses, checkpointId);
    DocumentGainsResponses(c, request, d, manifest, answers, chosen, responses, checkpointId);
    DeltaAt(c, d, manifest, plan.invocations, responses, k);
    var f := RecordGiven(c, d, manifest, plan.invocations[k], responses[k], e);
    GivenAtLeast(d, plan.invocations, responses, k, f);
    assert DocumentFacts(result.document)[f] >= 1;
    FoundAt(result.document, f);
  }

  lemma RecordGiven(c: Context, d: Document, manifest: Manifest, i: Invocation, evidence: seq<Evidence>, e: Evidence)
      returns (f: Fact)
    requires DocumentValid(d) && DeltaFromResponse(c, d, manifest, i, evidence).Ok? && e in evidence
    ensures f.EvidenceFact? && f.evidence == e && i.key.scope == Regions({PageRegionRef(f.page, f.region)})
    ensures GivenBy(d, i, evidence, f) >= 1
  {
    ResponseCarries(c, d, manifest, i, evidence);
    var p, r :| AsksAbout(d, i, p, r);
    f := RecordAt(d, i, evidence, e, p, r);
  }

  lemma RecordAt(d: Document, i: Invocation, evidence: seq<Evidence>, e: Evidence, p: Page, r: Region)
      returns (f: Fact)
    requires DocumentValid(d) && AsksAbout(d, i, p, r) && e in evidence
    ensures f.EvidenceFact? && f.evidence == e && i.key.scope == Regions({PageRegionRef(f.page, f.region)})
    ensures GivenBy(d, i, evidence, f) >= 1
  {
    f := EvidenceFact(p.id, r.id, e);
    GivenAsked(d, i, evidence, p, r, f);
  }

  lemma FoundAt(d: Document, f: Fact)
    requires f.EvidenceFact? && f in DocumentFacts(d)
    ensures exists p, r :: IsRegion(d, PageRegionRef(f.page, f.region), p, r) && f.evidence in r.evidence
  {
    var i := GatherMember(PageFacts, d.pages, f);
    var r := EvidenceOnPage(d.pages[i], f);
    assert IsRegion(d, PageRegionRef(f.page, f.region), d.pages[i], r);
  }

  lemma {:induction false} DeltaAt(
      c: Context, d: Document, manifest: Manifest, plan: seq<Invocation>, responses: seq<seq<Evidence>>, k: nat)
    requires |plan| == |responses| && k < |plan| && Deltas(c, d, manifest, plan, responses).Ok?
    ensures DeltaFromResponse(c, d, manifest, plan[k], responses[k]).Ok?
    ensures k < |Deltas(c, d, manifest, plan, responses).value| == |plan|
    ensures Deltas(c, d, manifest, plan, responses).value[k]
         == DeltaFromResponse(c, d, manifest, plan[k], responses[k]).value
  {
    var n := |plan| - 1;
    DeltasLast(c, d, manifest, plan, responses);
    if k < n {
      DeltaAt(c, d, manifest, plan[..n], responses[..n], k);
    } else if n > 0 {
      DeltaAt(c, d, manifest, plan[..n], responses[..n], n - 1);
    }
  }
}

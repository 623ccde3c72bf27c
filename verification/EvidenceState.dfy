/** Evidence deltas, state manifests, and what applying a delta does (crates/ferrodoc-ir/src/state.rs). */
module EvidenceState {
  import opened Collections
  import opened DocumentIr
  import opened Text

  const EVIDENCE_DELTA_SCHEMA := "ferrodoc-evidence-delta/1"
  const DOCUMENT_STATE_SCHEMA := "ferrodoc-document-state/1"

  datatype DeltaProducer = DeltaProducer(
    name: string, version: string, build: Digest, modelDigest: Option<Digest>, configurationDigest: Digest)

  datatype RefinementScope =
    | WholeDocument
    | Pages(pageIds: set<Id>)
    | Regions(regions: set<PageRegionRef>)

  datatype LayerOwner = PageOwner(page: Id) | RegionOwner(page: Id, region: Id)

  datatype OwnedSourceLayer = OwnedSourceLayer(owner: LayerOwner, layer: SourceLayer)

  datatype RegionEvidenceAddition = RegionEvidenceAddition(region: Id, evidence: seq<Evidence>)

  datatype SelectionHint = SelectionHint(region: PageRegionRef, selected: SelectedView)

  datatype DeltaDiagnostic = DeltaDiagnostic(code: string, message: string)

  /** `capability` ranges over the canonical capability names. */
  datatype CoverageEntry = CoverageEntry(capability: string, scope: RefinementScope, status: string)

  datatype PageDelta = PageDelta(
    page: Id, layers: seq<OwnedSourceLayer>, artifacts: seq<RenderArtifact>, regions: seq<Region>,
    regionEvidence: seq<RegionEvidenceAddition>, edges: seq<ReadingOrderEdge>)

  datatype EvidenceDelta = EvidenceDelta(
    schema: string, sourceDigest: Digest, irSchema: SchemaVersion, stage: Stage, producer: DeltaProducer,
    scope: RefinementScope, inputState: Option<Id>, requiredEvidence: set<Id>, newPages: seq<Page>,
    pageAdditions: seq<PageDelta>, hints: seq<SelectionHint>, diagnostics: seq<DeltaDiagnostic>,
    coverage: seq<CoverageEntry>)

  datatype Checkpoint = Checkpoint(documentDigest: Digest, artifactId: Id, representation: string)

  datatype Manifest = Manifest(
    schema: string, sourceDigest: Digest, irSchema: SchemaVersion, deltaIds: set<Id>, policyId: Digest,
    coverage: seq<CoverageEntry>, checkpoint: Option<Checkpoint>, parents: set<Id>)

  /** What of a delta enters its identity: not its scope, prerequisites, diagnostics or coverage. */
  datatype DeltaProjection = DeltaProjection(
    sourceDigest: Digest, irSchema: SchemaVersion, stage: Stage, producer: DeltaProducer,
    newPages: seq<Page>, pageAdditions: seq<PageDelta>, hints: seq<SelectionHint>)

  /** The hash functions, over the values whose canonical serialization the source hashes. */
  datatype Hashes = Hashes(delta: DeltaProjection -> Id, document: Document -> Digest)

  datatype Failure =
    | UnsupportedDeltaSchema | EmptyIdentity | DuplicateNewPages | DuplicatePageAdditions
    | SourceMismatch | MissingPrerequisite | BadScope | PagesNeedDocumentScope | AdditionOutsideScope
    | ContentOutsideTargets | PageReplaced | AdditionTargetAbsent | LayerOwnerUnresolved
    | EvidenceOwnerAbsent | HintOutsideScope | HintTargetAbsent | ConflictingHints
    | UnsupportedStateSchema | NotAPrefix | NoCheckpointReference | CheckpointMismatch
    | IdentitiesMismatch | InvalidDocument

  type Hints = map<PageRegionRef, SelectedView>

  /** The mutable part of a replay: the document under construction and the hints seen so far. */
  datatype Progress = Progress(document: Document, hints: Hints)

  // ---- Envelope and identity ----

  function AdditionPage(addition: PageDelta): Id { addition.page }

  predicate DistinctIdsOf<T>(id: T -> Id, s: seq<T>)
    ensures DistinctIdsOf(id, s) <==> Distinct(id, s)
  {
    forall i, j :: 0 <= i < j < |s| ==> id(s[i]) != id(s[j])
  }

  function EnvelopeFailure(delta: EvidenceDelta): Option<Failure> {
    if delta.schema != EVIDENCE_DELTA_SCHEMA then Some(UnsupportedDeltaSchema)
    else if Blank(delta.producer.name) || Blank(delta.producer.version)
            || (exists d :: d in delta.diagnostics && Blank(d.code))
            || (exists c :: c in delta.coverage && Blank(c.status)) then Some(EmptyIdentity)
    else if !DistinctIdsOf(PageId, delta.newPages) then Some(DuplicateNewPages)
    else if !DistinctIdsOf(AdditionPage, delta.pageAdditions) then Some(DuplicatePageAdditions)
    else None
  }

  const LOGICAL_BLOB: Id := 0

  function LogicalArtifacts(artifacts: seq<RenderArtifact>): seq<RenderArtifact> {
    seq(|artifacts|, i requires 0 <= i < |artifacts| => artifacts[i].(blobId := LOGICAL_BLOB))
  }

  function Projection(delta: EvidenceDelta): DeltaProjection {
    DeltaProjection(delta.sourceDigest, delta.irSchema, delta.stage, delta.producer,
      seq(|delta.newPages|, i requires 0 <= i < |delta.newPages| =>
        delta.newPages[i].(artifacts := LogicalArtifacts(delta.newPages[i].artifacts))),
      seq(|delta.pageAdditions|, i requires 0 <= i < |delta.pageAdditions| =>
        delta.pageAdditions[i].(artifacts := LogicalArtifacts(delta.pageAdditions[i].artifacts))),
      delta.hints)
  }

  function DeltaId(hashes: Hashes, delta: EvidenceDelta): Result<Id, Failure> {
    match EnvelopeFailure(delta)
    case Some(failure) => Err(failure)
    case None => Ok(hashes.delta(Projection(delta)))
  }

  // ---- Admission checks against the document before any change ----

  function PageAt(d: Document, page: Id): Option<Page> {
    var i := IndexOf(PageId, d.pages, page);
    if i < |d.pages| then Some(d.pages[i]) else None
  }

  predicate HasRegion(d: Document, target: PageRegionRef) {
    var page := PageAt(d, target.page);
    page.Some? && Has(RegionId, page.value.regions, target.region)
  }

  predicate HasEvidence(d: Document, id: Id) {
    exists p :: p in d.pages && exists r :: r in p.regions && exists e :: e in r.evidence && e.id == id
  }

  predicate ScopeResolves(d: Document, scope: RefinementScope) {
    match scope
    case WholeDocument => true
    case Pages(pageIds) => pageIds != {} && forall p :: p in pageIds ==> Has(PageId, d.pages, p)
    case Regions(regions) => regions != {} && forall r :: r in regions ==> HasRegion(d, r)
  }

  predicate PageInScope(scope: RefinementScope, page: Id) {
    match scope
    case WholeDocument => true
    case Pages(pageIds) => page in pageIds
    case Regions(regions) => exists r :: r in regions && r.page == page
  }

  /** Targets of a region-scoped delta on the page, or regions the addition itself introduces. */
  predicate Allowed(regions: set<PageRegionRef>, addition: PageDelta, region: Id) {
    PageRegionRef(addition.page, region) in regions || Has(RegionId, addition.regions, region)
  }

  predicate WithinTargets(regions: set<PageRegionRef>, addition: PageDelta) {
    && (forall o :: o in addition.layers && o.owner.RegionOwner? ==> Allowed(regions, addition, o.owner.region))
    && (forall e :: e in addition.regionEvidence ==> Allowed(regions, addition, e.region))
    && (forall e :: e in addition.edges ==>
          Allowed(regions, addition, e.before) && Allowed(regions, addition, e.after))
  }

  function AdditionScopeFailure(scope: RefinementScope, additions: seq<PageDelta>): Option<Failure> {
    if additions == [] then None
    else if !PageInScope(scope, additions[0].page) then Some(AdditionOutsideScope)
    else if scope.Regions? && !WithinTargets(scope.regions, additions[0]) then Some(ContentOutsideTargets)
    else AdditionScopeFailure(scope, additions[1..])
  }

  function AdmissionFailure(d: Document, delta: EvidenceDelta): Option<Failure> {
    if EnvelopeFailure(delta).Some? then EnvelopeFailure(delta)
    else if delta.sourceDigest != d.inputDigest || delta.irSchema != d.schema then Some(SourceMismatch)
    else if exists id :: id in delta.requiredEvidence && !HasEvidence(d, id) then Some(MissingPrerequisite)
    else if !ScopeResolves(d, delta.scope) then Some(BadScope)
    else if delta.newPages != [] && delta.scope != WholeDocument then Some(PagesNeedDocumentScope)
    else AdditionScopeFailure(delta.scope, delta.pageAdditions)
  }

  // ---- The three phases of an application ----

  function AddPages(pages: seq<Page>, added: seq<Page>): Result<seq<Page>, Failure>
    decreases |added|
  {
    if added == [] then Ok(pages)
    else if Has(PageId, pages, added[0].id) then Err(PageReplaced)
    else AddPages(pages + [added[0]], added[1..])
  }

  predicate OwnerResolves(page: Page, addition: PageDelta, owner: LayerOwner) {
    match owner
    case PageOwner(p) => p == page.id
    case RegionOwner(p, r) =>
      p == page.id && (Has(RegionId, page.regions, r) || Has(RegionId, addition.regions, r))
  }

  function LayersOf(owned: seq<OwnedSourceLayer>): seq<SourceLayer> {
    seq(|owned|, i requires 0 <= i < |owned| => owned[i].layer)
  }

  function AddEvidence(regions: seq<Region>, additions: seq<RegionEvidenceAddition>): Result<seq<Region>, Failure>
    decreases |additions|
  {
    if additions == [] then Ok(regions)
    else
      var i := IndexOf(RegionId, regions, additions[0].region);
      if i == |regions| then Err(EvidenceOwnerAbsent)
      else
        var grown := regions[i].(evidence := regions[i].evidence + additions[0].evidence);
        AddEvidence(regions[i := grown], additions[1..])
  }

  function ExtendPage(page: Page, addition: PageDelta): Result<Page, Failure> {
    if exists o :: o in addition.layers && !OwnerResolves(page, addition, o.owner) then Err(LayerOwnerUnresolved)
    else
      match AddEvidence(page.regions + addition.regions, addition.regionEvidence)
      case Err(failure) => Err(failure)
      case Ok(regions) => Ok(page.(
        layers := page.layers + LayersOf(addition.layers),
        artifacts := page.artifacts + addition.artifacts,
        regions := regions,
        readingOrder := page.readingOrder + addition.edges))
  }

  function AddContent(pages: seq<Page>, additions: seq<PageDelta>): Result<seq<Page>, Failure>
    decreases |additions|
  {
    if additions == [] then Ok(pages)
    else
      var i := IndexOf(PageId, pages, additions[0].page);
      if i == |pages| then Err(AdditionTargetAbsent)
      else
        match ExtendPage(pages[i], additions[0])
        case Err(failure) => Err(failure)
        case Ok(page) => AddContent(pages[i := page], additions[1..])
  }

  predicate IntroducesRegion(additions: seq<PageDelta>, target: PageRegionRef) {
    exists a :: a in additions && a.page == target.page && Has(RegionId, a.regions, target.region)
  }

  predicate HintInScope(delta: EvidenceDelta, target: PageRegionRef) {
    delta.scope.Regions? ==> target in delta.scope.regions || IntroducesRegion(delta.pageAdditions, target)
  }

  function Select(page: Page, region: nat, selected: SelectedView): Page
    requires region < |page.regions|
  {
    page.(regions := page.regions[region := page.regions[region].(selected := Some(selected))])
  }

  function ApplyHints(progress: Progress, delta: EvidenceDelta, hints: seq<SelectionHint>): Result<Progress, Failure>
    decreases |hints|
  {
    if hints == [] then Ok(progress)
    else
      var hint, d := hints[0], progress.document;
      if !HintInScope(delta, hint.region) then Err(HintOutsideScope)
      else if !HasRegion(d, hint.region) then Err(HintTargetAbsent)
      else if hint.region in progress.hints && progress.hints[hint.region] != hint.selected then Err(ConflictingHints)
      else ApplyHints(ApplyHint(progress, hint), delta, hints[1..])
  }

  function ApplyHint(progress: Progress, hint: SelectionHint): Progress
    requires HasRegion(progress.document, hint.region)
  {
    var d := progress.document;
    var p := IndexOf(PageId, d.pages, hint.region.page);
    var r := IndexOf(RegionId, d.pages[p].regions, hint.region.region);
    Progress(d.(pages := d.pages[p := Select(d.pages[p], r, hint.selected)]),
             progress.hints[hint.region := hint.selected])
  }

  function Apply(progress: Progress, delta: EvidenceDelta): Result<Progress, Failure> {
    var d := progress.document;
    if AdmissionFailure(d, delta).Some? then Err(AdmissionFailure(d, delta).value)
    else
      match AddPages(d.pages, delta.newPages)
      case Err(failure) => Err(failure)
      case Ok(pages) =>
        match AddContent(pages, delta.pageAdditions)
        case Err(failure) => Err(failure)
        case Ok(extended) => ApplyHints(Progress(d.(pages := extended), progress.hints), delta, delta.hints)
  }

  /** Replays a list of deltas, collecting their identities. */
  function Replay(hashes: Hashes, progress: Progress, represented: set<Id>, deltas: seq<EvidenceDelta>)
    : Result<(Progress, set<Id>), Failure>
    decreases |deltas|
  {
    if deltas == [] then Ok((progress, represented))
    else
      match DeltaId(hashes, deltas[0])
      case Err(failure) => Err(failure)
      case Ok(id) =>
        match Apply(progress, deltas[0])
        case Err(failure) => Err(failure)
        case Ok(next) => Replay(hashes, next, represented + {id}, deltas[1..])
  }

  // ---- Canonical order ----

  function LayerKey(layer: SourceLayer): Key { (layer.id, 0) }
  function ArtifactKey(artifact: RenderArtifact): Key { (artifact.id, 0) }
  function RegionKeyOf(region: Region): Key { (region.id, 0) }
  function EvidenceKey(evidence: Evidence): Key { (evidence.id, 0) }
  function EdgeKey(edge: ReadingOrderEdge): Key { (edge.before, edge.after) }
  function IdKey(id: Id): Key { (id, 0) }
  function PageSortKey(page: Page): Key { (page.index, page.id) }

  function CanonicalView(view: SelectedView): SelectedView {
    view.(evidenceIds := SortBy(IdKey, view.evidenceIds))
  }

  function CanonicalSelection(selected: Option<SelectedView>): Option<SelectedView> {
    if selected.None? then None else Some(CanonicalView(selected.value))
  }

  function CanonicalRegion(region: Region): Region {
    region.(evidence := SortBy(EvidenceKey, region.evidence), selected := CanonicalSelection(region.selected))
  }

  function CanonicalRegions(regions: seq<Region>): seq<Region> {
    seq(|regions|, i requires 0 <= i < |regions| => CanonicalRegion(regions[i]))
  }

  function CanonicalPage(page: Page): Page {
    page.(
      layers := SortBy(LayerKey, page.layers),
      artifacts := SortBy(ArtifactKey, page.artifacts),
      regions := CanonicalRegions(SortBy(RegionKeyOf, page.regions)),
      readingOrder := SortBy(EdgeKey, page.readingOrder))
  }

  function CanonicalPages(pages: seq<Page>): seq<Page> {
    seq(|pages|, i requires 0 <= i < |pages| => CanonicalPage(pages[i]))
  }

  function Canonical(d: Document): Document {
    d.(pages := CanonicalPages(SortBy(PageSortKey, d.pages)))
  }
}

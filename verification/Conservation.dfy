/**
 * Evidence is append-only: applying a delta adds exactly the facts the delta carries.
 * A document is read as a multiset of facts, one per record it holds.
 */
module Conservation {
  import opened Collections
  import opened DocumentIr
  import opened EvidenceState

  datatype Fact =
    | PagePresent(page: Id)
    | PageBody(page: Id, index: nat, bounds: PageRect)
    | LayerFact(page: Id, layer: SourceLayer)
    | ArtifactFact(page: Id, artifact: RenderArtifact)
    | RegionPresent(page: Id, region: Id)
    | RegionBody(page: Id, region: Id, kind: RegionKind, geometry: PageRect)
    | EvidenceFact(page: Id, region: Id, evidence: Evidence)
    | EdgeFact(page: Id, edge: ReadingOrderEdge)

  type Facts = multiset<Fact>

  ghost function LayerFacts(page: Id): SourceLayer -> Facts { (layer: SourceLayer) => multiset{LayerFact(page, layer)} }
  ghost function OwnedFacts(
      page: Id): OwnedSourceLayer -> Facts { (owned: OwnedSourceLayer) => multiset{LayerFact(page, owned.layer)} }
  ghost function ArtifactFacts(
      page: Id): RenderArtifact -> Facts { (artifact: RenderArtifact) => multiset{ArtifactFact(page, artifact)} }
  ghost function EdgeFacts(
      page: Id): ReadingOrderEdge -> Facts { (edge: ReadingOrderEdge) => multiset{EdgeFact(page, edge)} }

  ghost function EvidenceFacts(page: Id, region: Id): Evidence -> Facts {
    (evidence: Evidence) => multiset{EvidenceFact(page, region, evidence)}
  }

  ghost function RegionHead(page: Id, region: Region): Facts {
    multiset{RegionPresent(page, region.id), RegionBody(page, region.id, region.kind, region.geometry)}
  }

  ghost function RegionFacts(page: Id): Region -> Facts {
    (region: Region) => RegionHead(page, region) + Gather(EvidenceFacts(page, region.id), region.evidence)
  }

  ghost function GivenFacts(page: Id): RegionEvidenceAddition -> Facts {
    (given: RegionEvidenceAddition) => Gather(EvidenceFacts(page, given.region), given.evidence)
  }

  ghost function PageHeading(page: Page): Facts {
    multiset{PagePresent(page.id), PageBody(page.id, page.index, page.bounds)}
  }

  ghost function PageFacts(page: Page): Facts {
    PageHeading(page)
    + Gather(LayerFacts(page.id), page.layers)
    + Gather(ArtifactFacts(page.id), page.artifacts)
    + Gather(RegionFacts(page.id), page.regions)
    + Gather(EdgeFacts(page.id), page.readingOrder)
  }

  ghost function AdditionFacts(a: PageDelta): Facts {
    Gather(OwnedFacts(a.page), a.layers)
    + Gather(ArtifactFacts(a.page), a.artifacts)
    + Gather(RegionFacts(a.page), a.regions)
    + Gather(GivenFacts(a.page), a.regionEvidence)
    + Gather(EdgeFacts(a.page), a.edges)
  }

  ghost function DocumentFacts(d: Document): Facts {
    Gather(PageFacts, d.pages)
  }

  ghost function DeltaFacts(delta: EvidenceDelta): Facts {
    Gather(PageFacts, delta.newPages) + Gather(AdditionFacts, delta.pageAdditions)
  }

  ghost predicate SameHeader(a: Document, b: Document) {
    a.schema == b.schema && a.id == b.id && a.inputDigest == b.inputDigest && a.metadata == b.metadata
  }

  // ---- Each phase adds what it is given ----

  lemma {:induction false} AddPagesFacts(pages: seq<Page>, added: seq<Page>)
    requires AddPages(pages, added).Ok?
    ensures Gather(PageFacts, AddPages(pages, added).value) == Gather(PageFacts, pages) + Gather(PageFacts, added)
    decreases |added|
  {
    if added != [] {
      AddPagesFacts(pages + [added[0]], added[1..]);
      GatherConcat(PageFacts, pages, [added[0]]);
      GatherOne(PageFacts, added[0]);
    }
  }

  lemma GrownFacts(page: Id, r: Region, addition: RegionEvidenceAddition)
    requires r.id == addition.region
    ensures RegionFacts(page)(r.(evidence := r.evidence + addition.evidence))
         == RegionFacts(page)(r) + GivenFacts(page)(addition)
  {
    GatherConcat(EvidenceFacts(page, r.id), r.evidence, addition.evidence);
  }

  lemma {:induction false} AddEvidenceFacts(page: Id, regions: seq<Region>, additions: seq<RegionEvidenceAddition>)
    requires AddEvidence(regions, additions).Ok?
    ensures Gather(RegionFacts(page), AddEvidence(regions, additions).value)
         == Gather(RegionFacts(page), regions) + Gather(GivenFacts(page), additions)
    decreases |additions|
  {
    if additions != [] {
      var i := IndexOf(RegionId, regions, additions[0].region);
      var r := regions[i];
      var grown := r.(evidence := r.evidence + additions[0].evidence);
      GrownFacts(page, r, additions[0]);
      GatherUpdate(RegionFacts(page), regions, i, grown, GivenFacts(page)(additions[0]));
      AddEvidenceFacts(page, regions[i := grown], additions[1..]);
    }
  }

  lemma {:induction false} LayersOfFacts(page: Id, owned: seq<OwnedSourceLayer>)
    ensures Gather(LayerFacts(page), LayersOf(owned)) == Gather(OwnedFacts(page), owned)
  {
    if owned != [] {
      assert LayersOf(owned)[1..] == LayersOf(owned[1..]);
      LayersOfFacts(page, owned[1..]);
    }
  }

  lemma Regroup(h: Facts, l: Facts, a: Facts, r: Facts, e: Facts, l': Facts, a': Facts, r': Facts, g': Facts, e': Facts)
    ensures h + (l + l') + (a + a') + ((r + r') + g') + (e + e') == (h + l + a + r + e) + (l' + a' + r' + g' + e')
  {
  }

  lemma ExtendPageFacts(page: Page, a: PageDelta)
    requires ExtendPage(page, a).Ok? && page.id == a.page
    ensures PageFacts(ExtendPage(page, a).value) == PageFacts(page) + AdditionFacts(a)
  {
    GatherConcat(LayerFacts(page.id), page.layers, LayersOf(a.layers));
    LayersOfFacts(page.id, a.layers);
    GatherConcat(ArtifactFacts(page.id), page.artifacts, a.artifacts);
    AddEvidenceFacts(page.id, page.regions + a.regions, a.regionEvidence);
    GatherConcat(RegionFacts(page.id), page.regions, a.regions);
    GatherConcat(EdgeFacts(page.id), page.readingOrder, a.edges);
    Regroup(PageHeading(page),
      Gather(LayerFacts(page.id), page.layers), Gather(ArtifactFacts(page.id), page.artifacts),
      Gather(RegionFacts(page.id), page.regions), Gather(EdgeFacts(page.id), page.readingOrder),
      Gather(OwnedFacts(page.id), a.layers), Gather(ArtifactFacts(page.id), a.artifacts),
      Gather(RegionFacts(page.id), a.regions), Gather(GivenFacts(page.id), a.regionEvidence),
      Gather(EdgeFacts(page.id), a.edges));
  }

  lemma AddOneFacts(pages: seq<Page>, i: nat, a: PageDelta)
    requires i < |pages| && pages[i].id == a.page && ExtendPage(pages[i], a).Ok?
    ensures Gather(PageFacts, pages[i := ExtendPage(pages[i], a).value]) == Gather(PageFacts, pages) + AdditionFacts(a)
  {
    ExtendPageFacts(pages[i], a);
    GatherUpdate(PageFacts, pages, i, ExtendPage(pages[i], a).value, AdditionFacts(a));
  }

  lemma {:induction false} AddContentFacts(pages: seq<Page>, additions: seq<PageDelta>)
    requires AddContent(pages, additions).Ok?
    ensures Gather(PageFacts, AddContent(pages, additions).value)
         == Gather(PageFacts, pages) + Gather(AdditionFacts, additions)
    decreases |additions|
  {
    if additions != [] {
      var i := IndexOf(PageId, pages, additions[0].page);
      var page := ExtendPage(pages[i], additions[0]).value;
      AddOneFacts(pages, i, additions[0]);
      AddContentFacts(pages[i := page], additions[1..]);
    }
  }

  lemma SelectFacts(page: Page, r: nat, selected: SelectedView)
    requires r < |page.regions|
    ensures PageFacts(Select(page, r, selected)) == PageFacts(page)
  {
    GatherUpdate(RegionFacts(page.id), page.regions, r, page.regions[r].(selected := Some(selected)), multiset{});
  }

  lemma ApplyHintFacts(progress: Progress, hint: SelectionHint)
    requires HasRegion(progress.document, hint.region)
    ensures DocumentFacts(ApplyHint(progress, hint).document) == DocumentFacts(progress.document)
    ensures SameHeader(ApplyHint(progress, hint).document, progress.document)
  {
    var pages := progress.document.pages;
    var p := IndexOf(PageId, pages, hint.region.page);
    var r := IndexOf(RegionId, pages[p].regions, hint.region.region);
    SelectFacts(pages[p], r, hint.selected);
    GatherUpdate(PageFacts, pages, p, Select(pages[p], r, hint.selected), multiset{});
  }

  lemma {:induction false} ApplyHintsFacts(progress: Progress, delta: EvidenceDelta, hints: seq<SelectionHint>)
    requires ApplyHints(progress, delta, hints).Ok?
    ensures DocumentFacts(ApplyHints(progress, delta, hints).value.document) == DocumentFacts(progress.document)
    ensures SameHeader(ApplyHints(progress, delta, hints).value.document, progress.document)
    decreases |hints|
  {
    if hints != [] {
      ApplyHintFacts(progress, hints[0]);
      ApplyHintsFacts(ApplyHint(progress, hints[0]), delta, hints[1..]);
    }
  }

  /** Conservation for one delta: nothing removed, nothing altered, exactly its own facts added. */
  lemma ApplyFacts(progress: Progress, delta: EvidenceDelta)
    requires Apply(progress, delta).Ok?
    ensures DocumentFacts(Apply(progress, delta).value.document) == DocumentFacts(progress.document) + DeltaFacts(delta)
    ensures SameHeader(Apply(progress, delta).value.document, progress.document)
  {
    var d := progress.document;
    var pages := AddPages(d.pages, delta.newPages).value;
    var extended := AddContent(pages, delta.pageAdditions).value;
    AddPagesFacts(d.pages, delta.newPages);
    AddContentFacts(pages, delta.pageAdditions);
    ApplyHintsFacts(Progress(d.(pages := extended), progress.hints), delta, delta.hints);
  }

  /** Conservation for a whole replay. */
  lemma {:induction false} ReplayFacts(
      hashes: Hashes, progress: Progress, represented: set<Id>, deltas: seq<EvidenceDelta>)
    requires Replay(hashes, progress, represented, deltas).Ok?
    ensures var final := Replay(hashes, progress, represented, deltas).value.0.document;
            && DocumentFacts(final) == DocumentFacts(progress.document) + Gather(DeltaFacts, deltas)
            && SameHeader(final, progress.document)
    decreases |deltas|
  {
    if deltas != [] {
      ApplyFacts(progress, deltas[0]);
      var next, id := Apply(progress, deltas[0]).value, DeltaId(hashes, deltas[0]).value;
      ReplayFacts(hashes, next, represented + {id}, deltas[1..]);
    }
  }

  // ---- Canonical order keeps every fact ----

  lemma CanonicalRegionFacts(page: Id, region: Region)
    ensures RegionFacts(page)(CanonicalRegion(region)) == RegionFacts(page)(region)
  {
    SortByProperties(EvidenceKey, region.evidence);
    GatherPermutation(EvidenceFacts(page, region.id), SortBy(EvidenceKey, region.evidence), region.evidence);
  }

  lemma {:induction false} CanonicalRegionsFacts(page: Id, regions: seq<Region>)
    ensures Gather(RegionFacts(page), CanonicalRegions(regions)) == Gather(RegionFacts(page), regions)
  {
    if regions != [] {
      assert CanonicalRegions(regions)[1..] == CanonicalRegions(regions[1..]);
      CanonicalRegionFacts(page, regions[0]);
      CanonicalRegionsFacts(page, regions[1..]);
    }
  }

  lemma CanonicalPageFacts(page: Page)
    ensures PageFacts(CanonicalPage(page)) == PageFacts(page)
  {
    SortByProperties(LayerKey, page.layers);
    GatherPermutation(LayerFacts(page.id), SortBy(LayerKey, page.layers), page.layers);
    SortByProperties(ArtifactKey, page.artifacts);
    GatherPermutation(ArtifactFacts(page.id), SortBy(ArtifactKey, page.artifacts), page.artifacts);
    SortByProperties(RegionKeyOf, page.regions);
    GatherPermutation(RegionFacts(page.id), SortBy(RegionKeyOf, page.regions), page.regions);
    CanonicalRegionsFacts(page.id, SortBy(RegionKeyOf, page.regions));
    SortByProperties(EdgeKey, page.readingOrder);
    GatherPermutation(EdgeFacts(page.id), SortBy(EdgeKey, page.readingOrder), page.readingOrder);
  }

  lemma {:induction false} CanonicalPagesFacts(pages: seq<Page>)
    ensures Gather(PageFacts, CanonicalPages(pages)) == Gather(PageFacts, pages)
  {
    if pages != [] {
      assert CanonicalPages(pages)[1..] == CanonicalPages(pages[1..]);
      CanonicalPageFacts(pages[0]);
      CanonicalPagesFacts(pages[1..]);
    }
  }

  lemma CanonicalFacts(d: Document)
    ensures DocumentFacts(Canonical(d)) == DocumentFacts(d) && SameHeader(Canonical(d), d)
  {
    SortByProperties(PageSortKey, d.pages);
    GatherPermutation(PageFacts, SortBy(PageSortKey, d.pages), d.pages);
    CanonicalPagesFacts(SortBy(PageSortKey, d.pages));
  }
}

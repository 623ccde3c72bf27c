/** The evidence graph of a document (crates/ferrodoc-ir/src/lib.rs). */
module DocumentIr {
  import opened Collections

  /**
   * A stable identity is a fixed domain prefix and a fixed-width digest, so the
   * order of identities is the order of the digests read as numbers.
   */
  type Id = nat

  type Digest = nat

  newtype Byte = x: int | 0 <= x < 256

  datatype SchemaVersion = SchemaVersion(major: nat, minor: nat)

  const CURRENT_SCHEMA_MAJOR: nat := 1

  datatype Stage = Acquire | Inspect | NativeExtract | Rasterize | Layout | Ocr | Reconcile | Render

  /** `parameters` stands for the normalized parameter map. */
  datatype Provenance = Provenance(
    schema: SchemaVersion, inputDigest: Digest, engineId: string, engineVersion: string,
    modelDigest: Option<Digest>, parameters: string, stage: Stage)

  datatype CoordinateSpace = Pdf | Image | Normalized

  /** The constructor of the source ties the unit to the space, so only the space is kept. */
  datatype Rect = Rect(x: real, y: real, width: real, height: real, space: CoordinateSpace)

  datatype PageRect = PageRect(pageIndex: nat, rect: Rect, transform: Id)

  datatype SourceLayerKind = NativePdfLayer | RasterLayer | OcrLayer | LayoutLayer | UnknownLayer(name: string)

  datatype SourceLayer = SourceLayer(id: Id, kind: SourceLayerKind, provenance: Provenance)

  datatype RenderArtifact = RenderArtifact(
    id: Id, blobId: Id, digest: Digest, mediaType: string, width: Option<nat>, height: Option<nat>)

  datatype RegionKind =
    | UnknownRegion | Paragraph | Heading | List | ListItem | Table | TableCellRegion | FormulaRegion
    | Figure | Caption | Code | Header | Footer | Footnote | Handwriting

  datatype GeometryQuality = Glyph | Word | Line | RegionLevel | PageOnly | UnknownQuality

  datatype TextSourceSpan = TextSourceSpan(evidenceId: Id, start: nat, end: nat)

  datatype TableCell = TableCell(
    row: nat, column: nat, rowSpan: nat, columnSpan: nat, text: seq<Byte>,
    geometry: Option<PageRect>, quality: GeometryQuality, spans: seq<TextSourceSpan>)

  datatype EvidenceContent =
    | TextContent(text: seq<Byte>)
    | TableContent(rows: nat, columns: nat, cells: seq<TableCell>)
    | FormulaContent(latex: string)
    | ImageContent(artifact: Id, alt: Option<string>)
    | UnknownContent(mediaType: string, payload: string)

  datatype Evidence = Evidence(
    id: Id, layerId: Id, content: EvidenceContent, geometry: Option<PageRect>,
    quality: GeometryQuality, confidence: Option<real>, provenance: Provenance, metadata: string)

  datatype SelectionReason = NativeQuality | NativeAbsent | NativeBelowThreshold | Reconciled | UserOverride

  datatype SelectedView = SelectedView(evidenceIds: seq<Id>, reason: SelectionReason, explanation: string)

  datatype Region = Region(
    id: Id, kind: RegionKind, geometry: PageRect, evidence: seq<Evidence>, selected: Option<SelectedView>)

  datatype ReadingOrderEdge = ReadingOrderEdge(before: Id, after: Id)

  datatype Page = Page(
    id: Id, index: nat, bounds: PageRect, layers: seq<SourceLayer>, artifacts: seq<RenderArtifact>,
    regions: seq<Region>, readingOrder: seq<ReadingOrderEdge>)

  datatype Document = Document(
    schema: SchemaVersion, id: Id, inputDigest: Digest, metadata: string, pages: seq<Page>)

  datatype PageRegionRef = PageRegionRef(page: Id, region: Id)

  /** No two positions carry the same identity. */
  ghost predicate Distinct<T>(id: T -> Id, s: seq<T>) {
    forall i, j :: 0 <= i < j < |s| ==> id(s[i]) != id(s[j])
  }

  function LayerId(layer: SourceLayer): Id { layer.id }
  function ArtifactId(artifact: RenderArtifact): Id { artifact.id }
  function RegionId(region: Region): Id { region.id }
  function EvidenceId(evidence: Evidence): Id { evidence.id }
  function PageId(page: Page): Id { page.id }
  function PageIndex(page: Page): Id { page.index }

  function RegionsEvidence(regions: seq<Region>): seq<Evidence> {
    if regions == [] then [] else RegionsEvidence(regions[..|regions| - 1]) + regions[|regions| - 1].evidence
  }

  /** Every evidence record of a page, in document order. */
  function PageEvidence(page: Page): seq<Evidence> {
    RegionsEvidence(page.regions)
  }

  lemma {:induction false} RegionsEvidenceMember(regions: seq<Region>, e: Evidence)
    ensures e in RegionsEvidence(regions) <==> exists r :: r in regions && e in r.evidence
  {
    if regions != [] {
      var n := |regions| - 1;
      RegionsEvidenceMember(regions[..n], e);
      assert regions == regions[..n] + [regions[n]];
    }
  }

  /** The first position holding an identity, or the length when there is none. */
  function IndexOf<T>(id: T -> Id, s: seq<T>, wanted: Id): (i: nat)
    ensures i <= |s|
    ensures i < |s| ==> id(s[i]) == wanted
    ensures forall j :: 0 <= j < i ==> id(s[j]) != wanted
  {
    if s == [] then 0
    else if id(s[0]) == wanted then 0
    else
      var rest := IndexOf(id, s[1..], wanted);
      assert forall j :: 1 <= j < rest + 1 ==> s[j] == s[1..][j - 1];
      rest + 1
  }

  predicate Has<T>(id: T -> Id, s: seq<T>, wanted: Id) {
    IndexOf(id, s, wanted) < |s|
  }

  lemma HasMeans<T>(id: T -> Id, s: seq<T>, wanted: Id)
    ensures Has(id, s, wanted) <==> exists x :: x in s && id(x) == wanted
  {
    if x :| x in s && id(x) == wanted {
      var j :| 0 <= j < |s| && s[j] == x;
      assert !(j < IndexOf(id, s, wanted));
    }
  }

  lemma DistinctEqual<T>(id: T -> Id, s: seq<T>, x: T, y: T)
    requires Distinct(id, s) && x in s && y in s && id(x) == id(y)
    ensures x == y
  {
    var i :| 0 <= i < |s| && s[i] == x;
    var j :| 0 <= j < |s| && s[j] == y;
  }
}

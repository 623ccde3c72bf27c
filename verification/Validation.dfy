/** Document validation (crates/ferrodoc-ir/src/lib.rs): what a valid graph is, and the checks. */
module Validation {
  import opened Collections
  import opened DocumentIr
  import opened ReadingOrder

  // ---- Geometry ----

  /** Containment including the boundary; rectangles of different spaces are an error, so not contained. */
  predicate Contains(outer: Rect, inner: Rect) {
    && outer.space == inner.space
    && inner.x >= outer.x && inner.y >= outer.y
    && inner.x + inner.width <= outer.x + outer.width
    && inner.y + inner.height <= outer.y + outer.height
  }

  predicate HoldsImage(artifact: RenderArtifact, rect: Rect) {
    && artifact.width.Some? && artifact.height.Some?
    && Contains(Rect(0.0, 0.0, artifact.width.value as real, artifact.height.value as real, Image), rect)
  }

  predicate LiesOnPage(page: Page, geometry: PageRect) {
    match geometry.rect.space
    case Pdf => Contains(page.bounds.rect, geometry.rect)
    case Normalized => true
    case Image => exists a :: a in page.artifacts && HoldsImage(a, geometry.rect)
  }

  /** Honest precision: page-only geometry is the page itself, precise geometry is present. */
  predicate QualityValid(quality: GeometryQuality, geometry: Option<PageRect>, page: Page) {
    match quality
    case PageOnly => geometry == Some(page.bounds)
    case UnknownQuality => true
    case Glyph => geometry.Some?
    case Word => geometry.Some?
    case Line => geometry.Some?
    case RegionLevel => geometry.Some?
  }

  predicate GeometryValid(quality: GeometryQuality, geometry: Option<PageRect>, page: Page) {
    && QualityValid(quality, geometry, page)
    && (geometry.Some? ==> geometry.value.pageIndex == page.index && LiesOnPage(page, geometry.value))
  }

  // ---- Table cells and their source spans ----

  /** UTF-8 character boundaries, as `str::is_char_boundary` decides them. */
  predicate IsBoundary(text: seq<Byte>, i: nat) {
    i == 0 || i == |text| || (i < |text| && !(0x80 <= text[i] < 0xC0))
  }

  /** `str::get(start..end)`. */
  function TextSlice(text: seq<Byte>, start: nat, end: nat): Option<seq<Byte>> {
    if start <= end <= |text| && IsBoundary(text, start) && IsBoundary(text, end)
    then Some(text[start..end]) else None
  }

  /** The bytes a span selects among the evidence of a page, when it selects any. */
  function Resolve(evidence: seq<Evidence>, span: TextSourceSpan): Option<seq<Byte>> {
    var i := IndexOf(EvidenceId, evidence, span.evidenceId);
    if i < |evidence| && span.start <= span.end && evidence[i].content.TextContent?
    then TextSlice(evidence[i].content.text, span.start, span.end)
    else None
  }

  /** The concatenation of what the spans select; nothing if one of them fails. */
  function Reconstruct(evidence: seq<Evidence>, spans: seq<TextSourceSpan>): Option<seq<Byte>> {
    if spans == [] then Some([])
    else
      var head := Reconstruct(evidence, spans[..|spans| - 1]);
      var last := Resolve(evidence, spans[|spans| - 1]);
      if head.Some? && last.Some? then Some(head.value + last.value) else None
  }

  const U32: nat := 0x1_0000_0000

  predicate CellPlaced(rows: nat, columns: nat, cell: TableCell) {
    && cell.rowSpan > 0 && cell.columnSpan > 0
    && cell.row + cell.rowSpan < U32 && cell.row + cell.rowSpan <= rows
    && cell.column + cell.columnSpan < U32 && cell.column + cell.columnSpan <= columns
  }

  predicate CellSourced(evidence: seq<Evidence>, cell: TableCell, requireSpans: bool) {
    if cell.spans == [] then !requireSpans
    else Reconstruct(evidence, cell.spans) == Some(cell.text)
  }

  predicate CellValid(page: Page, rows: nat, columns: nat, cell: TableCell, requireSpans: bool) {
    && CellPlaced(rows, columns, cell)
    && GeometryValid(cell.quality, cell.geometry, page)
    && CellSourced(PageEvidence(page), cell, requireSpans)
  }

  ghost predicate TableValid(page: Page, e: Evidence, requireSpans: bool) {
    e.content.TableContent? ==>
      && e.content.rows > 0 && e.content.columns > 0
      && forall cell :: cell in e.content.cells ==>
           CellValid(page, e.content.rows, e.content.columns, cell, requireSpans)
  }

  ghost predicate TablesValid(page: Page, requireSpans: bool) {
    forall e :: e in PageEvidence(page) ==> TableValid(page, e, requireSpans)
  }

  // ---- Regions, pages, documents ----

  predicate EvidenceValid(page: Page, e: Evidence) {
    && Has(LayerId, page.layers, e.layerId)
    && GeometryValid(e.quality, e.geometry, page)
    && (e.content.ImageContent? ==> Has(ArtifactId, page.artifacts, e.content.artifact))
  }

  predicate SelectionValid(region: Region) {
    region.selected.Some? ==>
      && region.selected.value.evidenceIds != []
      && forall id :: id in region.selected.value.evidenceIds ==> Has(EvidenceId, region.evidence, id)
  }

  ghost predicate RegionValid(page: Page, region: Region) {
    && region.geometry.pageIndex == page.index
    && Contains(page.bounds.rect, region.geometry.rect)
    && (forall e :: e in region.evidence ==> EvidenceValid(page, e))
    && SelectionValid(region)
  }

  predicate EdgeValid(page: Page, edge: ReadingOrderEdge) {
    edge.before != edge.after && Has(RegionId, page.regions, edge.before) && Has(RegionId, page.regions, edge.after)
  }

  ghost predicate PageValid(page: Page) {
    && Distinct(LayerId, page.layers)
    && Distinct(ArtifactId, page.artifacts)
    && Distinct(RegionId, page.regions)
    && Distinct(EvidenceId, PageEvidence(page))
    && (forall r :: r in page.regions ==> RegionValid(page, r))
    && TablesValid(page, false)
    && (forall edge :: edge in page.readingOrder ==> EdgeValid(page, edge))
    && Acyclic(page.readingOrder)
  }

  ghost predicate DocumentValid(d: Document) {
    && d.schema.major == CURRENT_SCHEMA_MAJOR
    && Distinct(PageId, d.pages)
    && Distinct(PageIndex, d.pages)
    && (forall p :: p in d.pages ==> p.bounds.pageIndex == p.index && PageValid(p))
  }

  /** The stricter state contract: every table cell carries source spans. */
  ghost predicate EvidenceGrade(d: Document) {
    DocumentValid(d) && forall p :: p in d.pages ==> TablesValid(p, true)
  }

  // ---- The checks, as the source runs them ----

  /** A set grown over the identities has one element per record exactly when none repeats. */
  method DistinctIds<T>(id: T -> Id, s: seq<T>) returns (ids: set<Id>, ok: bool)
    ensures forall x :: x in ids <==> Has(id, s, x)
    ensures ok <==> Distinct(id, s)
  {
    ids, ok := {}, true;
    var n := 0;
    while n < |s|
      invariant 0 <= n <= |s|
      invariant forall x :: x in ids <==> exists j :: 0 <= j < n && id(s[j]) == x
      invariant ok <==> forall i, j :: 0 <= i < j < n ==> id(s[i]) != id(s[j])
    {
      if id(s[n]) in ids {
        ok := false;
      }
      ids := ids + {id(s[n])};
      n := n + 1;
    }
    forall x
      ensures x in ids <==> Has(id, s, x)
    {
      HasMeans(id, s, x);
    }
  }

  method CellText(evidence: seq<Evidence>, spans: seq<TextSourceSpan>) returns (text: Option<seq<Byte>>)
    ensures text == Reconstruct(evidence, spans)
  {
    var reconstructed := [];
    var n := 0;
    while n < |spans|
      invariant 0 <= n <= |spans|
      invariant Reconstruct(evidence, spans[..n]) == Some(reconstructed)
    {
      assert spans[..n + 1][..n] == spans[..n];
      var selected := Resolve(evidence, spans[n]);
      if selected.None? {
        ReconstructFails(evidence, spans, n);
        return None;
      }
      reconstructed := reconstructed + selected.value;
      n := n + 1;
    }
    assert spans[..n] == spans;
    return Some(reconstructed);
  }

  lemma {:induction false} ReconstructFails(evidence: seq<Evidence>, spans: seq<TextSourceSpan>, n: nat)
    requires n < |spans| && Resolve(evidence, spans[n]).None?
    ensures Reconstruct(evidence, spans).None?
  {
    if n < |spans| - 1 {
      ReconstructFails(evidence, spans[..|spans| - 1], n);
    }
  }

  method ValidateTableCells(page: Page, requireSpans: bool) returns (ok: bool)
    ensures ok <==> TablesValid(page, requireSpans)
  {
    var evidence := PageEvidence(page);
    var n := 0;
    while n < |evidence|
      invariant 0 <= n <= |evidence|
      invariant forall j :: 0 <= j < n ==> TableValid(page, evidence[j], requireSpans)
    {
      if evidence[n].content.TableContent? {
        var valid := ValidateTable(page, evidence, evidence[n], requireSpans);
        if !valid {
          return false;
        }
      }
      n := n + 1;
    }
    return true;
  }

  method ValidateTable(page: Page, evidence: seq<Evidence>, e: Evidence, requireSpans: bool) returns (ok: bool)
    requires evidence == PageEvidence(page) && e.content.TableContent?
    ensures ok <==> TableValid(page, e, requireSpans)
  {
    var rows, columns, cells := e.content.rows, e.content.columns, e.content.cells;
    if rows == 0 || columns == 0 {
      return false;
    }
    var n := 0;
    while n < |cells|
      invariant 0 <= n <= |cells|
      invariant forall j :: 0 <= j < n ==> CellValid(page, rows, columns, cells[j], requireSpans)
    {
      var cell := cells[n];
      assert cell in cells;
      if !CellPlaced(rows, columns, cell) || !GeometryValid(cell.quality, cell.geometry, page) {
        return false;
      }
      if cell.spans == [] {
        if requireSpans {
          return false;
        }
      } else {
        var text := CellText(evidence, cell.spans);
        if text != Some(cell.text) {
          return false;
        }
      }
      n := n + 1;
    }
    return true;
  }

  method ValidateRegion(page: Page, region: Region) returns (ok: bool)
    ensures ok <==> RegionValid(page, region)
  {
    if region.geometry.pageIndex != page.index || !Contains(page.bounds.rect, region.geometry.rect) {
      return false;
    }
    var n := 0;
    while n < |region.evidence|
      invariant 0 <= n <= |region.evidence|
      invariant forall j :: 0 <= j < n ==> EvidenceValid(page, region.evidence[j])
    {
      if !EvidenceValid(page, region.evidence[n]) {
        return false;
      }
      n := n + 1;
    }
    return SelectionValid(region);
  }

  method ValidatePage(page: Page) returns (ok: bool)
    ensures ok <==> PageValid(page)
  {
    var _, layersOk := DistinctIds(LayerId, page.layers);
    var _, artifactsOk := DistinctIds(ArtifactId, page.artifacts);
    var regionIds, regionsOk := DistinctIds(RegionId, page.regions);
    var _, evidenceOk := DistinctIds(EvidenceId, PageEvidence(page));
    if !layersOk || !artifactsOk || !regionsOk || !evidenceOk {
      return false;
    }
    var n := 0;
    while n < |page.regions|
      invariant 0 <= n <= |page.regions|
      invariant forall j :: 0 <= j < n ==> RegionValid(page, page.regions[j])
    {
      var regionOk := ValidateRegion(page, page.regions[n]);
      if !regionOk {
        return false;
      }
      n := n + 1;
    }
    var tablesOk := ValidateTableCells(page, false);
    if !tablesOk {
      return false;
    }
    var k := 0;
    while k < |page.readingOrder|
      invariant 0 <= k <= |page.readingOrder|
      invariant forall j :: 0 <= j < k ==> EdgeValid(page, page.readingOrder[j])
    {
      if !EdgeValid(page, page.readingOrder[k]) {
        return false;
      }
      k := k + 1;
    }
    ok := EnsureAcyclic(regionIds, page.readingOrder);
  }

  /** Validates the whole document: it accepts exactly the valid ones. */
  method Validate(d: Document) returns (ok: bool)
    ensures ok <==> DocumentValid(d)
  {
    if d.schema.major != CURRENT_SCHEMA_MAJOR {
      return false;
    }
    var _, idsOk := DistinctIds(PageId, d.pages);
    var _, indexesOk := DistinctIds(PageIndex, d.pages);
    if !idsOk || !indexesOk {
      return false;
    }
    var n := 0;
    while n < |d.pages|
      invariant 0 <= n <= |d.pages|
      invariant forall j :: 0 <= j < n ==> d.pages[j].bounds.pageIndex == d.pages[j].index && PageValid(d.pages[j])
    {
      var pageOk := ValidatePage(d.pages[n]);
      if d.pages[n].bounds.pageIndex != d.pages[n].index || !pageOk {
        return false;
      }
      n := n + 1;
    }
    return true;
  }

  method ValidateEvidenceGrade(d: Document) returns (ok: bool)
    ensures ok <==> EvidenceGrade(d)
  {
    ok := Validate(d);
    if !ok {
      return;
    }
    var n := 0;
    while n < |d.pages|
      invariant 0 <= n <= |d.pages|
      invariant forall j :: 0 <= j < n ==> TablesValid(d.pages[j], true)
    {
      var tablesOk := ValidateTableCells(d.pages[n], true);
      if !tablesOk {
        return false;
      }
      n := n + 1;
    }
  }
}

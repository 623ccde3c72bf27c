/**
 * What a valid document is (crates/ferrodoc-ir/src/lib.rs, crates/ferrodoc-core/src/geometry.rs), said of its points,
 * bytes and records.
 */
module ValidityMeaning {
  import opened Collections
  import opened DocumentIr
  import opened ReadingOrder
  import opened Validation

  // ---- Geometry ----

  ghost predicate PointIn(r: Rect, x: real, y: real) {
    r.x <= x <= r.x + r.width && r.y <= y <= r.y + r.height
  }

  /** Every point of one rectangle is a point of the other, in the same space. */
  ghost predicate Inside(outer: Rect, inner: Rect) {
    outer.space == inner.space && forall x: real, y: real :: PointIn(inner, x, y) ==> PointIn(outer, x, y)
  }

  /** No rectangle has a negative width or height. */
  predicate Proper(r: Rect) {
    r.width >= 0.0 && r.height >= 0.0
  }

  lemma InsideIff(outer: Rect, inner: Rect)
    requires Proper(inner)
    ensures Contains(outer, inner) <==> Inside(outer, inner)
  {
    assert PointIn(inner, inner.x, inner.y) && PointIn(inner, inner.x + inner.width, inner.y + inner.height);
  }

  /** On the page, or in the pixels of one of its images, or relative to whatever it is. */
  ghost predicate OnPage(page: Page, rect: Rect) {
    match rect.space
    case Normalized => true
    case Pdf => Inside(page.bounds.rect, rect)
    case Image => exists a, w: nat, h: nat ::
      a in page.artifacts && a.width == Some(w) && a.height == Some(h)
      && Inside(Rect(0.0, 0.0, w as real, h as real, Image), rect)
  }

  lemma OnPageIff(page: Page, geometry: PageRect)
    requires Proper(geometry.rect)
    ensures LiesOnPage(page, geometry) <==> OnPage(page, geometry.rect)
  {
    forall a | a in page.artifacts && a.width.Some? && a.height.Some?
      ensures HoldsImage(a, geometry.rect)
         <==> Inside(Rect(0.0, 0.0, a.width.value as real, a.height.value as real, Image), geometry.rect)
    {
      InsideIff(Rect(0.0, 0.0, a.width.value as real, a.height.value as real, Image), geometry.rect);
    }
    InsideIff(page.bounds.rect, geometry.rect);
  }

  /** Geometry as precise as is claimed: the page itself, some rectangle, or anything; on this page if there is one. */
  ghost predicate Placed(page: Page, quality: GeometryQuality, geometry: Option<PageRect>) {
    && (quality == PageOnly ==> geometry == Some(page.bounds))
    && (quality in {Glyph, Word, Line, RegionLevel} ==> geometry != None)
    && (geometry.Some? ==> geometry.value.pageIndex == page.index && OnPage(page, geometry.value.rect))
  }

  lemma PlacedIff(page: Page, quality: GeometryQuality, geometry: Option<PageRect>)
    requires geometry.Some? ==> Proper(geometry.value.rect)
    ensures GeometryValid(quality, geometry, page) <==> Placed(page, quality, geometry)
  {
    if geometry.Some? {
      OnPageIff(page, geometry.value);
    }
  }

  // ---- Table cells ----

  /** Where a character of a UTF-8 text begins, and at its end. */
  ghost predicate Splits(text: seq<Byte>, i: nat) {
    i == |text| || (i < |text| && (i == 0 || text[i] < 128 || text[i] >= 192))
  }

  /** The piece is what the span selects of a text on the page, at whole characters. */
  ghost predicate Selects(page: Page, span: TextSourceSpan, piece: seq<Byte>) {
    exists r, e :: r in page.regions && e in r.evidence && e.id == span.evidenceId && e.content.TextContent?
      && span.start <= span.end <= |e.content.text|
      && Splits(e.content.text, span.start) && Splits(e.content.text, span.end)
      && piece == e.content.text[span.start..span.end]
  }

  ghost function Pieced(pieces: seq<seq<Byte>>): seq<Byte> {
    if pieces == [] then [] else Pieced(pieces[..|pieces| - 1]) + pieces[|pieces| - 1]
  }

  /** The text is made of what the spans select, one after the other. */
  ghost predicate Quotes(page: Page, spans: seq<TextSourceSpan>, text: seq<Byte>) {
    exists pieces :: QuotesAs(page, spans, text, pieces)
  }

  ghost predicate QuotesAs(page: Page, spans: seq<TextSourceSpan>, text: seq<Byte>, pieces: seq<seq<Byte>>) {
    && |pieces| == |spans| && text == Pieced(pieces)
    && forall k: nat :: k < |spans| ==> Selects(page, spans[k], pieces[k])
  }

  lemma SelectsIff(page: Page, span: TextSourceSpan, piece: seq<Byte>)
    requires Distinct(EvidenceId, PageEvidence(page))
    ensures Resolve(PageEvidence(page), span) == Some(piece) <==> Selects(page, span, piece)
  {
    var evidence := PageEvidence(page);
    var i := IndexOf(EvidenceId, evidence, span.evidenceId);
    if Selects(page, span, piece) {
      var r, e :| r in page.regions && e in r.evidence && e.id == span.evidenceId && e.content.TextContent?
        && span.start <= span.end <= |e.content.text|
        && Splits(e.content.text, span.start) && Splits(e.content.text, span.end)
        && piece == e.content.text[span.start..span.end];
      RegionsEvidenceMember(page.regions, e);
      HasMeans(EvidenceId, evidence, span.evidenceId);
      assert EvidenceId(e) == span.evidenceId;
      DistinctEqual(EvidenceId, evidence, e, evidence[i]);
    }
    if Resolve(evidence, span) == Some(piece) {
      RegionsEvidenceMember(page.regions, evidence[i]);
      var r :| r in page.regions && evidence[i] in r.evidence;
      assert evidence[i].id == EvidenceId(evidence[i]);
    }
  }

  lemma {:induction false} ReconstructedQuotes(page: Page, spans: seq<TextSourceSpan>, text: seq<Byte>)
    requires Distinct(EvidenceId, PageEvidence(page))
    requires Reconstruct(PageEvidence(page), spans) == Some(text)
    ensures Quotes(page, spans, text)
  {
    var evidence := PageEvidence(page);
    if spans == [] {
      assert QuotesAs(page, spans, text, []);
    } else {
      var n := |spans| - 1;
      var head, last := Reconstruct(evidence, spans[..n]).value, Resolve(evidence, spans[n]).value;
      ReconstructedQuotes(page, spans[..n], head);
      SelectsIff(page, spans[n], last);
      QuotesMore(page, spans, head, last);
    }
  }

  lemma {:induction false} QuotedReconstructs(
      page: Page, spans: seq<TextSourceSpan>, text: seq<Byte>, pieces: seq<seq<Byte>>)
    requires Distinct(EvidenceId, PageEvidence(page)) && QuotesAs(page, spans, text, pieces)
    ensures Reconstruct(PageEvidence(page), spans) == Some(text)
  {
    if spans != [] {
      var n := |spans| - 1;
      assert Selects(page, spans[n], pieces[n]);
      SelectsIff(page, spans[n], pieces[n]);
      forall k: nat | k < n
        ensures Selects(page, spans[..n][k], pieces[..n][k])
      {
        assert Selects(page, spans[k], pieces[k]);
      }
      QuotedReconstructs(page, spans[..n], Pieced(pieces[..n]), pieces[..n]);
    }
  }

  lemma QuotesIff(page: Page, spans: seq<TextSourceSpan>, text: seq<Byte>)
    requires Distinct(EvidenceId, PageEvidence(page))
    ensures Reconstruct(PageEvidence(page), spans) == Some(text) <==> Quotes(page, spans, text)
  {
    if Reconstruct(PageEvidence(page), spans) == Some(text) {
      ReconstructedQuotes(page, spans, text);
    }
    if pieces :| QuotesAs(page, spans, text, pieces) {
      QuotedReconstructs(page, spans, text, pieces);
    }
  }

  lemma QuotesMore(page: Page, spans: seq<TextSourceSpan>, head: seq<Byte>, last: seq<Byte>)
    requires spans != [] && Quotes(page, spans[..|spans| - 1], head) && Selects(page, spans[|spans| - 1], last)
    ensures Quotes(page, spans, head + last)
  {
    var n := |spans| - 1;
    var before :| QuotesAs(page, spans[..n], head, before);
    var pieces := before + [last];
    assert pieces[..n] == before;
    forall k: nat | k < |spans|
      ensures Selects(page, spans[k], pieces[k])
    {
      if k < n {
        assert spans[..n][k] == spans[k];
      }
    }
    assert QuotesAs(page, spans, head + last, pieces);
  }

  /** The cell takes up whole rows and columns of the table, and ends where 32 bits can say. */
  ghost predicate WithinTable(rows: nat, columns: nat, cell: TableCell) {
    && cell.rowSpan >= 1 && cell.columnSpan >= 1
    && cell.row + cell.rowSpan <= rows && cell.column + cell.columnSpan <= columns
    && cell.row + cell.rowSpan <= 4_294_967_295 && cell.column + cell.columnSpan <= 4_294_967_295
  }

  lemma WithinTableIff(rows: nat, columns: nat, cell: TableCell)
    ensures CellPlaced(rows, columns, cell) <==> WithinTable(rows, columns, cell)
  {
  }

  /** A cell with source spans quotes them; one without is a matter of grade. */
  ghost predicate CellSound(page: Page, rows: nat, columns: nat, cell: TableCell, sourced: bool) {
    && WithinTable(rows, columns, cell) && Placed(page, cell.quality, cell.geometry)
    && (cell.spans == [] ==> !sourced) && (cell.spans != [] ==> Quotes(page, cell.spans, cell.text))
  }

  // ---- Records ----

  ghost predicate EvidenceSound(page: Page, e: Evidence, sourced: bool) {
    && (exists l :: l in page.layers && l.id == e.layerId)
    && Placed(page, e.quality, e.geometry)
    && (e.content.ImageContent? ==> exists a :: a in page.artifacts && a.id == e.content.artifact)
    && (e.content.TableContent? ==>
          && e.content.rows >= 1 && e.content.columns >= 1
          && forall cell :: cell in e.content.cells ==>
               CellSound(page, e.content.rows, e.content.columns, cell, sourced))
  }

  ghost predicate RegionSound(page: Page, r: Region, sourced: bool) {
    && r.geometry.pageIndex == page.index && Inside(page.bounds.rect, r.geometry.rect)
    && (forall e :: e in r.evidence ==> EvidenceSound(page, e, sourced))
    && (r.selected.Some? ==>
          && r.selected.value.evidenceIds != []
          && forall id :: id in r.selected.value.evidenceIds ==> exists e :: e in r.evidence && e.id == id)
  }

  /** The identity says which it is. */
  ghost predicate Identifies<T>(id: T -> Id, s: seq<T>) {
    forall i: nat, j: nat :: i < |s| && j < |s| && id(s[i]) == id(s[j]) ==> i == j
  }

  ghost predicate PageSound(page: Page, sourced: bool) {
    && Identifies((l: SourceLayer) => l.id, page.layers) && Identifies((a: RenderArtifact) => a.id, page.artifacts)
    && Identifies((r: Region) => r.id, page.regions) && Identifies((e: Evidence) => e.id, PageEvidence(page))
    && (forall r :: r in page.regions ==> RegionSound(page, r, sourced))
    && (forall edge :: edge in page.readingOrder ==>
          && edge.before != edge.after
          && (exists r :: r in page.regions && r.id == edge.before)
          && (exists r :: r in page.regions && r.id == edge.after))
    && Acyclic(page.readingOrder)
  }

  /** A document that is sound; `sourced` when every table cell must have source spans. */
  ghost predicate DocumentSound(d: Document, sourced: bool) {
    && d.schema.major == 1
    && Identifies((p: Page) => p.id, d.pages) && Identifies((p: Page) => p.index, d.pages)
    && forall p :: p in d.pages ==> p.bounds.pageIndex == p.index && PageSound(p, sourced)
  }

  /** Every rectangle of the document is proper, as its constructor makes sure. */
  ghost predicate ProperEvidence(e: Evidence) {
    && (e.geometry.Some? ==> Proper(e.geometry.value.rect))
    && (e.content.TableContent? ==>
          forall cell :: cell in e.content.cells && cell.geometry.Some? ==> Proper(cell.geometry.value.rect))
  }

  ghost predicate ProperPage(p: Page) {
    && Proper(p.bounds.rect)
    && forall r :: r in p.regions ==> Proper(r.geometry.rect) && forall e :: e in r.evidence ==> ProperEvidence(e)
  }

  ghost predicate ProperDocument(d: Document) {
    forall p :: p in d.pages ==> ProperPage(p)
  }

  lemma HasIff<T>(id: T -> Id, other: T -> Id, s: seq<T>, wanted: Id)
    requires forall x :: id(x) == other(x)
    ensures Has(id, s, wanted) <==> exists x :: x in s && other(x) == wanted
  {
    HasMeans(id, s, wanted);
  }

  lemma IdentifiesIff<T>(id: T -> Id, other: T -> Id, s: seq<T>)
    requires forall x :: id(x) == other(x)
    ensures Distinct(id, s) <==> Identifies(other, s)
  {
    if Identifies(other, s) {
      forall i, j | 0 <= i < j < |s|
        ensures id(s[i]) != id(s[j])
      {
        assert other(s[i]) != other(s[j]);
      }
    }
    if Distinct(id, s) {
      forall i: nat, j: nat | i < |s| && j < |s| && i != j
        ensures other(s[i]) != other(s[j])
      {
        assert id(s[i]) != id(s[j]);
      }
    }
  }

  lemma CellIff(page: Page, rows: nat, columns: nat, cell: TableCell, sourced: bool)
    requires Distinct(EvidenceId, PageEvidence(page)) && (cell.geometry.Some? ==> Proper(cell.geometry.value.rect))
    ensures CellValid(page, rows, columns, cell, sourced) <==> CellSound(page, rows, columns, cell, sourced)
  {
    WithinTableIff(rows, columns, cell);
    PlacedIff(page, cell.quality, cell.geometry);
    QuotesIff(page, cell.spans, cell.text);
  }

  lemma EvidenceIff(page: Page, e: Evidence, sourced: bool)
    requires Distinct(EvidenceId, PageEvidence(page)) && ProperEvidence(e)
    ensures EvidenceValid(page, e) && TableValid(page, e, sourced) <==> EvidenceSound(page, e, sourced)
  {
    HasIff(LayerId, (l: SourceLayer) => l.id, page.layers, e.layerId);
    PlacedIff(page, e.quality, e.geometry);
    if e.content.ImageContent? {
      HasIff(ArtifactId, (a: RenderArtifact) => a.id, page.artifacts, e.content.artifact);
    }
    if e.content.TableContent? {
      forall cell | cell in e.content.cells
        ensures CellValid(page, e.content.rows, e.content.columns, cell, sourced)
           <==> CellSound(page, e.content.rows, e.content.columns, cell, sourced)
      {
        CellIff(page, e.content.rows, e.content.columns, cell, sourced);
      }
    }
  }

  lemma SelectionIff(r: Region)
    ensures SelectionValid(r)
       <==> (r.selected.Some? ==>
               && r.selected.value.evidenceIds != []
               && forall id :: id in r.selected.value.evidenceIds ==> exists e :: e in r.evidence && e.id == id)
  {
    forall id
      ensures Has(EvidenceId, r.evidence, id) <==> exists e :: e in r.evidence && e.id == id
    {
      HasIff(EvidenceId, (e: Evidence) => e.id, r.evidence, id);
    }
  }

  lemma EdgeIff(page: Page, edge: ReadingOrderEdge)
    ensures EdgeValid(page, edge)
       <==> && edge.before != edge.after
            && (exists r :: r in page.regions && r.id == edge.before)
            && (exists r :: r in page.regions && r.id == edge.after)
  {
    HasIff(RegionId, (r: Region) => r.id, page.regions, edge.before);
    HasIff(RegionId, (r: Region) => r.id, page.regions, edge.after);
  }

  /** Spans apart, a valid page's table cells are those of its regions' evidence. */
  lemma TablesByRegion(page: Page, sourced: bool)
    ensures TablesValid(page, sourced)
       <==> forall r, e :: r in page.regions && e in r.evidence ==> TableValid(page, e, sourced)
  {
    if TablesValid(page, sourced) {
      forall r, e | r in page.regions && e in r.evidence
        ensures TableValid(page, e, sourced)
      {
        RegionsEvidenceMember(page.regions, e);
      }
    } else {
      var e :| e in PageEvidence(page) && !TableValid(page, e, sourced);
      RegionsEvidenceMember(page.regions, e);
    }
  }

  lemma RegionIff(page: Page, r: Region, sourced: bool)
    requires Distinct(EvidenceId, PageEvidence(page)) && Proper(r.geometry.rect)
    requires forall e :: e in r.evidence ==> ProperEvidence(e)
    ensures RegionValid(page, r) && (forall e :: e in r.evidence ==> TableValid(page, e, sourced))
       <==> RegionSound(page, r, sourced)
  {
    InsideIff(page.bounds.rect, r.geometry.rect);
    SelectionIff(r);
    forall e | e in r.evidence
      ensures EvidenceValid(page, e) && TableValid(page, e, sourced) <==> EvidenceSound(page, e, sourced)
    {
      EvidenceIff(page, e, sourced);
    }
  }

  lemma RecordsIff(page: Page)
    ensures Distinct(LayerId, page.layers) <==> Identifies((l: SourceLayer) => l.id, page.layers)
    ensures Distinct(ArtifactId, page.artifacts) <==> Identifies((a: RenderArtifact) => a.id, page.artifacts)
    ensures Distinct(RegionId, page.regions) <==> Identifies((r: Region) => r.id, page.regions)
    ensures Distinct(EvidenceId, PageEvidence(page)) <==> Identifies((e: Evidence) => e.id, PageEvidence(page))
  {
    IdentifiesIff(LayerId, (l: SourceLayer) => l.id, page.layers);
    IdentifiesIff(ArtifactId, (a: RenderArtifact) => a.id, page.artifacts);
    IdentifiesIff(RegionId, (r: Region) => r.id, page.regions);
    IdentifiesIff(EvidenceId, (e: Evidence) => e.id, PageEvidence(page));
  }

  lemma SpansOnlyAdd(page: Page)
    ensures TablesValid(page, true) ==> TablesValid(page, false)
  {
    if TablesValid(page, true) {
      forall e | e in PageEvidence(page)
        ensures TableValid(page, e, false)
      {
        assert TableValid(page, e, true);
      }
    }
  }

  lemma PageIff(page: Page, sourced: bool)
    requires ProperPage(page)
    ensures PageValid(page) && TablesValid(page, sourced) <==> PageSound(page, sourced)
  {
    RecordsIff(page);
    if Distinct(EvidenceId, PageEvidence(page)) {
      TablesByRegion(page, sourced);
      SpansOnlyAdd(page);
      forall r | r in page.regions
        ensures RegionValid(page, r) && (forall e :: e in r.evidence ==> TableValid(page, e, sourced))
           <==> RegionSound(page, r, sourced)
      {
        RegionIff(page, r, sourced);
      }
      forall edge | edge in page.readingOrder
        ensures EdgeValid(page, edge)
           <==> && edge.before != edge.after
                && (exists r :: r in page.regions && r.id == edge.before)
                && (exists r :: r in page.regions && r.id == edge.after)
      {
        EdgeIff(page, edge);
      }
    }
  }

  /** The validator accepts exactly the sound documents, and the stricter one those whose cells are all sourced. */
  lemma SoundIff(d: Document)
    requires ProperDocument(d)
    ensures DocumentValid(d) <==> DocumentSound(d, false)
    ensures EvidenceGrade(d) <==> DocumentSound(d, true)
  {
    IdentifiesIff(PageId, (p: Page) => p.id, d.pages);
    IdentifiesIff(PageIndex, (p: Page) => p.index, d.pages);
    forall p | p in d.pages
      ensures PageValid(p) <==> PageSound(p, false)
      ensures PageValid(p) && TablesValid(p, true) <==> PageSound(p, true)
    {
      PageIff(p, false);
      PageIff(p, true);
    }
  }
}

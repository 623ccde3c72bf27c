/** A valid document in canonical order is determined by its facts and its selected views. */
module Determination {
  import opened Collections
  import opened DocumentIr
  import opened Validation
  import opened EvidenceState
  import opened Conservation

  // ---- Counting facts ----

  predicate IsRegional(f: Fact) { f.RegionPresent? || f.RegionBody? || f.EvidenceFact? }

  lemma {:induction false} LayerCount(page: Id, s: seq<SourceLayer>, f: Fact)
    ensures Gather(LayerFacts(page), s)[f] == if f.LayerFact? && f.page == page then multiset(s)[f.layer] else 0
  {
    if s != [] {
      HeadTail(s);
      LayerCount(page, s[1..], f);
    }
  }

  lemma {:induction false} ArtifactCount(page: Id, s: seq<RenderArtifact>, f: Fact)
    ensures Gather(ArtifactFacts(page), s)[f]
         == if f.ArtifactFact? && f.page == page then multiset(s)[f.artifact] else 0
  {
    if s != [] {
      HeadTail(s);
      ArtifactCount(page, s[1..], f);
    }
  }

  lemma {:induction false} EdgeCount(page: Id, s: seq<ReadingOrderEdge>, f: Fact)
    ensures Gather(EdgeFacts(page), s)[f] == if f.EdgeFact? && f.page == page then multiset(s)[f.edge] else 0
  {
    if s != [] {
      HeadTail(s);
      EdgeCount(page, s[1..], f);
    }
  }

  lemma {:induction false} EvidenceCount(page: Id, region: Id, s: seq<Evidence>, f: Fact)
    ensures Gather(EvidenceFacts(page, region), s)[f]
      == if f.EvidenceFact? && f.page == page && f.region == region then multiset(s)[f.evidence] else 0
  {
    if s != [] {
      HeadTail(s);
      EvidenceCount(page, region, s[1..], f);
    }
  }

  ghost function RegionCount(page: Id, region: Region, f: Fact): nat {
    if f.page != page || !IsRegional(f) || f.region != region.id then 0
    else
      match f
      case EvidenceFact(_, _, e) => multiset(region.evidence)[e]
      case RegionBody(_, _, k, g) => if k == region.kind && g == region.geometry then 1 else 0
      case _ => 1
  }

  lemma RegionFactsAt(page: Id, region: Region, f: Fact)
    ensures RegionFacts(page)(region)[f] == RegionCount(page, region, f)
  {
    EvidenceCount(page, region.id, region.evidence, f);
  }

  lemma {:induction false} RegionsElsewhere(page: Id, regions: seq<Region>, f: Fact)
    requires f.page != page || !IsRegional(f)
    ensures Gather(RegionFacts(page), regions)[f] == 0
  {
    if regions != [] {
      RegionFactsAt(page, regions[0], f);
      RegionsElsewhere(page, regions[1..], f);
    }
  }

  ghost function PageCount(page: Page, f: Fact): nat {
    if f.page != page.id then 0
    else
      match f
      case PagePresent(_) => 1
      case PageBody(_, i, b) => if i == page.index && b == page.bounds then 1 else 0
      case LayerFact(_, l) => multiset(page.layers)[l]
      case ArtifactFact(_, a) => multiset(page.artifacts)[a]
      case EdgeFact(_, e) => multiset(page.readingOrder)[e]
      case _ => Gather(RegionFacts(page.id), page.regions)[f]
  }

  /** How often a page holds a fact, by the kind of the fact. */
  lemma PageFactsAt(page: Page, f: Fact)
    ensures PageFacts(page)[f] == PageCount(page, f)
  {
    var layers, artifacts := Gather(LayerFacts(page.id), page.layers), Gather(ArtifactFacts(page.id), page.artifacts);
    var regions, edges := Gather(RegionFacts(page.id), page.regions), Gather(EdgeFacts(page.id), page.readingOrder);
    LayerCount(page.id, page.layers, f);
    ArtifactCount(page.id, page.artifacts, f);
    EdgeCount(page.id, page.readingOrder, f);
    if f.page != page.id || !IsRegional(f) {
      RegionsElsewhere(page.id, page.regions, f);
    }
    AddCounts(page, layers, artifacts, regions, edges, f);
  }

  lemma AddCounts(page: Page, layers: Facts, artifacts: Facts, regions: Facts, edges: Facts, f: Fact)
    requires PageFacts(page) == PageHeading(page) + layers + artifacts + regions + edges
    ensures PageFacts(page)[f] == PageHeading(page)[f] + layers[f] + artifacts[f] + regions[f] + edges[f]
  {
  }

  /** With distinct page identities, the facts naming a page are that page's own. */
  lemma PageFactCount(d: Document, i: nat, f: Fact)
    requires i < |d.pages| && Distinct(PageId, d.pages) && f.page == d.pages[i].id
    ensures DocumentFacts(d)[f] == PageCount(d.pages[i], f)
  {
    PageFactsAt(d.pages[i], f);
    forall j | 0 <= j < |d.pages| && j != i
      ensures f !in PageFacts(d.pages[j])
    {
      PageFactsAt(d.pages[j], f);
      assert PageId(d.pages[j]) != PageId(d.pages[i]);
    }
    GatherOnly(PageFacts, d.pages, i, f);
  }

  lemma RegionFactCount(page: Id, regions: seq<Region>, i: nat, f: Fact)
    requires i < |regions| && Distinct(RegionId, regions) && IsRegional(f) && f.region == regions[i].id
    ensures Gather(RegionFacts(page), regions)[f] == RegionCount(page, regions[i], f)
  {
    RegionFactsAt(page, regions[i], f);
    forall j | 0 <= j < |regions| && j != i
      ensures f !in RegionFacts(page)(regions[j])
    {
      RegionFactsAt(page, regions[j], f);
      assert RegionId(regions[j]) != RegionId(regions[i]);
    }
    GatherOnly(RegionFacts(page), regions, i, f);
  }

  // ---- Unique keys ----

  /** No page and no region of a page is present twice. */
  ghost predicate UniqueKeys(facts: Facts) {
    && (forall p :: facts[PagePresent(p)] <= 1)
    && (forall p, r :: facts[RegionPresent(p, r)] <= 1)
  }

  lemma {:induction false} DistinctPages(pages: seq<Page>)
    requires forall p :: Gather(PageFacts, pages)[PagePresent(p)] <= 1
    ensures Distinct(PageId, pages)
  {
    forall i, j | 0 <= i < j < |pages|
      ensures PageId(pages[i]) != PageId(pages[j])
    {
      PageFactsAt(pages[i], PagePresent(pages[i].id));
      PageFactsAt(pages[j], PagePresent(pages[i].id));
      TwoContribute(PageFacts, pages, i, j, PagePresent(pages[i].id));
    }
  }

  lemma TwoContribute<T>(f: T -> Facts, s: seq<T>, i: nat, j: nat, fact: Fact)
    requires i < j < |s|
    ensures Gather(f, s)[fact] >= f(s[i])[fact] + f(s[j])[fact]
  {
    GatherSplit(f, s, j);
    assert s[..j][i] == s[i];
    GatherContains(f, s[..j], i);
  }

  lemma DistinctRegions(page: Id, regions: seq<Region>)
    requires forall r :: Gather(RegionFacts(page), regions)[RegionPresent(page, r)] <= 1
    ensures Distinct(RegionId, regions)
  {
    forall i, j | 0 <= i < j < |regions|
      ensures RegionId(regions[i]) != RegionId(regions[j])
    {
      RegionFactsAt(page, regions[i], RegionPresent(page, regions[i].id));
      RegionFactsAt(page, regions[j], RegionPresent(page, regions[i].id));
      TwoContribute(RegionFacts(page), regions, i, j, RegionPresent(page, regions[i].id));
    }
  }

  lemma UniqueKeysMeans(d: Document)
    requires UniqueKeys(DocumentFacts(d))
    ensures Distinct(PageId, d.pages)
    ensures forall p :: p in d.pages ==> Distinct(RegionId, p.regions)
  {
    DistinctPages(d.pages);
    forall p | p in d.pages
      ensures Distinct(RegionId, p.regions)
    {
      var i :| 0 <= i < |d.pages| && d.pages[i] == p;
      GatherContains(PageFacts, d.pages, i);
      forall r
        ensures Gather(RegionFacts(p.id), p.regions)[RegionPresent(p.id, r)] <= 1
      {
        PageFactsAt(p, RegionPresent(p.id, r));
        assert PageFacts(p)[RegionPresent(p.id, r)] <= DocumentFacts(d)[RegionPresent(p.id, r)];
      }
      DistinctRegions(p.id, p.regions);
    }
  }

  /** Every valid document has unique keys. */
  lemma ValidHasUniqueKeys(d: Document)
    requires DocumentValid(d)
    ensures UniqueKeys(DocumentFacts(d))
  {
    forall f: Fact | f.PagePresent? || f.RegionPresent?
      ensures DocumentFacts(d)[f] <= 1
    {
      if f in DocumentFacts(d) {
        KeyOnce(d, f);
      }
    }
  }

  lemma KeyOnce(d: Document, f: Fact)
    requires DocumentValid(d) && f in DocumentFacts(d) && (f.PagePresent? || f.RegionPresent?)
    ensures DocumentFacts(d)[f] <= 1
  {
    var i := GatherMember(PageFacts, d.pages, f);
    var page := d.pages[i];
    assert page in d.pages && Distinct(RegionId, page.regions);
    PageFactsAt(page, f);
    PageFactCount(d, i, f);
    if f.RegionPresent? {
      var j := GatherMember(RegionFacts(page.id), page.regions, f);
      RegionFactsAt(page.id, page.regions[j], f);
      RegionFactCount(page.id, page.regions, j, f);
    }
  }

  // ---- Canonical order ----

  ghost predicate OrderedPage(p: Page) {
    && SortedBy(LayerKey, p.layers) && SortedBy(ArtifactKey, p.artifacts)
    && SortedBy(RegionKeyOf, p.regions) && SortedBy(EdgeKey, p.readingOrder)
    && (forall r :: r in p.regions ==> SortedBy(EvidenceKey, r.evidence))
  }

  ghost predicate Ordered(d: Document) {
    SortedBy(PageSortKey, d.pages) && forall p :: p in d.pages ==> OrderedPage(p)
  }

  lemma CanonicalPageOrdered(page: Page)
    ensures OrderedPage(CanonicalPage(page))
  {
    SortByProperties(LayerKey, page.layers);
    SortByProperties(ArtifactKey, page.artifacts);
    SortByProperties(RegionKeyOf, page.regions);
    SortByProperties(EdgeKey, page.readingOrder);
    var sorted := SortBy(RegionKeyOf, page.regions);
    forall r | r in CanonicalRegions(sorted)
      ensures SortedBy(EvidenceKey, r.evidence)
    {
      var i :| 0 <= i < |sorted| && CanonicalRegions(sorted)[i] == r;
      SortByProperties(EvidenceKey, sorted[i].evidence);
    }
  }

  lemma CanonicalOrdered(d: Document)
    ensures Ordered(Canonical(d))
  {
    SortByProperties(PageSortKey, d.pages);
    var sorted := SortBy(PageSortKey, d.pages);
    forall p | p in CanonicalPages(sorted)
      ensures OrderedPage(p)
    {
      var i :| 0 <= i < |sorted| && CanonicalPages(sorted)[i] == p;
      CanonicalPageOrdered(sorted[i]);
    }
  }

  // ---- Determination ----

  ghost predicate SameSelections(a: Document, b: Document) {
    forall p, q, r, s ::
      (p in a.pages && q in b.pages && r in p.regions && s in q.regions && p.id == q.id && r.id == s.id)
      ==> r.selected == s.selected
  }

  datatype PageHead = PageHead(id: Id, index: nat, bounds: PageRect)
  datatype RegionHeading = RegionHeading(id: Id, kind: RegionKind, geometry: PageRect)

  ghost function HeadOfPage(p: Page): PageHead { PageHead(p.id, p.index, p.bounds) }

  ghost function HeadOfRegion(r: Region): RegionHeading { RegionHeading(r.id, r.kind, r.geometry) }

  ghost function PageHeads(pages: seq<Page>): seq<PageHead> {
    seq(|pages|, i requires 0 <= i < |pages| => PageHead(pages[i].id, pages[i].index, pages[i].bounds))
  }

  ghost function RegionHeads(regions: seq<Region>): seq<RegionHeading> {
    seq(|regions|, i requires 0 <= i < |regions| =>
      RegionHeading(regions[i].id, regions[i].kind, regions[i].geometry))
  }

  ghost function PageHeadKey(h: PageHead): Key { (h.index, h.id) }
  ghost function RegionHeadKey(h: RegionHeading): Key { (h.id, 0) }

  lemma PageHeadCount(pages: seq<Page>, h: PageHead)
    ensures Gather(PageFacts, pages)[PageBody(h.id, h.index, h.bounds)] == multiset(PageHeads(pages))[h]
  {
    var f := PageBody(h.id, h.index, h.bounds);
    forall i | 0 <= i < |pages|
      ensures PageFacts(pages[i])[f] == if HeadOfPage(pages[i]) == h then 1 else 0
    {
      PageFactsAt(pages[i], f);
    }
    assert PageHeads(pages) == Heads(HeadOfPage, pages);
    GatherHeads(PageFacts, HeadOfPage, pages, f, h);
  }

  lemma RegionHeadCount(page: Id, regions: seq<Region>, h: RegionHeading)
    ensures Gather(RegionFacts(page), regions)[RegionBody(page, h.id, h.kind, h.geometry)]
      == multiset(RegionHeads(regions))[h]
  {
    var f := RegionBody(page, h.id, h.kind, h.geometry);
    forall i | 0 <= i < |regions|
      ensures RegionFacts(page)(regions[i])[f] == if HeadOfRegion(regions[i]) == h then 1 else 0
    {
      RegionFactsAt(page, regions[i], f);
    }
    assert RegionHeads(regions) == Heads(HeadOfRegion, regions);
    GatherHeads(RegionFacts(page), HeadOfRegion, regions, f, h);
  }

  lemma HeadsSorted(pages: seq<Page>)
    requires SortedBy(PageSortKey, pages)
    ensures SortedBy(PageHeadKey, PageHeads(pages))
  {
    forall i, j | 0 <= i < j < |pages|
      ensures KeyLe(PageHeadKey(PageHeads(pages)[i]), PageHeadKey(PageHeads(pages)[j]))
    {
      assert KeyLe(PageSortKey(pages[i]), PageSortKey(pages[j]));
    }
  }

  lemma HeadKeysDistinct(pages: seq<Page>, g: PageHead, h: PageHead)
    requires Distinct(PageId, pages) && g in PageHeads(pages) && h in PageHeads(pages) && g.id == h.id
    ensures g == h
  {
    var x := PageHeads(pages);
    var i :| 0 <= i < |x| && x[i] == g;
    var j :| 0 <= j < |x| && x[j] == h;
    assert PageId(pages[i]) == PageId(pages[j]);
  }

  lemma SamePageHeads(a: Document, b: Document)
    requires DocumentFacts(a) == DocumentFacts(b)
    requires Distinct(PageId, a.pages)
    requires SortedBy(PageSortKey, a.pages) && SortedBy(PageSortKey, b.pages)
    ensures PageHeads(a.pages) == PageHeads(b.pages)
  {
    var x, y := PageHeads(a.pages), PageHeads(b.pages);
    forall h
      ensures multiset(x)[h] == multiset(y)[h]
    {
      PageHeadCount(a.pages, h);
      PageHeadCount(b.pages, h);
    }
    assert multiset(x) == multiset(y);
    forall g, h | g in x && h in x && PageHeadKey(g) == PageHeadKey(h)
      ensures g == h
    {
      HeadKeysDistinct(a.pages, g, h);
    }
    HeadsSorted(a.pages);
    HeadsSorted(b.pages);
    SortedUnique(PageHeadKey, x, y);
  }

  lemma SameRegionHeads(page: Id, a: seq<Region>, b: seq<Region>)
    requires forall f :: IsRegional(f) ==> Gather(RegionFacts(page), a)[f] == Gather(RegionFacts(page), b)[f]
    requires Distinct(RegionId, a) && SortedBy(RegionKeyOf, a) && SortedBy(RegionKeyOf, b)
    ensures RegionHeads(a) == RegionHeads(b)
  {
    var x, y := RegionHeads(a), RegionHeads(b);
    forall h
      ensures multiset(x)[h] == multiset(y)[h]
    {
      RegionHeadCount(page, a, h);
      RegionHeadCount(page, b, h);
    }
    assert multiset(x) == multiset(y);
    RegionHeadKeysDistinct(a);
    SortedUnique(RegionHeadKey, x, y);
  }

  lemma RegionHeadKeysDistinct(regions: seq<Region>)
    requires Distinct(RegionId, regions)
    ensures var x := RegionHeads(regions);
            forall g, h :: g in x && h in x && RegionHeadKey(g) == RegionHeadKey(h) ==> g == h
  {
    var x := RegionHeads(regions);
    forall g, h | g in x && h in x && RegionHeadKey(g) == RegionHeadKey(h)
      ensures g == h
    {
      var i :| 0 <= i < |x| && x[i] == g;
      var j :| 0 <= j < |x| && x[j] == h;
      assert RegionId(regions[i]) == RegionId(regions[j]);
    }
  }

  /** Sorted lists with the same elements and distinct identities agree. */
  lemma SameRecords<T>(key: T -> Key, id: T -> Id, a: seq<T>, b: seq<T>)
    requires forall x :: multiset(a)[x] == multiset(b)[x]
    requires forall x :: key(x) == (id(x), 0)
    requires SortedBy(key, a) && SortedBy(key, b) && Distinct(id, a)
    ensures a == b
  {
    assert multiset(a) == multiset(b);
    forall x, y | x in a && y in a && key(x) == key(y)
      ensures x == y
    {
      DistinctEqual(id, a, x, y);
    }
    SortedUnique(key, a, b);
  }

  lemma SameRegion(a: Region, b: Region)
    requires a.id == b.id && a.kind == b.kind && a.geometry == b.geometry && a.selected == b.selected
    requires forall e :: multiset(a.evidence)[e] == multiset(b.evidence)[e]
    requires Distinct(EvidenceId, a.evidence) && SortedBy(EvidenceKey, a.evidence) && SortedBy(EvidenceKey, b.evidence)
    ensures a == b
  {
    SameRecords(EvidenceKey, EvidenceId, a.evidence, b.evidence);
  }

  lemma RegionEvidenceDistinct(page: Page, r: Region)
    requires Distinct(EvidenceId, PageEvidence(page)) && r in page.regions
    ensures Distinct(EvidenceId, r.evidence)
  {
    SomeRegionDistinct(page.regions, r);
  }

  lemma {:induction false} SomeRegionDistinct(regions: seq<Region>, r: Region)
    requires Distinct(EvidenceId, RegionsEvidence(regions)) && r in regions
    ensures Distinct(EvidenceId, r.evidence)
  {
    var n := |regions| - 1;
    var head, last := RegionsEvidence(regions[..n]), regions[n].evidence;
    var all := RegionsEvidence(regions);
    if r == regions[n] {
      forall i, j | 0 <= i < j < |last|
        ensures EvidenceId(last[i]) != EvidenceId(last[j])
      {
        assert all[|head| + i] == last[i] && all[|head| + j] == last[j];
      }
    } else {
      forall i, j | 0 <= i < j < |head|
        ensures EvidenceId(head[i]) != EvidenceId(head[j])
      {
        assert all[i] == head[i] && all[j] == head[j];
      }
      SomeRegionDistinct(regions[..n], r);
    }
  }

  lemma SameEvidence(page: Id, x: seq<Region>, y: seq<Region>, i: nat)
    requires forall f :: IsRegional(f) ==> Gather(RegionFacts(page), x)[f] == Gather(RegionFacts(page), y)[f]
    requires i < |x| && i < |y| && x[i].id == y[i].id && Distinct(RegionId, x) && Distinct(RegionId, y)
    ensures forall e :: multiset(x[i].evidence)[e] == multiset(y[i].evidence)[e]
  {
    forall e
      ensures multiset(x[i].evidence)[e] == multiset(y[i].evidence)[e]
    {
      RegionFactCount(page, x, i, EvidenceFact(page, x[i].id, e));
      RegionFactCount(page, y, i, EvidenceFact(page, x[i].id, e));
    }
  }

  lemma SameRegions(p: Page, q: Page)
    requires forall f :: IsRegional(f) ==>
      Gather(RegionFacts(p.id), p.regions)[f] == Gather(RegionFacts(p.id), q.regions)[f]
    requires OrderedPage(p) && OrderedPage(q)
    requires Distinct(RegionId, p.regions) && Distinct(RegionId, q.regions) && Distinct(EvidenceId, PageEvidence(p))
    requires forall r, s :: r in p.regions && s in q.regions && r.id == s.id ==> r.selected == s.selected
    ensures p.regions == q.regions
  {
    var x, y := p.regions, q.regions;
    SameRegionHeads(p.id, x, y);
    assert |RegionHeads(x)| == |RegionHeads(y)|;
    forall i | 0 <= i < |x|
      ensures x[i] == y[i]
    {
      assert RegionHeads(x)[i] == RegionHeads(y)[i];
      assert x[i] in x && y[i] in y;
      SameEvidence(p.id, x, y, i);
      RegionEvidenceDistinct(p, x[i]);
      SameRegion(x[i], y[i]);
    }
  }

  lemma SamePage(p: Page, q: Page)
    requires forall f :: PageCount(p, f) == PageCount(q, f)
    requires PageValid(p) && Distinct(RegionId, q.regions)
    requires OrderedPage(p) && OrderedPage(q)
    requires p.id == q.id && p.index == q.index && p.bounds == q.bounds
    requires forall r, s :: r in p.regions && s in q.regions && r.id == s.id ==> r.selected == s.selected
    ensures p == q
  {
    SamePageRecords(p, q);
    forall f | IsRegional(f)
      ensures Gather(RegionFacts(p.id), p.regions)[f] == Gather(RegionFacts(p.id), q.regions)[f]
    {
      assert PageCount(p, f) == PageCount(q, f);
      if f.page != p.id {
        RegionsElsewhere(p.id, p.regions, f);
        RegionsElsewhere(p.id, q.regions, f);
      }
    }
    SameRegions(p, q);
  }

  lemma SamePageRecords(p: Page, q: Page)
    requires forall f :: PageCount(p, f) == PageCount(q, f)
    requires p.id == q.id && OrderedPage(p) && OrderedPage(q)
    requires Distinct(LayerId, p.layers) && Distinct(ArtifactId, p.artifacts)
    ensures p.layers == q.layers && p.artifacts == q.artifacts && p.readingOrder == q.readingOrder
  {
    forall x
      ensures multiset(p.layers)[x] == multiset(q.layers)[x]
    {
      assert PageCount(p, LayerFact(p.id, x)) == PageCount(q, LayerFact(p.id, x));
    }
    SameRecords(LayerKey, LayerId, p.layers, q.layers);
    forall x
      ensures multiset(p.artifacts)[x] == multiset(q.artifacts)[x]
    {
      assert PageCount(p, ArtifactFact(p.id, x)) == PageCount(q, ArtifactFact(p.id, x));
    }
    SameRecords(ArtifactKey, ArtifactId, p.artifacts, q.artifacts);
    forall x
      ensures multiset(p.readingOrder)[x] == multiset(q.readingOrder)[x]
    {
      assert PageCount(p, EdgeFact(p.id, x)) == PageCount(q, EdgeFact(p.id, x));
    }
    assert multiset(p.readingOrder) == multiset(q.readingOrder);
    SortedUnique(EdgeKey, p.readingOrder, q.readingOrder);
  }

  /** Facts, header and selections leave no choice for a valid document in canonical order. */
  lemma Determined(a: Document, b: Document)
    requires DocumentValid(a) && Ordered(a) && Ordered(b) && SameHeader(a, b)
    requires DocumentFacts(a) == DocumentFacts(b) && SameSelections(a, b)
    ensures a == b
  {
    ValidHasUniqueKeys(a);
    UniqueKeysMeans(b);
    SamePageHeads(a, b);
    assert |PageHeads(a.pages)| == |PageHeads(b.pages)|;
    forall i | 0 <= i < |a.pages|
      ensures a.pages[i] == b.pages[i]
    {
      var p, q := a.pages[i], b.pages[i];
      assert PageHeads(a.pages)[i] == PageHeads(b.pages)[i];
      assert p in a.pages && q in b.pages;
      forall f
        ensures PageCount(p, f) == PageCount(q, f)
      {
        if f.page == p.id {
          PageFactCount(a, i, f);
          PageFactCount(b, i, f);
        }
      }
      SamePage(p, q);
    }
  }
}

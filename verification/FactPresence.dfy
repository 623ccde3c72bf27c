/** Which pages, regions and evidence a document holds, read off its facts. */
module FactPresence {
  import opened Collections
  import opened DocumentIr
  import opened EvidenceState
  import opened Conservation
  import opened Determination
  import opened Selections

  lemma PagePresentIff(pages: seq<Page>, p: Id)
    ensures PagePresent(p) in Gather(PageFacts, pages) <==> Has(PageId, pages, p)
  {
    if PagePresent(p) in Gather(PageFacts, pages) {
      var i := GatherMember(PageFacts, pages, PagePresent(p));
      PageFactsAt(pages[i], PagePresent(p));
      HasMeans(PageId, pages, p);
      assert pages[i] in pages && PageId(pages[i]) == p;
    }
    if Has(PageId, pages, p) {
      var i := IndexOf(PageId, pages, p);
      GatherContains(PageFacts, pages, i);
      PageFactsAt(pages[i], PagePresent(p));
      assert PagePresent(p) in PageFacts(pages[i]);
    }
  }

  lemma RegionInPageIff(page: Page, r: Id)
    ensures RegionPresent(page.id, r) in PageFacts(page) <==> Has(RegionId, page.regions, r)
  {
    var key := RegionPresent(page.id, r);
    PageFactsAt(page, key);
    if key in Gather(RegionFacts(page.id), page.regions) {
      var i := GatherMember(RegionFacts(page.id), page.regions, key);
      RegionFactsAt(page.id, page.regions[i], key);
      HasMeans(RegionId, page.regions, r);
      assert page.regions[i] in page.regions && RegionId(page.regions[i]) == r;
    }
    if Has(RegionId, page.regions, r) {
      var i := IndexOf(RegionId, page.regions, r);
      BirthOf(page.id, page.regions, page.regions[i]);
    }
  }

  lemma RegionPresentIff(d: Document, target: PageRegionRef)
    requires Distinct(PageId, d.pages)
    ensures RegionPresent(target.page, target.region) in DocumentFacts(d) <==> HasRegion(d, target)
  {
    if RegionPresent(target.page, target.region) in DocumentFacts(d) {
      ResolvePresent(d, target);
    }
    if HasRegion(d, target) {
      PresentRegion(d, target);
    }
  }

  lemma ResolvePresent(d: Document, target: PageRegionRef)
    requires Distinct(PageId, d.pages) && RegionPresent(target.page, target.region) in DocumentFacts(d)
    ensures HasRegion(d, target)
  {
    var key := RegionPresent(target.page, target.region);
    var i := GatherMember(PageFacts, d.pages, key);
    PageFactsAt(d.pages[i], key);
    FirstIsOnly(d.pages, i, target.page);
    RegionInPageIff(d.pages[i], target.region);
  }

  lemma FirstIsOnly(pages: seq<Page>, i: nat, p: Id)
    requires i < |pages| && Distinct(PageId, pages) && pages[i].id == p
    ensures IndexOf(PageId, pages, p) == i
  {
    assert PageId(pages[i]) == p;
  }

  ghost predicate EvidencePresent(facts: Facts, id: Id) {
    exists f :: f in facts && f.EvidenceFact? && f.evidence.id == id
  }

  lemma EvidencePresentIff(d: Document, id: Id)
    ensures EvidencePresent(DocumentFacts(d), id) <==> HasEvidence(d, id)
  {
    if f :| f in DocumentFacts(d) && f.EvidenceFact? && f.evidence.id == id {
      FactIsEvidence(d, f);
    }
    if HasEvidence(d, id) {
      var p :| p in d.pages && exists r :: r in p.regions && exists e :: e in r.evidence && e.id == id;
      var r :| r in p.regions && exists e :: e in r.evidence && e.id == id;
      var e :| e in r.evidence && e.id == id;
      EvidenceIsFact(d, p, r, e);
      assert EvidenceFact(p.id, r.id, e) in DocumentFacts(d);
    }
  }

  lemma FactIsEvidence(d: Document, f: Fact)
    requires f in DocumentFacts(d) && f.EvidenceFact?
    ensures HasEvidence(d, f.evidence.id)
  {
    var i := GatherMember(PageFacts, d.pages, f);
    var r := EvidenceOnPage(d.pages[i], f);
    RecordIsEvidence(d, d.pages[i], r, f.evidence);
  }

  /** The region an evidence fact of a page is about. */
  lemma EvidenceOnPage(page: Page, f: Fact) returns (r: Region)
    requires f in PageFacts(page) && f.EvidenceFact?
    ensures f.page == page.id && r in page.regions && r.id == f.region && f.evidence in r.evidence
  {
    PageFactsAt(page, f);
    var j := GatherMember(RegionFacts(page.id), page.regions, f);
    RegionFactsAt(page.id, page.regions[j], f);
    r := page.regions[j];
  }

  lemma RecordIsEvidence(d: Document, p: Page, r: Region, e: Evidence)
    requires p in d.pages && r in p.regions && e in r.evidence
    ensures HasEvidence(d, e.id)
  {
  }

  lemma EvidenceIsFact(d: Document, p: Page, r: Region, e: Evidence)
    requires p in d.pages && r in p.regions && e in r.evidence
    ensures EvidenceFact(p.id, r.id, e) in DocumentFacts(d)
  {
    var f := EvidenceFact(p.id, r.id, e);
    var i :| 0 <= i < |d.pages| && d.pages[i] == p;
    var j :| 0 <= j < |p.regions| && p.regions[j] == r;
    RegionFactsAt(p.id, r, f);
    GatherContains(RegionFacts(p.id), p.regions, j);
    assert f in RegionFacts(p.id)(r);
    PageFactsAt(p, f);
    GatherContains(PageFacts, d.pages, i);
    assert f in PageFacts(p);
  }
}

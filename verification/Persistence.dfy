/** What survives later materializations: scope containment, and the sources of table cells. */
module Persistence {
  import opened Collections
  import opened DocumentIr
  import opened Validation
  import opened EvidenceState
  import opened Conservation
  import opened Determination
  import opened Selections
  import opened FactPresence
  import opened Materialization

  function RegionAt(pages: seq<Page>, target: PageRegionRef): Option<Region> {
    var i := IndexOf(PageId, pages, target.page);
    if i == |pages| then None
    else
      var j := IndexOf(RegionId, pages[i].regions, target.region);
      if j == |pages[i].regions| then None else Some(pages[i].regions[j])
  }

  lemma IndexInPrefix(a: seq<Region>, b: seq<Region>, r: Id)
    requires |a| <= |b| && forall i :: 0 <= i < |a| ==> b[i].id == a[i].id
    requires Has(RegionId, a, r)
    ensures IndexOf(RegionId, b, r) == IndexOf(RegionId, a, r)
  {
    var i, j := IndexOf(RegionId, a, r), IndexOf(RegionId, b, r);
    assert RegionId(b[i]) == r;
  }

  lemma {:induction false} AdditionsWithinTargets(scope: RefinementScope, additions: seq<PageDelta>)
    requires scope.Regions? && AdditionScopeFailure(scope, additions).None?
    ensures forall a :: a in additions ==> WithinTargets(scope.regions, a)
  {
    if additions != [] {
      AdditionsWithinTargets(scope, additions[1..]);
      assert additions == [additions[0]] + additions[1..];
    }
  }

  lemma {:induction false} EvidenceElsewhere(regions: seq<Region>, additions: seq<RegionEvidenceAddition>, i: nat)
    requires AddEvidence(regions, additions).Ok? && i < |regions|
    requires forall e :: e in additions ==> e.region != regions[i].id
    ensures i < |AddEvidence(regions, additions).value| && AddEvidence(regions, additions).value[i] == regions[i]
    decreases |additions|
  {
    if additions != [] {
      var k := IndexOf(RegionId, regions, additions[0].region);
      assert additions[0] in additions;
      var grown := regions[k].(evidence := regions[k].evidence + additions[0].evidence);
      EvidenceElsewhere(regions[k := grown], additions[1..], i);
    }
  }

  /** A region the addition neither targets nor re-introduces is the same afterwards. */
  lemma ExtendPageElsewhere(page: Page, a: PageDelta, r: Id)
    requires ExtendPage(page, a).Ok? && page.id == a.page && Has(RegionId, page.regions, r)
    requires forall e :: e in a.regionEvidence ==> e.region != r
    ensures var i := IndexOf(RegionId, page.regions, r);
            var after := ExtendPage(page, a).value.regions;
            IndexOf(RegionId, after, r) == i && i < |after| && after[i] == page.regions[i]
  {
    var i := IndexOf(RegionId, page.regions, r);
    EvidenceElsewhere(page.regions + a.regions, a.regionEvidence, i);
    AddEvidenceShape(page.regions + a.regions, a.regionEvidence);
    IndexInPrefix(page.regions, ExtendPage(page, a).value.regions, r);
  }

  lemma NotTargeted(facts: Facts, a: PageDelta, regions: set<PageRegionRef>, target: PageRegionRef)
    requires WithinTargets(regions, a) && target !in regions && target.page == a.page
    requires RegionPresent(target.page, target.region) in facts && UniqueKeys(facts + AdditionFacts(a))
    ensures !Has(RegionId, a.regions, target.region)
    ensures forall e :: e in a.regionEvidence ==> e.region != target.region
  {
    OnlyOnce(facts, AdditionFacts(a), target);
    if Has(RegionId, a.regions, target.region) {
      BirthOf(a.page, a.regions, a.regions[IndexOf(RegionId, a.regions, target.region)]);
      AdditionRegions(a, RegionPresent(target.page, target.region));
    }
  }

  lemma OnlyOnce(facts: Facts, more: Facts, target: PageRegionRef)
    requires UniqueKeys(facts + more) && RegionPresent(target.page, target.region) in facts
    ensures RegionPresent(target.page, target.region) !in more
  {
    var key := RegionPresent(target.page, target.region);
    assert (facts + more)[key] == facts[key] + more[key];
  }

  lemma PresentAt(d: Document, target: PageRegionRef)
    requires RegionAt(d.pages, target).Some?
    ensures RegionPresent(target.page, target.region) in DocumentFacts(d)
  {
    PresentRegion(d, target);
  }

  lemma AddOneElsewhere(d: Document, a: PageDelta, regions: set<PageRegionRef>, target: PageRegionRef)
    requires var i := IndexOf(PageId, d.pages, a.page); i < |d.pages| && ExtendPage(d.pages[i], a).Ok?
    requires RegionAt(d.pages, target).Some? && target !in regions && WithinTargets(regions, a)
    requires UniqueKeys(DocumentFacts(d) + AdditionFacts(a))
    ensures var i := IndexOf(PageId, d.pages, a.page);
            var after := d.pages[i := ExtendPage(d.pages[i], a).value];
            && RegionAt(after, target) == RegionAt(d.pages, target)
            && Gather(PageFacts, after) == DocumentFacts(d) + AdditionFacts(a)
  {
    var i := IndexOf(PageId, d.pages, a.page);
    var page := ExtendPage(d.pages[i], a).value;
    ExtendPageFacts(d.pages[i], a);
    GatherUpdate(PageFacts, d.pages, i, page, AdditionFacts(a));
    if target.page == a.page {
      PresentAt(d, target);
      NotTargeted(DocumentFacts(d), a, regions, target);
      ExtendPageElsewhere(d.pages[i], a, target.region);
    }
    RegionAtUpdated(d.pages, i, page, target);
  }

  lemma RegionAtUpdated(pages: seq<Page>, i: nat, page: Page, target: PageRegionRef)
    requires i < |pages| && pages[i].id == page.id && IndexOf(PageId, pages, page.id) == i
    requires RegionAt(pages, target).Some?
    requires target.page == page.id ==>
      var j := IndexOf(RegionId, pages[i].regions, target.region);
      IndexOf(RegionId, page.regions, target.region) == j && j < |page.regions| &&
          page.regions[j] == pages[i].regions[j]
    ensures RegionAt(pages[i := page], target) == RegionAt(pages, target)
  {
    SamePageIndex(pages, pages[i := page], target.page);
  }

  lemma {:induction false} AddContentElsewhere(
      d: Document, additions: seq<PageDelta>, regions: set<PageRegionRef>, target: PageRegionRef)
    requires AddContent(d.pages, additions).Ok? && RegionAt(d.pages, target).Some? && target !in regions
    requires forall a :: a in additions ==> WithinTargets(regions, a)
    requires UniqueKeys(DocumentFacts(d) + Gather(AdditionFacts, additions))
    ensures RegionAt(AddContent(d.pages, additions).value, target) == RegionAt(d.pages, target)
    decreases |additions|
  {
    if additions != [] {
      var a := additions[0];
      assert a in additions;
      var i := IndexOf(PageId, d.pages, a.page);
      AddFacts(DocumentFacts(d), AdditionFacts(a), Gather(AdditionFacts, additions[1..]));
      AddOneElsewhere(d, a, regions, target);
      var next := d.(pages := d.pages[i := ExtendPage(d.pages[i], a).value]);
      AddContentElsewhere(next, additions[1..], regions, target);
    }
  }

  lemma SamePageIndex(a: seq<Page>, b: seq<Page>, p: Id)
    requires |a| == |b| && forall i :: 0 <= i < |a| ==> a[i].id == b[i].id
    ensures IndexOf(PageId, a, p) == IndexOf(PageId, b, p)
  {
    var i, j := IndexOf(PageId, a, p), IndexOf(PageId, b, p);
    if i < |a| {
      assert PageId(b[i]) == p;
    }
    if j < |b| {
      assert PageId(a[j]) == p;
    }
  }

  lemma ApplyHintElsewhere(progress: Progress, hint: SelectionHint, target: PageRegionRef)
    requires HasRegion(progress.document, hint.region) && hint.region != target
    requires RegionAt(progress.document.pages, target).Some?
    ensures RegionAt(ApplyHint(progress, hint).document.pages, target) == RegionAt(progress.document.pages, target)
  {
    var pages, after := progress.document.pages, ApplyHint(progress, hint).document.pages;
    SamePageIndex(pages, after, target.page);
    var i := IndexOf(PageId, pages, target.page);
    IndexInPrefix(pages[i].regions, after[i].regions, target.region);
  }

  lemma {:induction false} ApplyHintsElsewhere(
      progress: Progress, delta: EvidenceDelta, hints: seq<SelectionHint>, target: PageRegionRef)
    requires ApplyHints(progress, delta, hints).Ok? && RegionAt(progress.document.pages, target).Some?
    requires !HintInScope(delta, target)
    ensures RegionAt(ApplyHints(progress, delta, hints).value.document.pages, target)
         == RegionAt(progress.document.pages, target)
    decreases |hints|
  {
    if hints != [] {
      ApplyHintElsewhere(progress, hints[0], target);
      ApplyHintsElsewhere(ApplyHint(progress, hints[0]), delta, hints[1..], target);
    }
  }

  lemma NotIntroduced(facts: Facts, additions: seq<PageDelta>, target: PageRegionRef)
    requires RegionPresent(target.page, target.region) in facts
    requires UniqueKeys(facts + Gather(AdditionFacts, additions))
    ensures !IntroducesRegion(additions, target)
  {
    OnlyOnce(facts, Gather(AdditionFacts, additions), target);
    if a :| a in additions && a.page == target.page && Has(RegionId, a.regions, target.region) {
      var i :| 0 <= i < |additions| && additions[i] == a;
      GatherContains(AdditionFacts, additions, i);
      BirthOf(a.page, a.regions, a.regions[IndexOf(RegionId, a.regions, target.region)]);
      AdditionRegions(a, RegionPresent(target.page, target.region));
    }
  }

  /**
   * A region-scoped delta leaves every region outside its targets exactly as it was, its
   * evidence and its selected view included, whenever the outcome keeps unique keys.
   */
  lemma ApplyElsewhere(progress: Progress, delta: EvidenceDelta, target: PageRegionRef)
    requires Apply(progress, delta).Ok? && delta.scope.Regions? && target !in delta.scope.regions
    requires UniqueKeys(DocumentFacts(progress.document) + DeltaFacts(delta))
    requires RegionAt(progress.document.pages, target).Some?
    ensures RegionAt(Apply(progress, delta).value.document.pages, target) == RegionAt(progress.document.pages, target)
  {
    var d := progress.document;
    var middle := BeforeHints(progress, delta);
    AdmittedRegional(d, delta);
    AdditionsWithinTargets(delta.scope, delta.pageAdditions);
    AddContentElsewhere(d, delta.pageAdditions, delta.scope.regions, target);
    PresentAt(d, target);
    NotIntroduced(DocumentFacts(d), delta.pageAdditions, target);
    ApplyHintsElsewhere(middle, delta, delta.hints, target);
  }

  lemma AdmittedRegional(d: Document, delta: EvidenceDelta)
    requires AdmissionFailure(d, delta).None? && delta.scope.Regions?
    ensures delta.newPages == [] && AdditionScopeFailure(delta.scope, delta.pageAdditions).None?
    ensures AddPages(d.pages, delta.newPages) == Ok(d.pages)
    ensures DeltaFacts(delta) == Gather(AdditionFacts, delta.pageAdditions)
  {
  }

  /** Scope containment at every step of a successful materialization. */
  lemma ScopeContainment(
      hashes: Hashes, initial: Document, prefixIds: set<Id>,
      before: seq<EvidenceDelta>, delta: EvidenceDelta, after: seq<EvidenceDelta>, manifest: Manifest,
      target: PageRegionRef)
    requires Materialized(hashes, initial, prefixIds, before + [delta] + after, manifest).Ok?
    requires delta.scope.Regions? && target !in delta.scope.regions
    ensures Replay(hashes, Progress(initial, map[]), prefixIds, before).Ok?
    ensures var reached := Replay(hashes, Progress(initial, map[]), prefixIds, before).value.0;
            && Apply(reached, delta).Ok?
            && (RegionAt(reached.document.pages, target).Some? ==>
                  RegionAt(Apply(reached, delta).value.document.pages, target) ==
                      RegionAt(reached.document.pages, target))
  {
    var start := Progress(initial, map[]);
    AppendOnly(hashes, initial, prefixIds, before + [delta] + after, manifest);
    assert before + [delta] + after == before + ([delta] + after);
    ReplayConcat(hashes, start, prefixIds, before, [delta] + after);
    var (reached, represented) := Replay(hashes, start, prefixIds, before).value;
    assert ([delta] + after)[1..] == after;
    ReplayFacts(hashes, start, prefixIds, before);
    GatherConcat(DeltaFacts, before, [delta] + after);
    GatherConcat(DeltaFacts, [delta], after);
    GatherOne(DeltaFacts, delta);
    StepUnique(DocumentFacts(initial), Gather(DeltaFacts, before), DeltaFacts(delta), Gather(DeltaFacts, after));
    if RegionAt(reached.document.pages, target).Some? {
      ApplyElsewhere(reached, delta, target);
    }
  }

  lemma StepUnique(a: Facts, b: Facts, c: Facts, d: Facts)
    requires UniqueKeys(a + (b + (c + d)))
    ensures UniqueKeys(a + b + c)
  {
    UniqueSubset(a + b + c, a + (b + (c + d)));
  }

  lemma {:induction false} ReplayConcat(
      hashes: Hashes, progress: Progress, represented: set<Id>, a: seq<EvidenceDelta>, b: seq<EvidenceDelta>)
    requires Replay(hashes, progress, represented, a + b).Ok?
    ensures Replay(hashes, progress, represented, a).Ok?
    ensures var (reached, ids) := Replay(hashes, progress, represented, a).value;
            Replay(hashes, progress, represented, a + b) == Replay(hashes, reached, ids, b)
    decreases |a|
  {
    if a == [] {
      assert a + b == b;
    } else {
      assert (a + b)[1..] == a[1..] + b;
      ReplayConcat(hashes, Apply(progress, a[0]).value, represented + {DeltaId(hashes, a[0]).value}, a[1..], b);
    }
  }

  // ---- Table cells keep their sources ----

  lemma EvidenceSurvives(d: Document, e: Document, p: Page, x: Evidence) returns (q: Page)
    requires DocumentFacts(d) <= DocumentFacts(e) && p in d.pages && x in PageEvidence(p)
    ensures q in e.pages && q.id == p.id && x in PageEvidence(q)
  {
    RegionsEvidenceMember(p.regions, x);
    var r :| r in p.regions && x in r.evidence;
    EvidenceIsFact(d, p, r, x);
    var i := GatherMember(PageFacts, e.pages, EvidenceFact(p.id, r.id, x));
    q := e.pages[i];
    var s := EvidenceOnPage(q, EvidenceFact(p.id, r.id, x));
    RegionsEvidenceMember(q.regions, x);
  }

  lemma IndexOfDistinct(s: seq<Evidence>, x: Evidence)
    requires Distinct(EvidenceId, s) && x in s
    ensures IndexOf(EvidenceId, s, x.id) < |s| && s[IndexOf(EvidenceId, s, x.id)] == x
  {
    HasMeans(EvidenceId, s, x.id);
    var i := IndexOf(EvidenceId, s, x.id);
    DistinctEqual(EvidenceId, s, s[i], x);
  }

  lemma ResolveSurvives(d: Document, e: Document, p: Page, q: Page, span: TextSourceSpan)
    requires DocumentValid(d) && DocumentValid(e) && DocumentFacts(d) <= DocumentFacts(e)
    requires p in d.pages && q in e.pages && p.id == q.id
    requires Resolve(PageEvidence(p), span).Some?
    ensures Resolve(PageEvidence(q), span) == Resolve(PageEvidence(p), span)
  {
    var x := PageEvidence(p)[IndexOf(EvidenceId, PageEvidence(p), span.evidenceId)];
    var other := EvidenceSurvives(d, e, p, x);
    DistinctEqual(PageId, e.pages, other, q);
    IndexOfDistinct(PageEvidence(q), x);
  }

  lemma {:induction false} ReconstructSurvives(d: Document, e: Document, p: Page, q: Page, spans: seq<TextSourceSpan>)
    requires DocumentValid(d) && DocumentValid(e) && DocumentFacts(d) <= DocumentFacts(e)
    requires p in d.pages && q in e.pages && p.id == q.id
    requires Reconstruct(PageEvidence(p), spans).Some?
    ensures Reconstruct(PageEvidence(q), spans) == Reconstruct(PageEvidence(p), spans)
  {
    if spans != [] {
      var n := |spans| - 1;
      ResolveSurvives(d, e, p, q, spans[n]);
      ReconstructSurvives(d, e, p, q, spans[..n]);
    }
  }

  /**
   * Every table cell with source spans is still on its page in every later state, and its
   * spans still select bytes whose concatenation is the text of the cell.
   */
  lemma CellSourcesPersist(
      hashes: Hashes, earlier: Document, prefixIds: set<Id>, deltas: seq<EvidenceDelta>, manifest: Manifest,
      p: Page, x: Evidence, cell: TableCell)
    requires Materialized(hashes, earlier, prefixIds, deltas, manifest).Ok?
    requires p in earlier.pages && x in PageEvidence(p) && x.content.TableContent? && cell in x.content.cells
    requires cell.spans != []
    ensures var later := Materialized(hashes, earlier, prefixIds, deltas, manifest).value;
            exists q :: q in later.pages && q.id == p.id && x in PageEvidence(q)
              && Reconstruct(PageEvidence(q), cell.spans) == Some(cell.text)
  {
    var later := Materialized(hashes, earlier, prefixIds, deltas, manifest).value;
    AppendOnly(hashes, earlier, prefixIds, deltas, manifest);
    assert TableValid(p, x, false);
    assert CellValid(p, x.content.rows, x.content.columns, cell, false);
    var q := EvidenceSurvives(earlier, later, p, x);
    ReconstructSurvives(earlier, later, p, q, cell.spans);
  }
}

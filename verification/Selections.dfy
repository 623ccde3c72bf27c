/**
 * Where a selected view comes from: the hint given for the region if there is one,
 * otherwise the view the region was introduced with.
 */
module Selections {
  import opened Collections
  import opened DocumentIr
  import opened EvidenceState
  import opened Conservation
  import opened Determination

  datatype Birth = Birth(region: PageRegionRef, selected: Option<SelectedView>)

  type Births = multiset<Birth>

  ghost function RegionBirth(page: Id): Region -> Births {
    (r: Region) => multiset{Birth(PageRegionRef(page, r.id), r.selected)}
  }
  ghost function PageBirths(page: Page): Births { Gather(RegionBirth(page.id), page.regions) }
  ghost function AdditionBirths(a: PageDelta): Births { Gather(RegionBirth(a.page), a.regions) }
  ghost function DocumentBirths(d: Document): Births { Gather(PageBirths, d.pages) }
  ghost function DeltaBirths(delta: EvidenceDelta): Births {
    Gather(PageBirths, delta.newPages) + Gather(AdditionBirths, delta.pageAdditions)
  }

  // ---- One birth per present region ----

  lemma RegionBirthsBound(page: Id, regions: seq<Region>, a: Birth, b: Birth)
    requires a != b && a.region == b.region
    ensures Gather(RegionBirth(page), regions)[a] + Gather(RegionBirth(page), regions)[b]
      <= Gather(RegionFacts(page), regions)[RegionPresent(a.region.page, a.region.region)]
  {
    var key := RegionPresent(a.region.page, a.region.region);
    forall i | 0 <= i < |regions|
      ensures RegionBirth(page)(regions[i])[a] + RegionBirth(page)(regions[i])[b] <= RegionFacts(page)(regions[i])[key]
    {
      RegionFactsAt(page, regions[i], key);
    }
    GatherBound(RegionBirth(page), RegionFacts(page), regions, a, b, key);
  }

  lemma PagesBirthsBound(pages: seq<Page>, a: Birth, b: Birth)
    requires a != b && a.region == b.region
    ensures Gather(PageBirths, pages)[a] + Gather(PageBirths, pages)[b]
      <= Gather(PageFacts, pages)[RegionPresent(a.region.page, a.region.region)]
  {
    var key := RegionPresent(a.region.page, a.region.region);
    forall i | 0 <= i < |pages|
      ensures PageBirths(pages[i])[a] + PageBirths(pages[i])[b] <= PageFacts(pages[i])[key]
    {
      RegionBirthsBound(pages[i].id, pages[i].regions, a, b);
      PageFactsAt(pages[i], key);
      if key.page != pages[i].id {
        RegionsElsewhere(pages[i].id, pages[i].regions, key);
      }
    }
    GatherBound(PageBirths, PageFacts, pages, a, b, key);
  }

  lemma AdditionsBirthsBound(additions: seq<PageDelta>, a: Birth, b: Birth)
    requires a != b && a.region == b.region
    ensures Gather(AdditionBirths, additions)[a] + Gather(AdditionBirths, additions)[b]
      <= Gather(AdditionFacts, additions)[RegionPresent(a.region.page, a.region.region)]
  {
    var key := RegionPresent(a.region.page, a.region.region);
    forall i | 0 <= i < |additions|
      ensures AdditionBirths(additions[i])[a] + AdditionBirths(additions[i])[b] <= AdditionFacts(additions[i])[key]
    {
      RegionBirthsBound(additions[i].page, additions[i].regions, a, b);
      AdditionRegions(additions[i], key);
    }
    GatherBound(AdditionBirths, AdditionFacts, additions, a, b, key);
  }

  lemma AdditionRegions(a: PageDelta, f: Fact)
    ensures Gather(RegionFacts(a.page), a.regions)[f] <= AdditionFacts(a)[f]
  {
  }

  /** Two births of one region mean the region is present twice. */
  lemma DeltaBirthsBound(delta: EvidenceDelta, a: Birth, b: Birth)
    requires a != b && a.region == b.region
    ensures DeltaBirths(delta)[a] + DeltaBirths(delta)[b]
      <= DeltaFacts(delta)[RegionPresent(a.region.page, a.region.region)]
  {
    PagesBirthsBound(delta.newPages, a, b);
    AdditionsBirthsBound(delta.pageAdditions, a, b);
  }

  /** With unique keys, every region of a replay was introduced with one selected view. */
  lemma BirthsFunctional(initial: Document, deltas: seq<EvidenceDelta>, a: Birth, b: Birth)
    requires UniqueKeys(DocumentFacts(initial) + Gather(DeltaFacts, deltas))
    requires a in DocumentBirths(initial) + Gather(DeltaBirths, deltas)
    requires b in DocumentBirths(initial) + Gather(DeltaBirths, deltas)
    requires a.region == b.region
    ensures a == b
  {
    if a != b {
      var key := RegionPresent(a.region.page, a.region.region);
      PagesBirthsBound(initial.pages, a, b);
      forall i | 0 <= i < |deltas|
        ensures DeltaBirths(deltas[i])[a] + DeltaBirths(deltas[i])[b] <= DeltaFacts(deltas[i])[key]
      {
        DeltaBirthsBound(deltas[i], a, b);
      }
      GatherBound(DeltaBirths, DeltaFacts, deltas, a, b, key);
    }
  }

  // ---- The invariant of a replay ----

  ghost predicate RegionTracked(page: Id, r: Region, births: Births, hints: Hints) {
    var target := PageRegionRef(page, r.id);
    if target in hints then r.selected == Some(hints[target]) else Birth(target, r.selected) in births
  }

  ghost predicate Tracked(pages: seq<Page>, births: Births, hints: Hints) {
    forall p, r :: p in pages && r in p.regions ==> RegionTracked(p.id, r, births, hints)
  }

  /** Hints only ever name regions that are present. */
  ghost predicate HintsPresent(facts: Facts, hints: Hints) {
    forall target :: target in hints ==> RegionPresent(target.page, target.region) in facts
  }

  lemma BirthOf(page: Id, regions: seq<Region>, r: Region)
    requires r in regions
    ensures Birth(PageRegionRef(page, r.id), r.selected) in Gather(RegionBirth(page), regions)
    ensures RegionPresent(page, r.id) in Gather(RegionFacts(page), regions)
  {
    var i :| 0 <= i < |regions| && regions[i] == r;
    GatherContains(RegionBirth(page), regions, i);
    GatherContains(RegionFacts(page), regions, i);
    RegionFactsAt(page, r, RegionPresent(page, r.id));
    assert RegionPresent(page, r.id) in RegionFacts(page)(r);
    assert Birth(PageRegionRef(page, r.id), r.selected) in RegionBirth(page)(r);
  }

  lemma {:induction false} AddPagesAppends(pages: seq<Page>, added: seq<Page>)
    requires AddPages(pages, added).Ok?
    ensures AddPages(pages, added).value == pages + added
    decreases |added|
  {
    if added != [] {
      AddPagesAppends(pages + [added[0]], added[1..]);
      assert pages + added == pages + [added[0]] + added[1..];
    } else {
      assert pages + added == pages;
    }
  }

  /** A region of a new page was not there before, so nothing hinted at it. */
  lemma NewRegionUnhinted(facts: Facts, added: seq<Page>, i: nat, r: Region, hints: Hints)
    requires i < |added| && r in added[i].regions
    requires HintsPresent(facts, hints) && UniqueKeys(facts + Gather(PageFacts, added))
    ensures PageRegionRef(added[i].id, r.id) !in hints
  {
    var page, key := added[i], RegionPresent(added[i].id, r.id);
    BirthOf(page.id, page.regions, r);
    PageFactsAt(page, key);
    GatherContains(PageFacts, added, i);
    assert key in PageFacts(page);
    assert (facts + Gather(PageFacts, added))[key] == facts[key] + Gather(PageFacts, added)[key];
  }

  lemma AddPagesTracked(pages: seq<Page>, added: seq<Page>, births: Births, hints: Hints)
    requires AddPages(pages, added).Ok?
    requires Tracked(pages, births, hints) && HintsPresent(Gather(PageFacts, pages), hints)
    requires UniqueKeys(Gather(PageFacts, pages) + Gather(PageFacts, added))
    ensures Tracked(AddPages(pages, added).value, births + Gather(PageBirths, added), hints)
  {
    AddPagesAppends(pages, added);
    forall p, r | p in added && r in p.regions
      ensures RegionTracked(p.id, r, births + Gather(PageBirths, added), hints)
    {
      var i :| 0 <= i < |added| && added[i] == p;
      NewRegionUnhinted(Gather(PageFacts, pages), added, i, r, hints);
      BirthOf(p.id, p.regions, r);
      GatherContains(PageBirths, added, i);
    }
  }

  /** Adding evidence keeps every region where it is and changes nothing but its evidence. */
  lemma {:induction false} AddEvidenceShape(regions: seq<Region>, additions: seq<RegionEvidenceAddition>)
    requires AddEvidence(regions, additions).Ok?
    ensures var after := AddEvidence(regions, additions).value;
            && |after| == |regions|
            && forall i :: 0 <= i < |regions| ==>
                 && regions[i].evidence <= after[i].evidence
                 && after[i] == regions[i].(evidence := after[i].evidence)
    decreases |additions|
  {
    if additions != [] {
      var i := IndexOf(RegionId, regions, additions[0].region);
      var grown := regions[i].(evidence := regions[i].evidence + additions[0].evidence);
      AddEvidenceShape(regions[i := grown], additions[1..]);
    }
  }

  lemma ExtendPageTracked(page: Page, a: PageDelta, births: Births, hints: Hints)
    requires ExtendPage(page, a).Ok? && page.id == a.page
    requires forall r :: r in page.regions ==> RegionTracked(page.id, r, births, hints)
    requires forall r :: r in a.regions ==> PageRegionRef(page.id, r.id) !in hints
    ensures forall r :: r in ExtendPage(page, a).value.regions ==>
              RegionTracked(page.id, r, births + AdditionBirths(a), hints)
  {
    var joined := page.regions + a.regions;
    var after := ExtendPage(page, a).value.regions;
    AddEvidenceShape(joined, a.regionEvidence);
    forall r | r in joined
      ensures RegionTracked(page.id, r, births + AdditionBirths(a), hints)
    {
      if r !in page.regions {
        BirthOf(a.page, a.regions, r);
      }
    }
    forall r | r in after
      ensures RegionTracked(page.id, r, births + AdditionBirths(a), hints)
    {
      var i :| 0 <= i < |after| && after[i] == r;
      assert RegionTracked(page.id, joined[i], births + AdditionBirths(a), hints);
    }
  }

  lemma AddOneTracked(pages: seq<Page>, a: PageDelta, births: Births, hints: Hints)
    requires var i := IndexOf(PageId, pages, a.page); i < |pages| && ExtendPage(pages[i], a).Ok?
    requires Tracked(pages, births, hints) && HintsPresent(Gather(PageFacts, pages), hints)
    requires UniqueKeys(Gather(PageFacts, pages) + AdditionFacts(a))
    ensures var i := IndexOf(PageId, pages, a.page);
            var after := pages[i := ExtendPage(pages[i], a).value];
            && Tracked(after, births + AdditionBirths(a), hints)
            && Gather(PageFacts, after) == Gather(PageFacts, pages) + AdditionFacts(a)
  {
    var i := IndexOf(PageId, pages, a.page);
    var page := ExtendPage(pages[i], a).value;
    IntroducedUnhinted(Gather(PageFacts, pages), a, hints);
    assert pages[i] in pages;
    ExtendPageTracked(pages[i], a, births, hints);
    ExtendPageFacts(pages[i], a);
    GatherUpdate(PageFacts, pages, i, page, AdditionFacts(a));
    UpdateTracked(pages, i, page, births, births + AdditionBirths(a), hints);
  }

  lemma MorePresent(few: Facts, more: Facts, hints: Hints)
    requires HintsPresent(few, hints)
    ensures HintsPresent(few + more, hints)
  {
  }

  lemma {:induction false} AddContentTracked(pages: seq<Page>, additions: seq<PageDelta>, births: Births, hints: Hints)
    requires AddContent(pages, additions).Ok?
    requires Tracked(pages, births, hints) && HintsPresent(Gather(PageFacts, pages), hints)
    requires UniqueKeys(Gather(PageFacts, pages) + Gather(AdditionFacts, additions))
    ensures Tracked(AddContent(pages, additions).value, births + Gather(AdditionBirths, additions), hints)
    decreases |additions|
  {
    if additions != [] {
      var a := additions[0];
      var i := IndexOf(PageId, pages, a.page);
      var after := pages[i := ExtendPage(pages[i], a).value];
      AddFacts(Gather(PageFacts, pages), AdditionFacts(a), Gather(AdditionFacts, additions[1..]));
      AddBirths(births, AdditionBirths(a), Gather(AdditionBirths, additions[1..]));
      AddOneTracked(pages, a, births, hints);
      MorePresent(Gather(PageFacts, pages), AdditionFacts(a), hints);
      AddContentTracked(after, additions[1..], births + AdditionBirths(a), hints);
    }
  }

  lemma AddFacts(a: Facts, b: Facts, c: Facts)
    ensures a + (b + c) == a + b + c
    ensures UniqueKeys(a + (b + c)) ==> UniqueKeys(a + b)
  {
    if UniqueKeys(a + (b + c)) {
      UniqueSubset(a + b, a + (b + c));
    }
  }

  lemma AddBirths(a: Births, b: Births, c: Births)
    ensures a + (b + c) == a + b + c
  {
  }

  lemma UniqueSubset(few: Facts, many: Facts)
    requires few <= many && UniqueKeys(many)
    ensures UniqueKeys(few)
  {
    forall p
      ensures few[PagePresent(p)] <= 1
    {
      assert few[PagePresent(p)] <= many[PagePresent(p)];
    }
    forall p, r
      ensures few[RegionPresent(p, r)] <= 1
    {
      assert few[RegionPresent(p, r)] <= many[RegionPresent(p, r)];
    }
  }

  /** A region an addition introduces was not there before, so nothing hinted at it. */
  lemma IntroducedUnhinted(facts: Facts, a: PageDelta, hints: Hints)
    requires HintsPresent(facts, hints) && UniqueKeys(facts + AdditionFacts(a))
    ensures forall r :: r in a.regions ==> PageRegionRef(a.page, r.id) !in hints
  {
    forall r | r in a.regions
      ensures PageRegionRef(a.page, r.id) !in hints
    {
      var key := RegionPresent(a.page, r.id);
      BirthOf(a.page, a.regions, r);
      AdditionRegions(a, key);
      assert (facts + AdditionFacts(a))[key] == facts[key] + AdditionFacts(a)[key];
    }
  }

  lemma UpdateTracked(pages: seq<Page>, i: nat, page: Page, births: Births, more: Births, hints: Hints)
    requires i < |pages| && births <= more && Tracked(pages, births, hints)
    requires forall r :: r in page.regions ==> RegionTracked(page.id, r, more, hints)
    ensures Tracked(pages[i := page], more, hints)
  {
    forall p, r | p in pages[i := page] && r in p.regions
      ensures RegionTracked(p.id, r, more, hints)
    {
      assert p == page || p in pages;
    }
  }

  lemma ApplyHintTracked(progress: Progress, hint: SelectionHint, births: Births)
    requires HasRegion(progress.document, hint.region) && UniqueKeys(DocumentFacts(progress.document))
    requires Tracked(progress.document.pages, births, progress.hints)
    ensures Tracked(ApplyHint(progress, hint).document.pages, births, ApplyHint(progress, hint).hints)
  {
    var pages, after := progress.document.pages, ApplyHint(progress, hint);
    var p := IndexOf(PageId, pages, hint.region.page);
    var r := IndexOf(RegionId, pages[p].regions, hint.region.region);
    UniqueKeysMeans(progress.document);
    forall q, s | 0 <= q < |pages| && 0 <= s < |after.document.pages[q].regions|
      ensures RegionTracked(after.document.pages[q].id, after.document.pages[q].regions[s], births, after.hints)
    {
      assert pages[q] in pages && pages[q].regions[s] in pages[q].regions;
      if q == p && s != r {
        assert RegionId(pages[p].regions[s]) != RegionId(pages[p].regions[r]);
      }
      if q != p {
        assert PageId(pages[q]) != PageId(pages[p]);
      }
      assert RegionTracked(pages[q].id, pages[q].regions[s], births, progress.hints);
    }
  }

  /** The hint pairs a list of hints adds. */
  ghost function HintPairs(hints: seq<SelectionHint>): set<(PageRegionRef, SelectedView)> {
    set h | h in hints :: (h.region, h.selected)
  }

  ghost function Pairs(hints: Hints): set<(PageRegionRef, SelectedView)> {
    set key | key in hints :: (key, hints[key])
  }

  /** Without a conflict, applying hints joins them to the pairs already recorded. */
  lemma {:induction false} ApplyHintsPairs(progress: Progress, delta: EvidenceDelta, hints: seq<SelectionHint>)
    requires ApplyHints(progress, delta, hints).Ok?
    ensures Pairs(ApplyHints(progress, delta, hints).value.hints) == Pairs(progress.hints) + HintPairs(hints)
    decreases |hints|
  {
    if hints != [] {
      var h := hints[0];
      ApplyHintsPairs(ApplyHint(progress, h), delta, hints[1..]);
      AddPair(progress.hints, h.region, h.selected);
      HintPairsHead(hints);
    }
  }

  lemma HintPairsHead(hints: seq<SelectionHint>)
    requires hints != []
    ensures HintPairs(hints) == {(hints[0].region, hints[0].selected)} + HintPairs(hints[1..])
  {
    assert hints == [hints[0]] + hints[1..];
  }

  lemma AddPair(hints: Hints, key: PageRegionRef, value: SelectedView)
    requires key in hints ==> hints[key] == value
    ensures Pairs(hints[key := value]) == Pairs(hints) + {(key, value)}
  {
    var after := hints[key := value];
    forall pair
      ensures pair in Pairs(after) <==> pair in Pairs(hints) + {(key, value)}
    {
      PairIn(after, pair);
      PairIn(hints, pair);
    }
  }

  lemma PairIn(hints: Hints, pair: (PageRegionRef, SelectedView))
    ensures pair in Pairs(hints) <==> pair.0 in hints && hints[pair.0] == pair.1
  {
    assert pair == (pair.0, pair.1);
  }

  lemma {:induction false} ApplyHintsTracked(
      progress: Progress, delta: EvidenceDelta, hints: seq<SelectionHint>, births: Births)
    requires ApplyHints(progress, delta, hints).Ok?
    requires UniqueKeys(DocumentFacts(progress.document))
    requires Tracked(progress.document.pages, births, progress.hints)
    requires HintsPresent(DocumentFacts(progress.document), progress.hints)
    ensures var after := ApplyHints(progress, delta, hints).value;
            && Tracked(after.document.pages, births, after.hints)
            && HintsPresent(DocumentFacts(after.document), after.hints)
    decreases |hints|
  {
    if hints != [] {
      var h := hints[0];
      ApplyHintFacts(progress, h);
      ApplyHintTracked(progress, h, births);
      PresentRegion(progress.document, h.region);
      ApplyHintsTracked(ApplyHint(progress, h), delta, hints[1..], births);
    }
  }

  lemma PresentRegion(d: Document, target: PageRegionRef)
    requires HasRegion(d, target)
    ensures RegionPresent(target.page, target.region) in DocumentFacts(d)
  {
    var i := IndexOf(PageId, d.pages, target.page);
    var page := d.pages[i];
    var j := IndexOf(RegionId, page.regions, target.region);
    BirthOf(page.id, page.regions, page.regions[j]);
    PageFactsAt(page, RegionPresent(target.page, target.region));
    GatherContains(PageFacts, d.pages, i);
    assert RegionPresent(target.page, target.region) in PageFacts(page);
  }

  lemma ApplyTracked(progress: Progress, delta: EvidenceDelta, births: Births)
    requires Apply(progress, delta).Ok?
    requires UniqueKeys(DocumentFacts(Apply(progress, delta).value.document))
    requires Tracked(progress.document.pages, births, progress.hints)
    requires HintsPresent(DocumentFacts(progress.document), progress.hints)
    ensures var after := Apply(progress, delta).value;
            && Tracked(after.document.pages, births + DeltaBirths(delta), after.hints)
            && HintsPresent(DocumentFacts(after.document), after.hints)
            && Pairs(after.hints) == Pairs(progress.hints) + HintPairs(delta.hints)
  {
    var middle := BeforeHints(progress, delta);
    ContentTracked(progress.document, delta, births, progress.hints);
    ApplyHintsFacts(middle, delta, delta.hints);
    ApplyHintsTracked(middle, delta, delta.hints, births + DeltaBirths(delta));
    ApplyHintsPairs(middle, delta, delta.hints);
  }

  /** An application that succeeds, up to the point where hints are applied. */
  lemma BeforeHints(progress: Progress, delta: EvidenceDelta) returns (middle: Progress)
    requires Apply(progress, delta).Ok?
    ensures var d := progress.document;
            && AddPages(d.pages, delta.newPages).Ok?
            && AddContent(AddPages(d.pages, delta.newPages).value, delta.pageAdditions).Ok?
            && middle == Progress(d.(pages := AddContent(AddPages(d.pages, delta.newPages).value,
                 delta.pageAdditions).value),
                                  progress.hints)
            && Apply(progress, delta) == ApplyHints(middle, delta, delta.hints)
    ensures DocumentFacts(middle.document) == DocumentFacts(Apply(progress, delta).value.document)
         == DocumentFacts(progress.document) + DeltaFacts(delta)
  {
    var d := progress.document;
    var pages := AddPages(d.pages, delta.newPages).value;
    var extended := AddContent(pages, delta.pageAdditions).value;
    middle := Progress(d.(pages := extended), progress.hints);
    ApplyFacts(progress, delta);
    ApplyHintsFacts(middle, delta, delta.hints);
  }

  lemma ContentTracked(d: Document, delta: EvidenceDelta, births: Births, hints: Hints)
    requires AddPages(d.pages, delta.newPages).Ok?
    requires AddContent(AddPages(d.pages, delta.newPages).value, delta.pageAdditions).Ok?
    requires UniqueKeys(DocumentFacts(d) + DeltaFacts(delta))
    requires Tracked(d.pages, births, hints) && HintsPresent(DocumentFacts(d), hints)
    ensures var pages := AddContent(AddPages(d.pages, delta.newPages).value, delta.pageAdditions).value;
            && Tracked(pages, births + DeltaBirths(delta), hints)
            && Gather(PageFacts, pages) == DocumentFacts(d) + DeltaFacts(delta)
            && HintsPresent(Gather(PageFacts, pages), hints)
  {
    var pages := AddPages(d.pages, delta.newPages).value;
    var newFacts, addedFacts := Gather(PageFacts, delta.newPages), Gather(AdditionFacts, delta.pageAdditions);
    AddPagesFacts(d.pages, delta.newPages);
    AddContentFacts(pages, delta.pageAdditions);
    AddFacts(DocumentFacts(d), newFacts, addedFacts);
    AddBirths(births, Gather(PageBirths, delta.newPages), Gather(AdditionBirths, delta.pageAdditions));
    AddPagesTracked(d.pages, delta.newPages, births, hints);
    AddContentTracked(pages, delta.pageAdditions, births + Gather(PageBirths, delta.newPages), hints);
  }

  /** Every hint of every delta. */
  ghost function AllHints(deltas: seq<EvidenceDelta>): set<(PageRegionRef, SelectedView)> {
    set d, h | d in deltas && h in d.hints :: (h.region, h.selected)
  }

  lemma HeadTracked(
      hashes: Hashes, progress: Progress, represented: set<Id>, deltas: seq<EvidenceDelta>, births: Births)
    requires deltas != [] && Replay(hashes, progress, represented, deltas).Ok?
    requires UniqueKeys(DocumentFacts(Replay(hashes, progress, represented, deltas).value.0.document))
    requires Tracked(progress.document.pages, births, progress.hints)
    requires HintsPresent(DocumentFacts(progress.document), progress.hints)
    ensures Apply(progress, deltas[0]).Ok?
    ensures var next := Apply(progress, deltas[0]).value;
            && Tracked(next.document.pages, births + DeltaBirths(deltas[0]), next.hints)
            && HintsPresent(DocumentFacts(next.document), next.hints)
            && Pairs(next.hints) == Pairs(progress.hints) + HintPairs(deltas[0].hints)
  {
    var next := Apply(progress, deltas[0]).value;
    var id := DeltaId(hashes, deltas[0]).value;
    ReplayFacts(hashes, next, represented + {id}, deltas[1..]);
    UniqueSubset(DocumentFacts(next.document), DocumentFacts(next.document) + Gather(DeltaFacts, deltas[1..]));
    ApplyTracked(progress, deltas[0], births);
  }

  lemma {:induction false} ReplayTracked(
      hashes: Hashes, progress: Progress, represented: set<Id>, deltas: seq<EvidenceDelta>, births: Births)
    requires Replay(hashes, progress, represented, deltas).Ok?
    requires UniqueKeys(DocumentFacts(Replay(hashes, progress, represented, deltas).value.0.document))
    requires Tracked(progress.document.pages, births, progress.hints)
    requires HintsPresent(DocumentFacts(progress.document), progress.hints)
    ensures var after := Replay(hashes, progress, represented, deltas).value.0;
            && Tracked(after.document.pages, births + Gather(DeltaBirths, deltas), after.hints)
            && HintsPresent(DocumentFacts(after.document), after.hints)
            && Pairs(after.hints) == Pairs(progress.hints) + AllHints(deltas)
    decreases |deltas|
  {
    if deltas != [] {
      var next := Apply(progress, deltas[0]).value;
      var id := DeltaId(hashes, deltas[0]).value;
      HeadTracked(hashes, progress, represented, deltas, births);
      ReplayTracked(hashes, next, represented + {id}, deltas[1..], births + DeltaBirths(deltas[0]));
      AddBirths(births, DeltaBirths(deltas[0]), Gather(DeltaBirths, deltas[1..]));
      JoinHints(Pairs(progress.hints), deltas);
    }
  }

  lemma JoinHints(pairs: set<(PageRegionRef, SelectedView)>, deltas: seq<EvidenceDelta>)
    requires deltas != []
    ensures pairs + HintPairs(deltas[0].hints) + AllHints(deltas[1..]) == pairs + AllHints(deltas)
  {
    AllHintsHead(deltas);
  }

  lemma AllHintsHead(deltas: seq<EvidenceDelta>)
    requires deltas != []
    ensures AllHints(deltas) == HintPairs(deltas[0].hints) + AllHints(deltas[1..])
  {
    assert deltas == [deltas[0]] + deltas[1..];
  }

  /** A replay starts with every region carrying the view it was introduced with. */
  lemma StartTracked(d: Document)
    ensures Tracked(d.pages, DocumentBirths(d), map[]) && HintsPresent(DocumentFacts(d), map[])
  {
    forall p, r | p in d.pages && r in p.regions
      ensures RegionTracked(p.id, r, DocumentBirths(d), map[])
    {
      var i :| 0 <= i < |d.pages| && d.pages[i] == p;
      BirthOf(p.id, p.regions, r);
      GatherContains(PageBirths, d.pages, i);
    }
  }
}

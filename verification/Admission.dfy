/**
 * When a replay succeeds: the checks look only at which facts are present, and at whether
 * the hints given so far agree. Order, duplicates of records and selected views play no part.
 */
module Admission {
  import opened Collections
  import opened DocumentIr
  import opened EvidenceState
  import opened Conservation
  import opened Determination
  import opened Selections
  import opened FactPresence
  import opened Text

  // ---- Admissibility over facts ----

  ghost predicate ScopePresent(facts: Facts, scope: RefinementScope) {
    match scope
    case WholeDocument => true
    case Pages(pageIds) => pageIds != {} && forall p :: p in pageIds ==> PagePresent(p) in facts
    case Regions(regions) => regions != {} && forall r :: r in regions ==> RegionPresent(r.page, r.region) in facts
  }

  /** A region an addition may attach to: already there, or introduced by the addition. */
  ghost predicate Attachable(facts: Facts, a: PageDelta, region: Id) {
    RegionPresent(a.page, region) in facts || Has(RegionId, a.regions, region)
  }

  ghost predicate OwnerAttaches(facts: Facts, a: PageDelta, owner: LayerOwner) {
    owner.page == a.page && (owner.RegionOwner? ==> Attachable(facts, a, owner.region))
  }

  ghost predicate AdditionAdmissible(facts: Facts, a: PageDelta) {
    && PagePresent(a.page) in facts
    && (forall o :: o in a.layers ==> OwnerAttaches(facts, a, o.owner))
    && (forall e :: e in a.regionEvidence ==> Attachable(facts, a, e.region))
  }

  ghost predicate AdditionsAdmissible(facts: Facts, additions: seq<PageDelta>)
    decreases |additions|
  {
    additions == [] ||
    (AdditionAdmissible(facts, additions[0])
     && AdditionsAdmissible(facts + AdditionFacts(additions[0]), additions[1..]))
  }

  ghost predicate Absent(facts: Facts, added: seq<Page>) {
    forall p :: p in added ==> PagePresent(p.id) !in facts
  }

  /** The name holds something besides white space. */
  ghost predicate Named(name: string) {
    exists c :: c in name && !IsWhitespace(c)
  }

  /** The persistent envelope: the one schema tag, nothing unnamed, no page added or extended twice. */
  ghost predicate EnvelopeSound(delta: EvidenceDelta) {
    && delta.schema == "ferrodoc-evidence-delta/1"
    && Named(delta.producer.name) && Named(delta.producer.version)
    && (forall d :: d in delta.diagnostics ==> Named(d.code))
    && (forall c :: c in delta.coverage ==> Named(c.status))
    && (forall i, j :: 0 <= i < j < |delta.newPages| ==> delta.newPages[i].id != delta.newPages[j].id)
    && (forall i, j :: 0 <= i < j < |delta.pageAdditions| ==>
          delta.pageAdditions[i].page != delta.pageAdditions[j].page)
  }

  /** The addition introduces this region. */
  ghost predicate Introduces(a: PageDelta, region: Id) {
    exists r :: r in a.regions && r.id == region
  }

  /** A page the scope reaches, wholly or through one of its regions. */
  ghost predicate Reaches(scope: RefinementScope, page: Id) {
    match scope
    case WholeDocument => true
    case Pages(pageIds) => page in pageIds
    case Regions(regions) => exists r :: r in regions && r.page == page
  }

  /** Regions a region-scoped addition may write to. */
  ghost predicate MayWrite(regions: set<PageRegionRef>, a: PageDelta, region: Id) {
    PageRegionRef(a.page, region) in regions || Introduces(a, region)
  }

  /** Additions stay on pages in scope; a region-scoped delta writes layers, evidence and edges in scope only. */
  ghost predicate ContentContained(scope: RefinementScope, additions: seq<PageDelta>) {
    forall a :: a in additions ==>
      && Reaches(scope, a.page)
      && (scope.Regions? ==>
            && (forall o :: o in a.layers && o.owner.RegionOwner? ==> MayWrite(scope.regions, a, o.owner.region))
            && (forall e :: e in a.regionEvidence ==> MayWrite(scope.regions, a, e.region))
            && (forall e :: e in a.edges ==>
                  MayWrite(scope.regions, a, e.before) && MayWrite(scope.regions, a, e.after)))
  }

  /** Only region-scoped deltas have their hints contained: in their targets, or in regions they introduce. */
  ghost predicate HintContained(delta: EvidenceDelta, target: PageRegionRef) {
    delta.scope.Regions? ==>
      target in delta.scope.regions
      || exists a :: a in delta.pageAdditions && a.page == target.page && Introduces(a, target.region)
  }

  ghost predicate HintResolves(facts: Facts, delta: EvidenceDelta, target: PageRegionRef) {
    HintContained(delta, target) && RegionPresent(target.page, target.region) in facts
  }

  ghost predicate HintsResolve(facts: Facts, delta: EvidenceDelta, hints: seq<SelectionHint>) {
    forall h :: h in hints ==> HintResolves(facts, delta, h.region)
  }

  // ---- The checks decide exactly these ----

  lemma EnvelopeIff(delta: EvidenceDelta)
    ensures EnvelopeFailure(delta).None? <==> EnvelopeSound(delta)
  {
    assert forall i, j :: 0 <= i < j < |delta.newPages| ==>
        (PageId(delta.newPages[i]) != PageId(delta.newPages[j]) <==> delta.newPages[i].id != delta.newPages[j].id);
    assert forall i, j :: 0 <= i < j < |delta.pageAdditions| ==>
        (AdditionPage(delta.pageAdditions[i]) != AdditionPage(delta.pageAdditions[j])
         <==> delta.pageAdditions[i].page != delta.pageAdditions[j].page);
  }

  lemma IntroducesIff(a: PageDelta, region: Id)
    ensures Has(RegionId, a.regions, region) <==> Introduces(a, region)
  {
    HasMeans(RegionId, a.regions, region);
    if r :| r in a.regions && r.id == region {
      assert RegionId(r) == region;
    }
  }

  lemma WithinIff(scope: RefinementScope, a: PageDelta)
    ensures PageInScope(scope, a.page) && (scope.Regions? ==> WithinTargets(scope.regions, a))
       <==> ContentContained(scope, [a])
  {
    if scope.Regions? {
      forall region
        ensures Allowed(scope.regions, a, region) <==> MayWrite(scope.regions, a, region)
      {
        IntroducesIff(a, region);
      }
    }
    assert a in [a];
  }

  lemma {:induction false} ContainmentIff(scope: RefinementScope, additions: seq<PageDelta>)
    ensures AdditionScopeFailure(scope, additions).None? <==> ContentContained(scope, additions)
  {
    if additions != [] {
      WithinIff(scope, additions[0]);
      ContainmentIff(scope, additions[1..]);
      assert additions == [additions[0]] + additions[1..];
    }
  }

  lemma HintContainedIff(delta: EvidenceDelta, target: PageRegionRef)
    ensures HintInScope(delta, target) <==> HintContained(delta, target)
  {
    forall a | a in delta.pageAdditions
      ensures Has(RegionId, a.regions, target.region) <==> Introduces(a, target.region)
    {
      IntroducesIff(a, target.region);
    }
  }

  /** Everything a delta needs, except that its hints agree with the earlier ones. */
  ghost predicate Admissible(source: Digest, schema: SchemaVersion, facts: Facts, delta: EvidenceDelta) {
    && EnvelopeSound(delta)
    && delta.sourceDigest == source && delta.irSchema == schema
    && (forall id :: id in delta.requiredEvidence ==> EvidencePresent(facts, id))
    && ScopePresent(facts, delta.scope)
    && (delta.newPages != [] ==> delta.scope == WholeDocument)
    && ContentContained(delta.scope, delta.pageAdditions)
    && Absent(facts, delta.newPages)
    && AdditionsAdmissible(facts + Gather(PageFacts, delta.newPages), delta.pageAdditions)
    && HintsResolve(facts + DeltaFacts(delta), delta, delta.hints)
  }

  /** No region is hinted at in two ways. */
  ghost predicate Agreeing(pairs: set<(PageRegionRef, SelectedView)>) {
    forall a, b :: a in pairs && b in pairs && a.0 == b.0 ==> a.1 == b.1
  }

  lemma AdmissionIff(d: Document, delta: EvidenceDelta)
    requires Distinct(PageId, d.pages)
    ensures AdmissionFailure(d, delta).None? <==>
      && EnvelopeSound(delta)
      && delta.sourceDigest == d.inputDigest && delta.irSchema == d.schema
      && (forall id :: id in delta.requiredEvidence ==> EvidencePresent(DocumentFacts(d), id))
      && ScopePresent(DocumentFacts(d), delta.scope)
      && (delta.newPages != [] ==> delta.scope == WholeDocument)
      && ContentContained(delta.scope, delta.pageAdditions)
  {
    EnvelopeIff(delta);
    ContainmentIff(delta.scope, delta.pageAdditions);
    forall id { EvidencePresentIff(d, id); }
    forall p { PagePresentIff(d.pages, p); }
    forall r { RegionPresentIff(d, r); }
  }

  lemma AbsentTail(facts: Facts, added: seq<Page>)
    requires added != [] && Distinct(PageId, added)
    ensures Absent(facts, added) <==>
            PagePresent(added[0].id) !in facts && Absent(facts + PageFacts(added[0]), added[1..])
    ensures Distinct(PageId, added[1..])
  {
    var more := facts + PageFacts(added[0]);
    forall p | p in added[1..]
      ensures PagePresent(p.id) in more <==> PagePresent(p.id) in facts
    {
      var i :| 0 <= i < |added[1..]| && added[1..][i] == p;
      assert PageId(added[0]) != PageId(added[i + 1]);
      PageFactsAt(added[0], PagePresent(p.id));
    }
    AbsentHead(facts, added);
  }

  lemma AbsentHead(facts: Facts, added: seq<Page>)
    requires added != []
    ensures Absent(facts, added) <==> PagePresent(added[0].id) !in facts && Absent(facts, added[1..])
  {
    assert added == [added[0]] + added[1..];
  }

  lemma {:induction false} AddPagesIff(pages: seq<Page>, added: seq<Page>)
    requires Distinct(PageId, added)
    ensures AddPages(pages, added).Ok? <==> Absent(Gather(PageFacts, pages), added)
    decreases |added|
  {
    if added != [] {
      PagePresentIff(pages, added[0].id);
      AbsentTail(Gather(PageFacts, pages), added);
      GatherConcat(PageFacts, pages, [added[0]]);
      GatherOne(PageFacts, added[0]);
      AddPagesIff(pages + [added[0]], added[1..]);
    }
  }

  lemma {:induction false} AddEvidenceIff(regions: seq<Region>, additions: seq<RegionEvidenceAddition>)
    ensures AddEvidence(regions, additions).Ok? <==> forall e :: e in additions ==> Has(RegionId, regions, e.region)
    decreases |additions|
  {
    if additions != [] {
      assert additions == [additions[0]] + additions[1..];
      var i := IndexOf(RegionId, regions, additions[0].region);
      if i < |regions| {
        var after := regions[i := regions[i].(evidence := regions[i].evidence + additions[0].evidence)];
        AddEvidenceIff(after, additions[1..]);
        forall e | e in additions[1..]
          ensures Has(RegionId, after, e.region) <==> Has(RegionId, regions, e.region)
        {
          SameIds(after, regions, e.region);
        }
      }
    }
  }

  lemma SameIds(a: seq<Region>, b: seq<Region>, r: Id)
    requires |a| == |b| && forall i :: 0 <= i < |a| ==> a[i].id == b[i].id
    ensures Has(RegionId, a, r) <==> Has(RegionId, b, r)
  {
    var i, j := IndexOf(RegionId, a, r), IndexOf(RegionId, b, r);
    if i < |a| {
      assert RegionId(b[i]) == r;
    }
    if j < |b| {
      assert RegionId(a[j]) == r;
    }
  }

  lemma HasJoined(a: seq<Region>, b: seq<Region>, r: Id)
    ensures Has(RegionId, a + b, r) <==> Has(RegionId, a, r) || Has(RegionId, b, r)
  {
    HasMeans(RegionId, a + b, r);
    HasMeans(RegionId, a, r);
    HasMeans(RegionId, b, r);
  }

  lemma AttachableIff(d: Document, i: nat, a: PageDelta, r: Id)
    requires Distinct(PageId, d.pages) && i < |d.pages| && d.pages[i].id == a.page
    ensures Attachable(DocumentFacts(d), a, r) <==> Has(RegionId, d.pages[i].regions, r) || Has(RegionId, a.regions, r)
    ensures Attachable(DocumentFacts(d), a, r) <==> Has(RegionId, d.pages[i].regions + a.regions, r)
  {
    FirstIsOnly(d.pages, i, a.page);
    RegionPresentIff(d, PageRegionRef(a.page, r));
    HasJoined(d.pages[i].regions, a.regions, r);
  }

  lemma OwnersIff(d: Document, i: nat, a: PageDelta)
    requires Distinct(PageId, d.pages) && i < |d.pages| && d.pages[i].id == a.page
    ensures (forall o :: o in a.layers ==> OwnerResolves(d.pages[i], a, o.owner))
      <==> forall o :: o in a.layers ==> OwnerAttaches(DocumentFacts(d), a, o.owner)
  {
    forall o: OwnedSourceLayer
      ensures OwnerResolves(d.pages[i], a, o.owner) <==> OwnerAttaches(DocumentFacts(d), a, o.owner)
    {
      if o.owner.RegionOwner? {
        AttachableIff(d, i, a, o.owner.region);
      }
    }
  }

  lemma ExtendPageIff(d: Document, i: nat, a: PageDelta)
    requires Distinct(PageId, d.pages) && i < |d.pages| && d.pages[i].id == a.page
    ensures ExtendPage(d.pages[i], a).Ok? <==> AdditionAdmissible(DocumentFacts(d), a)
  {
    FirstIsOnly(d.pages, i, a.page);
    PagePresentIff(d.pages, a.page);
    OwnersIff(d, i, a);
    forall e | e in a.regionEvidence
      ensures Attachable(DocumentFacts(d), a, e.region) <==> Has(RegionId, d.pages[i].regions + a.regions, e.region)
    {
      AttachableIff(d, i, a, e.region);
    }
    AddEvidenceIff(d.pages[i].regions + a.regions, a.regionEvidence);
  }

  /** The document with one addition, if its page accepts it. */
  function WithAddition(d: Document, a: PageDelta): Document {
    var i := IndexOf(PageId, d.pages, a.page);
    if i < |d.pages| && ExtendPage(d.pages[i], a).Ok?
    then d.(pages := d.pages[i := ExtendPage(d.pages[i], a).value])
    else d
  }

  lemma AddedOne(d: Document, a: PageDelta, rest: seq<PageDelta>)
    requires UniqueKeys(DocumentFacts(d) + AdditionFacts(a))
    ensures if AdditionAdmissible(DocumentFacts(d), a)
            then DocumentFacts(WithAddition(d, a)) == DocumentFacts(d) + AdditionFacts(a)
                 && AddContent(d.pages, [a] + rest) == AddContent(WithAddition(d, a).pages, rest)
            else AddContent(d.pages, [a] + rest).Err?
  {
    AddOneIff(d, a);
    AddContentCons(d.pages, a, rest);
  }

  lemma AddContentCons(pages: seq<Page>, a: PageDelta, rest: seq<PageDelta>)
    ensures var i := IndexOf(PageId, pages, a.page);
            if i < |pages| && ExtendPage(pages[i], a).Ok?
            then AddContent(pages, [a] + rest) == AddContent(pages[i := ExtendPage(pages[i], a).value], rest)
            else AddContent(pages, [a] + rest).Err?
  {
    assert ([a] + rest)[1..] == rest;
  }

  lemma HeadAddition(facts: Facts, additions: seq<PageDelta>)
    requires additions != [] && UniqueKeys(facts + Gather(AdditionFacts, additions))
    ensures UniqueKeys(facts + AdditionFacts(additions[0]))
    ensures UniqueKeys(facts + AdditionFacts(additions[0]) + Gather(AdditionFacts, additions[1..]))
  {
    var a, rest := additions[0], Gather(AdditionFacts, additions[1..]);
    AddFacts(facts, AdditionFacts(a), rest);
    UniqueSubset(facts + AdditionFacts(a), facts + AdditionFacts(a) + rest);
  }

  lemma {:induction false} AddContentIff(d: Document, additions: seq<PageDelta>)
    requires UniqueKeys(DocumentFacts(d) + Gather(AdditionFacts, additions))
    ensures AddContent(d.pages, additions).Ok? <==> AdditionsAdmissible(DocumentFacts(d), additions)
    decreases |additions|
  {
    if additions != [] {
      var a, rest := additions[0], additions[1..];
      HeadAddition(DocumentFacts(d), additions);
      assert additions == [a] + rest;
      AddedOne(d, a, rest);
      if AdditionAdmissible(DocumentFacts(d), a) {
        AddContentIff(WithAddition(d, a), rest);
      }
    }
  }

  lemma AddOneIff(d: Document, a: PageDelta)
    requires UniqueKeys(DocumentFacts(d) + AdditionFacts(a))
    ensures var i := IndexOf(PageId, d.pages, a.page);
            && ((i < |d.pages| && ExtendPage(d.pages[i], a).Ok?) <==> AdditionAdmissible(DocumentFacts(d), a))
            && (i < |d.pages| && ExtendPage(d.pages[i], a).Ok? ==>
                  Gather(PageFacts, d.pages[i := ExtendPage(d.pages[i], a).value]) ==
                      DocumentFacts(d) + AdditionFacts(a))
  {
    var i := IndexOf(PageId, d.pages, a.page);
    PagePresentIff(d.pages, a.page);
    UniqueSubset(DocumentFacts(d), DocumentFacts(d) + AdditionFacts(a));
    UniqueKeysMeans(d);
    if i < |d.pages| {
      ExtendPageIff(d, i, a);
      if ExtendPage(d.pages[i], a).Ok? {
        ExtendPageFacts(d.pages[i], a);
        GatherUpdate(PageFacts, d.pages, i, ExtendPage(d.pages[i], a).value, AdditionFacts(a));
      }
    }
  }
}

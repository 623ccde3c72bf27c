/**
 * What every materialized document looks like (crates/ferrodoc-ir/src/state.rs): its order, its selected views, and
 * when there is one at all, said of the document itself.
 */
module MaterializedForm {
  import opened Collections
  import opened DocumentIr
  import opened Validation
  import opened EvidenceState
  import opened Determination
  import opened Selections
  import opened Materialization

  // ---- Order ----

  ghost predicate StrictlyBy<T>(id: T -> Id, s: seq<T>) {
    forall i: nat, j: nat :: i < j < |s| ==> id(s[i]) < id(s[j])
  }

  ghost predicate RegionInOrder(r: Region) {
    && (forall i: nat, j: nat :: i < j < |r.evidence| ==> r.evidence[i].id < r.evidence[j].id)
    && (r.selected.Some? ==>
          forall i: nat, j: nat :: i < j < |r.selected.value.evidenceIds| ==>
            r.selected.value.evidenceIds[i] <= r.selected.value.evidenceIds[j])
  }

  /** Records and regions by identity, edges by their source and then their target. */
  ghost predicate PageInOrder(p: Page) {
    && (forall i: nat, j: nat :: i < j < |p.layers| ==> p.layers[i].id < p.layers[j].id)
    && (forall i: nat, j: nat :: i < j < |p.artifacts| ==> p.artifacts[i].id < p.artifacts[j].id)
    && (forall i: nat, j: nat :: i < j < |p.regions| ==> p.regions[i].id < p.regions[j].id)
    && (forall i: nat, j: nat :: i < j < |p.readingOrder| ==>
          || p.readingOrder[i].before < p.readingOrder[j].before
          || (p.readingOrder[i].before == p.readingOrder[j].before
              && p.readingOrder[i].after <= p.readingOrder[j].after))
    && (forall r :: r in p.regions ==> RegionInOrder(r))
  }

  /** Pages by index, and everything on them in order. */
  ghost predicate InOrder(d: Document) {
    && (forall i: nat, j: nat :: i < j < |d.pages| ==> d.pages[i].index < d.pages[j].index)
    && (forall p :: p in d.pages ==> PageInOrder(p))
  }

  lemma SortedDistinct<T>(key: T -> Key, id: T -> Id, s: seq<T>)
    requires SortedBy(key, s) && Distinct(id, s)
    requires forall x :: key(x).0 == id(x)
    ensures StrictlyBy(id, s)
  {
    forall i: nat, j: nat | i < j < |s|
      ensures id(s[i]) < id(s[j])
    {
      assert KeyLe(key(s[i]), key(s[j]));
    }
  }

  lemma CanonicalRegionInOrder(r: Region)
    requires Distinct(EvidenceId, CanonicalRegion(r).evidence)
    ensures RegionInOrder(CanonicalRegion(r))
  {
    var after := CanonicalRegion(r);
    SortByProperties(EvidenceKey, r.evidence);
    SortedDistinct(EvidenceKey, EvidenceId, after.evidence);
    forall i: nat, j: nat | i < j < |after.evidence|
      ensures after.evidence[i].id < after.evidence[j].id
    {
      assert EvidenceId(after.evidence[i]) < EvidenceId(after.evidence[j]);
    }
    if r.selected.Some? {
      var ids := after.selected.value.evidenceIds;
      SortByProperties(IdKey, r.selected.value.evidenceIds);
      forall i: nat, j: nat | i < j < |ids|
        ensures ids[i] <= ids[j]
      {
        assert KeyLe(IdKey(ids[i]), IdKey(ids[j]));
      }
    }
  }

  lemma CanonicalRecordsInOrder(p: Page)
    requires PageValid(CanonicalPage(p))
    ensures var after := CanonicalPage(p);
            && StrictlyBy(LayerId, after.layers) && StrictlyBy(ArtifactId, after.artifacts)
            && StrictlyBy(RegionId, after.regions)
  {
    SortByProperties(LayerKey, p.layers);
    SortByProperties(ArtifactKey, p.artifacts);
    SortByProperties(RegionKeyOf, p.regions);
    var after := CanonicalPage(p);
    SortedDistinct(LayerKey, LayerId, after.layers);
    SortedDistinct(ArtifactKey, ArtifactId, after.artifacts);
    forall i: nat, j: nat | i < j < |after.regions|
      ensures KeyLe(RegionKeyOf(after.regions[i]), RegionKeyOf(after.regions[j]))
    {
      var sorted := SortBy(RegionKeyOf, p.regions);
      assert KeyLe(RegionKeyOf(sorted[i]), RegionKeyOf(sorted[j]));
    }
    SortedDistinct(RegionKeyOf, RegionId, after.regions);
  }

  lemma CanonicalEdgesInOrder(p: Page)
    ensures var edges := CanonicalPage(p).readingOrder;
            forall i: nat, j: nat :: i < j < |edges| ==>
              || edges[i].before < edges[j].before
              || (edges[i].before == edges[j].before && edges[i].after <= edges[j].after)
  {
    var edges := CanonicalPage(p).readingOrder;
    SortByProperties(EdgeKey, p.readingOrder);
    forall i: nat, j: nat | i < j < |edges|
      ensures || edges[i].before < edges[j].before
              || (edges[i].before == edges[j].before && edges[i].after <= edges[j].after)
    {
      assert KeyLe(EdgeKey(edges[i]), EdgeKey(edges[j]));
    }
  }

  lemma CanonicalPageInOrder(p: Page)
    requires PageValid(CanonicalPage(p))
    ensures PageInOrder(CanonicalPage(p))
  {
    var after := CanonicalPage(p);
    CanonicalRecordsInOrder(p);
    CanonicalEdgesInOrder(p);
    assert forall i: nat, j: nat :: i < j < |after.layers| ==> LayerId(after.layers[i]) < LayerId(after.layers[j]);
    assert forall i: nat, j: nat :: i < j < |after.artifacts| ==>
        ArtifactId(after.artifacts[i]) < ArtifactId(after.artifacts[j]);
    assert forall i: nat, j: nat :: i < j < |after.regions| ==> RegionId(after.regions[i]) < RegionId(after.regions[j]);
    forall k: nat | k < |after.regions|
      ensures RegionInOrder(after.regions[k])
    {
      RegionEvidenceDistinct(after, after.regions[k]);
      CanonicalRegionInOrder(SortBy(RegionKeyOf, p.regions)[k]);
    }
  }

  lemma CanonicalInOrder(d: Document)
    requires DocumentValid(Canonical(d))
    ensures InOrder(Canonical(d))
  {
    var sorted, after := SortBy(PageSortKey, d.pages), Canonical(d);
    SortByProperties(PageSortKey, d.pages);
    forall i: nat, j: nat | i < j < |after.pages|
      ensures after.pages[i].index < after.pages[j].index
    {
      assert KeyLe(PageSortKey(sorted[i]), PageSortKey(sorted[j]));
      assert PageIndex(after.pages[i]) != PageIndex(after.pages[j]);
    }
    forall p | p in after.pages
      ensures PageInOrder(p)
    {
      var k: nat :| k < |after.pages| && after.pages[k] == p;
      CanonicalPageInOrder(sorted[k]);
    }
  }

  // ---- Selected views ----

  /** The same choice for the same reason, whatever the order in which the evidence is listed. */
  ghost predicate SameChoice(a: SelectedView, b: SelectedView) {
    a.reason == b.reason && a.explanation == b.explanation && multiset(a.evidenceIds) == multiset(b.evidenceIds)
  }

  ghost predicate SameOrNoChoice(a: Option<SelectedView>, b: Option<SelectedView>) {
    if b.Some? then a.Some? && SameChoice(a.value, b.value) else a.None?
  }

  ghost predicate Hinted(deltas: seq<EvidenceDelta>, target: PageRegionRef, selected: SelectedView) {
    exists d, h :: d in deltas && h in d.hints && h.region == target && h.selected == selected
  }

  /** A region shows the view some delta hints for it; without a hint, the view it was introduced with. */
  ghost predicate ShowsGiven(
      initial: Document, deltas: seq<EvidenceDelta>, target: PageRegionRef, selected: Option<SelectedView>)
  {
    && (forall view :: Hinted(deltas, target, view) ==> selected.Some? && SameChoice(selected.value, view))
    && ((forall view :: !Hinted(deltas, target, view)) ==>
          exists b :: b in DocumentBirths(initial) + Gather(DeltaBirths, deltas) && b.region == target
                      && SameOrNoChoice(selected, b.selected))
  }

  lemma SelectionPermutes(selected: Option<SelectedView>)
    ensures SameOrNoChoice(CanonicalSelection(selected), selected)
  {
    if selected.Some? {
      SortByProperties(IdKey, selected.value.evidenceIds);
    }
  }

  lemma HintedIffRecorded(deltas: seq<EvidenceDelta>, hints: Hints, target: PageRegionRef, view: SelectedView)
    requires Pairs(hints) == AllHints(deltas)
    ensures Hinted(deltas, target, view) <==> target in hints && hints[target] == view
  {
    PairIn(hints, (target, view));
  }

  /** Every region of a materialized document shows the view that was given for it. */
  lemma ViewsAreGiven(
      hashes: Hashes, initial: Document, prefixIds: set<Id>, deltas: seq<EvidenceDelta>, manifest: Manifest, p: Page,
      r: Region)
    requires Materialized(hashes, initial, prefixIds, deltas, manifest).Ok?
    requires p in Materialized(hashes, initial, prefixIds, deltas, manifest).value.pages && r in p.regions
    ensures ShowsGiven(initial, deltas, PageRegionRef(p.id, r.id), r.selected)
  {
    var d, hints := Replayed(hashes, initial, prefixIds, deltas, manifest);
    var p0, r0 := CanonicalOrigin(d, p, r);
    var target := PageRegionRef(p.id, r.id);
    assert RegionTracked(p0.id, r0, DocumentBirths(initial) + Gather(DeltaBirths, deltas), hints);
    SelectionPermutes(r0.selected);
    forall view
      ensures Hinted(deltas, target, view) <==> target in hints && hints[target] == view
    {
      HintedIffRecorded(deltas, hints, target, view);
    }
    if target !in hints {
      assert Birth(target, r0.selected) in DocumentBirths(initial) + Gather(DeltaBirths, deltas);
    } else {
      assert Hinted(deltas, target, hints[target]);
    }
  }

  /**
   * Every materialized document lists its pages by index and everything on them in order, and shows in every region
   * the view given for it.
   */
  lemma MaterializedForm(
      hashes: Hashes, initial: Document, prefixIds: set<Id>, deltas: seq<EvidenceDelta>, manifest: Manifest)
    requires Materialized(hashes, initial, prefixIds, deltas, manifest).Ok?
    ensures var d := Materialized(hashes, initial, prefixIds, deltas, manifest).value;
            && InOrder(d)
            && forall p, r :: p in d.pages && r in p.regions ==>
                 ShowsGiven(initial, deltas, PageRegionRef(p.id, r.id), r.selected)
  {
    var d := Parts(hashes, initial, prefixIds, deltas, manifest);
    CanonicalInOrder(d);
    forall p, r | p in Canonical(d).pages && r in p.regions
      ensures ShowsGiven(initial, deltas, PageRegionRef(p.id, r.id), r.selected)
    {
      ViewsAreGiven(hashes, initial, prefixIds, deltas, manifest, p, r);
    }
  }
}

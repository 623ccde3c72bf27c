/** The replay as the source runs it: a document changed in place, delta by delta. */
module Materializer {
  import opened Collections
  import opened DocumentIr
  import opened Validation
  import opened EvidenceState
  import opened Materialization
  import MaterializedForm

  class Materializer {
    var document: Document
    var represented: set<Id>
    var hints: Hints

    constructor (initial: Document, prefixIds: set<Id>)
      ensures document == initial && represented == prefixIds && hints == map[]
    {
      document, represented, hints := initial, prefixIds, map[];
    }

    ghost function Reached(): Progress
      reads this
    {
      Progress(document, hints)
    }

    method AppendPages(added: seq<Page>) returns (failure: Option<Failure>)
      modifies this`document
      ensures match AddPages(old(document.pages), added)
              case Err(e) => failure == Some(e)
              case Ok(pages) => failure == None && document == old(document).(pages := pages)
    {
      var n := 0;
      while n < |added|
        invariant 0 <= n <= |added|
        invariant document == old(document).(pages := document.pages)
        invariant AddPages(old(document.pages), added) == AddPages(document.pages, added[n..])
      {
        assert added[n..][0] == added[n] && added[n..][1..] == added[n + 1..];
        if Has(PageId, document.pages, added[n].id) {
          return Some(PageReplaced);
        }
        document := document.(pages := document.pages + [added[n]]);
        n := n + 1;
      }
      return None;
    }

    /** Pushes the layers one by one, each after its owner resolves. */
    method PushLayers(page0: Page, a: PageDelta) returns (page: Page, ok: bool)
      ensures ok <==> forall o :: o in a.layers ==> OwnerResolves(page0, a, o.owner)
      ensures ok ==> page == page0.(layers := page0.layers + LayersOf(a.layers))
    {
      page := page0;
      var n := 0;
      while n < |a.layers|
        invariant 0 <= n <= |a.layers|
        invariant page == page0.(layers := page0.layers + LayersOf(a.layers[..n]))
        invariant forall j :: 0 <= j < n ==> OwnerResolves(page0, a, a.layers[j].owner)
      {
        if !OwnerResolves(page, a, a.layers[n].owner) {
          return page, false;
        }
        assert LayersOf(a.layers[..n + 1]) == LayersOf(a.layers[..n]) + [a.layers[n].layer];
        page := page.(layers := page.layers + [a.layers[n].layer]);
        n := n + 1;
      }
      assert a.layers[..n] == a.layers;
      return page, true;
    }

    method PushEvidence(regions0: seq<Region>, additions: seq<RegionEvidenceAddition>)
      returns (regions: seq<Region>, ok: bool)
      ensures ok <==> AddEvidence(regions0, additions).Ok?
      ensures ok ==> AddEvidence(regions0, additions) == Ok(regions)
      ensures !ok ==> AddEvidence(regions0, additions) == Err(EvidenceOwnerAbsent)
    {
      regions := regions0;
      var n := 0;
      while n < |additions|
        invariant 0 <= n <= |additions|
        invariant AddEvidence(regions0, additions) == AddEvidence(regions, additions[n..])
      {
        assert additions[n..][0] == additions[n] && additions[n..][1..] == additions[n + 1..];
        var i := IndexOf(RegionId, regions, additions[n].region);
        if i == |regions| {
          return regions, false;
        }
        regions := regions[i := regions[i].(evidence := regions[i].evidence + additions[n].evidence)];
        n := n + 1;
      }
      return regions, true;
    }

    method ExtendPages(additions: seq<PageDelta>) returns (failure: Option<Failure>)
      modifies this`document
      ensures match AddContent(old(document.pages), additions)
              case Err(e) => failure == Some(e)
              case Ok(pages) => failure == None && document == old(document).(pages := pages)
    {
      var n := 0;
      while n < |additions|
        invariant 0 <= n <= |additions|
        invariant document == old(document).(pages := document.pages)
        invariant AddContent(old(document.pages), additions) == AddContent(document.pages, additions[n..])
      {
        var a := additions[n];
        assert additions[n..][0] == a && additions[n..][1..] == additions[n + 1..];
        var i := IndexOf(PageId, document.pages, a.page);
        if i == |document.pages| {
          return Some(AdditionTargetAbsent);
        }
        var page, layersOk := PushLayers(document.pages[i], a);
        if !layersOk {
          return Some(LayerOwnerUnresolved);
        }
        page := page.(artifacts := page.artifacts + a.artifacts, regions := page.regions + a.regions);
        var regions, evidenceOk := PushEvidence(page.regions, a.regionEvidence);
        if !evidenceOk {
          return Some(EvidenceOwnerAbsent);
        }
        page := page.(regions := regions, readingOrder := page.readingOrder + a.edges);
        assert ExtendPage(document.pages[i], a) == Ok(page);
        document := document.(pages := document.pages[i := page]);
        n := n + 1;
      }
      return None;
    }

    method SelectHints(delta: EvidenceDelta) returns (failure: Option<Failure>)
      modifies this`document, this`hints
      ensures match ApplyHints(old(Reached()), delta, delta.hints)
              case Err(e) => failure == Some(e)
              case Ok(progress) => failure == None && Reached() == progress
    {
      var n := 0;
      while n < |delta.hints|
        invariant 0 <= n <= |delta.hints|
        invariant ApplyHints(old(Reached()), delta, delta.hints) == ApplyHints(Reached(), delta, delta.hints[n..])
      {
        var hint := delta.hints[n];
        assert delta.hints[n..][0] == hint && delta.hints[n..][1..] == delta.hints[n + 1..];
        if !HintInScope(delta, hint.region) {
          return Some(HintOutsideScope);
        }
        var p := IndexOf(PageId, document.pages, hint.region.page);
        if p == |document.pages| {
          return Some(HintTargetAbsent);
        }
        var page := document.pages[p];
        var r := IndexOf(RegionId, page.regions, hint.region.region);
        if r == |page.regions| {
          return Some(HintTargetAbsent);
        }
        if hint.region in hints && hints[hint.region] != hint.selected {
          return Some(ConflictingHints);
        }
        hints := hints[hint.region := hint.selected];
        document := document.(pages := document.pages[p := Select(page, r, hint.selected)]);
        n := n + 1;
      }
      return None;
    }

    /** Applies one delta in place: the new state is the specified application, or the reported failure. */
    method ApplyDelta(delta: EvidenceDelta) returns (failure: Option<Failure>)
      modifies this`document, this`hints
      ensures match Apply(old(Reached()), delta)
              case Err(e) => failure == Some(e)
              case Ok(progress) => failure == None && Reached() == progress
    {
      failure := AdmissionFailure(document, delta);
      if failure.Some? {
        return;
      }
      failure := AppendPages(delta.newPages);
      if failure.Some? {
        return;
      }
      failure := ExtendPages(delta.pageAdditions);
      if failure.Some? {
        return;
      }
      failure := SelectHints(delta);
    }

    method SortRegions(regions0: seq<Region>) returns (regions: seq<Region>)
      ensures regions == CanonicalRegions(regions0)
    {
      regions := regions0;
      var n := 0;
      while n < |regions|
        invariant 0 <= n <= |regions| == |regions0|
        invariant forall j :: 0 <= j < n ==> regions[j] == CanonicalRegion(regions0[j])
        invariant forall j :: n <= j < |regions| ==> regions[j] == regions0[j]
      {
        var region := regions[n].(evidence := SortBy(EvidenceKey, regions[n].evidence));
        if region.selected.Some? {
          var view := region.selected.value;
          region := region.(selected := Some(view.(evidenceIds := SortBy(IdKey, view.evidenceIds))));
        }
        regions := regions[n := region];
        n := n + 1;
      }
    }

    /** Puts pages, records, regions and evidence in canonical order. */
    method Canonicalize()
      modifies this`document
      ensures document == Canonical(old(document))
      ensures DocumentValid(document) ==> MaterializedForm.InOrder(document)
    {
      var sorted := SortBy(PageSortKey, document.pages);
      document := document.(pages := sorted);
      var n := 0;
      while n < |document.pages|
        invariant 0 <= n <= |document.pages| == |sorted|
        invariant document == old(document).(pages := document.pages)
        invariant forall j :: 0 <= j < n ==> document.pages[j] == CanonicalPage(sorted[j])
        invariant forall j :: n <= j < |sorted| ==> document.pages[j] == sorted[j]
      {
        var page := document.pages[n];
        page := page.(layers := SortBy(LayerKey, page.layers), artifacts := SortBy(ArtifactKey, page.artifacts));
        var regions := SortRegions(SortBy(RegionKeyOf, page.regions));
        page := page.(regions := regions, readingOrder := SortBy(EdgeKey, page.readingOrder));
        document := document.(pages := document.pages[n := page]);
        n := n + 1;
      }
      assert document.pages == CanonicalPages(sorted);
      if DocumentValid(document) {
        MaterializedForm.CanonicalInOrder(old(document));
      }
    }

    /** Replays the deltas, recording their identities. */
    method ReplayAll(hashes: Hashes, deltas: seq<EvidenceDelta>) returns (failure: Option<Failure>)
      modifies this
      ensures match Replay(hashes, old(Reached()), old(represented), deltas)
              case Err(e) => failure == Some(e)
              case Ok((progress, ids)) => failure == None && Reached() == progress && represented == ids
    {
      var n := 0;
      while n < |deltas|
        invariant 0 <= n <= |deltas|
        invariant Replay(hashes, old(Reached()), old(represented), deltas)
               == Replay(hashes, Reached(), represented, deltas[n..])
      {
        var delta := deltas[n];
        assert deltas[n..][0] == delta && deltas[n..][1..] == deltas[n + 1..];
        match DeltaId(hashes, delta) {
          case Err(e) =>
            return Some(e);
          case Ok(id) =>
            var applied := ApplyDelta(delta);
            if applied.Some? {
              return applied;
            }
            represented := represented + {id};
        }
        n := n + 1;
      }
      return None;
    }
  }

  method MaterializeWithPrefix(
      hashes: Hashes, initial: Document, prefixIds: set<Id>, deltas: seq<EvidenceDelta>, manifest: Manifest)
    returns (result: Result<Document, Failure>)
    ensures result == Materialized(hashes, initial, prefixIds, deltas, manifest)
    ensures result.Ok? ==> EvidenceGrade(result.value) && MaterializedForm.InOrder(result.value)
  {
    var initialOk := Validate(initial);
    if !initialOk {
      return Err(InvalidDocument);
    }
    if manifest.schema != DOCUMENT_STATE_SCHEMA {
      return Err(UnsupportedStateSchema);
    }
    if initial.inputDigest != manifest.sourceDigest || initial.schema != manifest.irSchema {
      return Err(SourceMismatch);
    }
    var replay := new Materializer(initial, prefixIds);
    var failure := replay.ReplayAll(hashes, deltas);
    if failure.Some? {
      return Err(failure.value);
    }
    if replay.represented != manifest.deltaIds {
      return Err(IdentitiesMismatch);
    }
    replay.Canonicalize();
    var gradeOk := ValidateEvidenceGrade(replay.document);
    if !gradeOk {
      return Err(InvalidDocument);
    }
    return Ok(replay.document);
  }

  method MaterializeState(hashes: Hashes, initial: Document, deltas: seq<EvidenceDelta>, manifest: Manifest)
    returns (result: Result<Document, Failure>)
    ensures result == MaterializedState(hashes, initial, deltas, manifest)
  {
    result := MaterializeWithPrefix(hashes, initial, {}, deltas, manifest);
  }

  method MaterializeFromCheckpoint(
      hashes: Hashes, checkpoint: Document, base: Manifest, tail: seq<EvidenceDelta>, manifest: Manifest)
    returns (result: Result<Document, Failure>)
    ensures result == MaterializedFromCheckpoint(hashes, checkpoint, base, tail, manifest)
  {
    if base.schema != DOCUMENT_STATE_SCHEMA {
      return Err(UnsupportedStateSchema);
    }
    if base.sourceDigest != manifest.sourceDigest || base.irSchema != manifest.irSchema
       || !(base.deltaIds <= manifest.deltaIds) {
      return Err(NotAPrefix);
    }
    if base.deltaIds != {} {
      if base.checkpoint.None? {
        return Err(NoCheckpointReference);
      }
      var checkpointOk := Validate(checkpoint);
      if !checkpointOk {
        return Err(InvalidDocument);
      }
      if hashes.document(checkpoint) != base.checkpoint.value.documentDigest {
        return Err(CheckpointMismatch);
      }
    }
    result := MaterializeWithPrefix(hashes, checkpoint, base.deltaIds, tail, manifest);
  }
}

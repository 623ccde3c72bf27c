/**
 * Materializing a document state (crates/ferrodoc-ir/src/state.rs): the result depends on the
 * set of deltas alone, not on their order or on whether a checkpoint was used.
 */
module Materialization {
  import opened Collections
  import opened DocumentIr
  import opened Validation
  import opened EvidenceState
  import opened Conservation
  import opened Determination
  import opened Selections
  import opened Admission
  import opened ReplayAdmission

  /** The outcome of a materialization that already represents `prefixIds`. */
  ghost function Materialized(
      hashes: Hashes, initial: Document, prefixIds: set<Id>, deltas: seq<EvidenceDelta>, manifest: Manifest)
    : Result<Document, Failure>
  {
    if !DocumentValid(initial) then Err(InvalidDocument)
    else if manifest.schema != DOCUMENT_STATE_SCHEMA then Err(UnsupportedStateSchema)
    else if initial.inputDigest != manifest.sourceDigest || initial.schema != manifest.irSchema then Err(SourceMismatch)
    else
      match Replay(hashes, Progress(initial, map[]), prefixIds, deltas)
      case Err(failure) => Err(failure)
      case Ok((progress, represented)) =>
        if represented != manifest.deltaIds then Err(IdentitiesMismatch)
        else if !EvidenceGrade(Canonical(progress.document)) then Err(InvalidDocument)
        else Ok(Canonical(progress.document))
  }

  ghost function MaterializedState(
      hashes: Hashes, initial: Document, deltas: seq<EvidenceDelta>, manifest: Manifest): Result<Document, Failure>
  {
    Materialized(hashes, initial, {}, deltas, manifest)
  }

  function CheckpointFailure(
      hashes: Hashes, checkpoint: Document, base: Manifest, manifest: Manifest): Option<Failure> {
    if base.schema != DOCUMENT_STATE_SCHEMA then Some(UnsupportedStateSchema)
    else if base.sourceDigest != manifest.sourceDigest || base.irSchema != manifest.irSchema
            || !(base.deltaIds <= manifest.deltaIds) then Some(NotAPrefix)
    else if base.deltaIds == {} then None
    else if base.checkpoint.None? then Some(NoCheckpointReference)
    else None
  }

  ghost function MaterializedFromCheckpoint(
      hashes: Hashes, checkpoint: Document, base: Manifest, tail: seq<EvidenceDelta>, manifest: Manifest)
    : Result<Document, Failure>
  {
    match CheckpointFailure(hashes, checkpoint, base, manifest)
    case Some(failure) => Err(failure)
    case None =>
      if base.deltaIds != {} && !DocumentValid(checkpoint) then Err(InvalidDocument)
      else if base.deltaIds != {} && hashes.document(checkpoint) != base.checkpoint.value.documentDigest
           then Err(CheckpointMismatch)
      else Materialized(hashes, checkpoint, base.deltaIds, tail, manifest)
  }

  // ---- What a successful materialization knows ----

  /** A materialization that succeeds, taken apart. */
  lemma Parts(hashes: Hashes, initial: Document, prefixIds: set<Id>, deltas: seq<EvidenceDelta>, manifest: Manifest)
      returns (d: Document)
    requires Materialized(hashes, initial, prefixIds, deltas, manifest).Ok?
    ensures Replay(hashes, Progress(initial, map[]), prefixIds, deltas).Ok?
    ensures d == Replay(hashes, Progress(initial, map[]), prefixIds, deltas).value.0.document
    ensures Materialized(hashes, initial, prefixIds, deltas, manifest) == Ok(Canonical(d))
    ensures EvidenceGrade(Canonical(d))
  {
    d := Replay(hashes, Progress(initial, map[]), prefixIds, deltas).value.0.document;
  }

  /** And put together again. */
  lemma Reached(
      hashes: Hashes, initial: Document, prefixIds: set<Id>, deltas: seq<EvidenceDelta>, manifest: Manifest,
      end: Progress, ids: set<Id>)
    requires DocumentValid(initial) && manifest.schema == DOCUMENT_STATE_SCHEMA
    requires initial.inputDigest == manifest.sourceDigest && initial.schema == manifest.irSchema
    requires Replay(hashes, Progress(initial, map[]), prefixIds, deltas) == Ok((end, ids))
    requires ids == manifest.deltaIds && EvidenceGrade(Canonical(end.document))
    ensures Materialized(hashes, initial, prefixIds, deltas, manifest) == Ok(Canonical(end.document))
  {
  }

  /** Append-only: the result holds every fact it started from, plus exactly those of the deltas. */
  lemma AppendOnly(
      hashes: Hashes, initial: Document, prefixIds: set<Id>, deltas: seq<EvidenceDelta>, manifest: Manifest)
    requires Materialized(hashes, initial, prefixIds, deltas, manifest).Ok?
    ensures var result := Materialized(hashes, initial, prefixIds, deltas, manifest).value;
            && DocumentFacts(result) == DocumentFacts(initial) + Gather(DeltaFacts, deltas)
            && SameHeader(result, initial)
            && EvidenceGrade(result) && Ordered(result)
    ensures UniqueKeys(DocumentFacts(initial) + Gather(DeltaFacts, deltas))
  {
    var d := Parts(hashes, initial, prefixIds, deltas, manifest);
    ReplayFacts(hashes, Progress(initial, map[]), prefixIds, deltas);
    CanonicalFacts(d);
    CanonicalOrdered(d);
    GradeHasUniqueKeys(Canonical(d));
  }

  lemma GradeHasUniqueKeys(d: Document)
    requires EvidenceGrade(d)
    ensures UniqueKeys(DocumentFacts(d))
  {
    ValidHasUniqueKeys(d);
  }

  /** The replayed document, before it is put in order, with the origin of its selected views. */
  lemma Replayed(hashes: Hashes, initial: Document, prefixIds: set<Id>, deltas: seq<EvidenceDelta>, manifest: Manifest)
      returns (d: Document, hints: Hints)
    requires Materialized(hashes, initial, prefixIds, deltas, manifest).Ok?
    ensures Materialized(hashes, initial, prefixIds, deltas, manifest) == Ok(Canonical(d))
    ensures DocumentFacts(d) == DocumentFacts(initial) + Gather(DeltaFacts, deltas)
    ensures Tracked(d.pages, DocumentBirths(initial) + Gather(DeltaBirths, deltas), hints)
    ensures HintsPresent(DocumentFacts(d), hints) && Pairs(hints) == AllHints(deltas)
    ensures Replay(hashes, Progress(initial, map[]), prefixIds, deltas).Ok?
  {
    var start := Progress(initial, map[]);
    d := Replay(hashes, start, prefixIds, deltas).value.0.document;
    hints := Replay(hashes, start, prefixIds, deltas).value.0.hints;
    ReplayFacts(hashes, start, prefixIds, deltas);
    AppendOnly(hashes, initial, prefixIds, deltas, manifest);
    ReplayFromStart(hashes, initial, prefixIds, deltas);
  }

  lemma ReplayFromStart(hashes: Hashes, initial: Document, prefixIds: set<Id>, deltas: seq<EvidenceDelta>)
    requires Replay(hashes, Progress(initial, map[]), prefixIds, deltas).Ok?
    requires UniqueKeys(DocumentFacts(initial) + Gather(DeltaFacts, deltas))
    ensures var after := Replay(hashes, Progress(initial, map[]), prefixIds, deltas).value.0;
            && Tracked(after.document.pages, DocumentBirths(initial) + Gather(DeltaBirths, deltas), after.hints)
            && HintsPresent(DocumentFacts(after.document), after.hints)
            && Pairs(after.hints) == AllHints(deltas)
  {
    ReplayFacts(hashes, Progress(initial, map[]), prefixIds, deltas);
    StartTracked(initial);
    ReplayTracked(hashes, Progress(initial, map[]), prefixIds, deltas, DocumentBirths(initial));
    NoPairs(AllHints(deltas));
  }

  // ---- Selections up to the order of evidence identities ----

  lemma CanonicalIdempotent(selected: Option<SelectedView>)
    ensures CanonicalSelection(CanonicalSelection(selected)) == CanonicalSelection(selected)
  {
    if selected.Some? {
      var ids := SortBy(IdKey, selected.value.evidenceIds);
      SortByProperties(IdKey, selected.value.evidenceIds);
      SortByProperties(IdKey, ids);
      SortedUnique(IdKey, SortBy(IdKey, ids), ids);
    }
  }

  /** Every region of the canonical document is one of the document, with its view put in order. */
  lemma CanonicalOrigin(d: Document, p: Page, r: Region) returns (p0: Page, r0: Region)
    requires p in Canonical(d).pages && r in p.regions
    ensures p0 in d.pages && r0 in p0.regions && p0.id == p.id && r0.id == r.id
    ensures r.selected == CanonicalSelection(r0.selected)
  {
    var sorted := SortBy(PageSortKey, d.pages);
    SortByProperties(PageSortKey, d.pages);
    var i :| 0 <= i < |sorted| && CanonicalPages(sorted)[i] == p;
    p0 := sorted[i];
    assert p0 in multiset(d.pages);
    var regions := SortBy(RegionKeyOf, p0.regions);
    SortByProperties(RegionKeyOf, p0.regions);
    var j :| 0 <= j < |regions| && CanonicalRegions(regions)[j] == r;
    r0 := regions[j];
    assert r0 in multiset(p0.regions);
  }

  /** The view of a region is, up to order, its hint or one it was introduced with. */
  ghost predicate Selects(target: PageRegionRef, selected: Option<SelectedView>, births: Births, hints: Hints) {
    if target in hints then CanonicalSelection(selected) == CanonicalSelection(Some(hints[target]))
    else exists b :: b in births && b.region == target && CanonicalSelection(b.selected) == CanonicalSelection(selected)
  }

  ghost predicate AllSelect(pages: seq<Page>, births: Births, hints: Hints) {
    forall p, r :: p in pages && r in p.regions ==> Selects(PageRegionRef(p.id, r.id), r.selected, births, hints)
  }

  ghost predicate Functional(births: Births) {
    forall a, b :: a in births && b in births && a.region == b.region ==> a == b
  }

  lemma TrackedSelects(pages: seq<Page>, births: Births, hints: Hints)
    requires Tracked(pages, births, hints)
    ensures AllSelect(pages, births, hints)
  {
    forall p, r | p in pages && r in p.regions
      ensures Selects(PageRegionRef(p.id, r.id), r.selected, births, hints)
    {
      assert RegionTracked(p.id, r, births, hints);
      var b := Birth(PageRegionRef(p.id, r.id), r.selected);
      assert PageRegionRef(p.id, r.id) !in hints ==> b in births;
    }
  }

  lemma SelectsSame(a: Document, b: Document, births: Births, hints: Hints)
    requires AllSelect(a.pages, births, hints) && AllSelect(b.pages, births, hints) && Functional(births)
    ensures SameSelections(Canonical(a), Canonical(b))
  {
    forall p, q, r, s |
      p in Canonical(a).pages && q in Canonical(b).pages && r in p.regions && s in q.regions && p.id == q.id &&
          r.id == s.id
      ensures r.selected == s.selected
    {
      var p0, r0 := CanonicalOrigin(a, p, r);
      var q0, s0 := CanonicalOrigin(b, q, s);
      assert Selects(PageRegionRef(p0.id, r0.id), r0.selected, births, hints);
      assert Selects(PageRegionRef(q0.id, s0.id), s0.selected, births, hints);
    }
  }

  lemma FunctionalBirths(initial: Document, deltas: seq<EvidenceDelta>)
    requires UniqueKeys(DocumentFacts(initial) + Gather(DeltaFacts, deltas))
    ensures Functional(DocumentBirths(initial) + Gather(DeltaBirths, deltas))
  {
    forall a, b | a in DocumentBirths(initial) + Gather(DeltaBirths, deltas)
               && b in DocumentBirths(initial) + Gather(DeltaBirths, deltas) && a.region == b.region
      ensures a == b
    {
      BirthsFunctional(initial, deltas, a, b);
    }
  }

  // ---- Order independence ----

  lemma PairsDetermine(a: Hints, b: Hints)
    requires Pairs(a) == Pairs(b)
    ensures a == b
  {
    forall key
      ensures (key in a <==> key in b) && (key in a ==> a[key] == b[key])
    {
      if key in a {
        PairIn(a, (key, a[key]));
        PairIn(b, (key, a[key]));
      }
      if key in b {
        PairIn(a, (key, b[key]));
        PairIn(b, (key, b[key]));
      }
    }
  }

  /** Two orders that both replay end, in canonical order, in one document, if the first ends in a valid one. */
  lemma SameReplays(hashes: Hashes, initial: Document, prefixIds: set<Id>, a: seq<EvidenceDelta>, b: seq<EvidenceDelta>)
    requires multiset(a) == multiset(b) && UniqueKeys(DocumentFacts(initial) + Gather(DeltaFacts, a))
    requires Replay(hashes, Progress(initial, map[]), prefixIds, a).Ok?
    requires Replay(hashes, Progress(initial, map[]), prefixIds, b).Ok?
    requires DocumentValid(Canonical(Replay(hashes, Progress(initial, map[]), prefixIds, a).value.0.document))
    ensures Canonical(Replay(hashes, Progress(initial, map[]), prefixIds, a).value.0.document)
         == Canonical(Replay(hashes, Progress(initial, map[]), prefixIds, b).value.0.document)
  {
    var d := Replay(hashes, Progress(initial, map[]), prefixIds, a).value.0;
    var e := Replay(hashes, Progress(initial, map[]), prefixIds, b).value.0;
    GatherPermutation(DeltaFacts, a, b);
    GatherPermutation(DeltaBirths, a, b);
    ReplayFacts(hashes, Progress(initial, map[]), prefixIds, a);
    ReplayFacts(hashes, Progress(initial, map[]), prefixIds, b);
    ReplayFromStart(hashes, initial, prefixIds, a);
    ReplayFromStart(hashes, initial, prefixIds, b);
    SameHints(a, b);
    PairsDetermine(d.hints, e.hints);
    var births := DocumentBirths(initial) + Gather(DeltaBirths, a);
    FunctionalBirths(initial, a);
    TrackedSelects(d.document.pages, births, d.hints);
    TrackedSelects(e.document.pages, births, d.hints);
    SelectsSame(d.document, e.document, births, d.hints);
    CanonicalPair(d.document, e.document);
  }

  /** Facts, header and selections of two replays settle their canonical documents. */
  lemma CanonicalPair(d: Document, e: Document)
    requires DocumentFacts(d) == DocumentFacts(e) && SameHeader(d, e)
    requires DocumentValid(Canonical(d)) && SameSelections(Canonical(d), Canonical(e))
    requires UniqueKeys(DocumentFacts(d))
    ensures Canonical(d) == Canonical(e)
  {
    CanonicalFacts(d);
    CanonicalFacts(e);
    CanonicalOrdered(d);
    CanonicalOrdered(e);
    Determined(Canonical(d), Canonical(e));
  }

  /**
   * Any two orders of the same deltas that both materialize give the same document, selected
   * views included.
   */
  lemma OrderIndependence(
      hashes: Hashes, initial: Document, prefixIds: set<Id>, a: seq<EvidenceDelta>, b: seq<EvidenceDelta>,
      manifest: Manifest)
    requires multiset(a) == multiset(b)
    requires Materialized(hashes, initial, prefixIds, a, manifest).Ok?
    requires Materialized(hashes, initial, prefixIds, b, manifest).Ok?
    ensures Materialized(hashes, initial, prefixIds, a, manifest) ==
            Materialized(hashes, initial, prefixIds, b, manifest)
  {
    var d := Parts(hashes, initial, prefixIds, a, manifest);
    var e := Parts(hashes, initial, prefixIds, b, manifest);
    AppendOnly(hashes, initial, prefixIds, a, manifest);
    SameReplays(hashes, initial, prefixIds, a, b);
  }

  /**
   * What one order materializes, another order of the same deltas materializes exactly when each of its deltas finds
   * its prerequisites in place: nothing else depends on the order.
   */
  lemma OrderTransfer(
      hashes: Hashes, initial: Document, prefixIds: set<Id>, a: seq<EvidenceDelta>, b: seq<EvidenceDelta>,
      manifest: Manifest)
    requires multiset(a) == multiset(b)
    requires Materialized(hashes, initial, prefixIds, a, manifest).Ok?
    ensures Materialized(hashes, initial, prefixIds, b, manifest).Ok?
       <==> ReplayAdmissible(initial.inputDigest, initial.schema, DocumentFacts(initial), b)
    ensures Materialized(hashes, initial, prefixIds, b, manifest).Ok?
        ==> Materialized(hashes, initial, prefixIds, b, manifest) ==
            Materialized(hashes, initial, prefixIds, a, manifest)
  {
    var d := Parts(hashes, initial, prefixIds, a, manifest);
    AppendOnly(hashes, initial, prefixIds, a, manifest);
    ReplaysTransfer(hashes, initial, prefixIds, a, b);
    if Replay(hashes, Progress(initial, map[]), prefixIds, b).Ok? {
      var end := Replay(hashes, Progress(initial, map[]), prefixIds, b).value;
      SameReplays(hashes, initial, prefixIds, a, b);
      SameIds(hashes, initial, prefixIds, a, b);
      Reached(hashes, initial, prefixIds, b, manifest, end.0, end.1);
    }
  }

  lemma ReplaysTransfer(
      hashes: Hashes, initial: Document, prefixIds: set<Id>, a: seq<EvidenceDelta>, b: seq<EvidenceDelta>)
    requires multiset(a) == multiset(b) && UniqueKeys(DocumentFacts(initial) + Gather(DeltaFacts, a))
    requires Replay(hashes, Progress(initial, map[]), prefixIds, a).Ok?
    ensures Replay(hashes, Progress(initial, map[]), prefixIds, b).Ok?
       <==> ReplayAdmissible(initial.inputDigest, initial.schema, DocumentFacts(initial), b)
  {
    GatherPermutation(DeltaFacts, a, b);
    SameHints(a, b);
    ReplayIff(hashes, Progress(initial, map[]), prefixIds, a);
    ReplayIff(hashes, Progress(initial, map[]), prefixIds, b);
  }

  lemma SameIds(hashes: Hashes, initial: Document, prefixIds: set<Id>, a: seq<EvidenceDelta>, b: seq<EvidenceDelta>)
    requires multiset(a) == multiset(b)
    requires Replay(hashes, Progress(initial, map[]), prefixIds, a).Ok?
    requires Replay(hashes, Progress(initial, map[]), prefixIds, b).Ok?
    ensures Replay(hashes, Progress(initial, map[]), prefixIds, a).value.1
         == Replay(hashes, Progress(initial, map[]), prefixIds, b).value.1
  {
    ReplayIds(hashes, Progress(initial, map[]), prefixIds, a);
    ReplayIds(hashes, Progress(initial, map[]), prefixIds, b);
    forall d
      ensures d in a <==> d in b
    {
      assert d in a <==> d in multiset(a);
      assert d in b <==> d in multiset(b);
    }
  }

  lemma SameHints(a: seq<EvidenceDelta>, b: seq<EvidenceDelta>)
    requires multiset(a) == multiset(b)
    ensures AllHints(a) == AllHints(b)
  {
    forall d
      ensures d in a <==> d in b
    {
      assert d in a <==> d in multiset(a);
      assert d in b <==> d in multiset(b);
    }
  }

  // ---- Checkpoint transparency ----

  lemma {:induction false} ReplayIds(
      hashes: Hashes, progress: Progress, represented: set<Id>, deltas: seq<EvidenceDelta>)
    requires Replay(hashes, progress, represented, deltas).Ok?
    ensures Replay(hashes, progress, represented, deltas).value.1 == represented + DeltaIds(hashes, deltas)
    decreases |deltas|
  {
    if deltas != [] {
      var id := DeltaId(hashes, deltas[0]).value;
      ReplayIds(hashes, Apply(progress, deltas[0]).value, represented + {id}, deltas[1..]);
      DeltaIdsHead(hashes, deltas);
    }
  }

  lemma DeltaIdsHead(hashes: Hashes, deltas: seq<EvidenceDelta>)
    requires deltas != []
    ensures DeltaIds(hashes, deltas) == {hashes.delta(Projection(deltas[0]))} + DeltaIds(hashes, deltas[1..])
  {
    assert deltas == [deltas[0]] + deltas[1..];
  }

  ghost function DeltaIds(hashes: Hashes, deltas: seq<EvidenceDelta>): set<Id> {
    set d | d in deltas :: hashes.delta(Projection(d))
  }

  lemma DeltaIdsConcat(hashes: Hashes, a: seq<EvidenceDelta>, b: seq<EvidenceDelta>)
    ensures DeltaIds(hashes, a + b) == DeltaIds(hashes, a) + DeltaIds(hashes, b)
  {
  }

  lemma AllHintsConcat(a: seq<EvidenceDelta>, b: seq<EvidenceDelta>)
    ensures AllHints(a + b) == AllHints(a) + AllHints(b)
  {
  }

  /** No hint of the tail contradicts one of the prefix. */
  ghost predicate HintsAgree(prefix: seq<EvidenceDelta>, tail: seq<EvidenceDelta>) {
    forall a, b :: a in AllHints(prefix) && b in AllHints(tail) && a.0 == b.0 ==> a.1 == b.1
  }

  lemma AgreeingUnion(prefix: seq<EvidenceDelta>, tail: seq<EvidenceDelta>)
    requires Agreeing(AllHints(prefix))
    ensures Agreeing(AllHints(prefix + tail)) <==> Agreeing(AllHints(tail)) && HintsAgree(prefix, tail)
  {
    AllHintsConcat(prefix, tail);
  }

  lemma {:induction false} BirthPresent(deltas: seq<EvidenceDelta>, b: Birth)
    requires b in Gather(DeltaBirths, deltas)
    ensures RegionPresent(b.region.page, b.region.region) in Gather(DeltaFacts, deltas)
  {
    var other := b.(selected := if b.selected.None? then Some(SelectedView([], Reconciled, "")) else None);
    var key := RegionPresent(b.region.page, b.region.region);
    forall i | 0 <= i < |deltas|
      ensures DeltaBirths(deltas[i])[b] + DeltaBirths(deltas[i])[other] <= DeltaFacts(deltas[i])[key]
    {
      DeltaBirthsBound(deltas[i], b, other);
    }
    GatherBound(DeltaBirths, DeltaFacts, deltas, b, other, key);
  }

  lemma DocumentBirthOrigin(d: Document, b: Birth) returns (p: Page, r: Region)
    requires b in DocumentBirths(d)
    ensures p in d.pages && r in p.regions && b == Birth(PageRegionRef(p.id, r.id), r.selected)
  {
    var i := GatherMember(PageBirths, d.pages, b);
    p := d.pages[i];
    var j := GatherMember(RegionBirth(p.id), p.regions, b);
    r := p.regions[j];
  }

  /** What a tail replay from the checkpoint selects is what the full replay selects. */
  lemma TailSelects(
      d: Document, hp: Hints, births: Births, e: Document, ht: Hints, tail: seq<EvidenceDelta>, hints: Hints)
    requires Tracked(d.pages, births, hp) && HintsPresent(DocumentFacts(d), hp)
    requires Tracked(e.pages, DocumentBirths(Canonical(d)) + Gather(DeltaBirths, tail), ht)
    requires Pairs(hints) == Pairs(hp) + Pairs(ht)
    requires UniqueKeys(DocumentFacts(d) + Gather(DeltaFacts, tail))
    ensures AllSelect(e.pages, births + Gather(DeltaBirths, tail), hints)
  {
    forall p, r | p in e.pages && r in p.regions
      ensures Selects(PageRegionRef(p.id, r.id), r.selected, births + Gather(DeltaBirths, tail), hints)
    {
      var target := PageRegionRef(p.id, r.id);
      assert RegionTracked(p.id, r, DocumentBirths(Canonical(d)) + Gather(DeltaBirths, tail), ht);
      JoinedHints(hp, ht, hints, target);
      if target !in ht {
        var b := Birth(target, r.selected);
        if b in DocumentBirths(Canonical(d)) {
          CheckpointSelects(d, hp, births, b, hints);
          assert births <= births + Gather(DeltaBirths, tail);
        } else {
          BirthPresent(tail, b);
          var key := RegionPresent(target.page, target.region);
          assert (DocumentFacts(d) + Gather(DeltaFacts, tail))[key] <= 1;
          assert target !in hp;
        }
      }
    }
  }

  lemma JoinedHints(hp: Hints, ht: Hints, hints: Hints, target: PageRegionRef)
    requires Pairs(hints) == Pairs(hp) + Pairs(ht)
    ensures target in hints <==> target in hp || target in ht
    ensures target in ht ==> hints[target] == ht[target]
    ensures target in hp ==> hints[target] == hp[target]
  {
    if target in hints {
      PairIn(hints, (target, hints[target]));
      PairIn(hp, (target, hints[target]));
      PairIn(ht, (target, hints[target]));
    }
    if target in hp {
      PairIn(hp, (target, hp[target]));
      PairIn(hints, (target, hp[target]));
    }
    if target in ht {
      PairIn(ht, (target, ht[target]));
      PairIn(hints, (target, ht[target]));
    }
  }

  lemma CheckpointSelects(d: Document, hp: Hints, births: Births, b: Birth, hints: Hints)
    requires Tracked(d.pages, births, hp) && b in DocumentBirths(Canonical(d))
    requires b.region in hints <==> b.region in hp
    requires b.region in hp ==> hints[b.region] == hp[b.region]
    ensures Selects(b.region, b.selected, births, hints)
  {
    var p, r := DocumentBirthOrigin(Canonical(d), b);
    var p0, r0 := CanonicalOrigin(d, p, r);
    assert RegionTracked(p0.id, r0, births, hp);
    CanonicalIdempotent(r0.selected);
  }

  /** The checkpoint manifest describes `checkpoint` as the state reached by `prefix`. */
  ghost predicate IsCheckpoint(
      hashes: Hashes, initial: Document, prefix: seq<EvidenceDelta>, base: Manifest, checkpoint: Document)
  {
    && MaterializedState(hashes, initial, prefix, base) == Ok(checkpoint)
    && (base.deltaIds != {} ==>
          base.checkpoint.Some? && base.checkpoint.value.documentDigest == hashes.document(checkpoint))
  }

  /** The same facts are accumulated either way. */
  lemma SplitFacts(initial: Document, prefix: seq<EvidenceDelta>, tail: seq<EvidenceDelta>)
    ensures DocumentFacts(initial) + Gather(DeltaFacts, prefix + tail)
      == DocumentFacts(initial) + Gather(DeltaFacts, prefix) + Gather(DeltaFacts, tail)
    ensures DocumentBirths(initial) + Gather(DeltaBirths, prefix + tail)
      == DocumentBirths(initial) + Gather(DeltaBirths, prefix) + Gather(DeltaBirths, tail)
  {
    GatherConcat(DeltaFacts, prefix, tail);
    GatherConcat(DeltaBirths, prefix, tail);
  }

  /** Replaying everything and replaying the tail succeed together when the hints agree. */
  lemma ReplaysTogether(
      hashes: Hashes, initial: Document, prefix: seq<EvidenceDelta>, base: Manifest, checkpoint: Document,
      tail: seq<EvidenceDelta>)
    requires IsCheckpoint(hashes, initial, prefix, base, checkpoint)
    requires UniqueKeys(DocumentFacts(initial) + Gather(DeltaFacts, prefix + tail))
    ensures Replay(hashes, Progress(initial, map[]), {}, prefix + tail).Ok?
      <==> Replay(hashes, Progress(checkpoint, map[]), base.deltaIds, tail).Ok? && HintsAgree(prefix, tail)
  {
    var start, middle := Progress(initial, map[]), Progress(checkpoint, map[]);
    AppendOnly(hashes, initial, {}, prefix, base);
    SplitFacts(initial, prefix, tail);
    ReplayIff(hashes, start, {}, prefix);
    ReplayIff(hashes, start, {}, prefix + tail);
    ReplayIff(hashes, middle, base.deltaIds, tail);
    ReplayAdmissibleConcat(initial.inputDigest, initial.schema, DocumentFacts(initial), prefix, tail);
    NoPairs(AllHints(prefix));
    NoPairs(AllHints(tail));
    NoPairs(AllHints(prefix + tail));
    AgreeingUnion(prefix, tail);
  }

  lemma NoPairs(pairs: set<(PageRegionRef, SelectedView)>)
    ensures Pairs(map[]) + pairs == pairs
  {
  }

  /** When both succeed, both end in the same document and represent the same deltas. */
  lemma SameEnd(
      hashes: Hashes, initial: Document, prefix: seq<EvidenceDelta>, base: Manifest, checkpoint: Document,
      tail: seq<EvidenceDelta>)
    requires IsCheckpoint(hashes, initial, prefix, base, checkpoint)
    requires Replay(hashes, Progress(initial, map[]), {}, prefix + tail).Ok?
    requires Replay(hashes, Progress(checkpoint, map[]), base.deltaIds, tail).Ok?
    requires var full := Replay(hashes, Progress(initial, map[]), {}, prefix + tail).value.0.document;
             var short := Replay(hashes, Progress(checkpoint, map[]), base.deltaIds, tail).value.0.document;
             DocumentValid(Canonical(full)) || DocumentValid(Canonical(short))
    ensures Canonical(Replay(hashes, Progress(initial, map[]), {}, prefix + tail).value.0.document)
         == Canonical(Replay(hashes, Progress(checkpoint, map[]), base.deltaIds, tail).value.0.document)
    ensures Replay(hashes, Progress(initial, map[]), {}, prefix + tail).value.1
         == Replay(hashes, Progress(checkpoint, map[]), base.deltaIds, tail).value.1
  {
    var start, middle := Progress(initial, map[]), Progress(checkpoint, map[]);
    var full := Replay(hashes, start, {}, prefix + tail).value.0;
    var short := Replay(hashes, middle, base.deltaIds, tail).value.0;
    SameIdsEnd(hashes, initial, prefix, base, checkpoint, tail);
    AppendOnly(hashes, initial, {}, prefix, base);
    SplitFacts(initial, prefix, tail);
    ReplayFacts(hashes, start, {}, prefix + tail);
    ReplayFacts(hashes, middle, base.deltaIds, tail);
    CanonicalFacts(full.document);
    CanonicalFacts(short.document);
    CanonicalOrdered(full.document);
    CanonicalOrdered(short.document);
    if DocumentValid(Canonical(full.document)) {
      ValidHasUniqueKeys(Canonical(full.document));
    } else {
      ValidHasUniqueKeys(Canonical(short.document));
    }
    SameSelectionsEnd(hashes, initial, prefix, base, checkpoint, tail);
    if DocumentValid(Canonical(full.document)) {
      Determined(Canonical(full.document), Canonical(short.document));
    } else {
      Determined(Canonical(short.document), Canonical(full.document));
    }
  }

  lemma SameIdsEnd(
      hashes: Hashes, initial: Document, prefix: seq<EvidenceDelta>, base: Manifest, checkpoint: Document,
      tail: seq<EvidenceDelta>)
    requires IsCheckpoint(hashes, initial, prefix, base, checkpoint)
    requires Replay(hashes, Progress(initial, map[]), {}, prefix + tail).Ok?
    requires Replay(hashes, Progress(checkpoint, map[]), base.deltaIds, tail).Ok?
    ensures Replay(hashes, Progress(initial, map[]), {}, prefix + tail).value.1
         == Replay(hashes, Progress(checkpoint, map[]), base.deltaIds, tail).value.1
    ensures base.deltaIds <= Replay(hashes, Progress(initial, map[]), {}, prefix + tail).value.1
  {
    CheckpointIds(hashes, initial, prefix, base, checkpoint);
    ReplayIds(hashes, Progress(initial, map[]), {}, prefix + tail);
    ReplayIds(hashes, Progress(checkpoint, map[]), base.deltaIds, tail);
    DeltaIdsConcat(hashes, prefix, tail);
  }

  /** A checkpoint's manifest records exactly the identities of the deltas that led to it. */
  lemma CheckpointIds(
      hashes: Hashes, initial: Document, prefix: seq<EvidenceDelta>, base: Manifest, checkpoint: Document)
    requires IsCheckpoint(hashes, initial, prefix, base, checkpoint)
    ensures base.deltaIds == DeltaIds(hashes, prefix)
  {
    ReplayIds(hashes, Progress(initial, map[]), {}, prefix);
  }

  lemma SameSelectionsEnd(
      hashes: Hashes, initial: Document, prefix: seq<EvidenceDelta>, base: Manifest, checkpoint: Document,
      tail: seq<EvidenceDelta>)
    requires IsCheckpoint(hashes, initial, prefix, base, checkpoint)
    requires Replay(hashes, Progress(initial, map[]), {}, prefix + tail).Ok?
    requires Replay(hashes, Progress(checkpoint, map[]), base.deltaIds, tail).Ok?
    requires UniqueKeys(DocumentFacts(initial) + Gather(DeltaFacts, prefix + tail))
    ensures var full := Canonical(Replay(hashes, Progress(initial, map[]), {}, prefix + tail).value.0.document);
            var short := Canonical(Replay(hashes, Progress(checkpoint, map[]), base.deltaIds, tail).value.0.document);
            SameSelections(full, short) && SameSelections(short, full)
  {
    var start, middle := Progress(initial, map[]), Progress(checkpoint, map[]);
    var full := Replay(hashes, start, {}, prefix + tail).value.0;
    var short := Replay(hashes, middle, base.deltaIds, tail).value.0;
    var d, hp := Replayed(hashes, initial, {}, prefix, base);
    CanonicalFacts(d);
    SplitFacts(initial, prefix, tail);
    ReplayFacts(hashes, start, {}, prefix + tail);
    ReplayFacts(hashes, middle, base.deltaIds, tail);
    StartTracked(initial);
    StartTracked(checkpoint);
    ReplayTracked(hashes, start, {}, prefix + tail, DocumentBirths(initial));
    ReplayTracked(hashes, middle, base.deltaIds, tail, DocumentBirths(checkpoint));
    AllHintsConcat(prefix, tail);
    NoPairs(AllHints(prefix + tail));
    NoPairs(AllHints(tail));
    var births := DocumentBirths(initial) + Gather(DeltaBirths, prefix + tail);
    FunctionalBirths(initial, prefix + tail);
    TrackedSelects(full.document.pages, births, full.hints);
    var earlier := DocumentBirths(initial) + Gather(DeltaBirths, prefix);
    TailSelects(d, hp, earlier, short.document, short.hints, tail, full.hints);
    SelectsSame(full.document, short.document, births, full.hints);
    SelectsSame(short.document, full.document, births, full.hints);
  }

  lemma FullImpliesTail(
      hashes: Hashes, initial: Document, prefix: seq<EvidenceDelta>, base: Manifest, checkpoint: Document,
      tail: seq<EvidenceDelta>, manifest: Manifest)
    requires IsCheckpoint(hashes, initial, prefix, base, checkpoint)
    requires MaterializedState(hashes, initial, prefix + tail, manifest).Ok?
    ensures HintsAgree(prefix, tail)
    ensures MaterializedFromCheckpoint(hashes, checkpoint, base, tail, manifest)
         == MaterializedState(hashes, initial, prefix + tail, manifest)
  {
    CheckpointIsValid(hashes, initial, prefix, base, checkpoint);
    AppendOnly(hashes, initial, {}, prefix + tail, manifest);
    var _ := Parts(hashes, initial, {}, prefix + tail, manifest);
    ReplaysTogether(hashes, initial, prefix, base, checkpoint, tail);
    SameEnd(hashes, initial, prefix, base, checkpoint, tail);
    SameIdsEnd(hashes, initial, prefix, base, checkpoint, tail);
    var end := Replay(hashes, Progress(checkpoint, map[]), base.deltaIds, tail).value;
    Reached(hashes, checkpoint, base.deltaIds, tail, manifest, end.0, end.1);
  }

  lemma CheckpointIsValid(
      hashes: Hashes, initial: Document, prefix: seq<EvidenceDelta>, base: Manifest, checkpoint: Document)
    requires IsCheckpoint(hashes, initial, prefix, base, checkpoint)
    ensures DocumentValid(checkpoint) && SameHeader(checkpoint, initial)
    ensures DocumentFacts(checkpoint) == DocumentFacts(initial) + Gather(DeltaFacts, prefix)
    ensures DocumentValid(initial) && base.schema == DOCUMENT_STATE_SCHEMA
    ensures base.sourceDigest == initial.inputDigest && base.irSchema == initial.schema
  {
    AppendOnly(hashes, initial, {}, prefix, base);
  }

  /** A run from a checkpoint that succeeds, taken apart. */
  lemma TailParts(hashes: Hashes, checkpoint: Document, base: Manifest, tail: seq<EvidenceDelta>, manifest: Manifest)
    requires MaterializedFromCheckpoint(hashes, checkpoint, base, tail, manifest).Ok?
    ensures Replay(hashes, Progress(checkpoint, map[]), base.deltaIds, tail).Ok?
    ensures var end := Replay(hashes, Progress(checkpoint, map[]), base.deltaIds, tail).value;
            end.1 == manifest.deltaIds && EvidenceGrade(Canonical(end.0.document))
    ensures manifest.schema == DOCUMENT_STATE_SCHEMA
    ensures checkpoint.inputDigest == manifest.sourceDigest && checkpoint.schema == manifest.irSchema
    ensures UniqueKeys(DocumentFacts(checkpoint) + Gather(DeltaFacts, tail))
  {
    AppendOnly(hashes, checkpoint, base.deltaIds, tail, manifest);
  }

  lemma TailImpliesFull(
      hashes: Hashes, initial: Document, prefix: seq<EvidenceDelta>, base: Manifest, checkpoint: Document,
      tail: seq<EvidenceDelta>, manifest: Manifest)
    requires IsCheckpoint(hashes, initial, prefix, base, checkpoint)
    requires MaterializedFromCheckpoint(hashes, checkpoint, base, tail, manifest).Ok?
    requires HintsAgree(prefix, tail)
    ensures MaterializedState(hashes, initial, prefix + tail, manifest).Ok?
  {
    CheckpointIsValid(hashes, initial, prefix, base, checkpoint);
    TailParts(hashes, checkpoint, base, tail, manifest);
    SplitFacts(initial, prefix, tail);
    ReplaysTogether(hashes, initial, prefix, base, checkpoint, tail);
    SameEnd(hashes, initial, prefix, base, checkpoint, tail);
    var end := Replay(hashes, Progress(initial, map[]), {}, prefix + tail).value;
    Reached(hashes, initial, {}, prefix + tail, manifest, end.0, end.1);
  }

  /**
   * Checkpoint transparency: from a checkpoint reached by `prefix`, materializing the tail
   * gives what full replay gives; and full replay succeeds exactly when the tail run does
   * and no hint of the tail contradicts one of the prefix.
   */
  lemma CheckpointTransparency(
      hashes: Hashes, initial: Document, prefix: seq<EvidenceDelta>, base: Manifest, checkpoint: Document,
      tail: seq<EvidenceDelta>, manifest: Manifest)
    requires IsCheckpoint(hashes, initial, prefix, base, checkpoint)
    ensures var full := MaterializedState(hashes, initial, prefix + tail, manifest);
            var short := MaterializedFromCheckpoint(hashes, checkpoint, base, tail, manifest);
            && (full.Ok? <==> short.Ok? && HintsAgree(prefix, tail))
            && (full.Ok? ==> full == short)
  {
    if MaterializedState(hashes, initial, prefix + tail, manifest).Ok? {
      FullImpliesTail(hashes, initial, prefix, base, checkpoint, tail, manifest);
    }
    if MaterializedFromCheckpoint(hashes, checkpoint, base, tail, manifest).Ok? && HintsAgree(prefix, tail) {
      TailImpliesFull(hashes, initial, prefix, base, checkpoint, tail, manifest);
    }
  }
}

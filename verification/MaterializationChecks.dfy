/**
 * When a materialization is refused, and what a delta's identity covers (crates/ferrodoc-ir/src/state.rs).
 */
module MaterializationChecks {
  import opened Collections
  import opened DocumentIr
  import opened Validation
  import opened EvidenceState
  import opened Conservation
  import opened Determination
  import opened Selections
  import opened Admission
  import opened ReplayAdmission
  import opened Materialization

  // ---- Refusals ----

  /** The manifest speaks of this document's source and schema, under the one state schema tag. */
  predicate Speaks(manifest: Manifest, d: Document) {
    && manifest.schema == "ferrodoc-document-state/1"
    && manifest.sourceDigest == d.inputDigest && manifest.irSchema == d.schema
  }

  /** No two hints for one region differ. */
  ghost predicate HintsConsistent(deltas: seq<EvidenceDelta>) {
    forall a, b, h, k :: a in deltas && b in deltas && h in a.hints && k in b.hints && h.region == k.region ==>
      h.selected == k.selected
  }

  lemma AgreeingIff(deltas: seq<EvidenceDelta>)
    ensures Agreeing(AllHints(deltas)) <==> HintsConsistent(deltas)
  {
    if Agreeing(AllHints(deltas)) {
      forall a, b, h, k | a in deltas && b in deltas && h in a.hints && k in b.hints && h.region == k.region
        ensures h.selected == k.selected
      {
        assert (h.region, h.selected) in AllHints(deltas) && (k.region, k.selected) in AllHints(deltas);
      }
    }
  }

  /** A replay from a document succeeds exactly when each delta is admissible in turn and no two hints differ. */
  lemma ReplaysIff(hashes: Hashes, initial: Document, prefixIds: set<Id>, deltas: seq<EvidenceDelta>)
    requires UniqueKeys(DocumentFacts(initial) + Gather(DeltaFacts, deltas))
    ensures Replay(hashes, Progress(initial, map[]), prefixIds, deltas).Ok?
       <==> && ReplayAdmissible(initial.inputDigest, initial.schema, DocumentFacts(initial), deltas)
            && HintsConsistent(deltas)
  {
    ReplayIff(hashes, Progress(initial, map[]), prefixIds, deltas);
    NoPairs(AllHints(deltas));
    AgreeingIff(deltas);
  }

  /** The replay ends in a document that is of evidence grade once in order. */
  ghost predicate EndsWell(hashes: Hashes, initial: Document, prefixIds: set<Id>, deltas: seq<EvidenceDelta>) {
    var end := Replay(hashes, Progress(initial, map[]), prefixIds, deltas);
    end.Ok? && EvidenceGrade(Canonical(end.value.0.document))
  }

  /**
   * A materialization succeeds exactly when its manifest speaks of a valid initial document and records exactly the
   * identities represented, and the replay ends well.
   */
  lemma MaterializesIff(
      hashes: Hashes, initial: Document, prefixIds: set<Id>, deltas: seq<EvidenceDelta>, manifest: Manifest)
    ensures Materialized(hashes, initial, prefixIds, deltas, manifest).Ok?
       <==> && DocumentValid(initial) && Speaks(manifest, initial)
            && EndsWell(hashes, initial, prefixIds, deltas)
            && manifest.deltaIds == prefixIds + (set d | d in deltas :: hashes.delta(Projection(d)))
  {
    if Replay(hashes, Progress(initial, map[]), prefixIds, deltas).Ok? {
      ReplayIds(hashes, Progress(initial, map[]), prefixIds, deltas);
    }
  }

  /**
   * A run from a checkpoint is a materialization of the tail, refused exactly when the checkpoint's state is no prefix
   * of the requested one, or represents deltas without being the valid document its manifest records by digest.
   */
  lemma CheckpointRunIff(
      hashes: Hashes, checkpoint: Document, base: Manifest, tail: seq<EvidenceDelta>, manifest: Manifest)
    ensures var run := MaterializedFromCheckpoint(hashes, checkpoint, base, tail, manifest);
            if && base.schema == "ferrodoc-document-state/1"
               && base.sourceDigest == manifest.sourceDigest && base.irSchema == manifest.irSchema
               && base.deltaIds <= manifest.deltaIds
               && (base.deltaIds != {} ==>
                     && base.checkpoint.Some? && DocumentValid(checkpoint)
                     && base.checkpoint.value.documentDigest == hashes.document(checkpoint))
            then run == Materialized(hashes, checkpoint, base.deltaIds, tail, manifest)
            else run.Err?
  {
  }

  /** A document other than the recorded one is never taken for the checkpoint, unless their digests collide. */
  lemma TamperedCheckpointRefused(
      hashes: Hashes, initial: Document, prefix: seq<EvidenceDelta>, base: Manifest, checkpoint: Document,
      other: Document, tail: seq<EvidenceDelta>, manifest: Manifest)
    requires IsCheckpoint(hashes, initial, prefix, base, checkpoint) && prefix != []
    requires hashes.document(other) != hashes.document(checkpoint)
    ensures MaterializedFromCheckpoint(hashes, other, base, tail, manifest).Err?
  {
    CheckpointIds(hashes, initial, prefix, base, checkpoint);
    DeltaIdsHead(hashes, prefix);
    assert hashes.delta(Projection(prefix[0])) in base.deltaIds;
    CheckpointRunIff(hashes, other, base, tail, manifest);
  }

  // ---- What a delta's identity covers ----

  /** The same artifacts but for the token under which their bytes are held. */
  predicate SameArtifacts(a: seq<RenderArtifact>, b: seq<RenderArtifact>) {
    |a| == |b| && forall i: nat :: i < |a| ==>
      && a[i].id == b[i].id && a[i].digest == b[i].digest && a[i].mediaType == b[i].mediaType
      && a[i].width == b[i].width && a[i].height == b[i].height
  }

  predicate SamePageContent(a: Page, b: Page) {
    && a.id == b.id && a.index == b.index && a.bounds == b.bounds && a.layers == b.layers && a.regions == b.regions
    && a.readingOrder == b.readingOrder && SameArtifacts(a.artifacts, b.artifacts)
  }

  predicate SameAddition(a: PageDelta, b: PageDelta) {
    && a.page == b.page && a.layers == b.layers && a.regions == b.regions && a.regionEvidence == b.regionEvidence
    && a.edges == b.edges && SameArtifacts(a.artifacts, b.artifacts)
  }

  predicate SameContent(a: EvidenceDelta, b: EvidenceDelta) {
    && a.sourceDigest == b.sourceDigest && a.irSchema == b.irSchema && a.stage == b.stage && a.producer == b.producer
    && a.hints == b.hints
    && |a.newPages| == |b.newPages| && |a.pageAdditions| == |b.pageAdditions|
    && (forall i: nat :: i < |a.newPages| ==> SamePageContent(a.newPages[i], b.newPages[i]))
    && (forall i: nat :: i < |a.pageAdditions| ==> SameAddition(a.pageAdditions[i], b.pageAdditions[i]))
  }

  lemma LogicalArtifactsIff(a: seq<RenderArtifact>, b: seq<RenderArtifact>)
    ensures LogicalArtifacts(a) == LogicalArtifacts(b) <==> SameArtifacts(a, b)
  {
    var x, y := LogicalArtifacts(a), LogicalArtifacts(b);
    if x == y {
      forall i: nat | i < |a|
        ensures a[i].id == b[i].id && a[i].digest == b[i].digest && a[i].mediaType == b[i].mediaType
        ensures a[i].width == b[i].width && a[i].height == b[i].height
      {
        assert x[i] == y[i];
      }
    }
    if SameArtifacts(a, b) {
      forall i: nat | i < |x|
        ensures x[i] == y[i]
      {
      }
    }
  }

  lemma LogicalPageIff(a: Page, b: Page)
    ensures a.(artifacts := LogicalArtifacts(a.artifacts)) == b.(artifacts := LogicalArtifacts(b.artifacts))
       <==> SamePageContent(a, b)
  {
    LogicalArtifactsIff(a.artifacts, b.artifacts);
  }

  lemma LogicalAdditionIff(a: PageDelta, b: PageDelta)
    ensures a.(artifacts := LogicalArtifacts(a.artifacts)) == b.(artifacts := LogicalArtifacts(b.artifacts))
       <==> SameAddition(a, b)
  {
    LogicalArtifactsIff(a.artifacts, b.artifacts);
  }

  lemma PagesProjectAlike(a: EvidenceDelta, b: EvidenceDelta)
    ensures Projection(a).newPages == Projection(b).newPages
       <==> |a.newPages| == |b.newPages|
            && forall i: nat :: i < |a.newPages| ==> SamePageContent(a.newPages[i], b.newPages[i])
  {
    var x, y := Projection(a).newPages, Projection(b).newPages;
    if |a.newPages| == |b.newPages| {
      forall i: nat | i < |x|
        ensures x[i] == y[i] <==> SamePageContent(a.newPages[i], b.newPages[i])
      {
        LogicalPageIff(a.newPages[i], b.newPages[i]);
      }
    }
  }

  lemma AdditionsProjectAlike(a: EvidenceDelta, b: EvidenceDelta)
    ensures Projection(a).pageAdditions == Projection(b).pageAdditions
       <==> |a.pageAdditions| == |b.pageAdditions|
            && forall i: nat :: i < |a.pageAdditions| ==> SameAddition(a.pageAdditions[i], b.pageAdditions[i])
  {
    var x, y := Projection(a).pageAdditions, Projection(b).pageAdditions;
    if |a.pageAdditions| == |b.pageAdditions| {
      forall i: nat | i < |x|
        ensures x[i] == y[i] <==> SameAddition(a.pageAdditions[i], b.pageAdditions[i])
      {
        LogicalAdditionIff(a.pageAdditions[i], b.pageAdditions[i]);
      }
    }
  }

  /**
   * Two sound deltas share an identity, collisions aside, exactly when they add the same content for the same source by
   * the same producer: scope, prerequisites, diagnostics, coverage and the holding of artifact bytes play no part.
   */
  lemma IdentityCoversContent(hashes: Hashes, a: EvidenceDelta, b: EvidenceDelta)
    requires DeltaId(hashes, a).Ok? && DeltaId(hashes, b).Ok?
    requires forall p, q :: hashes.delta(p) == hashes.delta(q) ==> p == q
    ensures DeltaId(hashes, a) == DeltaId(hashes, b) <==> SameContent(a, b)
  {
    PagesProjectAlike(a, b);
    AdditionsProjectAlike(a, b);
    assert Projection(a) == Projection(b) <==> SameContent(a, b);
  }
}

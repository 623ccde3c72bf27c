/**
 * Why checkpoint transparency needs the hints to agree: a checkpoint run starts with no
 * recorded hints, so it may replace a selected view that full replay refuses to replace.
 */
module CheckpointConflict {
  import opened Collections
  import opened DocumentIr
  import opened ReadingOrder
  import opened Validation
  import opened EvidenceState
  import opened Materialization

  const SCHEMA := SchemaVersion(1, 0)
  const BOUNDS := PageRect(0, Rect(0.0, 0.0, 1.0, 1.0, Pdf), 0)
  const ORIGIN := Provenance(SCHEMA, 0, "engine", "1.0.0", None, "", Layout)
  const TARGET := PageRegionRef(1, 1)

  function Words(id: Id): Evidence {
    Evidence(id, 1, TextContent([]), None, UnknownQuality, None, ORIGIN, "")
  }

  /** One page with one region holding two competing texts. */
  function Sample(selected: Option<SelectedView>): Document {
    Document(SCHEMA, 1, 0, "", [
      Page(1, 0, BOUNDS, [SourceLayer(1, OcrLayer, ORIGIN)], [],
        [Region(1, Paragraph, BOUNDS, [Words(1), Words(2)], selected)], [])])
  }

  function View(id: Id): SelectedView {
    SelectedView([id], Reconciled, "")
  }

  /** A region-scoped delta whose only content is a hint for one of the texts. */
  function Hinting(id: Id): EvidenceDelta {
    EvidenceDelta(EVIDENCE_DELTA_SCHEMA, 0, SCHEMA, Reconcile, DeltaProducer("engine", "1.0.0", 0, None, 0),
      Regions({TARGET}), None, {}, [], [], [SelectionHint(TARGET, View(id))], [], [])
  }

  function StateManifest(ids: set<Id>, digest: Digest): Manifest {
    Manifest(DOCUMENT_STATE_SCHEMA, 0, SCHEMA, ids, 0, [], Some(Checkpoint(digest, 0, "")), {})
  }

  lemma SampleEvidence(selected: Option<SelectedView>)
    ensures PageEvidence(Sample(selected).pages[0]) == [Words(1), Words(2)]
  {
    var regions := Sample(selected).pages[0].regions;
    assert regions[..0] == [] && RegionsEvidence([]) == [];
    assert RegionsEvidence(regions) == RegionsEvidence(regions[..0]) + regions[0].evidence;
  }

  lemma SampleRegionValid(selected: Option<SelectedView>)
    requires selected == None || selected == Some(View(1)) || selected == Some(View(2))
    ensures RegionValid(Sample(selected).pages[0], Sample(selected).pages[0].regions[0])
  {
    var page := Sample(selected).pages[0];
    HasMeans(LayerId, page.layers, 1);
    assert page.layers[0] in page.layers && LayerId(page.layers[0]) == 1;
    var texts := [Words(1), Words(2)];
    HasMeans(EvidenceId, texts, 1);
    HasMeans(EvidenceId, texts, 2);
    assert texts[0] in texts && EvidenceId(texts[0]) == 1;
    assert texts[1] in texts && EvidenceId(texts[1]) == 2;
    assert SelectionValid(page.regions[0]);
  }

  lemma NoEdgesAcyclic()
    ensures Acyclic([])
  {
    RankedIsAcyclic([], map[]);
  }

  lemma SamplePageValid(selected: Option<SelectedView>)
    requires selected == None || selected == Some(View(1)) || selected == Some(View(2))
    ensures PageValid(Sample(selected).pages[0]) && TablesValid(Sample(selected).pages[0], true)
  {
    SampleEvidence(selected);
    SampleTables(Sample(selected).pages[0]);
    SampleRegionValid(selected);
    NoEdgesAcyclic();
  }

  lemma SampleTables(page: Page)
    requires PageEvidence(page) == [Words(1), Words(2)]
    ensures TablesValid(page, true) && TablesValid(page, false)
    ensures Distinct(EvidenceId, PageEvidence(page))
  {
  }

  lemma SampleValid(selected: Option<SelectedView>)
    requires selected == None || selected == Some(View(1)) || selected == Some(View(2))
    ensures EvidenceGrade(Sample(selected))
  {
    SamplePageValid(selected);
  }

  lemma SampleCanonical(id: Id)
    ensures Canonical(Sample(Some(View(id)))) == Sample(Some(View(id)))
  {
    var d := Sample(Some(View(id)));
    var page := d.pages[0];
    SortOne(PageSortKey, page);
    SortOne(LayerKey, page.layers[0]);
    SortOne(RegionKeyOf, page.regions[0]);
    SortOne(IdKey, id);
    SortTwo();
    assert CanonicalRegions(page.regions) == page.regions;
    assert CanonicalPage(page) == page;
  }

  lemma SortOne<T>(key: T -> Key, x: T)
    ensures SortBy(key, [x]) == [x]
  {
    assert [x][1..] == [];
  }

  lemma SortTwo()
    ensures SortBy(EvidenceKey, [Words(1), Words(2)]) == [Words(1), Words(2)]
  {
    assert [Words(1), Words(2)][1..] == [Words(2)];
    SortOne(EvidenceKey, Words(2));
  }

  lemma HintingAdmitted(selected: Option<SelectedView>, id: Id)
    ensures AdmissionFailure(Sample(selected), Hinting(id)) == None
    ensures HasRegion(Sample(selected), TARGET) && HintInScope(Hinting(id), TARGET)
  {
    TargetPresent(selected);
    HintingNamed(id);
  }

  lemma HintingNamed(id: Id)
    ensures EnvelopeFailure(Hinting(id)) == None
  {
    assert 'e' in "engine" && '1' in "1.0.0";
  }

  lemma TargetPresent(selected: Option<SelectedView>)
    ensures HasRegion(Sample(selected), TARGET)
  {
    var d := Sample(selected);
    HasMeans(PageId, d.pages, 1);
    assert d.pages[0] in d.pages && PageId(d.pages[0]) == 1;
    HasMeans(RegionId, d.pages[0].regions, 1);
    assert d.pages[0].regions[0] in d.pages[0].regions && RegionId(d.pages[0].regions[0]) == 1;
  }

  lemma HintingApplied(hashes: Hashes, selected: Option<SelectedView>, id: Id)
    ensures Apply(Progress(Sample(selected), map[]), Hinting(id))
         == Ok(Progress(Sample(Some(View(id))), map[TARGET := View(id)]))
  {
    HintingAdmitted(selected, id);
    var progress := Progress(Sample(selected), map[]);
    var hint := SelectionHint(TARGET, View(id));
    var page := progress.document.pages[0];
    assert page.regions[0 := page.regions[0].(selected := Some(View(id)))] == Sample(Some(View(id))).pages[0].regions;
    assert Select(page, 0, View(id)) == Sample(Some(View(id))).pages[0];
    assert progress.document.pages[0 := Select(page, 0, View(id))] == Sample(Some(View(id))).pages;
    assert IndexOf(PageId, progress.document.pages, 1) == 0 && IndexOf(RegionId, page.regions, 1) == 0;
    assert ApplyHint(progress, hint) == Progress(Sample(Some(View(id))), map[TARGET := View(id)]);
    assert [hint][1..] == [];
    assert ApplyHints(progress, Hinting(id), [hint]) == Ok(ApplyHint(progress, hint));
    assert progress.document.(pages := progress.document.pages) == progress.document;
  }

  lemma FirstReplay(hashes: Hashes, selected: Option<SelectedView>, ids: set<Id>, id: Id)
    ensures Replay(hashes, Progress(Sample(selected), map[]), ids, [Hinting(id)])
      == Ok((Progress(Sample(Some(View(id))), map[TARGET := View(id)]), ids + {hashes.delta(Projection(Hinting(id)))}))
  {
    HintingApplied(hashes, selected, id);
    HintingAdmitted(selected, id);
    assert [Hinting(id)][1..] == [];
    var next := Progress(Sample(Some(View(id))), map[TARGET := View(id)]);
    var represented := ids + {hashes.delta(Projection(Hinting(id)))};
    assert Replay(hashes, next, represented, []) == Ok((next, represented));
  }

  lemma SecondConflicts(hashes: Hashes, ids: set<Id>)
    ensures Replay(hashes, Progress(Sample(None), map[]), ids, [Hinting(1), Hinting(2)]) == Err(ConflictingHints)
  {
    HintingApplied(hashes, None, 1);
    HintingAdmitted(None, 1);
    HintingAdmitted(Some(View(1)), 2);
    assert [Hinting(1), Hinting(2)][1..] == [Hinting(2)];
    var next := Progress(Sample(Some(View(1))), map[TARGET := View(1)]);
    assert ApplyHints(next, Hinting(2), Hinting(2).hints) == Err(ConflictingHints);
    assert next.document.(pages := next.document.pages) == next.document;
    assert Apply(next, Hinting(2)) == Err(ConflictingHints);
  }

  function FirstId(hashes: Hashes): Id { hashes.delta(Projection(Hinting(1))) }

  function SecondId(hashes: Hashes): Id { hashes.delta(Projection(Hinting(2))) }

  function Base(hashes: Hashes): Manifest {
    StateManifest({FirstId(hashes)}, hashes.document(Sample(Some(View(1)))))
  }

  function Final(hashes: Hashes): Manifest {
    StateManifest({FirstId(hashes), SecondId(hashes)}, 0)
  }

  lemma BaseReached(hashes: Hashes)
    ensures IsCheckpoint(hashes, Sample(None), [Hinting(1)], Base(hashes), Sample(Some(View(1))))
  {
    FirstReplay(hashes, None, {}, 1);
    SampleValid(None);
    SampleValid(Some(View(1)));
    SampleCanonical(1);
    assert {} + {FirstId(hashes)} == {FirstId(hashes)};
  }

  /** The manifests and the digest of the checkpoint pass their checks. */
  lemma CheckpointChecked(hashes: Hashes, checkpoint: Document, tail: seq<EvidenceDelta>)
    requires checkpoint == Sample(Some(View(1)))
    ensures MaterializedFromCheckpoint(hashes, checkpoint, Base(hashes), tail, Final(hashes))
         == Materialized(hashes, checkpoint, {FirstId(hashes)}, tail, Final(hashes))
  {
    SampleValid(Some(View(1)));
  }

  lemma TailAccepted(hashes: Hashes)
    ensures MaterializedFromCheckpoint(hashes, Sample(Some(View(1))), Base(hashes), [Hinting(2)], Final(hashes))
      == Ok(Sample(Some(View(2))))
  {
    var checkpoint, ids := Sample(Some(View(1))), {FirstId(hashes)};
    CheckpointChecked(hashes, checkpoint, [Hinting(2)]);
    FirstReplay(hashes, Some(View(1)), ids, 2);
    SampleValid(Some(View(1)));
    SampleValid(Some(View(2)));
    SampleCanonical(2);
    assert ids + {SecondId(hashes)} == {FirstId(hashes), SecondId(hashes)};
    var end := Progress(Sample(Some(View(2))), map[TARGET := View(2)]);
    Reached(hashes, checkpoint, ids, [Hinting(2)], Final(hashes), end, ids + {SecondId(hashes)});
  }

  /** The full replay reports a conflict; the run from the checkpoint selects the second text. */
  lemma CheckpointMayReplaceSelection(hashes: Hashes)
    ensures IsCheckpoint(hashes, Sample(None), [Hinting(1)], Base(hashes), Sample(Some(View(1))))
    ensures MaterializedState(hashes, Sample(None), [Hinting(1), Hinting(2)], Final(hashes)) == Err(ConflictingHints)
    ensures MaterializedFromCheckpoint(hashes, Sample(Some(View(1))), Base(hashes), [Hinting(2)], Final(hashes))
      == Ok(Sample(Some(View(2))))
  {
    BaseReached(hashes);
    TailAccepted(hashes);
    SampleValid(None);
    SecondConflicts(hashes, {});
  }
}

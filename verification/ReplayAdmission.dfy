/** When a delta, and a whole replay, is accepted (crates/ferrodoc-ir/src/state.rs). */
module ReplayAdmission {
  import opened Collections
  import opened DocumentIr
  import opened EvidenceState
  import opened Conservation
  import opened Determination
  import opened Selections
  import opened FactPresence
  import opened Admission

  lemma AgreeingSplit(hints: Hints, h: SelectionHint, rest: seq<SelectionHint>)
    requires h.region in hints ==> hints[h.region] == h.selected
    ensures Pairs(hints[h.region := h.selected]) + HintPairs(rest) == Pairs(hints) + HintPairs([h] + rest)
  {
    AddPair(hints, h.region, h.selected);
    assert HintPairs([h] + rest) == {(h.region, h.selected)} + HintPairs(rest);
  }

  lemma {:induction false} ApplyHintsIff(progress: Progress, delta: EvidenceDelta, hints: seq<SelectionHint>)
    requires UniqueKeys(DocumentFacts(progress.document))
    ensures ApplyHints(progress, delta, hints).Ok? <==>
      && HintsResolve(DocumentFacts(progress.document), delta, hints)
      && Agreeing(Pairs(progress.hints) + HintPairs(hints))
    decreases |hints|
  {
    if hints == [] {
      AgreeingMap(progress.hints);
    } else {
      var h := hints[0];
      HintsResolveHead(DocumentFacts(progress.document), delta, hints);
      HintResolvesIff(progress.document, delta, h.region);
      if HintInScope(delta, h.region) && HasRegion(progress.document, h.region) {
        if h.region in progress.hints && progress.hints[h.region] != h.selected {
          DisagreeingPair(progress.hints, hints, h);
        } else {
          ApplyHintFacts(progress, h);
          AgreeingSplit(progress.hints, h, hints[1..]);
          ApplyHintsIff(ApplyHint(progress, h), delta, hints[1..]);
        }
      }
    }
  }

  lemma HintResolvesIff(d: Document, delta: EvidenceDelta, target: PageRegionRef)
    requires UniqueKeys(DocumentFacts(d))
    ensures HintResolves(DocumentFacts(d), delta, target) <==> HintInScope(delta, target) && HasRegion(d, target)
  {
    HintContainedIff(delta, target);
    UniqueKeysMeans(d);
    RegionPresentIff(d, target);
  }

  lemma HintsResolveHead(facts: Facts, delta: EvidenceDelta, hints: seq<SelectionHint>)
    requires hints != []
    ensures hints == [hints[0]] + hints[1..]
    ensures HintsResolve(facts, delta, hints) <==>
            HintResolves(facts, delta, hints[0].region) && HintsResolve(facts, delta, hints[1..])
  {
    assert hints == [hints[0]] + hints[1..];
  }

  lemma AgreeingMap(hints: Hints)
    ensures Agreeing(Pairs(hints)) && Pairs(hints) + HintPairs([]) == Pairs(hints)
  {
  }

  lemma DisagreeingPair(hints: Hints, given: seq<SelectionHint>, h: SelectionHint)
    requires h in given && h.region in hints && hints[h.region] != h.selected
    ensures !Agreeing(Pairs(hints) + HintPairs(given))
  {
    var pairs := Pairs(hints) + HintPairs(given);
    assert (h.region, hints[h.region]) in pairs && (h.region, h.selected) in pairs;
  }

  /** A delta applies exactly when it is admissible and its hints agree with the earlier ones. */
  lemma ApplyIff(progress: Progress, delta: EvidenceDelta)
    requires UniqueKeys(DocumentFacts(progress.document) + DeltaFacts(delta))
    ensures Apply(progress, delta).Ok? <==>
      && Admissible(progress.document.inputDigest, progress.document.schema, DocumentFacts(progress.document), delta)
      && Agreeing(Pairs(progress.hints) + HintPairs(delta.hints))
  {
    var d := progress.document;
    UniqueSubset(DocumentFacts(d), DocumentFacts(d) + DeltaFacts(delta));
    UniqueKeysMeans(d);
    AdmissionIff(d, delta);
    if AdmissionFailure(d, delta).None? {
      ContentIff(d, delta);
      if AddPages(d.pages, delta.newPages).Ok? &&
           AddContent(AddPages(d.pages, delta.newPages).value, delta.pageAdditions).Ok? {
        var extended := AddContent(AddPages(d.pages, delta.newPages).value, delta.pageAdditions).value;
        ApplyHintsIff(Progress(d.(pages := extended), progress.hints), delta, delta.hints);
      }
    }
  }

  lemma ContentIff(d: Document, delta: EvidenceDelta)
    requires UniqueKeys(DocumentFacts(d) + DeltaFacts(delta)) && Distinct(PageId, delta.newPages)
    ensures (AddPages(d.pages, delta.newPages).Ok? &&
            AddContent(AddPages(d.pages, delta.newPages).value, delta.pageAdditions).Ok?)
      <==> Absent(DocumentFacts(d), delta.newPages)
           && AdditionsAdmissible(DocumentFacts(d) + Gather(PageFacts, delta.newPages), delta.pageAdditions)
    ensures (AddPages(d.pages, delta.newPages).Ok? &&
            AddContent(AddPages(d.pages, delta.newPages).value, delta.pageAdditions).Ok?)
      ==> Gather(PageFacts, AddContent(AddPages(d.pages, delta.newPages).value, delta.pageAdditions).value)
          == DocumentFacts(d) + DeltaFacts(delta)
  {
    var added, content := Gather(PageFacts, delta.newPages), Gather(AdditionFacts, delta.pageAdditions);
    AddFacts(DocumentFacts(d), added, content);
    AddPagesIff(d.pages, delta.newPages);
    if AddPages(d.pages, delta.newPages).Ok? {
      var grown := d.(pages := AddPages(d.pages, delta.newPages).value);
      AddPagesFacts(d.pages, delta.newPages);
      AddContentIff(grown, delta.pageAdditions);
      if AddContent(grown.pages, delta.pageAdditions).Ok? {
        AddContentFacts(grown.pages, delta.pageAdditions);
      }
    }
  }

  /** Admissibility of a list of deltas, each over the facts accumulated before it. */
  ghost predicate ReplayAdmissible(source: Digest, schema: SchemaVersion, facts: Facts, deltas: seq<EvidenceDelta>)
    decreases |deltas|
  {
    deltas == [] ||
    (Admissible(source, schema, facts, deltas[0])
     && ReplayAdmissible(source, schema, facts + DeltaFacts(deltas[0]), deltas[1..]))
  }

  /** A replay succeeds exactly when its deltas are admissible in turn and all hints agree. */
  lemma {:induction false} ReplayIff(
      hashes: Hashes, progress: Progress, represented: set<Id>, deltas: seq<EvidenceDelta>)
    requires UniqueKeys(DocumentFacts(progress.document) + Gather(DeltaFacts, deltas))
    ensures Replay(hashes, progress, represented, deltas).Ok? <==>
      && ReplayAdmissible(progress.document.inputDigest, progress.document.schema, DocumentFacts(progress.document),
           deltas)
      && Agreeing(Pairs(progress.hints) + AllHints(deltas))
    decreases |deltas|
  {
    var facts := DocumentFacts(progress.document);
    if deltas == [] {
      assert Agreeing(Pairs(progress.hints) + AllHints(deltas));
    } else {
      var delta := deltas[0];
      AddFacts(facts, DeltaFacts(delta), Gather(DeltaFacts, deltas[1..]));
      ApplyIff(progress, delta);
      AllHintsHead(deltas);
      AgreeingParts(Pairs(progress.hints), HintPairs(delta.hints), AllHints(deltas[1..]));
      if DeltaId(hashes, delta).Ok? && Apply(progress, delta).Ok? {
        var next := Apply(progress, delta).value;
        ApplyFacts(progress, delta);
        var middle := BeforeHints(progress, delta);
        ApplyHintsPairs(middle, delta, delta.hints);
        ReplayIff(hashes, next, represented + {DeltaId(hashes, delta).value}, deltas[1..]);
      }
    }
  }

  lemma AgreeingParts(a: set<(PageRegionRef, SelectedView)>, b: set<(PageRegionRef, SelectedView)>,
                      c: set<(PageRegionRef, SelectedView)>)
    ensures a + b + c == a + (b + c)
    ensures Agreeing(a + (b + c)) ==> Agreeing(a + b)
  {
  }

  lemma {:induction false} ReplayAdmissibleConcat(
      source: Digest, schema: SchemaVersion, facts: Facts, a: seq<EvidenceDelta>, b: seq<EvidenceDelta>)
    ensures ReplayAdmissible(source, schema, facts, a + b) <==>
      ReplayAdmissible(source, schema, facts, a) && ReplayAdmissible(source, schema, facts + Gather(DeltaFacts, a), b)
    decreases |a|
  {
    if a == [] {
      assert a + b == b;
      assert facts + Gather(DeltaFacts, a) == facts;
    } else {
      assert (a + b)[1..] == a[1..] + b;
      ReplayAdmissibleConcat(source, schema, facts + DeltaFacts(a[0]), a[1..], b);
      AddFacts(facts, DeltaFacts(a[0]), Gather(DeltaFacts, a[1..]));
    }
  }
}

/**
 * What the planner offers (crates/ferrodoc-runtime/src/enrichment.rs), said of the registered stages and the accepted
 * placements: which plans a pick of alternatives makes, and that of those exactly the undominated ones are offered.
 */
module PlanMeaning {
  import opened Collections
  import opened DocumentIr
  import opened EvidenceState
  import opened PlanEstimates
  import opened ParetoPlans
  import opened EnrichmentPlanner
  import opened PlanMeasures
  import opened PlanAlternatives

  // ---- The hard limits ----

  /** Under a limit: the values all known and adding up to no more, or some unknown where that is allowed. */
  ghost predicate Within(f: Invocation -> Option<nat>, plan: seq<Invocation>, limit: Option<nat>, allowUnknown: bool) {
    limit.Some? ==> if AllGiven(f, plan) then TotalOf(f, plan) <= limit.value else allowUnknown
  }

  /** A total that has to be formed fits 64 bits. */
  ghost predicate TotalFits(f: Invocation -> Option<nat>, plan: seq<Invocation>, limit: Option<nat>) {
    limit.Some? && AllGiven(f, plan) ==> TotalOf(f, plan) < U64
  }

  ghost predicate Admitted(options: Options, plan: seq<Invocation>) {
    && Within(Price, plan, options.maxRemoteCost, options.allowUnknown)
    && Within(Delay, plan, options.deadline, options.allowUnknown)
  }

  lemma WithinIff(
      f: Invocation -> Option<nat>, field: Resources -> Option<nat>, plan: seq<Invocation>, limit: Option<nat>,
      allowUnknown: bool)
    requires forall i: Invocation :: f(i) == field(i.resources)
    ensures WithinLimit(ResourceValues(field, plan), limit, allowUnknown)
         == if TotalFits(f, plan, limit) then Ok(Within(f, plan, limit, allowUnknown)) else Err(EstimateOverflow)
  {
    KnownSumMeans(f, plan, ResourceValues(field, plan));
  }

  /** A plan is admitted exactly when both limits that are set are kept, a total that overflows being an error. */
  lemma AdmittedIff(options: Options, plan: seq<Invocation>)
    ensures HardAdmission(plan, options) == Ok(true)
       <==> && Admitted(options, plan)
            && TotalFits(Price, plan, options.maxRemoteCost) && TotalFits(Delay, plan, options.deadline)
    ensures HardAdmission(plan, options).Err?
       <==> || !TotalFits(Price, plan, options.maxRemoteCost)
            || (Within(Price, plan, options.maxRemoteCost, options.allowUnknown)
                && !TotalFits(Delay, plan, options.deadline))
  {
    WithinIff(Price, RemoteCost, plan, options.maxRemoteCost, options.allowUnknown);
    WithinIff(Delay, Latency, plan, options.deadline, options.allowUnknown);
  }

  // ---- The explanation ----

  /** What is registered of the stage that an invocation runs. */
  ghost function ProfileOf(s: Setting, i: Invocation): Profile {
    if k: nat :| k < |s.stages| && s.stages[k].id == i.key.stageId then s.stages[k].profile
    else Profile(Unknown, Unknown, Unknown, Unknown, Unknown, Unknown, Unknown)
  }

  lemma {:induction false} StageAtMeans(stages: seq<EnrichmentPlanner.Stage>, id: string)
    ensures StageAt(stages, id).Some? ==> exists k: nat :: k < |stages| && stages[k] == StageAt(stages, id).value
    ensures StageAt(stages, id).Some? ==> StageAt(stages, id).value.id == id
    ensures StageAt(stages, id).None? ==> forall k: nat :: k < |stages| ==> stages[k].id != id
  {
    if stages != [] && stages[0].id != id {
      StageAtMeans(stages[1..], id);
      if StageAt(stages[1..], id).Some? {
        var k: nat :| k < |stages[1..]| && stages[1..][k] == StageAt(stages[1..], id).value;
        assert stages[k + 1] == StageAt(stages, id).value;
      } else {
        assert forall k: nat :: 0 < k < |stages| ==> stages[k] == stages[1..][k - 1];
      }
    }
  }

  lemma ProfilesAre(s: Setting, plan: seq<Invocation>)
    requires DistinctStages(s.stages)
    ensures forall k: nat :: k < |plan| ==> Profiles(s, plan)[k] == ProfileOf(s, plan[k])
  {
    forall k: nat | k < |plan|
      ensures Profiles(s, plan)[k] == ProfileOf(s, plan[k])
    {
      StageAtMeans(s.stages, plan[k].key.stageId);
    }
  }

  ghost function GainOf(s: Setting): Invocation -> Estimate { (i: Invocation) => ProfileOf(s, i).gain }
  ghost function SuccessOf(s: Setting): Invocation -> Estimate { (i: Invocation) => ProfileOf(s, i).success }
  ghost function QualityOf(s: Setting): Invocation -> Estimate { (i: Invocation) => ProfileOf(s, i).quality }
  ghost function CpuOf(s: Setting): Invocation -> Estimate { (i: Invocation) => ProfileOf(s, i).cpu }
  ghost function GpuOf(s: Setting): Invocation -> Estimate { (i: Invocation) => ProfileOf(s, i).gpu }
  ghost function ReadOf(s: Setting): Invocation -> Estimate { (i: Invocation) => ProfileOf(s, i).readBytes }
  ghost function WrittenOf(s: Setting): Invocation -> Estimate { (i: Invocation) => ProfileOf(s, i).writeBytes }

  /** Gains add up to at most 10000 basis points, success and quality are those of the weakest, all else adds up. */
  ghost predicate Explained(s: Setting, plan: seq<Invocation>, e: Explanation) {
    && Summed(GainOf(s), plan, Some(10000), e.gain)
    && Lowest(SuccessOf(s), plan, e.success)
    && Lowest(QualityOf(s), plan, e.quality)
    && Summed(CpuOf(s), plan, None, e.cpu)
    && Summed(GpuOf(s), plan, None, e.gpu)
    && Summed(ReadOf(s), plan, None, e.readBytes)
    && Summed(WrittenOf(s), plan, None, e.writeBytes)
  }

  /** Unless some estimate is unknown, the upper bounds add up within 64 bits. */
  ghost predicate AddsUp<T(!new)>(f: T -> Estimate, s: seq<T>) {
    s == [] || SomeUnknown(f, s) || SumBy((x: T) => UpperOf(f(x)), s) < U64
  }

  ghost function OnFamily(plan: seq<Invocation>, family: string): seq<Invocation> {
    if plan == [] then []
    else
      var rest, last := OnFamily(plan[..|plan| - 1], family), plan[|plan| - 1];
      if last.key.device.Accelerator? && last.key.device.family == family then rest + [last] else rest
  }

  ghost predicate OnDevice(plan: seq<Invocation>, family: string) {
    exists i :: i in plan && i.key.device.Accelerator? && i.key.device.family == family
  }

  /** The estimates can be added up, those of the accelerator also for each device family alone. */
  ghost predicate Explainable(s: Setting, plan: seq<Invocation>) {
    && AddsUp(GainOf(s), plan) && AddsUp(CpuOf(s), plan) && AddsUp(GpuOf(s), plan)
    && AddsUp(ReadOf(s), plan) && AddsUp(WrittenOf(s), plan)
    && forall family :: OnDevice(plan, family) ==> AddsUp(GpuOf(s), OnFamily(plan, family))
  }

  /** Registration refuses a second stage of one identity, and a profile with an improper interval. */
  ghost predicate Registered(s: Setting) {
    && ValidSetting(s) && DistinctStages(s.stages)
    && forall k: nat :: k < |s.stages| ==> ExplanationWellFormed(s.stages[k].profile)
  }

  lemma ProfileProper(s: Setting, i: Invocation)
    requires Registered(s)
    ensures ExplanationWellFormed(ProfileOf(s, i))
  {
  }

  lemma DimensionIs(s: Setting, plan: seq<Invocation>, field: Profile -> Estimate, f: Invocation -> Estimate)
    requires DistinctStages(s.stages) && forall i :: f(i) == field(ProfileOf(s, i))
    ensures Dimension(field, Profiles(s, plan)) == Mapped(f, plan)
  {
    ProfilesAre(s, plan);
  }

  lemma DimensionsAre(s: Setting, plan: seq<Invocation>)
    requires DistinctStages(s.stages)
    ensures Dimension(Gain, Profiles(s, plan)) == Mapped(GainOf(s), plan)
    ensures Dimension(Success, Profiles(s, plan)) == Mapped(SuccessOf(s), plan)
    ensures Dimension(Quality, Profiles(s, plan)) == Mapped(QualityOf(s), plan)
    ensures Dimension(CpuTime, Profiles(s, plan)) == Mapped(CpuOf(s), plan)
    ensures Dimension(GpuTime, Profiles(s, plan)) == Mapped(GpuOf(s), plan)
    ensures Dimension(ReadBytes, Profiles(s, plan)) == Mapped(ReadOf(s), plan)
    ensures Dimension(WriteBytes, Profiles(s, plan)) == Mapped(WrittenOf(s), plan)
  {
    DimensionIs(s, plan, Gain, GainOf(s));
    DimensionIs(s, plan, Success, SuccessOf(s));
    DimensionIs(s, plan, Quality, QualityOf(s));
    DimensionIs(s, plan, CpuTime, CpuOf(s));
    DimensionIs(s, plan, GpuTime, GpuOf(s));
    DimensionIs(s, plan, ReadBytes, ReadOf(s));
    DimensionIs(s, plan, WriteBytes, WrittenOf(s));
  }

  lemma {:induction false} FamilyEstimates(s: Setting, plan: seq<Invocation>, family: string, n: nat)
    requires DistinctStages(s.stages) && n <= |plan|
    ensures GpuOn(plan, Profiles(s, plan), family, n) == Mapped(GpuOf(s), OnFamily(plan[..n], family))
  {
    if n > 0 {
      FamilyEstimates(s, plan, family, n - 1);
      ProfilesAre(s, plan);
      assert plan[..n][..n - 1] == plan[..n - 1];
    }
  }

  lemma AggregateIff(s: Setting, f: Invocation -> Estimate, plan: seq<Invocation>, operation: Operation)
    requires forall i :: WellFormed(f(i))
    ensures operation != Minimum ==> (Aggregate(operation, Mapped(f, plan)).Ok? <==> AddsUp(f, plan))
    ensures operation == Minimum ==> Aggregate(operation, Mapped(f, plan)).Ok?
  {
    AggregatesOf(f, plan, operation);
  }

  lemma GroupsIff(s: Setting, plan: seq<Invocation>)
    requires Registered(s)
    ensures GpuGroupFails(plan, Profiles(s, plan))
       <==> exists family :: OnDevice(plan, family) && !AddsUp(GpuOf(s), OnFamily(plan, family))
  {
    forall family
      ensures Aggregate(Sum, GpuOn(plan, Profiles(s, plan), family, |plan|)).Ok?
         <==> AddsUp(GpuOf(s), OnFamily(plan, family))
    {
      FamilyEstimates(s, plan, family, |plan|);
      assert plan[..|plan|] == plan;
      forall i
        ensures WellFormed(GpuOf(s)(i))
      {
        ProfileProper(s, i);
      }
      AggregateIff(s, GpuOf(s), OnFamily(plan, family), Sum);
    }
    if family :| OnDevice(plan, family) && !AddsUp(GpuOf(s), OnFamily(plan, family)) {
      var i :| i in plan && i.key.device.Accelerator? && i.key.device.family == family;
    }
  }

  lemma ExplainSucceeds(s: Setting, plan: seq<Invocation>)
    requires Registered(s)
    ensures Explain(s, plan).Ok? <==> Explainable(s, plan)
  {
    DimensionsAre(s, plan);
    forall i
      ensures ExplanationWellFormed(ProfileOf(s, i))
    {
      ProfileProper(s, i);
    }
    AggregateIff(s, GainOf(s), plan, SumCapped(10000));
    AggregateIff(s, SuccessOf(s), plan, Minimum);
    AggregateIff(s, QualityOf(s), plan, Minimum);
    AggregateIff(s, CpuOf(s), plan, Sum);
    AggregateIff(s, GpuOf(s), plan, Sum);
    AggregateIff(s, ReadOf(s), plan, Sum);
    AggregateIff(s, WrittenOf(s), plan, Sum);
    GroupsIff(s, plan);
  }

  /** Every field of an explanation is formed from the profile field of that name. */
  lemma ExplainMeans(s: Setting, plan: seq<Invocation>)
    requires DistinctStages(s.stages) && Explain(s, plan).Ok?
    ensures Explained(s, plan, Explain(s, plan).value)
  {
    DimensionsAre(s, plan);
    SummedMeans(GainOf(s), plan, Some(10000));
    LowestMeans(SuccessOf(s), plan);
    LowestMeans(QualityOf(s), plan);
    SummedMeans(CpuOf(s), plan, None);
    SummedMeans(GpuOf(s), plan, None);
    SummedMeans(ReadOf(s), plan, None);
    SummedMeans(WrittenOf(s), plan, None);
  }

  lemma LowestUnique<T(!new)>(f: T -> Estimate, s: seq<T>, a: Estimate, b: Estimate)
    requires Lowest(f, s, a) && Lowest(f, s, b)
    ensures a == b
  {
  }

  lemma ExplainedUnique(s: Setting, plan: seq<Invocation>, a: Explanation, b: Explanation)
    requires Explained(s, plan, a) && Explained(s, plan, b)
    ensures a == b
  {
    LowestUnique(SuccessOf(s), plan, a.success, b.success);
    LowestUnique(QualityOf(s), plan, a.quality, b.quality);
  }

  // ---- The plan a pick makes ----

  ghost predicate KeysAre(s: Setting, plan: seq<Invocation>, keys: seq<nat>) {
    |keys| == |plan| && forall k: nat :: k < |plan| ==> keys[k] == s.keyOrder(plan[k].key)
  }

  /** The identity of a plan hangs on its semantic keys alone. */
  ghost predicate Identified(s: Setting, c: CandidatePlan) {
    exists keys :: KeysAre(s, c.invocations, keys) && c.id == s.planId(keys)
  }

  /** What a pick makes: its plan within the hard limits, identified by its keys, with its explanation. */
  ghost predicate Makes(s: Setting, picks: seq<Invocation>, c: CandidatePlan) {
    && MadeOf(s, picks, c.invocations)
    && Admitted(s.options, c.invocations)
    && TotalFits(Price, c.invocations, s.options.maxRemoteCost) && TotalFits(Delay, c.invocations, s.options.deadline)
    && Identified(s, c)
    && Explainable(s, c.invocations) && Explained(s, c.invocations, c.explanation)
  }

  lemma IdentifiedBy(s: Setting, c: CandidatePlan)
    ensures Identified(s, c) <==> c.id == s.planId(KeysOf(s, c.invocations))
  {
    assert KeysAre(s, c.invocations, KeysOf(s, c.invocations));
    forall keys | KeysAre(s, c.invocations, keys)
      ensures keys == KeysOf(s, c.invocations)
    {
    }
  }

  /** The planner turns a pick into a candidate exactly as it should. */
  lemma MakesIff(s: Setting, picks: seq<Invocation>, c: CandidatePlan)
    requires Registered(s)
    ensures CandidateOf(s, Merged(picks)) == Ok(Some(c)) <==> Makes(s, picks, c)
  {
    var plan := Pruned(s, Merged(picks));
    PrunedIsMade(s, picks);
    AdmittedIff(s.options, plan);
    ExplainSucceeds(s, plan);
    IdentifiedBy(s, c);
    if Makes(s, picks, c) {
      MadeUnique(s, picks, plan, c.invocations);
      ExplainMeans(s, plan);
      ExplainedUnique(s, plan, Explain(s, plan).value, c.explanation);
    }
    if CandidateOf(s, Merged(picks)) == Ok(Some(c)) {
      ExplainMeans(s, plan);
    }
  }

  // ---- What is offered ----

  /** One alternative for every missing goal. */
  ghost predicate Picked(
      s: Setting, goals: seq<CapabilityGoal>, coverage: seq<CoverageEntry>, picks: seq<Invocation>)
  {
    |picks| == |goals| && forall k: nat :: k < |goals| ==> Alternative(s, s.stages, goals[k], coverage, picks[k])
  }

  ghost predicate Possible(s: Setting, goals: seq<CapabilityGoal>, coverage: seq<CoverageEntry>, c: CandidatePlan) {
    exists picks :: Picked(s, goals, coverage, picks) && Makes(s, picks, c)
  }

  /** No worse, and somewhere better, with certainty. */
  ghost predicate Beats(a: CandidatePlan, b: CandidatePlan) {
    && NoCostlier(a.invocations, b.invocations) && SurelyNoWorse(a.explanation, b.explanation)
    && (CheaperSomewhere(a.invocations, b.invocations) || SurelyBetterSomewhere(a.explanation, b.explanation))
  }

  ghost predicate OfferedOrBeaten(
      s: Setting, goals: seq<CapabilityGoal>, coverage: seq<CoverageEntry>, pareto: seq<CandidatePlan>,
      c: CandidatePlan)
  {
    exists kept :: Possible(s, goals, coverage, kept) && kept.id == c.id
      && exists p :: p in pareto && (p == kept || Beats(p, kept))
  }

  /** Possible plans none of which beats another, and for every possible plan its like or one that beats it. */
  ghost predicate Offers(
      s: Setting, goals: seq<CapabilityGoal>, coverage: seq<CoverageEntry>, pareto: seq<CandidatePlan>)
  {
    && pareto != []
    && (forall p :: p in pareto ==> Possible(s, goals, coverage, p))
    && (forall p, q :: p in pareto && q in pareto ==> !Beats(p, q))
    && (forall c :: Possible(s, goals, coverage, c) ==> OfferedOrBeaten(s, goals, coverage, pareto, c))
  }

  lemma PicksIff(
      s: Setting, goals: seq<CapabilityGoal>, coverage: seq<CoverageEntry>, choices: seq<seq<Invocation>>,
      picks: seq<Invocation>)
    requires AlternativesOf(s, goals, coverage, choices)
    ensures Picks(choices, picks) <==> Picked(s, goals, coverage, picks)
  {
  }

  lemma PossibleIff(
      s: Setting, goals: seq<CapabilityGoal>, coverage: seq<CoverageEntry>, choices: seq<seq<Invocation>>,
      c: CandidatePlan)
    requires Registered(s) && AlternativesOf(s, goals, coverage, choices)
    ensures Attainable(s, choices, c) <==> Possible(s, goals, coverage, c)
  {
    forall picks
      ensures Picks(choices, picks) <==> Picked(s, goals, coverage, picks)
      ensures CandidateOf(s, Merged(picks)) == Ok(Some(c)) <==> Makes(s, picks, c)
    {
      PicksIff(s, goals, coverage, choices, picks);
      MakesIff(s, picks, c);
    }
  }

  /** The goals that are missing, in planning order. */
  ghost predicate MissingInOrder(
      s: Setting, request: EnrichmentRequest, manifest: Manifest, goals: seq<CapabilityGoal>)
  {
    forall g :: g in goals <==> Missing(request.goals, manifest.coverage, g)
  }

  /** What comes of a planning that does not fail. */
  ghost predicate Planned(s: Setting, request: EnrichmentRequest, manifest: Manifest, outcome: Outcome) {
    match outcome
    case AlreadySatisfied => forall g :: !Missing(request.goals, manifest.coverage, g)
    case NoAdmissiblePlan =>
      exists goals :: MissingInOrder(s, request, manifest, goals) && goals != []
        && ((exists g :: g in goals && WithoutAlternative(s, g, manifest.coverage))
            || forall c :: !Possible(s, goals, manifest.coverage, c))
    case CandidatePlans(pareto) =>
      exists goals :: MissingInOrder(s, request, manifest, goals) && goals != []
        && Offers(s, goals, manifest.coverage, pareto)
  }

  lemma GoalsInOrder(s: Setting, request: EnrichmentRequest, manifest: Manifest)
    requires ValidSetting(s)
    ensures MissingInOrder(s, request, manifest, s.goalOrder(MissingGoals(request.goals, manifest.coverage)))
    ensures s.goalOrder(MissingGoals(request.goals, manifest.coverage)) == []
       <==> MissingGoals(request.goals, manifest.coverage) == {}
  {
    var missing := MissingGoals(request.goals, manifest.coverage);
    var goals := s.goalOrder(missing);
    forall g
      ensures g in missing <==> Missing(request.goals, manifest.coverage, g)
    {
      MissingIff(request.goals, manifest.coverage, g);
    }
    if goals != [] {
      assert goals[0] in missing;
    }
    if g :| g in missing {
      assert g in goals;
    }
  }

  lemma NotBelowItself<T(!new)>(f: T -> Option<nat>, s: seq<T>)
    ensures !PeakLower(f, s, s)
  {
  }

  lemma NoneBeatsItself(p: CandidatePlan)
    requires ExplanationWellFormed(p.explanation)
    ensures !Beats(p, p)
  {
    NotBelowItself(RamPeak, p.invocations);
    NotBelowItself(RamKept, p.invocations);
    NotBelowItself(VramPeak, p.invocations);
    NotBelowItself(VramKept, p.invocations);
  }

  lemma NoneBeats(candidates: seq<CandidatePlan>, p: CandidatePlan, q: CandidatePlan)
    requires Frontier(candidates).Ok? && p in Frontier(candidates).value && q in Frontier(candidates).value
    requires ExplanationWellFormed(p.explanation)
    ensures !Beats(p, q)
  {
    if p == q {
      NoneBeatsItself(p);
    } else {
      FrontierVerdict(candidates, p, q);
      DominatedIff(p, q);
    }
  }

  lemma FrontierOffers(
      s: Setting, goals: seq<CapabilityGoal>, coverage: seq<CoverageEntry>, choices: seq<seq<Invocation>>,
      candidates: seq<CandidatePlan>, pareto: seq<CandidatePlan>)
    requires Registered(s) && AlternativesOf(s, goals, coverage, choices)
    requires Combinations(choices).Ok? && DistinctCandidates(s, Combinations(choices).value) == Ok(candidates)
    requires candidates != [] && Frontier(candidates) == Ok(pareto)
    requires forall c :: c in candidates ==> ExplanationWellFormed(c.explanation)
    ensures Offers(s, goals, coverage, pareto)
  {
    FrontierIsPareto(candidates);
    forall a, b
      ensures Dominated(a, b) ==> Beats(a, b)
    {
      DominatedIff(a, b);
    }
    forall p | p in pareto
      ensures Possible(s, goals, coverage, p)
    {
      KeptIsAttainable(s, choices, p);
      PossibleIff(s, goals, coverage, choices, p);
    }
    forall p, q | p in pareto && q in pareto
      ensures !Beats(p, q)
    {
      NoneBeats(candidates, p, q);
    }
    forall c | Possible(s, goals, coverage, c)
      ensures OfferedOrBeaten(s, goals, coverage, pareto, c)
    {
      PossibleIff(s, goals, coverage, choices, c);
      var kept := KeptForIdentity(s, choices, c);
      KeptIsAttainable(s, choices, kept);
      PossibleIff(s, goals, coverage, choices, kept);
      FrontierCovers(candidates, kept);
    }
  }

  /** Every candidate is one the picks make, so its explanation is proper. */
  lemma CandidatesProper(s: Setting, combinations: seq<seq<Invocation>>)
    requires DistinctCandidates(s, combinations).Ok?
    ensures forall c :: c in DistinctCandidates(s, combinations).value ==> ExplanationWellFormed(c.explanation)
  {
    forall c | c in DistinctCandidates(s, combinations).value
      ensures ExplanationWellFormed(c.explanation)
    {
      DistinctOrigin(s, combinations, c);
      var p :| p in combinations && CandidateOf(s, p) == Ok(Some(c));
      ExplainWellFormed(s, Pruned(s, p));
    }
  }

  lemma NothingPossible(
      s: Setting, goals: seq<CapabilityGoal>, coverage: seq<CoverageEntry>, choices: seq<seq<Invocation>>)
    requires Registered(s) && AlternativesOf(s, goals, coverage, choices)
    requires Combinations(choices).Ok? && DistinctCandidates(s, Combinations(choices).value) == Ok([])
    ensures forall c :: !Possible(s, goals, coverage, c)
  {
    forall c
      ensures !Possible(s, goals, coverage, c)
    {
      PossibleIff(s, goals, coverage, choices, c);
      if Attainable(s, choices, c) {
        var kept := KeptForIdentity(s, choices, c);
        assert false;
      }
    }
  }

  /**
   * Planning that does not fail answers as it should: satisfied exactly when nothing is missing, nothing admissible
   * only when some goal has no alternative or no pick makes a plan, and otherwise the possible plans nothing beats.
   */
  lemma PlanMeans(s: Setting, request: EnrichmentRequest, d: Document, manifest: Manifest)
    requires Registered(s) && Plan(s, request, d, manifest).Ok?
    ensures Planned(s, request, manifest, Plan(s, request, d, manifest).value)
  {
    var goals := s.goalOrder(MissingGoals(request.goals, manifest.coverage));
    GoalsInOrder(s, request, manifest);
    if goals != [] {
      ChoicesAre(s, goals, manifest.coverage);
      if Alternatives(s, request, manifest).value.Some? {
        CombinedMeans(s, request, d, manifest, goals, Alternatives(s, request, manifest).value.value);
      }
    }
  }

  lemma CombinedMeans(
      s: Setting, request: EnrichmentRequest, d: Document, manifest: Manifest, goals: seq<CapabilityGoal>,
      choices: seq<seq<Invocation>>)
    requires Registered(s)
    requires Plan(s, request, d, manifest).Ok? && !Plan(s, request, d, manifest).value.AlreadySatisfied?
    requires goals != [] && MissingInOrder(s, request, manifest, goals)
    requires Alternatives(s, request, manifest) == Ok(Some(choices))
    requires AlternativesOf(s, goals, manifest.coverage, choices)
    ensures Planned(s, request, manifest, Plan(s, request, d, manifest).value)
  {
    var candidates := DistinctCandidates(s, Combinations(choices).value).value;
    if candidates == [] {
      NothingPossible(s, goals, manifest.coverage, choices);
    } else {
      CandidatesProper(s, Combinations(choices).value);
      FrontierOffers(s, goals, manifest.coverage, choices, candidates, Frontier(candidates).value);
    }
  }
}

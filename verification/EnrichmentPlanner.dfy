/** Planning the missing capability goals of a document state (crates/ferrodoc-runtime/src/enrichment.rs). */
module EnrichmentPlanner {
  import opened Collections
  import opened DocumentIr
  import opened EvidenceState
  import opened PlanEstimates
  import opened ParetoPlans

  const COMPLETE := "complete"
  const MAX_PARETO_PLANS: nat := 64

  datatype CapabilityGoal = CapabilityGoal(capability: string, scope: RefinementScope)

  datatype EnrichmentRequest = EnrichmentRequest(
    requestId: Id, sourceDigest: Option<Digest>, inputState: Id, goals: seq<CapabilityGoal>)

  datatype ScopePolicy = Requested | EntireDocument

  /** A registered stage: its identity, what it produces and needs, and its planning profile. */
  datatype Stage = Stage(
    id: string, build: Digest, model: Option<Digest>, engineId: string, engineVersion: string,
    produces: string, needs: seq<string>, policy: ScopePolicy, profile: Profile)

  /** A placement the hard policy accepted, with its resource estimate. */
  datatype Placement = Placement(backend: string, device: Device, resources: Resources)

  datatype Options = Options(maxRemoteCost: Option<nat>, deadline: Option<nat>, allowUnknown: bool)

  /**
   * The surroundings of a planning call: the registered stages in identity order, the engines'
   * accepted placements and parameters, the iteration order of goal sets, the order of
   * serialized semantic keys, and the hashes of plans and states.
   */
  datatype Setting = Setting(
    stages: seq<Stage>,
    options: Options,
    accepted: (Stage, RefinementScope) -> Result<seq<Placement>, PlanError>,
    parameters: (Stage, RefinementScope) -> string,
    goalOrder: set<CapabilityGoal> -> seq<CapabilityGoal>,
    keyOrder: SemanticKey -> nat,
    planId: seq<nat> -> Digest,
    stateId: Manifest -> Id)

  ghost predicate ValidSetting(s: Setting) {
    && (forall goals: set<CapabilityGoal> :: forall g :: g in s.goalOrder(goals) <==> g in goals)
    && (forall a, b :: s.keyOrder(a) == s.keyOrder(b) ==> a == b)
  }

  datatype Outcome =
    | AlreadySatisfied
    | NoAdmissiblePlan
    | CandidatePlans(pareto: seq<CandidatePlan>)

  // ---- Scopes and coverage ----

  predicate ScopeCovers(covered: RefinementScope, requested: RefinementScope) {
    match (covered, requested)
    case (WholeDocument, _) => true
    case (Pages(pages), Pages(wanted)) => wanted <= pages
    case (Pages(pages), Regions(regions)) => forall r :: r in regions ==> r.page in pages
    case (Regions(regions), Regions(wanted)) => wanted <= regions
    case _ => false
  }

  predicate CoverageComplete(coverage: seq<CoverageEntry>, capability: string, requested: RefinementScope) {
    exists e :: e in coverage && e.capability == capability && e.status == COMPLETE && ScopeCovers(e.scope, requested)
  }

  /** Page and region sets split into single pages and regions. */
  function AtomicScopes(scope: RefinementScope): set<RefinementScope> {
    match scope
    case WholeDocument => {WholeDocument}
    case Pages(pageIds) => set p | p in pageIds :: Pages({p})
    case Regions(regions) => set r | r in regions :: Regions({r})
  }

  /** What a goal asks for in atoms: covering every atom is covering the scope, for nonempty scopes. */
  lemma AtomsCoverScope(coverage: seq<CoverageEntry>, scope: RefinementScope)
    ensures scope.WholeDocument? ==> AtomicScopes(scope) == {scope}
    ensures forall a :: a in AtomicScopes(scope) ==> ScopeCovers(scope, a)
    ensures forall covered :: (forall a :: a in AtomicScopes(scope) ==> ScopeCovers(covered, a)) ==>
      ScopeCovers(covered, scope) || AtomicScopes(scope) == {}
  {
    forall covered | forall a :: a in AtomicScopes(scope) ==> ScopeCovers(covered, a)
      ensures ScopeCovers(covered, scope) || AtomicScopes(scope) == {}
    {
      match scope {
        case WholeDocument =>
          assert scope in AtomicScopes(scope);
        case Pages(pageIds) =>
          if p :| p in pageIds {
            assert Pages({p}) in AtomicScopes(scope);
            forall q | q in pageIds
              ensures ScopeCovers(covered, Pages({q}))
            {
              assert Pages({q}) in AtomicScopes(scope);
            }
          }
        case Regions(regions) =>
          if r :| r in regions {
            assert Regions({r}) in AtomicScopes(scope);
            forall q | q in regions
              ensures ScopeCovers(covered, Regions({q}))
            {
              assert Regions({q}) in AtomicScopes(scope);
            }
          }
      }
    }
  }

  function AtomicGoals(goals: seq<CapabilityGoal>): set<CapabilityGoal> {
    set g, a | g in goals && a in AtomicScopes(g.scope) :: CapabilityGoal(g.capability, a)
  }

  function MissingGoals(goals: seq<CapabilityGoal>, coverage: seq<CoverageEntry>): set<CapabilityGoal> {
    set g | g in AtomicGoals(goals) && !CoverageComplete(coverage, g.capability, g.scope)
  }

  // ---- Request validation ----

  predicate ScopeValid(scope: RefinementScope, d: Document) {
    ScopeResolves(d, scope)
  }

  predicate RequestValid(s: Setting, request: EnrichmentRequest, d: Document, manifest: Manifest) {
    && manifest.schema == DOCUMENT_STATE_SCHEMA
    && request.goals != []
    && request.inputState == s.stateId(manifest)
    && manifest.sourceDigest == d.inputDigest && manifest.irSchema == d.schema
    && request.sourceDigest == Some(manifest.sourceDigest)
    && forall g :: g in request.goals ==> ScopeValid(g.scope, d)
  }

  // ---- Choices per goal ----

  function ExecutionScope(stage: Stage, requested: RefinementScope): RefinementScope {
    match stage.policy
    case Requested => requested
    case EntireDocument => WholeDocument
  }

  function InvocationOf(s: Setting, stage: Stage, goal: CapabilityGoal, p: Placement): Invocation {
    var scope := ExecutionScope(stage, goal.scope);
    Invocation(
      SemanticKey(stage.id, stage.build, stage.model, stage.engineId, stage.engineVersion,
        goal.capability, scope, p.backend, p.device, s.parameters(stage, scope)),
      p.resources)
  }

  function InvocationsOf(s: Setting, stage: Stage, goal: CapabilityGoal, ps: seq<Placement>): seq<Invocation> {
    seq(|ps|, i requires 0 <= i < |ps| => InvocationOf(s, stage, goal, ps[i]))
  }

  predicate StageReady(stage: Stage, goal: CapabilityGoal, coverage: seq<CoverageEntry>) {
    && stage.produces == goal.capability
    && forall c :: c in stage.needs ==> CoverageComplete(coverage, c, ExecutionScope(stage, goal.scope))
  }

  /** The accepted placements of every ready stage that produces the capability. */
  function GoalChoices(s: Setting, stages: seq<Stage>, goal: CapabilityGoal, coverage: seq<CoverageEntry>)
    : Result<seq<Invocation>, PlanError>
  {
    if stages == [] then Ok([])
    else
      match GoalChoices(s, stages[..|stages| - 1], goal, coverage)
      case Err(e) => Err(e)
      case Ok(before) =>
        var stage := stages[|stages| - 1];
        if !StageReady(stage, goal, coverage) then Ok(before)
        else
          match s.accepted(stage, ExecutionScope(stage, goal.scope))
          case Err(e) => Err(e)
          case Ok(ps) => Ok(before + InvocationsOf(s, stage, goal, ps))
  }

  function InvocationOrder(s: Setting): Invocation -> Key {
    (i: Invocation) => (s.keyOrder(i.key), 0)
  }

  /** The alternatives of each goal in turn; none at all for a goal ends the planning. */
  function Choices(s: Setting, goals: seq<CapabilityGoal>, coverage: seq<CoverageEntry>)
    : Result<Option<seq<seq<Invocation>>>, PlanError>
  {
    if goals == [] then Ok(Some([]))
    else
      match Choices(s, goals[..|goals| - 1], coverage)
      case Err(e) => Err(e)
      case Ok(None) => Ok(None)
      case Ok(Some(before)) =>
        match GoalChoices(s, s.stages, goals[|goals| - 1], coverage)
        case Err(e) => Err(e)
        case Ok(found) =>
          if found == [] then Ok(None)
          else Ok(Some(before + [Dedup(InvocationOrder(s), SortBy(InvocationOrder(s), found))]))
  }

  // ---- Combinations ----

  /** A plan with one more invocation, unless it already holds one with the same key. */
  function Joined(plan: seq<Invocation>, i: Invocation): seq<Invocation> {
    if exists existing :: existing in plan && existing.key == i.key then plan else plan + [i]
  }

  function JoinEach(plan: seq<Invocation>, alternatives: seq<Invocation>): seq<seq<Invocation>> {
    seq(|alternatives|, i requires 0 <= i < |alternatives| => Joined(plan, alternatives[i]))
  }

  function JoinAll(plans: seq<seq<Invocation>>, alternatives: seq<Invocation>): seq<seq<Invocation>> {
    if plans == [] then []
    else JoinAll(plans[..|plans| - 1], alternatives) + JoinEach(plans[|plans| - 1], alternatives)
  }

  function Combinations(choices: seq<seq<Invocation>>): Result<seq<seq<Invocation>>, PlanError> {
    if choices == [] then Ok([[]])
    else
      match Combinations(choices[..|choices| - 1])
      case Err(e) => Err(e)
      case Ok(plans) =>
        var alternatives := choices[|choices| - 1];
        if |plans| * |alternatives| > MAX_PARETO_PLANS then Err(FrontierBoundExceeded)
        else Ok(JoinAll(plans, alternatives))
  }

  /** Narrow invocations are dropped when the plan processes the whole document for their capability. */
  predicate Kept(plan: seq<Invocation>, i: Invocation) {
    i.key.scope == WholeDocument || !exists w ::
        w in plan && w.key.scope == WholeDocument && w.key.capability == i.key.capability
  }

  function Filtered(plan: seq<Invocation>, upTo: nat): seq<Invocation>
    requires upTo <= |plan|
  {
    if upTo == 0 then []
    else if Kept(plan, plan[upTo - 1]) then Filtered(plan, upTo - 1) + [plan[upTo - 1]]
    else Filtered(plan, upTo - 1)
  }

  function Pruned(s: Setting, plan: seq<Invocation>): seq<Invocation> {
    SortBy(InvocationOrder(s), Filtered(plan, |plan|))
  }

  // ---- Admission, identity and explanation of one plan ----

  function ResourceValues(field: Resources -> Option<nat>, plan: seq<Invocation>): seq<Option<nat>> {
    seq(|plan|, i requires 0 <= i < |plan| => field(plan[i].resources))
  }

  function WithinLimit(values: seq<Option<nat>>, limit: Option<nat>, allowUnknown: bool): Result<bool, PlanError> {
    if limit.None? then Ok(true)
    else
      match KnownSum(values)
      case Err(e) => Err(e)
      case Ok(None) => Ok(allowUnknown)
      case Ok(Some(total)) => Ok(total <= limit.value)
  }

  function HardAdmission(plan: seq<Invocation>, options: Options): Result<bool, PlanError> {
    match WithinLimit(ResourceValues(RemoteCost, plan), options.maxRemoteCost, options.allowUnknown)
    case Err(e) => Err(e)
    case Ok(false) => Ok(false)
    case Ok(true) => WithinLimit(ResourceValues(Latency, plan), options.deadline, options.allowUnknown)
  }

  function StageAt(stages: seq<Stage>, id: string): Option<Stage> {
    if stages == [] then None
    else if stages[0].id == id then Some(stages[0])
    else StageAt(stages[1..], id)
  }

  function Profiles(s: Setting, plan: seq<Invocation>): seq<Profile> {
    seq(|plan|, i requires 0 <= i < |plan| =>
      match StageAt(s.stages, plan[i].key.stageId)
      case Some(stage) => stage.profile
      case None => Profile(Unknown, Unknown, Unknown, Unknown, Unknown, Unknown, Unknown))
  }

  function Dimension(field: Profile -> Estimate, ps: seq<Profile>): seq<Estimate> {
    seq(|ps|, i requires 0 <= i < |ps| => field(ps[i]))
  }

  function Gain(p: Profile): Estimate { p.gain }
  function Success(p: Profile): Estimate { p.success }
  function Quality(p: Profile): Estimate { p.quality }
  function CpuTime(p: Profile): Estimate { p.cpu }
  function GpuTime(p: Profile): Estimate { p.gpu }
  function ReadBytes(p: Profile): Estimate { p.readBytes }
  function WriteBytes(p: Profile): Estimate { p.writeBytes }

  /** The accelerator estimates of the invocations placed on one device family. */
  function GpuOn(plan: seq<Invocation>, ps: seq<Profile>, family: string, n: nat): seq<Estimate>
    requires n <= |plan| == |ps|
  {
    if n == 0 then []
    else
      var before := GpuOn(plan, ps, family, n - 1);
      if plan[n - 1].key.device.Accelerator? && plan[n - 1].key.device.family == family
      then before + [ps[n - 1].gpu] else before
  }

  /** Whether the accelerator time of some device family cannot be added up. */
  predicate GpuGroupFails(plan: seq<Invocation>, ps: seq<Profile>)
    requires |plan| == |ps|
  {
    exists i :: i in plan && i.key.device.Accelerator?
      && Aggregate(Sum, GpuOn(plan, ps, i.key.device.family, |plan|)).Err?
  }

  function Explain(s: Setting, plan: seq<Invocation>): Result<Explanation, PlanError> {
    var ps := Profiles(s, plan);
    match (Aggregate(SumCapped(10000), Dimension(Gain, ps)), Aggregate(Minimum, Dimension(Success, ps)),
           Aggregate(Minimum, Dimension(Quality, ps)))
    case (Err(e), _, _) => Err(e)
    case (_, Err(e), _) => Err(e)
    case (_, _, Err(e)) => Err(e)
    case (Ok(gain), Ok(success), Ok(quality)) =>
      match (Aggregate(Sum, Dimension(CpuTime, ps)), Aggregate(Sum, Dimension(GpuTime, ps)),
             Aggregate(Sum, Dimension(ReadBytes, ps)), Aggregate(Sum, Dimension(WriteBytes, ps)))
      case (Err(e), _, _, _) => Err(e)
      case (_, Err(e), _, _) => Err(e)
      case (_, _, Err(e), _) => Err(e)
      case (_, _, _, Err(e)) => Err(e)
      case (Ok(cpu), Ok(gpu), Ok(readBytes), Ok(writeBytes)) =>
        if GpuGroupFails(plan, ps) then Err(EstimateOverflow)
        else Ok(Profile(gain, success, quality, cpu, gpu, readBytes, writeBytes))
  }

  function KeysOf(s: Setting, plan: seq<Invocation>): seq<nat> {
    seq<nat>(|plan|, i requires 0 <= i < |plan| => s.keyOrder(plan[i].key))
  }

  /** The candidate a combination becomes, nothing if it exceeds a hard limit. */
  function CandidateOf(s: Setting, combination: seq<Invocation>): Result<Option<CandidatePlan>, PlanError> {
    var plan := Pruned(s, combination);
    match HardAdmission(plan, s.options)
    case Err(e) => Err(e)
    case Ok(false) => Ok(None)
    case Ok(true) =>
      match Explain(s, plan)
      case Err(e) => Err(e)
      case Ok(explanation) => Ok(Some(CandidatePlan(s.planId(KeysOf(s, plan)), plan, explanation)))
  }

  function CandidateFrom(s: Setting): seq<Invocation> -> Result<Option<CandidatePlan>, PlanError> {
    (combination: seq<Invocation>) => CandidateOf(s, combination)
  }

  function Candidates(s: Setting, combinations: seq<seq<Invocation>>): Result<seq<CandidatePlan>, PlanError> {
    CollectSome(CandidateFrom(s), combinations)
  }

  function PlanOrder(p: CandidatePlan): Key { (p.id, 0) }

  /** The distinct admissible candidates, in plan-identity order. */
  function DistinctCandidates(s: Setting, combinations: seq<seq<Invocation>>): Result<seq<CandidatePlan>, PlanError> {
    match Candidates(s, combinations)
    case Err(e) => Err(e)
    case Ok(found) => Ok(Dedup(PlanOrder, SortBy(PlanOrder, found)))
  }

  /** The alternatives for the missing atomic goals. */
  function Alternatives(s: Setting, request: EnrichmentRequest, manifest: Manifest)
    : Result<Option<seq<seq<Invocation>>>, PlanError>
  {
    Choices(s, s.goalOrder(MissingGoals(request.goals, manifest.coverage)), manifest.coverage)
  }

  /** Planning only the missing atomic goals. */
  function Plan(s: Setting, request: EnrichmentRequest, d: Document, manifest: Manifest): Result<Outcome, PlanError> {
    if !RequestValid(s, request, d, manifest) then Err(InvalidRequest)
    else if MissingGoals(request.goals, manifest.coverage) == {} then Ok(AlreadySatisfied)
    else
      match Alternatives(s, request, manifest)
      case Err(e) => Err(e)
      case Ok(None) => Ok(NoAdmissiblePlan)
      case Ok(Some(choices)) =>
        match Combinations(choices)
        case Err(e) => Err(e)
        case Ok(combinations) =>
          match DistinctCandidates(s, combinations)
          case Err(e) => Err(e)
          case Ok(candidates) =>
            if candidates == [] then Ok(NoAdmissiblePlan)
            else
              match Frontier(candidates)
              case Err(e) => Err(e)
              case Ok(pareto) => Ok(CandidatePlans(pareto))
  }

  // ---- Every candidate covers every missing goal ----

  predicate Serves(i: Invocation, goal: CapabilityGoal) {
    i.key.capability == goal.capability && ScopeCovers(i.key.scope, goal.scope)
  }

  ghost predicate PlanServes(plan: seq<Invocation>, goal: CapabilityGoal) {
    exists i :: i in plan && Serves(i, goal)
  }

  lemma ScopeCoversItself(scope: RefinementScope)
    ensures ScopeCovers(scope, scope) && ScopeCovers(WholeDocument, scope)
  {
  }

  lemma {:induction false} GoalChoicesServe(
      s: Setting, stages: seq<Stage>, goal: CapabilityGoal, coverage: seq<CoverageEntry>)
    requires GoalChoices(s, stages, goal, coverage).Ok?
    ensures forall i :: i in GoalChoices(s, stages, goal, coverage).value ==> Serves(i, goal)
  {
    if stages != [] {
      GoalChoicesServe(s, stages[..|stages| - 1], goal, coverage);
      ScopeCoversItself(goal.scope);
    }
  }

  /** The alternatives of every goal are nonempty and serve it. */
  lemma {:induction false} ChoicesServe(s: Setting, goals: seq<CapabilityGoal>, coverage: seq<CoverageEntry>)
    requires Choices(s, goals, coverage).Ok? && Choices(s, goals, coverage).value.Some?
    ensures var choices := Choices(s, goals, coverage).value.value;
            && |choices| == |goals|
            && forall k :: 0 <= k < |goals| ==> choices[k] != [] && forall i :: i in choices[k] ==> Serves(i, goals[k])
  {
    if goals != [] {
      var n := |goals| - 1;
      ChoicesServe(s, goals[..n], coverage);
      var found := GoalChoices(s, s.stages, goals[n], coverage).value;
      GoalChoicesServe(s, s.stages, goals[n], coverage);
      var sorted := SortBy(InvocationOrder(s), found);
      SortByProperties(InvocationOrder(s), found);
      DedupKeeps(InvocationOrder(s), sorted);
      forall i | i in Dedup(InvocationOrder(s), sorted)
        ensures Serves(i, goals[n])
      {
        assert i in multiset(sorted);
      }
    }
  }

  lemma JoinedServes(plan: seq<Invocation>, i: Invocation, goal: CapabilityGoal)
    requires PlanServes(plan, goal) || Serves(i, goal)
    ensures PlanServes(Joined(plan, i), goal)
  {
    if PlanServes(plan, goal) {
      var j :| j in plan && Serves(j, goal);
      assert j in Joined(plan, i);
    } else {
      assert i in plan + [i];
    }
  }

  lemma {:induction false} JoinAllOrigin(plans: seq<seq<Invocation>>, alternatives: seq<Invocation>, p: seq<Invocation>)
    requires p in JoinAll(plans, alternatives)
    ensures exists q, i :: q in plans && i in alternatives && p == Joined(q, i)
  {
    var n := |plans| - 1;
    if p in JoinAll(plans[..n], alternatives) {
      JoinAllOrigin(plans[..n], alternatives, p);
      var q, i :| q in plans[..n] && i in alternatives && p == Joined(q, i);
      assert q in plans;
    } else {
      var each := JoinEach(plans[n], alternatives);
      var k :| 0 <= k < |each| && each[k] == p;
      assert plans[n] in plans && alternatives[k] in alternatives;
    }
  }

  /** Every combination serves every goal, shared invocations counted once. */
  lemma {:induction false} CombinationsServe(choices: seq<seq<Invocation>>, goals: seq<CapabilityGoal>)
    requires |choices| == |goals| && Combinations(choices).Ok?
    requires forall k :: 0 <= k < |goals| ==> forall i :: i in choices[k] ==> Serves(i, goals[k])
    ensures forall p, k :: p in Combinations(choices).value && 0 <= k < |goals| ==> PlanServes(p, goals[k])
  {
    if choices != [] {
      var n := |choices| - 1;
      CombinationsServe(choices[..n], goals[..n]);
      var before := Combinations(choices[..n]).value;
      forall p, k | p in JoinAll(before, choices[n]) && 0 <= k < |goals|
        ensures PlanServes(p, goals[k])
      {
        JoinAllOrigin(before, choices[n], p);
        var q, i :| q in before && i in choices[n] && p == Joined(q, i);
        if k < n {
          assert goals[..n][k] == goals[k];
        }
        JoinedServes(q, i, goals[k]);
      }
    }
  }

  lemma {:induction false} FilteredMembers(plan: seq<Invocation>, upTo: nat)
    requires upTo <= |plan|
    ensures forall i :: i in Filtered(plan, upTo) <==> i in plan[..upTo] && Kept(plan, i)
  {
    if upTo > 0 {
      FilteredMembers(plan, upTo - 1);
      assert plan[..upTo] == plan[..upTo - 1] + [plan[upTo - 1]];
    }
  }

  /** Dropping narrow work that whole-document work subsumes loses no goal. */
  lemma PrunedServes(s: Setting, plan: seq<Invocation>, goal: CapabilityGoal)
    requires PlanServes(plan, goal)
    ensures PlanServes(Pruned(s, plan), goal)
    ensures forall i :: i in Pruned(s, plan) ==> i in plan
  {
    var filtered := Filtered(plan, |plan|);
    FilteredMembers(plan, |plan|);
    assert plan[..|plan|] == plan;
    SortByProperties(InvocationOrder(s), filtered);
    forall i
      ensures i in Pruned(s, plan) <==> i in filtered
    {
      assert i in Pruned(s, plan) <==> i in multiset(Pruned(s, plan));
      assert i in filtered <==> i in multiset(filtered);
    }
    var i :| i in plan && Serves(i, goal);
    if !Kept(plan, i) {
      var w :| w in plan && w.key.scope == WholeDocument && w.key.capability == i.key.capability;
      assert Kept(plan, w) && Serves(w, goal);
    }
  }

  lemma DistinctOrigin(s: Setting, combinations: seq<seq<Invocation>>, c: CandidatePlan)
    requires DistinctCandidates(s, combinations).Ok? && c in DistinctCandidates(s, combinations).value
    ensures exists p :: p in combinations && CandidateOf(s, p) == Ok(Some(c))
  {
    var found := Candidates(s, combinations).value;
    SortByProperties(PlanOrder, found);
    DedupKeeps(PlanOrder, SortBy(PlanOrder, found));
    assert c in multiset(SortBy(PlanOrder, found));
    CollectOrigin(CandidateFrom(s), combinations, c);
    var p :| p in combinations && CandidateFrom(s)(p) == Ok(Some(c));
    assert CandidateOf(s, p) == Ok(Some(c));
  }

  lemma ExplainWellFormed(s: Setting, plan: seq<Invocation>)
    requires Explain(s, plan).Ok?
    ensures ExplanationWellFormed(Explain(s, plan).value)
  {
    var ps := Profiles(s, plan);
    AggregateWellFormed(SumCapped(10000), Dimension(Gain, ps));
    AggregateWellFormed(Minimum, Dimension(Success, ps));
    AggregateWellFormed(Minimum, Dimension(Quality, ps));
    AggregateWellFormed(Sum, Dimension(CpuTime, ps));
    AggregateWellFormed(Sum, Dimension(GpuTime, ps));
    AggregateWellFormed(Sum, Dimension(ReadBytes, ps));
    AggregateWellFormed(Sum, Dimension(WriteBytes, ps));
  }

  // ---- The combinations are all the picks of one alternative per goal ----

  /** One alternative for every goal. */
  predicate Picks(choices: seq<seq<Invocation>>, picks: seq<Invocation>) {
    |picks| == |choices| && forall k: nat :: k < |picks| ==> picks[k] in choices[k]
  }

  /** The picks as one plan, an invocation that several goals share taken once. */
  function Merged(picks: seq<Invocation>): seq<Invocation> {
    if picks == [] then [] else Joined(Merged(picks[..|picks| - 1]), picks[|picks| - 1])
  }

  lemma {:induction false} JoinAllReaches(
      plans: seq<seq<Invocation>>, alternatives: seq<Invocation>, plan: seq<Invocation>, i: Invocation)
    requires plan in plans && i in alternatives
    ensures Joined(plan, i) in JoinAll(plans, alternatives)
  {
    var n := |plans| - 1;
    if plan in plans[..n] {
      JoinAllReaches(plans[..n], alternatives, plan, i);
    } else {
      var k :| 0 <= k < |alternatives| && alternatives[k] == i;
      assert JoinEach(plans[n], alternatives)[k] == Joined(plan, i);
    }
  }

  /** Whatever is picked for each goal, the bounded product holds the plan it makes. */
  lemma {:induction false} PicksAreCombined(choices: seq<seq<Invocation>>, picks: seq<Invocation>)
    requires Combinations(choices).Ok? && Picks(choices, picks)
    ensures Merged(picks) in Combinations(choices).value
  {
    if choices != [] {
      var n := |choices| - 1;
      assert Picks(choices[..n], picks[..n]);
      PicksAreCombined(choices[..n], picks[..n]);
      JoinAllReaches(Combinations(choices[..n]).value, choices[n], Merged(picks[..n]), picks[n]);
    }
  }

  /** And it holds nothing else. */
  lemma {:induction false} CombinedArePicks(choices: seq<seq<Invocation>>, plan: seq<Invocation>)
      returns (picks: seq<Invocation>)
    requires Combinations(choices).Ok? && plan in Combinations(choices).value
    ensures Picks(choices, picks) && plan == Merged(picks)
  {
    if choices == [] {
      picks := [];
    } else {
      var n := |choices| - 1;
      var before := Combinations(choices[..n]).value;
      JoinAllOrigin(before, choices[n], plan);
      var q, i :| q in before && i in choices[n] && plan == Joined(q, i);
      var rest := CombinedArePicks(choices[..n], q);
      picks := rest + [i];
      assert picks[..n] == rest;
    }
  }

  /** A candidate the alternatives can be made into: one pick per goal, pruned, within the hard limits. */
  ghost predicate Attainable(s: Setting, choices: seq<seq<Invocation>>, c: CandidatePlan) {
    exists picks :: Picks(choices, picks) && CandidateOf(s, Merged(picks)) == Ok(Some(c))
  }

  /** Of the attainable candidates exactly one is kept for every plan identity. */
  lemma KeptForIdentity(s: Setting, choices: seq<seq<Invocation>>, c: CandidatePlan) returns (kept: CandidatePlan)
    requires Combinations(choices).Ok? && DistinctCandidates(s, Combinations(choices).value).Ok?
    requires Attainable(s, choices, c)
    ensures kept in DistinctCandidates(s, Combinations(choices).value).value && kept.id == c.id
  {
    var combinations := Combinations(choices).value;
    var picks :| Picks(choices, picks) && CandidateOf(s, Merged(picks)) == Ok(Some(c));
    PicksAreCombined(choices, picks);
    var k: nat :| k < |combinations| && combinations[k] == Merged(picks);
    CollectComplete(CandidateFrom(s), combinations, k);
    assert CandidateFrom(s)(combinations[k]) == Ok(Some(c));
    var found := Candidates(s, combinations).value;
    var sorted := SortBy(PlanOrder, found);
    SortByProperties(PlanOrder, found);
    assert c in multiset(sorted);
    var i :| 0 <= i < |sorted| && sorted[i] == c;
    var j := DedupCovers(PlanOrder, sorted, i);
    kept := Dedup(PlanOrder, sorted)[j];
  }

  lemma KeptIsAttainable(s: Setting, choices: seq<seq<Invocation>>, c: CandidatePlan)
    requires Combinations(choices).Ok? && DistinctCandidates(s, Combinations(choices).value).Ok?
    requires c in DistinctCandidates(s, Combinations(choices).value).value
    ensures Attainable(s, choices, c)
  {
    DistinctOrigin(s, Combinations(choices).value, c);
    var p :| p in Combinations(choices).value && CandidateOf(s, p) == Ok(Some(c));
    var picks := CombinedArePicks(choices, p);
  }

  // ---- The offered plans ----

  /** The candidate list from which the frontier is drawn. */
  ghost predicate FrontierOf(s: Setting, request: EnrichmentRequest, manifest: Manifest,
                             candidates: seq<CandidatePlan>, pareto: seq<CandidatePlan>)
  {
    && candidates != [] && Frontier(candidates) == Ok(pareto)
    && (forall c :: c in candidates ==> ExplanationWellFormed(c.explanation))
    && (forall i, j :: 0 <= i < j < |candidates| ==> candidates[i].id != candidates[j].id)
    && (forall c, g :: c in candidates && g in MissingGoals(request.goals, manifest.coverage) ==>
          PlanServes(c.invocations, g))
  }

  /** The candidates of a plan: those attainable from its alternatives, one for every plan identity. */
  ghost predicate CandidatesOf(
      s: Setting, request: EnrichmentRequest, manifest: Manifest, choices: seq<seq<Invocation>>,
      candidates: seq<CandidatePlan>)
  {
    && Alternatives(s, request, manifest) == Ok(Some(choices))
    && Combinations(choices).Ok? && DistinctCandidates(s, Combinations(choices).value) == Ok(candidates)
  }

  /**
   * Every admissible candidate serves every missing atomic goal, and the offered plans are
   * the Pareto frontier of those candidates.
   */
  lemma PlansServeGoals(s: Setting, request: EnrichmentRequest, d: Document, manifest: Manifest)
      returns (choices: seq<seq<Invocation>>, candidates: seq<CandidatePlan>)
    requires ValidSetting(s)
    requires Plan(s, request, d, manifest).Ok? && Plan(s, request, d, manifest).value.CandidatePlans?
    ensures CandidatesOf(s, request, manifest, choices, candidates)
    ensures FrontierOf(s, request, manifest, candidates, Plan(s, request, d, manifest).value.pareto)
  {
    var goals := s.goalOrder(MissingGoals(request.goals, manifest.coverage));
    choices := Alternatives(s, request, manifest).value.value;
    var combinations := Combinations(choices).value;
    candidates := DistinctCandidates(s, combinations).value;
    ChoicesServe(s, goals, manifest.coverage);
    CombinationsServe(choices, goals);
    var found := Candidates(s, combinations).value;
    SortByProperties(PlanOrder, found);
    DedupDistinct(PlanOrder, SortBy(PlanOrder, found));
    assert forall i, j :: 0 <= i < j < |candidates| ==> PlanOrder(candidates[i]) != PlanOrder(candidates[j]);
    forall c | c in candidates
      ensures ExplanationWellFormed(c.explanation)
      ensures forall g :: g in MissingGoals(request.goals, manifest.coverage) ==> PlanServes(c.invocations, g)
    {
      assert forall g :: g in MissingGoals(request.goals, manifest.coverage) ==> g in goals;
      CandidateServes(s, combinations, goals, c);
    }
  }

  lemma CandidateServes(s: Setting, combinations: seq<seq<Invocation>>, goals: seq<CapabilityGoal>, c: CandidatePlan)
    requires DistinctCandidates(s, combinations).Ok? && c in DistinctCandidates(s, combinations).value
    requires forall p, k :: p in combinations && 0 <= k < |goals| ==> PlanServes(p, goals[k])
    ensures ExplanationWellFormed(c.explanation)
    ensures forall g :: g in goals ==> PlanServes(c.invocations, g)
  {
    DistinctOrigin(s, combinations, c);
    var p :| p in combinations && CandidateOf(s, p) == Ok(Some(c));
    ExplainWellFormed(s, Pruned(s, p));
    forall g | g in goals
      ensures PlanServes(c.invocations, g)
    {
      var k :| 0 <= k < |goals| && goals[k] == g;
      PrunedServes(s, p, goals[k]);
    }
  }

  /** The candidate is offered, or an offered plan dominates it. */
  ghost predicate Covers(pareto: seq<CandidatePlan>, c: CandidatePlan) {
    exists p :: p in pareto && (p == c || Dominated(p, c))
  }

  /** The candidate of this identity is offered, or an offered plan dominates it. */
  ghost predicate Represented(
      s: Setting, choices: seq<seq<Invocation>>, pareto: seq<CandidatePlan>, c: CandidatePlan)
  {
    exists kept :: Attainable(s, choices, kept) && kept.id == c.id && Covers(pareto, kept)
  }

  lemma FrontierCoversAll(candidates: seq<CandidatePlan>, kept: CandidatePlan)
    requires Frontier(candidates).Ok? && kept in candidates
    requires forall c :: c in candidates ==> ExplanationWellFormed(c.explanation)
    ensures Covers(Frontier(candidates).value, kept)
  {
    FrontierCovers(candidates, kept);
  }

  lemma AttainableIsRepresented(
      s: Setting, choices: seq<seq<Invocation>>, candidates: seq<CandidatePlan>, pareto: seq<CandidatePlan>,
      c: CandidatePlan)
    requires Combinations(choices).Ok? && DistinctCandidates(s, Combinations(choices).value) == Ok(candidates)
    requires forall k :: k in candidates ==> Covers(pareto, k)
    requires Attainable(s, choices, c)
    ensures Represented(s, choices, pareto, c)
  {
    var kept := KeptForIdentity(s, choices, c);
    KeptIsAttainable(s, choices, kept);
    assert Covers(pareto, kept);
  }

  /**
   * What the planner offers: attainable, mutually undominated plans serving every missing goal;
   * and whatever is attainable is offered or dominated under its identity, so nothing undominated is discarded.
   */
  lemma OfferedPlans(s: Setting, request: EnrichmentRequest, d: Document, manifest: Manifest)
    requires ValidSetting(s)
    requires Plan(s, request, d, manifest).Ok? && Plan(s, request, d, manifest).value.CandidatePlans?
    ensures Alternatives(s, request, manifest).Ok? && Alternatives(s, request, manifest).value.Some?
    ensures var pareto := Plan(s, request, d, manifest).value.pareto;
            var choices := Alternatives(s, request, manifest).value.value;
            && pareto != []
            && (forall p, g :: p in pareto && g in MissingGoals(request.goals, manifest.coverage) ==>
                  PlanServes(p.invocations, g))
            && (forall p, q :: p in pareto && q in pareto ==> !Dominated(p, q))
            && (forall p :: p in pareto ==> p.invocations != [])
            && (forall p :: p in pareto ==> Attainable(s, choices, p))
            && (forall c :: Attainable(s, choices, c) ==> Represented(s, choices, pareto, c))
  {
    var choices, candidates := PlansServeGoals(s, request, d, manifest);
    var pareto := Plan(s, request, d, manifest).value.pareto;
    FrontierIsPareto(candidates);
    var g :| g in MissingGoals(request.goals, manifest.coverage);
    forall p | p in pareto
      ensures p.invocations != [] && Attainable(s, choices, p)
    {
      assert PlanServes(p.invocations, g);
      KeptIsAttainable(s, choices, p);
    }
    forall k | k in candidates
      ensures Covers(pareto, k)
    {
      FrontierCoversAll(candidates, k);
    }
    forall c | Attainable(s, choices, c)
      ensures Represented(s, choices, pareto, c)
    {
      AttainableIsRepresented(s, choices, candidates, pareto, c);
    }
  }
}

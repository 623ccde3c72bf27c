/** Planning and executing as the source runs them: lists built up in loops. */
module EnrichmentRuntime {
  import opened Collections
  import opened DocumentIr
  import opened EvidenceState
  import opened Materializer
  import opened PlanEstimates
  import opened ParetoPlans
  import opened EnrichmentPlanner
  import opened EnrichmentExecution
  import opened Conservation
  import opened EvidenceAttribution
  import opened PlanMeaning

  /** Walks the registered stages, collecting the accepted placements for one goal. */
  method CollectChoices(s: Setting, goal: CapabilityGoal, coverage: seq<CoverageEntry>)
    returns (result: Result<seq<Invocation>, PlanError>)
    ensures result == GoalChoices(s, s.stages, goal, coverage)
  {
    var found, n := [], 0;
    while n < |s.stages|
      invariant 0 <= n <= |s.stages|
      invariant GoalChoices(s, s.stages[..n], goal, coverage) == Ok(found)
    {
      var stage := s.stages[n];
      assert s.stages[..n + 1][..n] == s.stages[..n];
      if StageReady(stage, goal, coverage) {
        var placements := s.accepted(stage, ExecutionScope(stage, goal.scope));
        if placements.Err? {
          GoalChoicesFail(s, s.stages, n + 1, goal, coverage, placements.error);
          return Err(placements.error);
        }
        found := found + InvocationsOf(s, stage, goal, placements.value);
      }
      n := n + 1;
    }
    assert s.stages[..n] == s.stages;
    return Ok(found);
  }

  lemma {:induction false} GoalChoicesFail(
      s: Setting, stages: seq<EnrichmentPlanner.Stage>, n: nat, goal: CapabilityGoal, coverage: seq<CoverageEntry>,
      e: PlanError)
    requires n <= |stages| && GoalChoices(s, stages[..n], goal, coverage) == Err(e)
    ensures GoalChoices(s, stages, goal, coverage) == Err(e)
  {
    if n == |stages| {
      assert stages[..n] == stages;
    } else {
      assert stages[..|stages| - 1][..n] == stages[..n];
      GoalChoicesFail(s, stages[..|stages| - 1], n, goal, coverage, e);
    }
  }

  method CollectAlternatives(s: Setting, goals: seq<CapabilityGoal>, coverage: seq<CoverageEntry>)
    returns (result: Result<Option<seq<seq<Invocation>>>, PlanError>)
    ensures result == Choices(s, goals, coverage)
  {
    var choices, n := [], 0;
    while n < |goals|
      invariant 0 <= n <= |goals|
      invariant Choices(s, goals[..n], coverage) == Ok(Some(choices))
    {
      assert goals[..n + 1][..n] == goals[..n];
      var found := CollectChoices(s, goals[n], coverage);
      if found.Err? {
        ChoicesEnd(s, goals, n + 1, coverage);
        return Err(found.error);
      }
      if found.value == [] {
        ChoicesEnd(s, goals, n + 1, coverage);
        return Ok(None);
      }
      choices := choices + [Dedup(InvocationOrder(s), SortBy(InvocationOrder(s), found.value))];
      n := n + 1;
    }
    assert goals[..n] == goals;
    return Ok(Some(choices));
  }

  lemma {:induction false} ChoicesEnd(s: Setting, goals: seq<CapabilityGoal>, n: nat, coverage: seq<CoverageEntry>)
    requires n <= |goals|
    requires Choices(s, goals[..n], coverage).Err? || Choices(s, goals[..n], coverage) == Ok(None)
    ensures Choices(s, goals, coverage) == Choices(s, goals[..n], coverage)
  {
    if n == |goals| {
      assert goals[..n] == goals;
    } else {
      assert goals[..|goals| - 1][..n] == goals[..n];
      ChoicesEnd(s, goals[..|goals| - 1], n, coverage);
    }
  }

  /** Extends every partial plan by every alternative, refusing to grow past the bound. */
  method Combine(choices: seq<seq<Invocation>>) returns (result: Result<seq<seq<Invocation>>, PlanError>)
    ensures result == Combinations(choices)
  {
    var combinations: seq<seq<Invocation>> := [[]];
    var n := 0;
    while n < |choices|
      invariant 0 <= n <= |choices|
      invariant Combinations(choices[..n]) == Ok(combinations)
    {
      assert choices[..n + 1][..n] == choices[..n];
      if |combinations| * |choices[n]| > MAX_PARETO_PLANS {
        CombinationsFail(choices, n + 1);
        return Err(FrontierBoundExceeded);
      }
      var next, k := [], 0;
      while k < |combinations|
        invariant 0 <= k <= |combinations|
        invariant next == JoinAll(combinations[..k], choices[n])
      {
        assert combinations[..k + 1][..k] == combinations[..k];
        next := next + JoinEach(combinations[k], choices[n]);
        k := k + 1;
      }
      assert combinations[..k] == combinations;
      combinations := next;
      n := n + 1;
    }
    assert choices[..n] == choices;
    return Ok(combinations);
  }

  lemma {:induction false} CombinationsFail(choices: seq<seq<Invocation>>, n: nat)
    requires n <= |choices| && Combinations(choices[..n]).Err?
    ensures Combinations(choices) == Combinations(choices[..n])
  {
    if n == |choices| {
      assert choices[..n] == choices;
    } else {
      assert choices[..|choices| - 1][..n] == choices[..n];
      CombinationsFail(choices[..|choices| - 1], n);
    }
  }

  method CollectCandidates(s: Setting, combinations: seq<seq<Invocation>>)
    returns (result: Result<seq<CandidatePlan>, PlanError>)
    ensures result == Candidates(s, combinations)
  {
    var candidateFrom := CandidateFrom(s);
    var candidates, n := [], 0;
    while n < |combinations|
      invariant 0 <= n <= |combinations|
      invariant CollectSome(candidateFrom, combinations[..n]) == Ok(candidates)
    {
      assert combinations[..n + 1][..n] == combinations[..n];
      var candidate := candidateFrom(combinations[n]);
      if candidate.Err? {
        CollectFails(candidateFrom, combinations, n + 1);
        return Err(candidate.error);
      }
      if candidate.value.Some? {
        candidates := candidates + [candidate.value.value];
      }
      n := n + 1;
    }
    assert combinations[..n] == combinations;
    return Ok(candidates);
  }

  method ComputePlan(s: Setting, request: EnrichmentRequest, d: Document, manifest: Manifest)
    returns (result: Result<Outcome, PlanError>)
    ensures result == Plan(s, request, d, manifest)
    ensures Registered(s) && result.Ok? ==> Planned(s, request, manifest, result.value)
  {
    if Registered(s) && Plan(s, request, d, manifest).Ok? {
      PlanMeans(s, request, d, manifest);
    }
    if !RequestValid(s, request, d, manifest) {
      return Err(InvalidRequest);
    }
    var missing := MissingGoals(request.goals, manifest.coverage);
    if missing == {} {
      return Ok(AlreadySatisfied);
    }
    var choices := CollectAlternatives(s, s.goalOrder(missing), manifest.coverage);
    if choices.Err? {
      return Err(choices.error);
    }
    if choices.value.None? {
      return Ok(NoAdmissiblePlan);
    }
    var combinations := Combine(choices.value.value);
    if combinations.Err? {
      return Err(combinations.error);
    }
    var found := CollectCandidates(s, combinations.value);
    if found.Err? {
      return Err(found.error);
    }
    var candidates := Dedup(PlanOrder, SortBy(PlanOrder, found.value));
    if candidates == [] {
      return Ok(NoAdmissiblePlan);
    }
    var pareto := ComputeFrontier(candidates);
    if pareto.Err? {
      return Err(pareto.error);
    }
    return Ok(CandidatePlans(pareto.value));
  }

  /** Turns the responses into deltas, invocation by invocation. */
  method CollectDeltas(
      c: Context, d: Document, manifest: Manifest, plan: seq<Invocation>, responses: seq<seq<Evidence>>)
    returns (result: Result<seq<EvidenceDelta>, PlanError>)
    requires |plan| == |responses|
    ensures result == Deltas(c, d, manifest, plan, responses)
  {
    var deltas, n := [], 0;
    while n < |plan|
      invariant 0 <= n <= |plan|
      invariant Deltas(c, d, manifest, plan[..n], responses[..n]) == Ok(deltas)
    {
      assert plan[..n + 1][..n] == plan[..n] && responses[..n + 1][..n] == responses[..n];
      var delta := DeltaFromResponse(c, d, manifest, plan[n], responses[n]);
      if delta.Err? {
        DeltasFail(c, d, manifest, plan, responses, n + 1);
        return Err(delta.error);
      }
      deltas := deltas + [delta.value];
      n := n + 1;
    }
    assert plan[..n] == plan && responses[..n] == responses;
    return Ok(deltas);
  }

  lemma {:induction false} DeltasFail(
      c: Context, d: Document, manifest: Manifest, plan: seq<Invocation>, responses: seq<seq<Evidence>>, n: nat)
    requires n <= |plan| == |responses| && Deltas(c, d, manifest, plan[..n], responses[..n]).Err?
    ensures Deltas(c, d, manifest, plan, responses) == Deltas(c, d, manifest, plan[..n], responses[..n])
  {
    if n == |plan| {
      assert plan[..n] == plan && responses[..n] == responses;
    } else {
      var m := |plan| - 1;
      assert plan[..m][..n] == plan[..n] && responses[..m][..n] == responses[..n];
      DeltasFail(c, d, manifest, plan[..m], responses[..m], n);
    }
  }

  method ExecutePlan(
      c: Context, request: EnrichmentRequest, d: Document, manifest: Manifest, answers: Id, chosen: CandidatePlan,
      responses: seq<seq<Evidence>>, checkpointId: Id)
    returns (result: Result<Execution, PlanError>)
    ensures result == Execute(c, request, d, manifest, answers, chosen, responses, checkpointId)
    ensures result.Ok? ==>
              exists plan :: StillOffered(c, request, d, manifest, answers, chosen, plan)
                && |plan.invocations| == |responses|
                && forall f :: DocumentFacts(result.value.document)[f]
                     == DocumentFacts(d)[f] + GivenByAll(d, plan.invocations, responses, f)
  {
    OfferedIff(c, request, d, manifest, answers, chosen);
    if Execute(c, request, d, manifest, answers, chosen, responses, checkpointId).Ok? {
      DocumentGainsResponses(c, request, d, manifest, answers, chosen, responses, checkpointId);
    }
    if !RequestValid(c.setting, request, d, manifest) {
      return Err(InvalidRequest);
    }
    if answers != request.requestId || chosen.invocations == [] {
      return Err(PlanNotOffered);
    }
    var outcome := ComputePlan(c.setting, request, d, manifest);
    if outcome.Err? {
      return Err(outcome.error);
    }
    var plan := FindPlan(if outcome.value.CandidatePlans? then outcome.value.pareto else [], chosen.id);
    if plan.None? {
      return Err(PlanNotOffered);
    }
    if |responses| != |plan.value.invocations| {
      return Err(EngineFailure);
    }
    var deltas := CollectDeltas(c, d, manifest, plan.value.invocations, responses);
    if deltas.Err? {
      return Err(deltas.error);
    }
    var next := NextManifest(c, manifest, deltas.value);
    var document := MaterializeFromCheckpoint(c.hashes, d, manifest, deltas.value, next);
    if document.Err? {
      return Err(MaterializationFailed);
    }
    return Ok(Execution(deltas.value,
      next.(checkpoint := Some(Checkpoint(c.hashes.document(document.value), checkpointId, CHECKPOINT_REPRESENTATION))),
      document.value));
  }
}

/**
 * What a plan is chosen from (crates/ferrodoc-runtime/src/enrichment.rs): the requests that are accepted, the goals
 * that are missing, the alternatives for each goal, and the plan that a pick of alternatives makes.
 */
module PlanAlternatives {
  import opened Collections
  import opened DocumentIr
  import opened EvidenceState
  import opened PlanEstimates
  import opened ParetoPlans
  import opened EnrichmentPlanner

  // ---- Requests and missing goals ----

  ghost predicate PageThere(d: Document, page: Id) {
    exists p :: p in d.pages && p.id == page
  }

  /** The first page of that identity, if any, has a region of that identity. */
  ghost predicate RegionThere(d: Document, target: PageRegionRef) {
    exists k: nat :: k < |d.pages| && d.pages[k].id == target.page
      && (forall j: nat :: j < k ==> d.pages[j].id != target.page)
      && exists r :: r in d.pages[k].regions && r.id == target.region
  }

  ghost predicate ScopeThere(d: Document, scope: RefinementScope) {
    && (scope.Pages? ==> scope.pageIds != {} && forall p :: p in scope.pageIds ==> PageThere(d, p))
    && (scope.Regions? ==> scope.regions != {} && forall r :: r in scope.regions ==> RegionThere(d, r))
  }

  lemma ScopeThereIff(d: Document, scope: RefinementScope)
    ensures ScopeResolves(d, scope) <==> ScopeThere(d, scope)
  {
    forall p
      ensures Has(PageId, d.pages, p) <==> PageThere(d, p)
    {
      HasMeans(PageId, d.pages, p);
      if page :| page in d.pages && page.id == p {
        assert PageId(page) == p;
      }
      if Has(PageId, d.pages, p) {
        assert d.pages[IndexOf(PageId, d.pages, p)].id == p;
      }
    }
    forall r
      ensures HasRegion(d, r) <==> RegionThere(d, r)
    {
      RegionThereIff(d, r);
    }
  }

  lemma RegionThereIff(d: Document, target: PageRegionRef)
    ensures HasRegion(d, target) <==> RegionThere(d, target)
  {
    HasMeans(PageId, d.pages, target.page);
    assert forall k: nat :: k < |d.pages| ==> PageId(d.pages[k]) == d.pages[k].id;
    if Has(PageId, d.pages, target.page) {
      var i := IndexOf(PageId, d.pages, target.page);
      var p := d.pages[i];
      assert PageId(p) == target.page;
      HasMeans(RegionId, p.regions, target.region);
      if r :| r in p.regions && r.id == target.region {
        assert RegionId(r) == target.region;
      }
      if Has(RegionId, p.regions, target.region) {
        assert RegionId(p.regions[IndexOf(RegionId, p.regions, target.region)]) == target.region;
      }
    }
  }

  /** A request agrees with the state it names, its document and its source, and asks for something that is there. */
  lemma RequestValidIff(s: Setting, request: EnrichmentRequest, d: Document, manifest: Manifest)
    ensures RequestValid(s, request, d, manifest)
       <==> && manifest.schema == "ferrodoc-document-state/1" && request.inputState == s.stateId(manifest)
            && manifest.irSchema == d.schema && manifest.sourceDigest == d.inputDigest
            && request.sourceDigest == Some(d.inputDigest)
            && request.goals != [] && forall g :: g in request.goals ==> ScopeThere(d, g.scope)
  {
    forall g | g in request.goals
      ensures ScopeValid(g.scope, d) <==> ScopeThere(d, g.scope)
    {
      ScopeThereIff(d, g.scope);
    }
  }

  /** The scope asked about is among what the other one says. */
  ghost predicate Includes(covered: RefinementScope, asked: RefinementScope) {
    || covered.WholeDocument?
    || (asked.Pages? && covered.Pages? && forall p :: p in asked.pageIds ==> p in covered.pageIds)
    || (asked.Regions? && covered.Pages? && forall r :: r in asked.regions ==> r.page in covered.pageIds)
    || (asked.Regions? && covered.Regions? && forall r :: r in asked.regions ==> r in covered.regions)
  }

  lemma IncludesIff(covered: RefinementScope, asked: RefinementScope)
    ensures ScopeCovers(covered, asked) <==> Includes(covered, asked)
  {
  }

  ghost predicate Finished(coverage: seq<CoverageEntry>, capability: string, scope: RefinementScope) {
    exists k: nat :: k < |coverage| && coverage[k].capability == capability && coverage[k].status == "complete"
      && Includes(coverage[k].scope, scope)
  }

  lemma FinishedIff(coverage: seq<CoverageEntry>, capability: string, scope: RefinementScope)
    ensures CoverageComplete(coverage, capability, scope) <==> Finished(coverage, capability, scope)
  {
    if CoverageComplete(coverage, capability, scope) {
      var e :| e in coverage && e.capability == capability && e.status == COMPLETE && ScopeCovers(e.scope, scope);
      var k: nat :| k < |coverage| && coverage[k] == e;
      IncludesIff(e.scope, scope);
    }
    if Finished(coverage, capability, scope) {
      var k: nat :| k < |coverage| && coverage[k].capability == capability && coverage[k].status == "complete"
        && Includes(coverage[k].scope, scope);
      assert coverage[k] in coverage;
      IncludesIff(coverage[k].scope, scope);
    }
  }

  /** The whole document, one of the pages, or one of the regions. */
  ghost predicate IsAtom(scope: RefinementScope, atom: RefinementScope) {
    || (scope.WholeDocument? && atom.WholeDocument?)
    || (scope.Pages? && exists p :: p in scope.pageIds && atom == Pages({p}))
    || (scope.Regions? && exists r :: r in scope.regions && atom == Regions({r}))
  }

  /** Asked for, but not finished. */
  ghost predicate Missing(goals: seq<CapabilityGoal>, coverage: seq<CoverageEntry>, g: CapabilityGoal) {
    && (exists goal :: goal in goals && goal.capability == g.capability && IsAtom(goal.scope, g.scope))
    && !Finished(coverage, g.capability, g.scope)
  }

  /** What is planned for: the single pages and regions asked for that the coverage does not complete. */
  lemma MissingIff(goals: seq<CapabilityGoal>, coverage: seq<CoverageEntry>, g: CapabilityGoal)
    ensures g in MissingGoals(goals, coverage) <==> Missing(goals, coverage, g)
  {
    FinishedIff(coverage, g.capability, g.scope);
    forall scope
      ensures g.scope in AtomicScopes(scope) <==> IsAtom(scope, g.scope)
    {
    }
    if goal :| goal in goals && goal.capability == g.capability && IsAtom(goal.scope, g.scope) {
      assert goal in goals && g.scope in AtomicScopes(goal.scope);
      assert g == CapabilityGoal(goal.capability, g.scope);
      assert g in AtomicGoals(goals);
    }
  }

  // ---- The alternatives for a goal ----

  /** No two registered stages share an identity. */
  ghost predicate DistinctStages(stages: seq<EnrichmentPlanner.Stage>) {
    forall i: nat, j: nat :: i < j < |stages| ==> stages[i].id != stages[j].id
  }

  /** The stage produces what is asked, and all it needs is finished where it will run. */
  ghost predicate Offering(
      stage: EnrichmentPlanner.Stage, goal: CapabilityGoal, scope: RefinementScope, coverage: seq<CoverageEntry>)
  {
    && stage.produces == goal.capability
    && scope == (if stage.policy.EntireDocument? then WholeDocument else goal.scope)
    && forall c :: c in stage.needs ==> Finished(coverage, c, scope)
  }

  /** The placement is the first of its backend and device. */
  ghost predicate FirstPlacement(ps: seq<Placement>, p: Placement) {
    exists k: nat :: k < |ps| && ps[k] == p
      && forall j: nat :: j < k ==> ps[j].backend != p.backend || ps[j].device != p.device
  }

  /** The invocation runs this stage, as registered, at this placement and with this estimate. */
  ghost predicate Runs(
      s: Setting, stage: EnrichmentPlanner.Stage, capability: string, scope: RefinementScope, p: Placement,
      i: Invocation)
  {
    && i.key.stageId == stage.id && i.key.build == stage.build && i.key.model == stage.model
    && i.key.engineId == stage.engineId && i.key.engineVersion == stage.engineVersion
    && i.key.capability == capability && i.key.scope == scope && i.key.parameters == s.parameters(stage, scope)
    && i.key.backend == p.backend && i.key.device == p.device && i.resources == p.resources
  }

  ghost predicate OffersAt(
      s: Setting, stage: EnrichmentPlanner.Stage, goal: CapabilityGoal, coverage: seq<CoverageEntry>, i: Invocation)
  {
    exists scope, p :: Offering(stage, goal, scope, coverage) && s.accepted(stage, scope).Ok?
      && FirstPlacement(s.accepted(stage, scope).value, p) && Runs(s, stage, goal.capability, scope, p, i)
  }

  /** Some registered stage offers the invocation for the goal. */
  ghost predicate Alternative(
      s: Setting, stages: seq<EnrichmentPlanner.Stage>, goal: CapabilityGoal, coverage: seq<CoverageEntry>,
      i: Invocation)
  {
    exists k: nat :: k < |stages| && OffersAt(s, stages[k], goal, coverage, i)
  }

  lemma ReadyIff(stage: EnrichmentPlanner.Stage, goal: CapabilityGoal, coverage: seq<CoverageEntry>)
    ensures StageReady(stage, goal, coverage)
       <==> Offering(stage, goal, ExecutionScope(stage, goal.scope), coverage)
  {
    forall c | c in stage.needs
      ensures CoverageComplete(coverage, c, ExecutionScope(stage, goal.scope))
         <==> Finished(coverage, c, ExecutionScope(stage, goal.scope))
    {
      FinishedIff(coverage, c, ExecutionScope(stage, goal.scope));
    }
  }

  /** Among the invocations of one stage, the first of a key is that of the first placement. */
  lemma FirstOfStage(
      s: Setting, stage: EnrichmentPlanner.Stage, goal: CapabilityGoal, ps: seq<Placement>, i: Invocation)
    requires ValidSetting(s)
    ensures FirstWith(InvocationOrder(s), InvocationsOf(s, stage, goal, ps), i)
       <==> exists p ::
              FirstPlacement(ps, p) && Runs(s, stage, goal.capability, ExecutionScope(stage, goal.scope), p, i)
  {
    var order, found := InvocationOrder(s), InvocationsOf(s, stage, goal, ps);
    if FirstWith(order, found, i) {
      var k: nat :| k < |found| && found[k] == i && forall j: nat :: j < k ==> order(found[j]) != order(i);
      forall j: nat | j < k
        ensures ps[j].backend != ps[k].backend || ps[j].device != ps[k].device
      {
        assert found[j].key != i.key;
      }
      assert FirstPlacement(ps, ps[k]);
    }
    if p :| FirstPlacement(ps, p) && Runs(s, stage, goal.capability, ExecutionScope(stage, goal.scope), p, i) {
      var k: nat :| k < |ps| && ps[k] == p
        && forall j: nat :: j < k ==> ps[j].backend != p.backend || ps[j].device != p.device;
      assert found[k] == i;
      forall j: nat | j < k
        ensures order(found[j]) != order(i)
      {
        assert found[j].key != i.key;
      }
    }
  }

  lemma {:induction false} ChoicesFromStages(
      s: Setting, stages: seq<EnrichmentPlanner.Stage>, goal: CapabilityGoal, coverage: seq<CoverageEntry>)
    requires GoalChoices(s, stages, goal, coverage).Ok?
    ensures forall i :: i in GoalChoices(s, stages, goal, coverage).value ==>
              exists k: nat :: k < |stages| && stages[k].id == i.key.stageId
  {
    if stages != [] {
      var n := |stages| - 1;
      ChoicesFromStages(s, stages[..n], goal, coverage);
      forall i | i in GoalChoices(s, stages, goal, coverage).value
        ensures exists k: nat :: k < |stages| && stages[k].id == i.key.stageId
      {
        if i in GoalChoices(s, stages[..n], goal, coverage).value {
          var k: nat :| k < n && stages[..n][k].id == i.key.stageId;
          assert stages[k].id == i.key.stageId;
        } else {
          assert stages[n].id == i.key.stageId;
        }
      }
    }
  }

  /** The first of every key are the alternatives. */
  lemma {:induction false} FirstChoices(
      s: Setting, stages: seq<EnrichmentPlanner.Stage>, goal: CapabilityGoal, coverage: seq<CoverageEntry>,
      i: Invocation)
    requires ValidSetting(s) && DistinctStages(stages)
    requires GoalChoices(s, stages, goal, coverage).Ok?
    ensures FirstWith(InvocationOrder(s), GoalChoices(s, stages, goal, coverage).value, i)
       <==> Alternative(s, stages, goal, coverage, i)
  {
    if stages != [] {
      var n := |stages| - 1;
      var stage, before := stages[n], GoalChoices(s, stages[..n], goal, coverage).value;
      FirstChoices(s, stages[..n], goal, coverage, i);
      AlternativeSplit(s, stages, goal, coverage, i);
      ReadyIff(stage, goal, coverage);
      if StageReady(stage, goal, coverage) {
        var ps := s.accepted(stage, ExecutionScope(stage, goal.scope)).value;
        var added := InvocationsOf(s, stage, goal, ps);
        FirstOfConcat(InvocationOrder(s), before, added, i);
        FirstOfStage(s, stage, goal, ps, i);
        ChoicesFromStages(s, stages[..n], goal, coverage);
        if OffersAt(s, stage, goal, coverage, i) {
          forall y | y in before
            ensures InvocationOrder(s)(y) != InvocationOrder(s)(i)
          {
            var k: nat :| k < n && stages[..n][k].id == y.key.stageId;
            assert y.key != i.key;
          }
        }
      }
    }
  }

  lemma AlternativeSplit(
      s: Setting, stages: seq<EnrichmentPlanner.Stage>, goal: CapabilityGoal, coverage: seq<CoverageEntry>,
      i: Invocation)
    requires stages != []
    ensures Alternative(s, stages, goal, coverage, i)
       <==> || Alternative(s, stages[..|stages| - 1], goal, coverage, i)
            || OffersAt(s, stages[|stages| - 1], goal, coverage, i)
  {
    var n := |stages| - 1;
    if Alternative(s, stages[..n], goal, coverage, i) {
      var k: nat :| k < n && OffersAt(s, stages[..n][k], goal, coverage, i);
      assert stages[k] == stages[..n][k];
    }
    if k: nat :| k < |stages| && OffersAt(s, stages[k], goal, coverage, i) {
      if k < n {
        assert stages[..n][k] == stages[k];
      }
    }
  }

  /** For every goal all its alternatives, and only those, by semantic key. */
  ghost predicate AlternativesOf(
      s: Setting, goals: seq<CapabilityGoal>, coverage: seq<CoverageEntry>, choices: seq<seq<Invocation>>)
  {
    && |choices| == |goals|
    && forall k: nat :: k < |goals| ==>
         choices[k] != [] && Climbing(InvocationOrder(s), choices[k])
         && forall i :: i in choices[k] <==> Alternative(s, s.stages, goals[k], coverage, i)
  }

  ghost predicate WithoutAlternative(s: Setting, goal: CapabilityGoal, coverage: seq<CoverageEntry>) {
    forall i :: !Alternative(s, s.stages, goal, coverage, i)
  }

  lemma OneMoreGoal(
      s: Setting, goals: seq<CapabilityGoal>, coverage: seq<CoverageEntry>, choices: seq<seq<Invocation>>)
    requires goals != [] && |choices| == |goals|
    requires AlternativesOf(s, goals[..|goals| - 1], coverage, choices[..|goals| - 1])
    requires AlternativesOf(s, [goals[|goals| - 1]], coverage, [choices[|goals| - 1]])
    ensures AlternativesOf(s, goals, coverage, choices)
  {
    var n := |goals| - 1;
    forall k: nat | k < |goals|
      ensures choices[k] != [] && Climbing(InvocationOrder(s), choices[k])
      ensures forall i :: i in choices[k] <==> Alternative(s, s.stages, goals[k], coverage, i)
    {
      if k < n {
        assert goals[..n][k] == goals[k] && choices[..n][k] == choices[k];
      } else {
        assert [goals[n]][0] == goals[k] && [choices[n]][0] == choices[k];
      }
    }
  }

  /**
   * The alternatives between which the planner chooses; it gives up at a goal without any.
   */
  lemma {:induction false} ChoicesAre(s: Setting, goals: seq<CapabilityGoal>, coverage: seq<CoverageEntry>)
    requires ValidSetting(s) && DistinctStages(s.stages) && Choices(s, goals, coverage).Ok?
    ensures Choices(s, goals, coverage).value.Some? ==>
              AlternativesOf(s, goals, coverage, Choices(s, goals, coverage).value.value)
    ensures Choices(s, goals, coverage).value.None? ==>
              exists g :: g in goals && WithoutAlternative(s, g, coverage)
  {
    if goals != [] {
      var n := |goals| - 1;
      ChoicesAre(s, goals[..n], coverage);
      if Choices(s, goals[..n], coverage).value.None? {
        var g :| g in goals[..n] && WithoutAlternative(s, g, coverage);
        assert g in goals;
      } else {
        LastChoices(s, goals[n], coverage);
        assert goals[n] in goals;
        if Choices(s, goals, coverage).value.Some? {
          OneMoreGoal(s, goals, coverage, Choices(s, goals, coverage).value.value);
        }
      }
    }
  }

  lemma LastChoices(s: Setting, goal: CapabilityGoal, coverage: seq<CoverageEntry>)
    requires ValidSetting(s) && DistinctStages(s.stages) && GoalChoices(s, s.stages, goal, coverage).Ok?
    ensures var found := GoalChoices(s, s.stages, goal, coverage).value;
            var kept := Dedup(InvocationOrder(s), SortBy(InvocationOrder(s), found));
            && Climbing(InvocationOrder(s), kept) && (kept == [] <==> found == [])
            && forall i :: i in kept <==> Alternative(s, s.stages, goal, coverage, i)
  {
    var found := GoalChoices(s, s.stages, goal, coverage).value;
    var kept := Dedup(InvocationOrder(s), SortBy(InvocationOrder(s), found));
    SortedFirsts(InvocationOrder(s), found);
    forall i
      ensures i in kept <==> Alternative(s, s.stages, goal, coverage, i)
    {
      FirstChoices(s, s.stages, goal, coverage, i);
    }
    if found != [] {
      assert FirstWith(InvocationOrder(s), found, found[0]);
    }
    if kept != [] {
      assert FirstWith(InvocationOrder(s), found, kept[0]);
    }
  }

  // ---- The number of combinations ----

  ghost function Product(choices: seq<seq<Invocation>>): nat {
    if choices == [] then 1 else Product(choices[..|choices| - 1]) * |choices[|choices| - 1]|
  }

  lemma {:induction false} JoinAllCount(plans: seq<seq<Invocation>>, alternatives: seq<Invocation>)
    ensures |JoinAll(plans, alternatives)| == |plans| * |alternatives|
  {
    if plans != [] {
      var n := |plans| - 1;
      JoinAllCount(plans[..n], alternatives);
      assert n * |alternatives| + |alternatives| == (n + 1) * |alternatives|;
    }
  }

  lemma ProductSplit(choices: seq<seq<Invocation>>)
    requires choices != []
    ensures Product(choices) == Product(choices[..|choices| - 1]) * |choices[|choices| - 1]|
  {
  }

  ghost predicate SomePrefix<T>(holds: seq<T> -> bool, s: seq<T>) {
    exists n: nat :: n <= |s| && holds(s[..n])
  }

  lemma SomePrefixSplit<T>(holds: seq<T> -> bool, s: seq<T>)
    requires s != []
    ensures SomePrefix(holds, s) <==> SomePrefix(holds, s[..|s| - 1]) || holds(s)
  {
    var m := |s| - 1;
    assert s[..m + 1] == s;
    if n: nat :| n <= m && holds(s[..m][..n]) {
      assert s[..m][..n] == s[..n];
    }
    if n: nat :| n <= |s| && holds(s[..n]) {
      if n <= m {
        assert s[..m][..n] == s[..n];
      }
    }
  }

  ghost predicate TooMany(choices: seq<seq<Invocation>>) {
    SomePrefix((first: seq<seq<Invocation>>) => Product(first) > 64, choices)
  }

  lemma TooManySplit(choices: seq<seq<Invocation>>)
    requires choices != []
    ensures TooMany(choices) <==> TooMany(choices[..|choices| - 1]) || Product(choices) > 64
  {
    SomePrefixSplit((first: seq<seq<Invocation>>) => Product(first) > 64, choices);
  }

  /** Planning refuses exactly when the alternatives of some first goals make more than 64 combinations. */
  lemma {:induction false} BoundIff(choices: seq<seq<Invocation>>)
    ensures Combinations(choices).Err? <==> TooMany(choices)
    ensures Combinations(choices).Err? ==> Combinations(choices).error == FrontierBoundExceeded
    ensures Combinations(choices).Ok? ==> |Combinations(choices).value| == Product(choices)
  {
    if choices == [] {
      assert forall n: nat :: n <= |choices| ==> choices[..n] == [];
    } else {
      var m := |choices| - 1;
      BoundIff(choices[..m]);
      TooManySplit(choices);
      ProductSplit(choices);
      if Combinations(choices[..m]).Ok? {
        JoinAllCount(Combinations(choices[..m]).value, choices[m]);
      }
    }
  }

  // ---- The plan a pick makes ----

  /** Picked, and not another invocation of the same key before it. */
  ghost predicate PickedFirst(picks: seq<Invocation>, i: Invocation) {
    exists k: nat :: k < |picks| && picks[k] == i && forall j: nat :: j < k ==> picks[j].key != i.key
  }

  /** Nothing picked does the same for the whole document, unless this does. */
  ghost predicate NotSubsumed(picks: seq<Invocation>, i: Invocation) {
    i.key.scope.WholeDocument?
    || forall w :: w in picks && w.key.capability == i.key.capability ==> !w.key.scope.WholeDocument?
  }

  /** The picked invocations without those that whole-document work makes superfluous, each key once, in key order. */
  ghost predicate MadeOf(s: Setting, picks: seq<Invocation>, plan: seq<Invocation>) {
    && (forall i :: i in plan <==> PickedFirst(picks, i) && NotSubsumed(picks, i))
    && Climbing(InvocationOrder(s), plan)
  }

  lemma {:induction false} MergedMembers(picks: seq<Invocation>)
    ensures forall i :: i in Merged(picks) <==> PickedFirst(picks, i)
  {
    if picks != [] {
      var n := |picks| - 1;
      MergedMembers(picks[..n]);
      MergedKeys(picks[..n]);
      assert KeyIn(Merged(picks[..n]), picks[n].key) <==> KeyIn(picks[..n], picks[n].key);
      forall i
        ensures i in Merged(picks) <==> PickedFirst(picks, i)
      {
        FirstPicks(picks, i);
        if j: nat :| j < n && picks[j].key == picks[n].key {
          assert picks[..n][j] in picks[..n];
        }
      }
    }
  }

  ghost predicate KeyIn(picks: seq<Invocation>, key: SemanticKey) {
    exists i :: i in picks && i.key == key
  }

  /** Merging loses no key and repeats none. */
  lemma {:induction false} MergedKeys(picks: seq<Invocation>)
    ensures forall key :: KeyIn(Merged(picks), key) <==> KeyIn(picks, key)
    ensures forall j: nat, k: nat :: j < k < |Merged(picks)| ==> Merged(picks)[j].key != Merged(picks)[k].key
  {
    if picks != [] {
      var n := |picks| - 1;
      MergedKeys(picks[..n]);
      assert picks == picks[..n] + [picks[n]];
      forall key
        ensures KeyIn(Merged(picks), key) <==> KeyIn(picks, key)
      {
        KeyInPlus(Merged(picks[..n]), picks[n], key);
        KeyInPlus(picks[..n], picks[n], key);
      }
    }
  }

  lemma KeyInPlus(picks: seq<Invocation>, i: Invocation, key: SemanticKey)
    ensures KeyIn(picks + [i], key) <==> KeyIn(picks, key) || i.key == key
  {
    if KeyIn(picks, key) {
      var j :| j in picks && j.key == key;
      assert j in picks + [i];
    }
    assert i in picks + [i];
  }

  lemma FirstPicks(picks: seq<Invocation>, i: Invocation)
    requires picks != []
    ensures PickedFirst(picks, i)
       <==> || PickedFirst(picks[..|picks| - 1], i)
            || (i == picks[|picks| - 1] && forall j: nat :: j < |picks| - 1 ==> picks[j].key != i.key)
  {
    var n := |picks| - 1;
    if PickedFirst(picks[..n], i) {
      var k: nat :| k < n && picks[..n][k] == i && forall j: nat :: j < k ==> picks[..n][j].key != i.key;
      assert picks[k] == i && forall j: nat :: j < k ==> picks[j] == picks[..n][j];
    }
    if k: nat :| k < |picks| && picks[k] == i && forall j: nat :: j < k ==> picks[j].key != i.key {
      if k < n {
        assert picks[..n][k] == i && forall j: nat :: j < k ==> picks[..n][j] == picks[j];
      }
    }
  }

  lemma {:induction false} FilteredDistinct(plan: seq<Invocation>, upTo: nat)
    requires upTo <= |plan|
    requires forall j: nat, k: nat :: j < k < |plan| ==> plan[j].key != plan[k].key
    ensures forall j: nat, k: nat :: j < k < |Filtered(plan, upTo)| ==>
              Filtered(plan, upTo)[j].key != Filtered(plan, upTo)[k].key
  {
    if upTo > 0 {
      FilteredDistinct(plan, upTo - 1);
      FilteredMembers(plan, upTo - 1);
      var rest := Filtered(plan, upTo - 1);
      forall j: nat | j < |rest|
        ensures rest[j].key != plan[upTo - 1].key
      {
        assert rest[j] in rest;
        var k: nat :| k < upTo - 1 && plan[..upTo - 1][k] == rest[j];
      }
    }
  }

  /** Sorting elements of different keys puts them in strictly ascending key order. */
  lemma SortedClimbs<T(!new)>(key: T -> Key, a: seq<T>)
    requires forall j: nat, k: nat :: j < k < |a| ==> key(a[j]) != key(a[k])
    ensures Climbing(key, SortBy(key, a)) && forall x :: x in SortBy(key, a) <==> x in a
  {
    SortByProperties(key, a);
    var t := SortBy(key, a);
    forall x
      ensures x in t <==> x in a
    {
      assert x in t <==> x in multiset(t);
      assert x in a <==> x in multiset(a);
    }
    forall i, j | 0 <= i < j < |t|
      ensures key(t[i]) != key(t[j])
    {
      if key(t[i]) == key(t[j]) {
        assert t[i] in a && t[j] in a;
        assert t[i] == t[j];
        TwiceInSorted(t, i, j);
        TwiceAt(a, t[i]);
      }
    }
  }

  lemma TwiceInSorted<T>(t: seq<T>, i: nat, j: nat)
    requires i < j < |t| && t[i] == t[j]
    ensures multiset(t)[t[i]] >= 2
  {
    assert t == t[..i] + [t[i]] + t[i + 1..j] + [t[j]] + t[j + 1..];
  }

  lemma TwiceAt<T>(a: seq<T>, x: T)
    requires multiset(a)[x] >= 2
    ensures exists j: nat, k: nat :: j < k < |a| && a[j] == x && a[k] == x
  {
    assert x in multiset(a);
    var j: nat :| j < |a| && a[j] == x;
    assert a == a[..j] + [x] + a[j + 1..];
    var rest := a[..j] + a[j + 1..];
    assert multiset(a) == multiset(rest) + multiset{x};
    assert x in multiset(rest);
    var k: nat :| k < |rest| && rest[k] == x;
    if k < j {
      assert a[k] == x;
    } else {
      assert a[k + 1] == x;
    }
  }

  /** Pruning and sorting the merged picks gives the plan made of them. */
  lemma PrunedIsMade(s: Setting, picks: seq<Invocation>)
    requires ValidSetting(s)
    ensures MadeOf(s, picks, Pruned(s, Merged(picks)))
  {
    var merged := Merged(picks);
    var filtered := Filtered(merged, |merged|);
    MergedMembers(picks);
    MergedKeys(picks);
    FilteredMembers(merged, |merged|);
    assert merged[..|merged|] == merged;
    FilteredDistinct(merged, |merged|);
    SortedClimbs(InvocationOrder(s), filtered);
    forall i | i in merged
      ensures Kept(merged, i) <==> NotSubsumed(picks, i)
    {
      KeptIff(picks, i);
    }
  }

  lemma KeptIff(picks: seq<Invocation>, i: Invocation)
    ensures Kept(Merged(picks), i) <==> NotSubsumed(picks, i)
  {
    MergedMembers(picks);
    MergedKeys(picks);
    var merged := Merged(picks);
    if w :| w in merged && w.key.scope == WholeDocument && w.key.capability == i.key.capability {
      assert PickedFirst(picks, w);
      assert w in picks;
    }
    if w :| w in picks && w.key.scope == WholeDocument && w.key.capability == i.key.capability {
      assert KeyIn(picks, w.key);
      var v :| v in merged && v.key == w.key;
    }
  }

  lemma MadeUnique(s: Setting, picks: seq<Invocation>, a: seq<Invocation>, b: seq<Invocation>)
    requires MadeOf(s, picks, a) && MadeOf(s, picks, b)
    ensures a == b
  {
    ClimbingUnique(InvocationOrder(s), a, b);
  }
}

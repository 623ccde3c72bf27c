/**
 * What planning one capability means (crates/ferrodoc-runtime/src/planner.rs): which candidates are acceptable, and
 * which of them is preferred, said of the policy, the inventory and the candidates themselves.
 */
module PlannerMeaning {
  import opened Collections
  import opened Orderings
  import opened CandidatePlanner

  // ---- Which candidates are acceptable ----

  ghost predicate StartsWith(text: string, start: string) {
    |start| <= |text| && forall k: nat :: k < |start| ==> text[k] == start[k]
  }

  lemma KindIff(device: DeviceId)
    ensures KindOf(device).Cpu? <==> device == "cpu"
    ensures KindOf(device).Metal? <==> device == "metal"
    ensures KindOf(device).Cuda? <==> StartsWith(device, "cuda:")
    ensures KindOf(device).Vulkan? <==> StartsWith(device, "vulkan:")
  {
    PrefixIff(device, "cuda:");
    PrefixIff(device, "vulkan:");
    assert "metal"[0] == 'm' && "cpu"[1] == 'p' && "cuda:"[0] == 'c' && "cuda:"[1] == 'u' && "vulkan:"[0] == 'v';
  }

  lemma PrefixIff(text: string, start: string)
    ensures start <= text <==> StartsWith(text, start)
  {
  }

  /** A limit that is set is kept, by a known value or because unknown ones are allowed. */
  ghost predicate Respects(estimate: Option<nat>, limit: Option<nat>, allowUnknown: bool) {
    limit.Some? ==> if estimate.Some? then estimate.value <= limit.value else allowUnknown
  }

  /** What the first entry of that name says of the device. */
  ghost predicate Listed(inventory: Inventory, id: DeviceId, memory: Option<nat>) {
    exists k: nat :: k < |inventory.devices| && inventory.devices[k].id == id
      && inventory.devices[k].memoryAvailable == memory && forall j: nat :: j < k ==> inventory.devices[j].id != id
  }

  ghost predicate SuitsEngine(policy: Policy, inventory: Inventory, input: Input) {
    var d, c := input.descriptor, input.candidate;
    && policy.capability in d.capabilities && d.id == c.engine
    && (exists k: nat :: k < |d.compatibility| && d.compatibility[k].backend == c.backend
          && KindOf(c.device) in d.compatibility[k].devices)
    && (c.device == "cpu" || exists memory :: Listed(inventory, c.device, memory))
    && (policy.placement.CpuOnly? ==> c.device == "cpu")
    && (policy.placement.Require? ==> c.device == policy.placement.required)
  }

  ghost predicate SuitsRules(policy: Policy, input: Input) {
    && (policy.allowedEngines == {} || input.descriptor.id in policy.allowedEngines)
    && input.model != Missing
    && (policy.offline || policy.private ==> input.descriptor.network == NoNetwork)
  }

  ghost predicate SuitsBudgets(policy: Policy, inventory: Inventory, c: Candidate) {
    && Respects(c.resources.peakRam, policy.maxRam, policy.allowUnknown)
    && Respects(c.resources.peakRam, inventory.ramAvailable, policy.allowUnknown)
    && Respects(c.resources.peakVram, policy.maxVram, policy.allowUnknown)
    && (c.device != "cpu" ==> forall memory :: Listed(inventory, c.device, memory) ==>
          Respects(c.resources.peakVram, memory, policy.allowUnknown))
    && Respects(c.resources.cost, policy.maxCost, policy.allowUnknown)
    && Respects(c.resources.latency, policy.deadline, policy.allowUnknown)
  }

  lemma {:induction false} FoundIff(devices: seq<InventoryDevice>, id: DeviceId)
    ensures FindDevice(devices, id).Some?
        ==> exists k: nat :: k < |devices| && devices[k] == FindDevice(devices, id).value && devices[k].id == id
              && forall j: nat :: j < k ==> devices[j].id != id
    ensures FindDevice(devices, id).None? ==> forall k: nat :: k < |devices| ==> devices[k].id != id
  {
    if devices != [] && devices[0].id != id {
      FoundIff(devices[1..], id);
      assert forall k: nat :: 0 < k < |devices| ==> devices[k] == devices[1..][k - 1];
      if FindDevice(devices[1..], id).Some? {
        var k: nat :| k < |devices[1..]| && devices[1..][k] == FindDevice(devices, id).value && devices[1..][k].id == id
          && forall j: nat :: j < k ==> devices[1..][j].id != id;
        assert devices[k + 1] == FindDevice(devices, id).value;
      }
    }
  }

  lemma ListedIff(inventory: Inventory, id: DeviceId)
    ensures FindDevice(inventory.devices, id).None? ==> forall memory :: !Listed(inventory, id, memory)
    ensures FindDevice(inventory.devices, id).Some? ==>
              forall memory :: Listed(inventory, id, memory) <==>
                memory == FindDevice(inventory.devices, id).value.memoryAvailable
  {
    FoundIff(inventory.devices, id);
  }

  lemma LimitsIff(estimate: Option<nat>, a: Option<nat>, b: Option<nat>, allowUnknown: bool)
    ensures UnknownUnderLimit(estimate, Minimum(a, b), allowUnknown) || ExceedsLimit(estimate, Minimum(a, b))
       <==> !(Respects(estimate, a, allowUnknown) && Respects(estimate, b, allowUnknown))
    ensures UnknownUnderLimit(estimate, a, allowUnknown) || ExceedsLimit(estimate, a)
       <==> !Respects(estimate, a, allowUnknown)
  {
  }

  lemma EngineIff(policy: Policy, inventory: Inventory, input: Input)
    ensures EngineRejections(policy, inventory, input) == [] <==> SuitsEngine(policy, inventory, input)
  {
    var c := input.candidate;
    KindIff(c.device);
    ListedIff(inventory, c.device);
    var device := FindDevice(inventory.devices, c.device);
    assert device.Some? ==> Listed(inventory, c.device, device.value.memoryAvailable);
  }

  lemma RulesIff(policy: Policy, input: Input)
    ensures PolicyRejections(policy, input) == [] <==> SuitsRules(policy, input)
  {
  }

  lemma BudgetsIff(policy: Policy, inventory: Inventory, c: Candidate)
    ensures MemoryRejections(policy, inventory, c) == [] && CostRejections(policy, c) == []
       <==> SuitsBudgets(policy, inventory, c)
  {
    KindIff(c.device);
    ListedIff(inventory, c.device);
    var device := FindDevice(inventory.devices, c.device);
    LimitsIff(c.resources.peakRam, policy.maxRam, inventory.ramAvailable, policy.allowUnknown);
    LimitsIff(c.resources.peakVram, policy.maxVram,
      if device.Some? then device.value.memoryAvailable else None, policy.allowUnknown);
  }

  /** Acceptable is what suits the engine, the rules and the budgets, nothing else. */
  lemma AcceptedIff(policy: Policy, inventory: Inventory, input: Input)
    ensures Decide(policy, inventory, input).accepted
       <==> && SuitsEngine(policy, inventory, input) && SuitsRules(policy, input)
            && SuitsBudgets(policy, inventory, input.candidate)
    ensures Decide(policy, inventory, input).input == input
  {
    EngineIff(policy, inventory, input);
    RulesIff(policy, input);
    BudgetsIff(policy, inventory, input.candidate);
  }

  // ---- Which candidate is preferred ----

  /** Earlier in the order of a dictionary. */
  ghost predicate TextBefore(a: string, b: string) {
    exists k: nat :: FirstDifference(a, b, k)
  }

  /** Alike up to here, where the first text ends or has the smaller character. */
  ghost predicate FirstDifference(a: string, b: string, k: nat) {
    k <= |a| && k < |b| && (forall j: nat :: j < k ==> a[j] == b[j]) && (k == |a| || a[k] < b[k])
  }

  lemma {:induction false} TextIff(a: string, b: string)
    ensures CompareText(a, b) == Less <==> TextBefore(a, b)
  {
    if a != [] && b != [] && a[0] == b[0] {
      TextIff(a[1..], b[1..]);
      if k: nat :| FirstDifference(a[1..], b[1..], k) {
        assert forall j: nat :: 0 < j < k + 1 ==> a[j] == a[1..][j - 1] && b[j] == b[1..][j - 1];
        assert FirstDifference(a, b, k + 1);
      }
      if k: nat :| FirstDifference(a, b, k) {
        assert k > 0;
        assert FirstDifference(a[1..], b[1..], k - 1);
      }
    } else if CompareText(a, b) == Less {
      assert FirstDifference(a, b, 0);
    } else {
      assert forall k: nat :: FirstDifference(a, b, k) ==> k == 0;
    }
  }

  /** By engine, then backend, then device. */
  ghost predicate NamedBefore(a: Candidate, b: Candidate) {
    || TextBefore(a.engine, b.engine)
    || (a.engine == b.engine && TextBefore(a.backend, b.backend))
    || (a.engine == b.engine && a.backend == b.backend && TextBefore(a.device, b.device))
  }

  lemma NamedIff(a: Input, b: Input)
    ensures ByIdentity(a, b) == Less <==> NamedBefore(a.candidate, b.candidate)
    ensures ByIdentity(a, b) == Equal
       <==> && a.candidate.engine == b.candidate.engine && a.candidate.backend == b.candidate.backend
            && a.candidate.device == b.candidate.device
  {
    TextIff(a.candidate.engine, b.candidate.engine);
    TextIff(a.candidate.backend, b.candidate.backend);
    TextIff(a.candidate.device, b.candidate.device);
    TextFlips(a.candidate.engine, b.candidate.engine);
    TextFlips(a.candidate.backend, b.candidate.backend);
    TextFlips(a.candidate.device, b.candidate.device);
    assert ByIdentity(a, b) == CompareIdentity(IdentityOf(a), IdentityOf(b));
  }

  /** A known lower value, or a known one against an unknown one. */
  ghost predicate Lower(a: Option<nat>, b: Option<nat>) {
    a.Some? && (b.Some? ==> a.value < b.value)
  }

  ghost predicate Higher(a: Option<real>, b: Option<real>) {
    a.Some? && (b.Some? ==> a.value > b.value)
  }

  /** Fast looks at latency, accurate at quality, cheap at cost; the others at quality, then latency, then cost. */
  ghost predicate SuitsBetter(profile: Profile, a: Resources, b: Resources) {
    match profile
    case Fast => Lower(a.latency, b.latency)
    case Accurate => Higher(a.quality, b.quality)
    case Cheap => Lower(a.cost, b.cost)
    case _ =>
      || Higher(a.quality, b.quality)
      || (a.quality == b.quality && Lower(a.latency, b.latency))
      || (a.quality == b.quality && a.latency == b.latency && Lower(a.cost, b.cost))
  }

  ghost predicate SuitsAlike(profile: Profile, a: Resources, b: Resources) {
    match profile
    case Fast => a.latency == b.latency
    case Accurate => a.quality == b.quality
    case Cheap => a.cost == b.cost
    case _ => a.quality == b.quality && a.latency == b.latency && a.cost == b.cost
  }

  ghost predicate Wanted(placement: Placement, c: Candidate) {
    placement.Prefer? && c.device == placement.preferred
  }

  /** The preferred device comes first, then what the profile looks at, then the names. */
  ghost predicate PreferredTo(policy: Policy, a: Candidate, b: Candidate) {
    || (Wanted(policy.placement, a) && !Wanted(policy.placement, b))
    || ((Wanted(policy.placement, a) <==> Wanted(policy.placement, b))
        && (|| SuitsBetter(policy.profile, a.resources, b.resources)
            || (SuitsAlike(policy.profile, a.resources, b.resources) && NamedBefore(a, b))))
  }

  lemma ProfileIff(profile: Profile, a: Input, b: Input)
    ensures ByProfile(profile)(a, b) == Less <==> SuitsBetter(profile, a.candidate.resources, b.candidate.resources)
    ensures ByProfile(profile)(a, b) == Equal <==> SuitsAlike(profile, a.candidate.resources, b.candidate.resources)
  {
    Dimensions(a, b);
  }

  lemma PreferenceIff(policy: Policy, a: Input, b: Input)
    ensures Preference(policy)(a, b) == Less <==> PreferredTo(policy, a.candidate, b.candidate)
  {
    var miss := By(PreferredMiss(policy.placement), CompareNat);
    var rest := Chain(ByProfile(policy.profile), ByIdentity);
    assert Preference(policy)(a, b) == Then(miss(a, b), rest(a, b));
    assert rest(a, b) == Then(ByProfile(policy.profile)(a, b), ByIdentity(a, b));
    assert miss(a, b) == CompareNat(PreferredMiss(policy.placement)(a), PreferredMiss(policy.placement)(b));
    ProfileIff(policy.profile, a, b);
    NamedIff(a, b);
  }

  // ---- What planning selects ----

  /** The elements that satisfy a condition, in order. */
  ghost function Only<T(!new)>(p: T -> bool, s: seq<T>): seq<T> {
    if s == [] then []
    else if p(s[0]) then [s[0]] + Only(p, s[1..]) else Only(p, s[1..])
  }

  lemma {:induction false} InsertKeepsOrder<T(!new)>(compare: Comparison<T>, p: T -> bool, x: T, s: seq<T>)
    requires forall a, b :: p(a) && p(b) ==> compare(a, b) == Equal
    ensures Only(p, InsertWith(compare, x, s)) == (if p(x) then [x] else []) + Only(p, s)
  {
    if s != [] && compare(x, s[0]) == Greater {
      InsertKeepsOrder(compare, p, x, s[1..]);
      assert ([s[0]] + InsertWith(compare, x, s[1..]))[1..] == InsertWith(compare, x, s[1..]);
    } else {
      assert ([x] + s)[1..] == s;
    }
  }

  /** Sorting is stable: elements that compare equal keep their order. */
  lemma {:induction false} SortKeepsOrder<T(!new)>(compare: Comparison<T>, p: T -> bool, s: seq<T>)
    requires forall a, b :: p(a) && p(b) ==> compare(a, b) == Equal
    ensures Only(p, SortWith(compare, s)) == Only(p, s)
  {
    if s != [] {
      SortKeepsOrder(compare, p, s[1..]);
      InsertKeepsOrder(compare, p, s[0], SortWith(compare, s[1..]));
    }
  }

  lemma {:induction false} FirstOnly<T(!new)>(p: T -> bool, s: seq<T>) returns (k: nat)
    requires Only(p, s) != []
    ensures k < |s| && s[k] == Only(p, s)[0] && p(s[k]) && forall j: nat :: j < k ==> !p(s[j])
  {
    if p(s[0]) {
      k := 0;
    } else {
      var i := FirstOnly(p, s[1..]);
      k := i + 1;
      assert forall j: nat :: 0 < j < |s| ==> s[j] == s[1..][j - 1];
    }
  }

  lemma {:induction false} OnlyFirst<T(!new)>(p: T -> bool, s: seq<T>, k: nat)
    requires k < |s| && p(s[k]) && forall j: nat :: j < k ==> !p(s[j])
    ensures Only(p, s) != [] && Only(p, s)[0] == s[k]
  {
    if k > 0 {
      assert forall j: nat :: j < |s| - 1 ==> s[1..][j] == s[j + 1];
      OnlyFirst(p, s[1..], k - 1);
    }
  }

  /** The least accepted decision strictly precedes every accepted decision before it. */
  lemma {:induction false} LeastIsFirst(compare: Comparison<Input>, decisions: seq<Decision>) returns (k: nat)
    requires Preorder(compare) && Least(compare, decisions).Some?
    ensures k < |decisions| && decisions[k] == Least(compare, decisions).value && decisions[k].accepted
    ensures forall j: nat :: j < k && decisions[j].accepted ==> compare(decisions[k].input, decisions[j].input) == Less
  {
    var n := |decisions| - 1;
    var before := Least(compare, decisions[..n]);
    if Least(compare, decisions) == before {
      k := LeastIsFirst(compare, decisions[..n]);
      assert forall j: nat :: j < n ==> decisions[..n][j] == decisions[j];
    } else {
      k := n;
      LeastIsLeast(compare, decisions[..n]);
      forall j: nat | j < n && decisions[j].accepted
        ensures compare(decisions[n].input, decisions[j].input) == Less
      {
        assert decisions[..n][j] == decisions[j];
        assert before.Some? && compare(before.value.input, decisions[n].input) == Greater;
        assert compare(decisions[n].input, before.value.input) == Less;
        assert compare(before.value.input, decisions[j].input) != Greater;
      }
    }
  }

  ghost predicate Acceptable(policy: Policy, inventory: Inventory, input: Input) {
    && SuitsEngine(policy, inventory, input) && SuitsRules(policy, input)
    && SuitsBudgets(policy, inventory, input.candidate)
  }

  /** Acceptable, with nothing acceptable preferred to it, and preferred to everything acceptable before it. */
  ghost predicate Chosen(policy: Policy, inventory: Inventory, inputs: seq<Input>, i: nat)
    requires i < |inputs|
  {
    && Acceptable(policy, inventory, inputs[i])
    && (forall j: nat :: j < |inputs| && Acceptable(policy, inventory, inputs[j]) ==>
          !PreferredTo(policy, inputs[j].candidate, inputs[i].candidate))
    && (forall j: nat :: j < i && Acceptable(policy, inventory, inputs[j]) ==>
          PreferredTo(policy, inputs[i].candidate, inputs[j].candidate))
  }

  /** The decisions, one for each candidate, by name. */
  ghost predicate InNameOrder(decisions: seq<Decision>) {
    forall i: nat, j: nat :: i < j < |decisions| ==>
      !NamedBefore(decisions[j].input.candidate, decisions[i].input.candidate)
  }

  lemma EquallyNamed(policy: Policy, input: Input, a: Decision, b: Decision)
    requires Preference(policy)(input, a.input) == Equal && Preference(policy)(input, b.input) == Equal
    ensures DecisionOrder(a, b) == Equal
  {
    PreferenceIsTotal(policy);
    IdentityPreorder();
    assert IdentityOf(a.input) == IdentityOf(input) == IdentityOf(b.input);
    assert ByIdentity(a.input, b.input) == Equal;
  }

  /** Deciding names the candidate it decides, so the sort keeps equals in their order. */
  lemma FirstOfEquals(policy: Policy, inventory: Inventory, inputs: seq<Input>, d: Decision) returns (i: nat)
    requires Least(Preference(policy), SortWith(DecisionOrder, Decisions(policy, inventory, inputs))) == Some(d)
    ensures i < |inputs| && Decide(policy, inventory, inputs[i]) == d && d.accepted
    ensures forall j: nat :: j < i && Decide(policy, inventory, inputs[j]).accepted ==>
              Preference(policy)(d.input, inputs[j]) != Equal
  {
    var x := Decisions(policy, inventory, inputs);
    var s := SortWith(DecisionOrder, x);
    var p := (e: Decision) => e.accepted && Preference(policy)(d.input, e.input) == Equal;
    forall a, b | p(a) && p(b)
      ensures DecisionOrder(a, b) == Equal
    {
      EquallyNamed(policy, d.input, a, b);
    }
    SortKeepsOrder(DecisionOrder, p, x);
    PreferenceIsTotal(policy);
    var k := LeastIsFirst(Preference(policy), s);
    assert Preference(policy)(d.input, d.input) == Equal;
    OnlyFirst(p, s, k);
    i := FirstOnly(p, x);
    assert forall j: nat :: j < |x| ==> x[j] == Decide(policy, inventory, inputs[j]);
  }

  lemma NothingPreferred(policy: Policy, inventory: Inventory, inputs: seq<Input>, d: Decision, j: nat)
    requires Least(Preference(policy), SortWith(DecisionOrder, Decisions(policy, inventory, inputs))) == Some(d)
    requires j < |inputs| && Decide(policy, inventory, inputs[j]).accepted
    ensures Preference(policy)(d.input, inputs[j]) != Greater
  {
    var s := SortWith(DecisionOrder, Decisions(policy, inventory, inputs));
    SortedDecisions(policy, inventory, inputs);
    PreferenceIsTotal(policy);
    LeastIsLeast(Preference(policy), s);
    assert Decider(policy, inventory)(inputs[j]) in s;
    var k: nat :| k < |s| && s[k] == Decider(policy, inventory)(inputs[j]);
    assert Decide(policy, inventory, inputs[j]).input == inputs[j];
  }

  /** What planning selects is the chosen candidate, and nothing exactly when nothing is acceptable. */
  lemma PlanSelects(policy: Policy, inventory: Inventory, inputs: seq<Input>)
    ensures var selected := Plan(policy, inventory, inputs).selected;
            && (selected.None? <==> forall j: nat :: j < |inputs| ==> !Acceptable(policy, inventory, inputs[j]))
            && (selected.Some? ==>
                  exists i: nat :: i < |inputs| && Chosen(policy, inventory, inputs, i)
                    && selected.value == inputs[i].candidate)
  {
    SelectionIsOptimal(policy, inventory, inputs);
    forall j: nat | j < |inputs|
      ensures Decide(policy, inventory, inputs[j]).accepted <==> Acceptable(policy, inventory, inputs[j])
    {
      AcceptedIff(policy, inventory, inputs[j]);
    }
    assert forall j: nat :: j < |inputs| ==>
      Decider(policy, inventory)(inputs[j]) == Decide(policy, inventory, inputs[j]);
    var least := Least(Preference(policy), SortWith(DecisionOrder, Decisions(policy, inventory, inputs)));
    if least.Some? {
      var i := FirstOfEquals(policy, inventory, inputs, least.value);
      assert least.value.input == inputs[i];
      forall j: nat | j < |inputs| && Acceptable(policy, inventory, inputs[j])
        ensures !PreferredTo(policy, inputs[j].candidate, inputs[i].candidate)
        ensures j < i ==> PreferredTo(policy, inputs[i].candidate, inputs[j].candidate)
      {
        NothingPreferred(policy, inventory, inputs, least.value, j);
        PreferenceIsTotal(policy);
        PreferenceIff(policy, inputs[j], inputs[i]);
        PreferenceIff(policy, inputs[i], inputs[j]);
      }
      assert Chosen(policy, inventory, inputs, i);
    }
  }

  /** Every candidate is decided once, and the decisions come by name. */
  lemma DecisionsByName(policy: Policy, inventory: Inventory, inputs: seq<Input>)
    ensures var decisions := Plan(policy, inventory, inputs).decisions;
            && InNameOrder(decisions) && |decisions| == |inputs|
            && forall d :: multiset(decisions)[d] == multiset(Decisions(policy, inventory, inputs))[d]
  {
    var x := Decisions(policy, inventory, inputs);
    var s := SortWith(DecisionOrder, x);
    DecisionPreorder();
    SortAscends(DecisionOrder, x);
    assert |multiset(s)| == |multiset(x)|;
    forall i: nat, j: nat | i < j < |s|
      ensures !NamedBefore(s[j].input.candidate, s[i].input.candidate)
    {
      assert DecisionOrder(s[i], s[j]) != Greater;
      assert DecisionOrder(s[j], s[i]) == Flip(DecisionOrder(s[i], s[j]));
      NamedIff(s[j].input, s[i].input);
    }
  }
}

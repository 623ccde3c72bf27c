/** Candidate filtering and selection (crates/ferrodoc-runtime/src/planner.rs). */
module CandidatePlanner {
  import opened Collections
  import opened Orderings

  /** A canonical device name, such as `cpu` or `cuda:0`. */
  type DeviceId = string

  datatype DeviceKind = Cpu | Cuda | Vulkan | Metal | Wgpu

  function KindOf(device: DeviceId): DeviceKind {
    if device == "cpu" then Cpu
    else if device == "metal" then Metal
    else if "cuda:" <= device then Cuda
    else if "vulkan:" <= device then Vulkan
    else Wgpu
  }

  datatype Profile = Fast | Balanced | Accurate | CpuProfile | LowVram | Offline | Private | Cheap

  datatype Placement = Auto | CpuOnly | Require(required: DeviceId) | Prefer(preferred: DeviceId)

  datatype Network = NoNetwork | OptionalNetwork | RequiredNetwork

  datatype Compatibility = Compatibility(backend: string, devices: set<DeviceKind>)

  datatype Descriptor = Descriptor(
    id: string, capabilities: set<string>, compatibility: seq<Compatibility>, network: Network)

  /** Estimates; an unknown one is `None`. */
  datatype Resources = Resources(
    peakRam: Option<nat>, peakVram: Option<nat>, warmVram: Option<nat>, latency: Option<nat>, cost: Option<nat>,
    quality: Option<real>)

  datatype Candidate = Candidate(engine: string, backend: string, device: DeviceId, resources: Resources)

  datatype Model = NotRequired | Available(digest: nat) | Missing

  datatype Input = Input(descriptor: Descriptor, candidate: Candidate, model: Model)

  datatype Policy = Policy(
    profile: Profile, capability: string, placement: Placement, allowedEngines: set<string>, maxRam: Option<nat>,
    maxVram: Option<nat>, maxCost: Option<nat>, deadline: Option<nat>, offline: bool, private: bool, allowUnknown: bool)

  datatype InventoryDevice = InventoryDevice(id: DeviceId, memoryAvailable: Option<nat>)

  datatype Inventory = Inventory(logicalCpus: Option<nat>, ramAvailable: Option<nat>, devices: seq<InventoryDevice>)

  datatype Reason =
    | Accepted | CapabilityUnsupported | DescriptorMismatch | DeviceIncompatible | PlacementRejected | EngineNotAllowed
    | ModelUnavailable | OfflineViolation | PrivacyViolation | RamUnknown | RamBudgetExceeded | VramUnknown
    | VramBudgetExceeded | CostUnknown | CostBudgetExceeded | LatencyUnknown | DeadlineExceeded

  datatype Decision = Decision(input: Input, accepted: bool, reasons: seq<Reason>)

  datatype Report = Report(decisions: seq<Decision>, selected: Option<Candidate>)

  // ---- Hard constraints ----

  function Minimum(a: Option<nat>, b: Option<nat>): Option<nat> {
    match (a, b)
    case (Some(x), Some(y)) => Some(if x <= y then x else y)
    case (Some(_), None) => a
    case (None, _) => b
  }

  function FindDevice(devices: seq<InventoryDevice>, id: DeviceId): Option<InventoryDevice> {
    if devices == [] then None
    else if devices[0].id == id then Some(devices[0])
    else FindDevice(devices[1..], id)
  }

  function RamLimit(policy: Policy, inventory: Inventory): Option<nat> {
    Minimum(policy.maxRam, inventory.ramAvailable)
  }

  function VramLimit(policy: Policy, inventory: Inventory, candidate: Candidate): Option<nat> {
    if KindOf(candidate.device).Cpu? then policy.maxVram
    else
      var device := FindDevice(inventory.devices, candidate.device);
      Minimum(policy.maxVram, if device.Some? then device.value.memoryAvailable else None)
  }

  predicate Compatible(input: Input) {
    exists i: nat :: i < |input.descriptor.compatibility|
      && input.descriptor.compatibility[i].backend == input.candidate.backend
      && KindOf(input.candidate.device) in input.descriptor.compatibility[i].devices
  }

  predicate Places(placement: Placement, device: DeviceId) {
    match placement
    case Auto => true
    case Prefer(_) => true
    case CpuOnly => KindOf(device).Cpu?
    case Require(d) => device == d
  }

  predicate UnknownUnderLimit(estimate: Option<nat>, limit: Option<nat>, allowUnknown: bool) {
    limit.Some? && estimate.None? && !allowUnknown
  }

  predicate ExceedsLimit(estimate: Option<nat>, limit: Option<nat>) {
    limit.Some? && estimate.Some? && estimate.value > limit.value
  }

  /** What each rejection says of a candidate. */
  predicate Violates(policy: Policy, inventory: Inventory, input: Input, reason: Reason) {
    var d, c := input.descriptor, input.candidate;
    match reason
    case Accepted => false
    case CapabilityUnsupported => policy.capability !in d.capabilities
    case DescriptorMismatch => d.id != c.engine
    case DeviceIncompatible =>
      !Compatible(input) || (!KindOf(c.device).Cpu? && FindDevice(inventory.devices, c.device).None?)
    case PlacementRejected => !Places(policy.placement, c.device)
    case EngineNotAllowed => policy.allowedEngines != {} && d.id !in policy.allowedEngines
    case ModelUnavailable => input.model.Missing?
    case OfflineViolation => policy.offline && !d.network.NoNetwork?
    case PrivacyViolation => policy.private && !d.network.NoNetwork?
    case RamUnknown => UnknownUnderLimit(c.resources.peakRam, RamLimit(policy, inventory), policy.allowUnknown)
    case RamBudgetExceeded => ExceedsLimit(c.resources.peakRam, RamLimit(policy, inventory))
    case VramUnknown => UnknownUnderLimit(c.resources.peakVram, VramLimit(policy, inventory, c), policy.allowUnknown)
    case VramBudgetExceeded => ExceedsLimit(c.resources.peakVram, VramLimit(policy, inventory, c))
    case CostUnknown => UnknownUnderLimit(c.resources.cost, policy.maxCost, policy.allowUnknown)
    case CostBudgetExceeded => ExceedsLimit(c.resources.cost, policy.maxCost)
    case LatencyUnknown => UnknownUnderLimit(c.resources.latency, policy.deadline, policy.allowUnknown)
    case DeadlineExceeded => ExceedsLimit(c.resources.latency, policy.deadline)
  }

  function When(condition: bool, reason: Reason): seq<Reason> {
    if condition then [reason] else []
  }

  /** What one limit adds to the reasons. */
  function LimitReasons(
      estimate: Option<nat>, limit: Option<nat>, allowUnknown: bool, unknown: Reason, exceeded: Reason): seq<Reason> {
    if limit.None? then []
    else if estimate.None? && !allowUnknown then [unknown]
    else if estimate.Some? && estimate.value > limit.value then [exceeded]
    else []
  }

  function EngineRejections(policy: Policy, inventory: Inventory, input: Input): seq<Reason> {
    var d, c := input.descriptor, input.candidate;
    When(policy.capability !in d.capabilities, CapabilityUnsupported)
    + When(d.id != c.engine, DescriptorMismatch)
    + When(!Compatible(input), DeviceIncompatible)
    + When(!KindOf(c.device).Cpu? && FindDevice(inventory.devices, c.device).None?, DeviceIncompatible)
    + When(!Places(policy.placement, c.device), PlacementRejected)
  }

  function PolicyRejections(policy: Policy, input: Input): seq<Reason> {
    var d := input.descriptor;
    When(policy.allowedEngines != {} && d.id !in policy.allowedEngines, EngineNotAllowed)
    + When(input.model.Missing?, ModelUnavailable)
    + When(policy.offline && !d.network.NoNetwork?, OfflineViolation)
    + When(policy.private && !d.network.NoNetwork?, PrivacyViolation)
  }

  function MemoryRejections(policy: Policy, inventory: Inventory, c: Candidate): seq<Reason> {
    LimitReasons(c.resources.peakRam, RamLimit(policy, inventory), policy.allowUnknown, RamUnknown, RamBudgetExceeded)
    + LimitReasons(c.resources.peakVram, VramLimit(policy, inventory, c), policy.allowUnknown, VramUnknown,
        VramBudgetExceeded)
  }

  function CostRejections(policy: Policy, c: Candidate): seq<Reason> {
    LimitReasons(c.resources.cost, policy.maxCost, policy.allowUnknown, CostUnknown, CostBudgetExceeded)
    + LimitReasons(c.resources.latency, policy.deadline, policy.allowUnknown, LatencyUnknown, DeadlineExceeded)
  }

  /** The rejections, in the order in which they are found. */
  function Rejections(policy: Policy, inventory: Inventory, input: Input): seq<Reason> {
    EngineRejections(policy, inventory, input) + PolicyRejections(policy, input)
    + MemoryRejections(policy, inventory, input.candidate) + CostRejections(policy, input.candidate)
  }

  function Decide(policy: Policy, inventory: Inventory, input: Input): Decision {
    var rejections := Rejections(policy, inventory, input);
    Decision(input, rejections == [], if rejections == [] then [Accepted] else rejections)
  }

  /** A reason is given exactly for what is violated, and `Accepted` exactly when nothing is. */
  lemma ReasonsAreViolations(policy: Policy, inventory: Inventory, input: Input, reason: Reason)
    ensures var decision := Decide(policy, inventory, input);
            && (reason in decision.reasons
                <==> Violates(policy, inventory, input, reason) || (reason == Accepted && decision.accepted))
            && (decision.accepted ==> !Violates(policy, inventory, input, reason))
            && (!decision.accepted ==> exists r :: r in decision.reasons && Violates(policy, inventory, input, r))
  {
    RejectionsAreViolations(policy, inventory, input, reason);
    var rejections := Rejections(policy, inventory, input);
    if rejections != [] {
      assert rejections[0] in rejections;
      RejectionsAreViolations(policy, inventory, input, rejections[0]);
    }
  }

  lemma RejectionsAreViolations(policy: Policy, inventory: Inventory, input: Input, reason: Reason)
    ensures reason in Rejections(policy, inventory, input) <==> Violates(policy, inventory, input, reason)
  {
    EngineViolations(policy, inventory, input, reason);
    PolicyViolations(policy, inventory, input, reason);
    MemoryViolations(policy, inventory, input, reason);
    CostViolations(policy, inventory, input, reason);
  }

  lemma EngineViolations(policy: Policy, inventory: Inventory, input: Input, reason: Reason)
    ensures reason in EngineRejections(policy, inventory, input)
       <==> && (|| reason.CapabilityUnsupported? || reason.DescriptorMismatch? || reason.DeviceIncompatible?
                || reason.PlacementRejected?)
            && Violates(policy, inventory, input, reason)
  {
  }

  lemma PolicyViolations(policy: Policy, inventory: Inventory, input: Input, reason: Reason)
    ensures reason in PolicyRejections(policy, input)
       <==> && (|| reason.EngineNotAllowed? || reason.ModelUnavailable? || reason.OfflineViolation?
                || reason.PrivacyViolation?)
            && Violates(policy, inventory, input, reason)
  {
  }

  lemma MemoryViolations(policy: Policy, inventory: Inventory, input: Input, reason: Reason)
    ensures reason in MemoryRejections(policy, inventory, input.candidate)
       <==> && (reason.RamUnknown? || reason.RamBudgetExceeded? || reason.VramUnknown? || reason.VramBudgetExceeded?)
            && Violates(policy, inventory, input, reason)
  {
  }

  lemma CostViolations(policy: Policy, inventory: Inventory, input: Input, reason: Reason)
    ensures reason in CostRejections(policy, input.candidate)
       <==> && (reason.CostUnknown? || reason.CostBudgetExceeded? || reason.LatencyUnknown? || reason.DeadlineExceeded?)
            && Violates(policy, inventory, input, reason)
  {
  }

  // ---- Preference ----

  datatype Identity = Identity(engine: string, backend: string, device: string)

  function IdentityOf(input: Input): Identity {
    Identity(input.candidate.engine, input.candidate.backend, input.candidate.device)
  }

  function CompareIdentity(a: Identity, b: Identity): Ordering {
    Then(Then(CompareText(a.engine, b.engine), CompareText(a.backend, b.backend)), CompareText(a.device, b.device))
  }

  function QualityHigh(a: real, b: real): Ordering {
    CompareReal(b, a)
  }

  function PreferredMiss(placement: Placement): Input -> nat {
    (input: Input) => if placement.Prefer? && input.candidate.device == placement.preferred then 0 else 1
  }

  const ByIdentity: Comparison<Input> := By(IdentityOf, CompareIdentity)
  const ByQuality: Comparison<Input> := By((i: Input) => i.candidate.resources.quality, Known(QualityHigh))
  const ByLatency: Comparison<Input> := By((i: Input) => i.candidate.resources.latency, Known(CompareNat))
  const ByCost: Comparison<Input> := By((i: Input) => i.candidate.resources.cost, Known(CompareNat))

  function ByProfile(profile: Profile): Comparison<Input> {
    match profile
    case Fast => ByLatency
    case Accurate => ByQuality
    case Cheap => ByCost
    case _ => Chain(Chain(ByQuality, ByLatency), ByCost)
  }

  /** The preferred device first, then the profile, then the identity. */
  function Preference(policy: Policy): Comparison<Input> {
    Chain(By(PreferredMiss(policy.placement), CompareNat), Chain(ByProfile(policy.profile), ByIdentity))
  }

  lemma IdentityPreorder()
    ensures Preorder(ByIdentity)
    ensures forall a: Input, b: Input :: ByIdentity(a, b) == Equal <==> IdentityOf(a) == IdentityOf(b)
  {
    TextPreorder();
    var engine := (i: Identity) => i.engine;
    var backend := (i: Identity) => i.backend;
    var device := (i: Identity) => i.device;
    ByPreorder(engine, CompareText);
    ByPreorder(backend, CompareText);
    ByPreorder(device, CompareText);
    ChainPreorder(By(engine, CompareText), By(backend, CompareText));
    var chained := Chain(Chain(By(engine, CompareText), By(backend, CompareText)), By(device, CompareText));
    ChainPreorder(Chain(By(engine, CompareText), By(backend, CompareText)), By(device, CompareText));
    assert forall a: Identity, b: Identity :: CompareIdentity(a, b) == chained(a, b);
    ByPreorder(IdentityOf, CompareIdentity);
    forall a: Input, b: Input
      ensures ByIdentity(a, b) == Equal <==> IdentityOf(a) == IdentityOf(b)
    {
      TextFlips(IdentityOf(a).engine, IdentityOf(b).engine);
      TextFlips(IdentityOf(a).backend, IdentityOf(b).backend);
      TextFlips(IdentityOf(a).device, IdentityOf(b).device);
    }
  }

  lemma ProfilePreorder(profile: Profile)
    ensures Preorder(ByProfile(profile))
  {
    KnownPreorder(QualityHigh);
    KnownPreorder(CompareNat);
    ByPreorder((i: Input) => i.candidate.resources.quality, Known(QualityHigh));
    ByPreorder((i: Input) => i.candidate.resources.latency, Known(CompareNat));
    ByPreorder((i: Input) => i.candidate.resources.cost, Known(CompareNat));
    ChainPreorder(ByQuality, ByLatency);
    ChainPreorder(Chain(ByQuality, ByLatency), ByCost);
  }

  /** The preference is a total order on candidate identities. */
  lemma PreferenceIsTotal(policy: Policy)
    ensures Preorder(Preference(policy))
    ensures forall a: Input, b: Input :: Preference(policy)(a, b) == Equal ==> IdentityOf(a) == IdentityOf(b)
  {
    IdentityPreorder();
    ProfilePreorder(policy.profile);
    ByPreorder(PreferredMiss(policy.placement), CompareNat);
    ChainPreorder(ByProfile(policy.profile), ByIdentity);
    ChainPreorder(By(PreferredMiss(policy.placement), CompareNat), Chain(ByProfile(policy.profile), ByIdentity));
  }

  // ---- Planning ----

  function Decider(policy: Policy, inventory: Inventory): Input -> Decision {
    (input: Input) => Decide(policy, inventory, input)
  }

  function Decisions(policy: Policy, inventory: Inventory, inputs: seq<Input>): seq<Decision> {
    Heads(Decider(policy, inventory), inputs)
  }

  const DecisionOrder: Comparison<Decision> := By((d: Decision) => d.input, ByIdentity)

  /** The first of the least accepted decisions. */
  function Least(compare: Comparison<Input>, decisions: seq<Decision>): Option<Decision> {
    if decisions == [] then None
    else
      var n := |decisions| - 1;
      var before := Least(compare, decisions[..n]);
      if decisions[n].accepted && (before.None? || compare(before.value.input, decisions[n].input) == Greater)
      then Some(decisions[n]) else before
  }

  function Plan(policy: Policy, inventory: Inventory, inputs: seq<Input>): Report {
    var decisions := SortWith(DecisionOrder, Decisions(policy, inventory, inputs));
    var least := Least(Preference(policy), decisions);
    Report(decisions, if least.Some? then Some(least.value.input.candidate) else None)
  }

  predicate DistinctIdentities(inputs: seq<Input>) {
    forall i: nat, j: nat :: i < j < |inputs| ==> IdentityOf(inputs[i]) != IdentityOf(inputs[j])
  }

  lemma DecisionPreorder()
    ensures Preorder(DecisionOrder)
  {
    IdentityPreorder();
    ByPreorder((d: Decision) => d.input, ByIdentity);
  }

  /** Candidates with distinct identities: planning does not depend on the order in which they are given. */
  lemma PlanIsOrderIndependent(policy: Policy, inventory: Inventory, a: seq<Input>, b: seq<Input>)
    requires multiset(a) == multiset(b) && DistinctIdentities(a)
    ensures Plan(policy, inventory, a) == Plan(policy, inventory, b)
  {
    var x, y := Decisions(policy, inventory, a), Decisions(policy, inventory, b);
    HeadsPermute(Decider(policy, inventory), a, b);
    DecisionPreorder();
    SortAscends(DecisionOrder, x);
    SortAscends(DecisionOrder, y);
    var s, t := SortWith(DecisionOrder, x), SortWith(DecisionOrder, y);
    forall p: Decision, q: Decision | p in s && q in s && DecisionOrder(p, q) == Equal
      ensures p == q
    {
      assert p in multiset(s) && q in multiset(s);
      SameIdentity(policy, inventory, a, p, q);
    }
    AscendingUnique(DecisionOrder, s, t);
  }

  lemma SameIdentity(policy: Policy, inventory: Inventory, inputs: seq<Input>, p: Decision, q: Decision)
    requires DistinctIdentities(inputs)
    requires p in Decisions(policy, inventory, inputs) && q in Decisions(policy, inventory, inputs)
    requires DecisionOrder(p, q) == Equal
    ensures p == q
  {
    IdentityPreorder();
    var i: nat :| i < |inputs| && Decisions(policy, inventory, inputs)[i] == p;
    var j: nat :| j < |inputs| && Decisions(policy, inventory, inputs)[j] == q;
    assert IdentityOf(inputs[i]) == IdentityOf(inputs[j]);
  }

  /** Nothing accepted is preferred to the decision. */
  predicate LeastAmong(compare: Comparison<Input>, decisions: seq<Decision>, least: Option<Decision>) {
    match least
    case None => forall i: nat :: i < |decisions| ==> !decisions[i].accepted
    case Some(d) =>
      && d in decisions && d.accepted
      && forall i: nat :: i < |decisions| && decisions[i].accepted ==> compare(d.input, decisions[i].input) != Greater
  }

  lemma {:induction false} LeastIsLeast(compare: Comparison<Input>, decisions: seq<Decision>)
    requires Preorder(compare)
    ensures LeastAmong(compare, decisions, Least(compare, decisions))
  {
    if decisions != [] {
      var n := |decisions| - 1;
      LeastIsLeast(compare, decisions[..n]);
      var before, after := Least(compare, decisions[..n]), Least(compare, decisions);
      if after.Some? {
        forall i: nat | i < |decisions| && decisions[i].accepted
          ensures compare(after.value.input, decisions[i].input) != Greater
        {
          if i < n {
            assert decisions[..n][i] == decisions[i];
          }
        }
      } else {
        forall i: nat | i < |decisions|
          ensures !decisions[i].accepted
        {
          assert i < n ==> decisions[..n][i] == decisions[i];
        }
      }
    }
  }

  /** Candidate `i` is accepted, is the one selected, and no accepted candidate is preferred to it. */
  predicate Selects(policy: Policy, inventory: Inventory, inputs: seq<Input>, i: nat, selected: Candidate)
    requires i < |inputs|
  {
    && selected == inputs[i].candidate && Decider(policy, inventory)(inputs[i]).accepted
    && forall j: nat :: j < |inputs| && Decider(policy, inventory)(inputs[j]).accepted ==>
         Preference(policy)(inputs[i], inputs[j]) != Greater
  }

  lemma SortedDecisions(policy: Policy, inventory: Inventory, inputs: seq<Input>)
    ensures var s := SortWith(DecisionOrder, Decisions(policy, inventory, inputs));
            && (forall i: nat :: i < |inputs| ==> Decider(policy, inventory)(inputs[i]) in s)
            && (forall d :: d in s ==> exists i: nat :: i < |inputs| && Decider(policy, inventory)(inputs[i]) == d)
  {
    var x := Decisions(policy, inventory, inputs);
    DecisionPreorder();
    SortAscends(DecisionOrder, x);
    var s := SortWith(DecisionOrder, x);
    forall i: nat | i < |inputs|
      ensures Decider(policy, inventory)(inputs[i]) in s
    {
      assert x[i] in multiset(s);
    }
    forall d | d in s
      ensures exists i: nat :: i < |inputs| && Decider(policy, inventory)(inputs[i]) == d
    {
      assert d in multiset(x);
      var i: nat :| i < |x| && x[i] == d;
    }
  }

  /**
   * What is selected is an accepted candidate to which no accepted candidate is preferred, and something is selected
   * exactly when something is acceptable.
   */
  lemma SelectionIsOptimal(policy: Policy, inventory: Inventory, inputs: seq<Input>)
    ensures var report := Plan(policy, inventory, inputs);
            && (report.selected.None? <==> forall i: nat :: i < |inputs| ==>
                 !Decider(policy, inventory)(inputs[i]).accepted)
            && (report.selected.Some? ==> exists i: nat ::
                  i < |inputs| && Selects(policy, inventory, inputs, i, report.selected.value))
  {
    SortedDecisions(policy, inventory, inputs);
    var s := SortWith(DecisionOrder, Decisions(policy, inventory, inputs));
    PreferenceIsTotal(policy);
    LeastIsLeast(Preference(policy), s);
    var least := Least(Preference(policy), s);
    if least.Some? {
      var i: nat :| i < |inputs| && Decider(policy, inventory)(inputs[i]) == least.value;
      assert Selects(policy, inventory, inputs, i, least.value.input.candidate);
    }
  }

  /** A known value that is no larger, wherever the other is known. */
  predicate NoHigher(a: Option<nat>, b: Option<nat>) {
    b.Some? ==> a.Some? && a.value <= b.value
  }

  predicate NoLower(a: Option<real>, b: Option<real>) {
    b.Some? ==> a.Some? && a.value >= b.value
  }

  /** What the profile promises of one candidate against another. */
  predicate ServesProfile(profile: Profile, a: Resources, b: Resources) {
    match profile
    case Fast => NoHigher(a.latency, b.latency)
    case Accurate => NoLower(a.quality, b.quality)
    case Cheap => NoHigher(a.cost, b.cost)
    case _ =>
      && NoLower(a.quality, b.quality)
      && (a.quality == b.quality ==>
            NoHigher(a.latency, b.latency) && (a.latency == b.latency ==> NoHigher(a.cost, b.cost)))
  }

  predicate OnPreferred(placement: Placement, input: Input) {
    placement.Prefer? && input.candidate.device == placement.preferred
  }

  lemma PreferenceServesProfile(policy: Policy, a: Input, b: Input)
    requires Preference(policy)(a, b) != Greater
    ensures OnPreferred(policy.placement, b) ==> OnPreferred(policy.placement, a)
    ensures (OnPreferred(policy.placement, a) <==> OnPreferred(policy.placement, b))
        ==> ServesProfile(policy.profile, a.candidate.resources, b.candidate.resources)
  {
    var miss := By(PreferredMiss(policy.placement), CompareNat);
    var rest := Chain(ByProfile(policy.profile), ByIdentity);
    assert Preference(policy)(a, b) == Then(miss(a, b), rest(a, b));
    assert rest(a, b) == Then(ByProfile(policy.profile)(a, b), ByIdentity(a, b));
    assert miss(a, b) == CompareNat(PreferredMiss(policy.placement)(a), PreferredMiss(policy.placement)(b));
    Dimensions(a, b);
  }

  lemma Dimensions(a: Input, b: Input)
    ensures ByLatency(a, b) == CompareKnown(CompareNat, a.candidate.resources.latency, b.candidate.resources.latency)
    ensures ByCost(a, b) == CompareKnown(CompareNat, a.candidate.resources.cost, b.candidate.resources.cost)
    ensures ByQuality(a, b) == CompareKnown(QualityHigh, a.candidate.resources.quality, b.candidate.resources.quality)
    ensures Chain(Chain(ByQuality, ByLatency), ByCost)(a, b) ==
            Then(Then(ByQuality(a, b), ByLatency(a, b)), ByCost(a, b))
  {
    assert Chain(ByQuality, ByLatency)(a, b) == Then(ByQuality(a, b), ByLatency(a, b));
  }

  /**
   * No accepted candidate is on the preferred device unless the selected one is, and none placed alike serves the
   * profile better.
   */
  lemma SelectionServesProfile(policy: Policy, inventory: Inventory, inputs: seq<Input>, i: nat, j: nat)
    requires i < |inputs| && j < |inputs| && Decider(policy, inventory)(inputs[j]).accepted
    requires Selects(policy, inventory, inputs, i, inputs[i].candidate)
    ensures OnPreferred(policy.placement, inputs[j]) ==> OnPreferred(policy.placement, inputs[i])
    ensures (OnPreferred(policy.placement, inputs[i]) <==> OnPreferred(policy.placement, inputs[j]))
        ==> ServesProfile(policy.profile, inputs[i].candidate.resources, inputs[j].candidate.resources)
  {
    PreferenceServesProfile(policy, inputs[i], inputs[j]);
  }

  // ---- The loops ----

  method CheckLimit(
      reasons: seq<Reason>, estimate: Option<nat>, limit: Option<nat>, allowUnknown: bool, unknown: Reason,
      exceeded: Reason)
    returns (after: seq<Reason>)
    ensures after == reasons + LimitReasons(estimate, limit, allowUnknown, unknown, exceeded)
  {
    after := reasons;
    if limit.None? {
      return;
    }
    if estimate.None? {
      if !allowUnknown {
        after := after + [unknown];
      }
    } else if estimate.value > limit.value {
      after := after + [exceeded];
    }
  }

  method RejectIf(reasons: seq<Reason>, condition: bool, reason: Reason) returns (after: seq<Reason>)
    ensures after == reasons + When(condition, reason)
  {
    after := reasons;
    if condition {
      after := after + [reason];
    }
  }

  method CheckEngine(policy: Policy, inventory: Inventory, input: Input) returns (reasons: seq<Reason>)
    ensures reasons == EngineRejections(policy, inventory, input)
  {
    var d, c := input.descriptor, input.candidate;
    reasons := [];
    reasons := RejectIf(reasons, policy.capability !in d.capabilities, CapabilityUnsupported);
    reasons := RejectIf(reasons, d.id != c.engine, DescriptorMismatch);
    reasons := RejectIf(reasons, !Compatible(input), DeviceIncompatible);
    reasons := RejectIf(reasons, !KindOf(c.device).Cpu? &&
        FindDevice(inventory.devices, c.device).None?, DeviceIncompatible);
    reasons := RejectIf(reasons, !Places(policy.placement, c.device), PlacementRejected);
  }

  method CheckPolicy(policy: Policy, input: Input) returns (reasons: seq<Reason>)
    ensures reasons == PolicyRejections(policy, input)
  {
    var d := input.descriptor;
    reasons := [];
    reasons := RejectIf(reasons, policy.allowedEngines != {} && d.id !in policy.allowedEngines, EngineNotAllowed);
    reasons := RejectIf(reasons, input.model.Missing?, ModelUnavailable);
    reasons := RejectIf(reasons, policy.offline && d.network != NoNetwork, OfflineViolation);
    reasons := RejectIf(reasons, policy.private && d.network != NoNetwork, PrivacyViolation);
  }

  method DecideCandidate(policy: Policy, inventory: Inventory, input: Input) returns (decision: Decision)
    ensures decision == Decide(policy, inventory, input)
  {
    var c := input.candidate;
    var r := c.resources;
    var engine := CheckEngine(policy, inventory, input);
    var rules := CheckPolicy(policy, input);
    var reasons := CheckLimit([], r.peakRam, RamLimit(policy, inventory), policy.allowUnknown, RamUnknown,
        RamBudgetExceeded);
    reasons := CheckLimit(reasons, r.peakVram, VramLimit(policy, inventory, c), policy.allowUnknown, VramUnknown,
        VramBudgetExceeded);
    assert reasons == MemoryRejections(policy, inventory, c);
    var rest := CheckLimit([], r.cost, policy.maxCost, policy.allowUnknown, CostUnknown, CostBudgetExceeded);
    rest := CheckLimit(rest, r.latency, policy.deadline, policy.allowUnknown, LatencyUnknown, DeadlineExceeded);
    assert rest == CostRejections(policy, c);
    reasons := engine + rules + reasons + rest;
    var accepted := |reasons| == 0;
    if accepted {
      reasons := [Accepted];
    }
    return Decision(input, accepted, reasons);
  }

  method FindLeast(compare: Comparison<Input>, decisions: seq<Decision>) returns (least: Option<Decision>)
    ensures least == Least(compare, decisions)
  {
    least := None;
    for i := 0 to |decisions|
      invariant least == Least(compare, decisions[..i])
    {
      assert decisions[..i + 1][..i] == decisions[..i];
      if decisions[i].accepted && (least.None? || compare(least.value.input, decisions[i].input) == Greater) {
        least := Some(decisions[i]);
      }
    }
    assert decisions[..|decisions|] == decisions;
  }

  method ComputePlan(policy: Policy, inventory: Inventory, inputs: seq<Input>) returns (report: Report)
    ensures report == Plan(policy, inventory, inputs)
  {
    var decisions: seq<Decision> := [];
    for i := 0 to |inputs|
      invariant decisions == Decisions(policy, inventory, inputs[..i])
    {
      var decision := DecideCandidate(policy, inventory, inputs[i]);
      HeadsPush(Decider(policy, inventory), inputs, i);
      decisions := decisions + [decision];
    }
    assert inputs[..|inputs|] == inputs;
    decisions := SortWith(DecisionOrder, decisions);
    var least := FindLeast(Preference(policy), decisions);
    return Report(decisions, if least.Some? then Some(least.value.input.candidate) else None);
  }
}

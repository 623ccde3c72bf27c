/**
 * From a planned candidate to the lease it asks for (crates/ferrodoc-runtime/src/lib.rs): when the scheduler accepts
 * what the planner selected.
 */
module PlannedLease {
  import opened Collections
  import opened CandidatePlanner
  import opened PlannerMeaning
  import LeaseScheduler

  const MIB: nat := 1_048_576
  const GIB: nat := 1_073_741_824
  const DEFAULT_RAM: nat := 768 * MIB

  datatype Options = Options(
    profile: Profile, maxRam: Option<nat>, maxVram: Option<nat>, maxCost: Option<nat>, deadline: Option<nat>,
    allowUnknown: bool)

  function ProfilePolicy(profile: Profile, capability: string): Policy {
    var policy := Policy(profile, capability, Auto, {}, None, None, None, None, false, false, false);
    match profile
    case CpuProfile => policy.(placement := CpuOnly)
    case LowVram => policy.(maxVram := Some(2 * GIB))
    case Offline => policy.(offline := true)
    case Private => policy.(private := true)
    case _ => policy
  }

  function PolicyFor(options: Options, capability: string): Policy {
    var policy := ProfilePolicy(options.profile, capability);
    policy.(maxRam := options.maxRam, maxVram := Minimum(policy.maxVram, options.maxVram), maxCost := options.maxCost,
            deadline := options.deadline, allowUnknown := options.allowUnknown)
  }

  /** Later devices of the same name replace earlier ones. */
  function Budgets(devices: seq<InventoryDevice>): map<DeviceId, nat> {
    if devices == [] then map[]
    else
      var n := |devices| - 1;
      var before := Budgets(devices[..n]);
      if devices[n].memoryAvailable.Some? then before[devices[n].id := devices[n].memoryAvailable.value] else before
  }

  function SchedulerConfig(options: Options, inventory: Inventory): LeaseScheduler.Config {
    var ram :=
      if options.maxRam.Some? then options.maxRam.value
      else if inventory.ramAvailable.Some? then inventory.ramAvailable.value
      else DEFAULT_RAM;
    var cpus := if inventory.logicalCpus.Some? then inventory.logicalCpus.value else 1;
    var workers := if cpus > 1 then cpus else 1;
    LeaseScheduler.Config(workers, ram, Budgets(inventory.devices))
  }

  function Retained(candidate: Candidate, model: Model): Option<LeaseScheduler.WarmResidency> {
    if model.Available? && candidate.resources.warmVram.Some? && !KindOf(candidate.device).Cpu?
       && candidate.resources.warmVram.value > 0
    then Some(LeaseScheduler.WarmResidency(model.digest, candidate.device, candidate.resources.warmVram.value))
    else None
  }

  function LeaseFor(options: Options, candidate: Candidate, model: Model): LeaseScheduler.LeaseRequest {
    LeaseScheduler.LeaseRequest(
      candidate.resources.peakRam,
      if KindOf(candidate.device).Cpu? then None
      else Some(LeaseScheduler.DeviceRequest(candidate.device, candidate.resources.peakVram)),
      Retained(candidate, model), options.allowUnknown)
  }

  /** The profile sets one hard rule at most; the options set the rest. */
  lemma PolicyMeans(options: Options, capability: string)
    ensures var policy := PolicyFor(options, capability);
            && policy.profile == options.profile && policy.capability == capability && policy.allowedEngines == {}
            && policy.placement == (if options.profile.CpuProfile? then CpuOnly else Auto)
            && (policy.offline <==> options.profile.Offline?) && (policy.private <==> options.profile.Private?)
            && policy.maxRam == options.maxRam && policy.maxCost == options.maxCost
            && policy.deadline == options.deadline && policy.allowUnknown == options.allowUnknown
            && (options.profile.LowVram? ==> policy.maxVram.Some? && policy.maxVram.value <= 2_147_483_648)
            && (options.maxVram.Some? ==> policy.maxVram.Some? && policy.maxVram.value <= options.maxVram.value)
            && (policy.maxVram == options.maxVram
                || (options.profile.LowVram? && policy.maxVram == Some(2_147_483_648)))
  {
  }

  /** The scheduler gets the memory of the options, else what is free, else 768 MiB; and at least one worker. */
  lemma ConfigMeans(options: Options, inventory: Inventory)
    ensures var config := SchedulerConfig(options, inventory);
            && (options.maxRam.Some? ==> config.ramBudget == options.maxRam.value)
            && (options.maxRam.None? && inventory.ramAvailable.Some? ==>
                  config.ramBudget == inventory.ramAvailable.value)
            && (options.maxRam.None? && inventory.ramAvailable.None? ==> config.ramBudget == 805_306_368)
            && config.cpuWorkers >= 1
            && (inventory.logicalCpus.Some? && inventory.logicalCpus.value >= 1 ==>
                  config.cpuWorkers == inventory.logicalCpus.value)
            && (inventory.logicalCpus.None? || inventory.logicalCpus.value == 0 ==> config.cpuWorkers == 1)
  {
  }

  /** The lease asks for the candidate's peaks, for device memory and a warm model only off the host. */
  lemma LeaseMeans(options: Options, candidate: Candidate, model: Model)
    ensures var request := LeaseFor(options, candidate, model);
            && request.ram == candidate.resources.peakRam && request.guardUnknown == options.allowUnknown
            && (request.device.Some? <==> candidate.device != "cpu")
            && (request.device.Some? ==>
                  && request.device.value.device == candidate.device
                  && request.device.value.estimate == candidate.resources.peakVram)
            && (request.retainWarm.Some? <==>
                  && candidate.device != "cpu" && model.Available?
                  && candidate.resources.warmVram.Some? && candidate.resources.warmVram.value > 0)
            && (request.retainWarm.Some? ==>
                  request.retainWarm.value
                  == LeaseScheduler.WarmResidency(model.digest, candidate.device, candidate.resources.warmVram.value))
  {
    KindIff(candidate.device);
  }

  // ---- Agreement ----

  predicate DistinctDevices(devices: seq<InventoryDevice>) {
    forall i: nat, j: nat :: i < j < |devices| ==> devices[i].id != devices[j].id
  }

  /** What the planner looks up first is what the scheduler's budgets keep. */
  lemma BudgetsMatchLookup(devices: seq<InventoryDevice>, id: DeviceId)
    requires DistinctDevices(devices)
    ensures var found := FindDevice(devices, id);
            && (found.Some? ==> exists i: nat :: i < |devices| && devices[i] == found.value && found.value.id == id)
            && (found.None? ==> forall i: nat :: i < |devices| ==> devices[i].id != id)
            && (id in Budgets(devices) <==> found.Some? && found.value.memoryAvailable.Some?)
            && (id in Budgets(devices) ==> Budgets(devices)[id] == found.value.memoryAvailable.value)
  {
    FindIsMember(devices, id);
    BudgetsExactly(devices);
  }

  lemma {:induction false} FindIsMember(devices: seq<InventoryDevice>, id: DeviceId)
    ensures var found := FindDevice(devices, id);
            && (found.Some? ==> exists i: nat :: i < |devices| && devices[i] == found.value && found.value.id == id)
            && (found.None? ==> forall i: nat :: i < |devices| ==> devices[i].id != id)
  {
    if devices != [] {
      if devices[0].id != id {
        FindIsMember(devices[1..], id);
        if FindDevice(devices, id).Some? {
          var i: nat :| i < |devices[1..]| && devices[1..][i] == FindDevice(devices, id).value;
          assert devices[i + 1] == FindDevice(devices, id).value;
        } else {
          forall i: nat | i < |devices|
            ensures devices[i].id != id
          {
            assert i > 0 ==> devices[1..][i - 1] == devices[i];
          }
        }
      }
    }
  }

  lemma {:induction false} BudgetsExactly(devices: seq<InventoryDevice>)
    requires DistinctDevices(devices)
    ensures forall i: nat :: i < |devices| ==>
              (devices[i].id in Budgets(devices) <==> devices[i].memoryAvailable.Some?)
    ensures forall i: nat :: i < |devices| && devices[i].memoryAvailable.Some? ==>
              Budgets(devices)[devices[i].id] == devices[i].memoryAvailable.value
    ensures forall id :: id in Budgets(devices) ==> exists i: nat :: i < |devices| && devices[i].id == id
  {
    if devices != [] {
      var n := |devices| - 1;
      var before := devices[..n];
      BudgetsExactly(before);
      assert devices[n].id !in Budgets(before);
      forall i: nat | i < n
        ensures devices[i].id in Budgets(devices) <==> devices[i].memoryAvailable.Some?
        ensures devices[i].memoryAvailable.Some? ==> Budgets(devices)[devices[i].id] == devices[i].memoryAvailable.value
      {
        assert before[i] == devices[i];
      }
      forall id | id in Budgets(devices)
        ensures exists i: nat :: i < |devices| && devices[i].id == id
      {
        if id in Budgets(before) {
          var i: nat :| i < n && before[i].id == id;
          assert devices[i].id == id;
        } else {
          assert devices[n].id == id;
        }
      }
    }
  }

  /** A memory limit is known, or the estimate happens to suit the default budget. */
  predicate RamAgrees(options: Options, inventory: Inventory, candidate: Candidate) {
    || options.maxRam.Some? || inventory.ramAvailable.Some?
    || (if candidate.resources.peakRam.Some? then candidate.resources.peakRam.value <= DEFAULT_RAM
         else options.allowUnknown)
  }

  predicate DeviceAgrees(inventory: Inventory, candidate: Candidate) {
    KindOf(candidate.device).Cpu? || MemoryKnown(inventory, candidate.device)
  }

  predicate MemoryKnown(inventory: Inventory, device: DeviceId) {
    var found := FindDevice(inventory.devices, device);
    found.Some? && found.value.memoryAvailable.Some?
  }

  /** The model kept warm afterwards fits in the share of the device that is leased. */
  predicate WarmAgrees(inventory: Inventory, candidate: Candidate, model: Model)
    requires DeviceAgrees(inventory, candidate)
  {
    Retained(candidate, model).Some? ==>
      candidate.resources.warmVram.value
      <= (if candidate.resources.peakVram.Some? then candidate.resources.peakVram.value
          else FindDevice(inventory.devices, candidate.device).value.memoryAvailable.value)
  }

  predicate LeaseAgrees(options: Options, inventory: Inventory, candidate: Candidate, model: Model) {
    && RamAgrees(options, inventory, candidate) && DeviceAgrees(inventory, candidate)
    && WarmAgrees(inventory, candidate, model)
  }

  lemma AcceptedViolatesNothing(policy: Policy, inventory: Inventory, input: Input)
    requires Decide(policy, inventory, input).accepted
    ensures !Violates(policy, inventory, input, RamUnknown) && !Violates(policy, inventory, input, RamBudgetExceeded)
    ensures !Violates(policy, inventory, input, VramUnknown) && !Violates(policy, inventory, input, VramBudgetExceeded)
  {
    ReasonsAreViolations(policy, inventory, input, RamUnknown);
    ReasonsAreViolations(policy, inventory, input, RamBudgetExceeded);
    ReasonsAreViolations(policy, inventory, input, VramUnknown);
    ReasonsAreViolations(policy, inventory, input, VramBudgetExceeded);
  }

  lemma RamNormalizes(options: Options, inventory: Inventory, capability: string, input: Input)
    requires Decide(PolicyFor(options, capability), inventory, input).accepted
    ensures var ram := input.candidate.resources.peakRam;
            LeaseScheduler.NormalizeEstimate(ram, SchedulerConfig(options, inventory).ramBudget,
                options.allowUnknown).Ok?
            <==> RamAgrees(options, inventory, input.candidate)
  {
    AcceptedViolatesNothing(PolicyFor(options, capability), inventory, input);
  }

  lemma DeviceNormalizes(options: Options, inventory: Inventory, capability: string, input: Input)
    requires Decide(PolicyFor(options, capability), inventory, input).accepted
    requires DistinctDevices(inventory.devices)
    ensures var c := input.candidate;
            var share := LeaseScheduler.NormalizeDevice(SchedulerConfig(options, inventory),
                LeaseFor(options, c, input.model));
            && (share.Ok? <==> DeviceAgrees(inventory, c))
            && (share.Ok? ==> (LeaseScheduler.WarmFits(share.value, Retained(c, input.model)) <==>
                 WarmAgrees(inventory, c, input.model)))
  {
    AcceptedViolatesNothing(PolicyFor(options, capability), inventory, input);
    BudgetsMatchLookup(inventory.devices, input.candidate.device);
  }

  /**
   * The scheduler normalizes the lease of an accepted candidate exactly when some memory limit bounds it, the memory of
   * its device is known, and the model to be kept warm fits in the leased share; with the first two, only the last can
   * fail.
   */
  lemma AcceptedCandidateNormalizes(options: Options, inventory: Inventory, capability: string, input: Input)
    requires Decide(PolicyFor(options, capability), inventory, input).accepted
    requires DistinctDevices(inventory.devices)
    ensures var config := SchedulerConfig(options, inventory);
            var c := input.candidate;
            var normalized := LeaseScheduler.Normalize(config, LeaseFor(options, c, input.model));
            && (normalized.Ok? <==> LeaseAgrees(options, inventory, c, input.model))
            && (RamAgrees(options, inventory, c) && DeviceAgrees(inventory, c) ==>
                  normalized.Ok? || normalized.error == LeaseScheduler.InvalidConfiguration)
  {
    RamNormalizes(options, inventory, capability, input);
    DeviceNormalizes(options, inventory, capability, input);
  }

  /** The candidate that a plan selects is normalized under the same conditions. */
  lemma SelectedCandidateNormalizes(options: Options, inventory: Inventory, capability: string, inputs: seq<Input>)
    returns (i: nat)
    requires DistinctDevices(inventory.devices)
    requires Plan(PolicyFor(options, capability), inventory, inputs).selected.Some?
    ensures i < |inputs| && Plan(PolicyFor(options, capability), inventory, inputs).selected.value ==
            inputs[i].candidate
    ensures var c := inputs[i].candidate;
            LeaseScheduler.Normalize(SchedulerConfig(options, inventory), LeaseFor(options, c, inputs[i].model)).Ok?
            <==> LeaseAgrees(options, inventory, c, inputs[i].model)
  {
    var policy := PolicyFor(options, capability);
    SelectionIsOptimal(policy, inventory, inputs);
    var selected := Plan(policy, inventory, inputs).selected;
    i :| i < |inputs| && Selects(policy, inventory, inputs, i, selected.value);
    AcceptedCandidateNormalizes(options, inventory, capability, inputs[i]);
  }

  /** Without any known limit the planner accepts what the scheduler's default budget refuses. */
  lemma UnboundedPlanExceedsDefault(options: Options, inventory: Inventory, input: Input)
    requires options == Options(Fast, None, None, None, None, false)
    requires inventory == Inventory(None, None, [])
    requires input == Input(Descriptor("e", {"ocr.page"}, [Compatibility("b", {Cpu})], NoNetwork),
                            Candidate("e", "b", "cpu", Resources(Some(GIB), None, None, None, None, None)), NotRequired)
    ensures Decide(PolicyFor(options, "ocr.page"), inventory, input).accepted
    ensures LeaseScheduler.Normalize(SchedulerConfig(options, inventory),
            LeaseFor(options, input.candidate, input.model))
         == Err(LeaseScheduler.ExceedsBudget)
  {
    assert KindOf("cpu") == Cpu;
    assert input.descriptor.compatibility[0].backend == "b";
    assert Compatible(input);
  }
}

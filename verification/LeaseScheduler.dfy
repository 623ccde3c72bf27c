/** Worker and memory leases with warm residency (crates/ferrodoc-runtime/src/scheduler.rs). */
module LeaseScheduler {
  import opened Collections

  const U64_MAX: nat := 0xFFFF_FFFF_FFFF_FFFF

  /** `u64::saturating_add`. */
  function SaturatingAdd(a: nat, b: nat): nat {
    if a + b > U64_MAX then U64_MAX else a + b
  }

  /** `u64::saturating_sub`. */
  function SaturatingSub(a: nat, b: nat): nat {
    if b > a then 0 else a - b
  }

  type DeviceId = string
  type Digest = nat

  datatype Config = Config(cpuWorkers: nat, ramBudget: nat, deviceBudgets: map<DeviceId, nat>)

  datatype WarmResidency = WarmResidency(model: Digest, device: DeviceId, bytes: nat)

  datatype WarmKey = WarmKey(model: Digest, device: DeviceId)

  datatype DeviceRequest = DeviceRequest(device: DeviceId, estimate: Option<nat>)

  /** An unknown estimate is `None`. */
  datatype LeaseRequest = LeaseRequest(
    ram: Option<nat>, device: Option<DeviceRequest>, retainWarm: Option<WarmResidency>, guardUnknown: bool)

  datatype DeviceShare = DeviceShare(device: DeviceId, bytes: nat)

  datatype Normalized = Normalized(ram: nat, device: Option<DeviceShare>, retainWarm: Option<WarmResidency>)

  datatype SchedulerError =
    | InvalidConfiguration | UnknownEstimate | ExceedsBudget | UnknownDevice | Backpressure
    | Cancelled | DeadlineExceeded | ObservationExceeded

  /** The lock-protected accounting. */
  datatype State = State(workers: nat, ram: nat, device: map<DeviceId, nat>, warm: map<WarmKey, nat>)

  const IDLE := State(0, 0, map[], map[])

  // ---- Normalization ----

  function NormalizeEstimate(estimate: Option<nat>, budget: nat, guardUnknown: bool): Result<nat, SchedulerError> {
    match estimate
    case Some(value) => if value > budget then Err(ExceedsBudget) else Ok(value)
    case None => if guardUnknown then Ok(budget) else Err(UnknownEstimate)
  }

  function NormalizeDevice(config: Config, request: LeaseRequest): Result<Option<DeviceShare>, SchedulerError> {
    match request.device
    case None => Ok(None)
    case Some(d) =>
      if d.device !in config.deviceBudgets then Err(UnknownDevice)
      else
        match NormalizeEstimate(d.estimate, config.deviceBudgets[d.device], request.guardUnknown)
        case Err(e) => Err(e)
        case Ok(bytes) => Ok(Some(DeviceShare(d.device, bytes)))
  }

  predicate WarmFits(device: Option<DeviceShare>, warm: Option<WarmResidency>) {
    warm.Some? ==> device.Some? && warm.value.device == device.value.device && warm.value.bytes <= device.value.bytes
  }

  function Normalize(config: Config, request: LeaseRequest): Result<Normalized, SchedulerError> {
    match NormalizeEstimate(request.ram, config.ramBudget, request.guardUnknown)
    case Err(e) => Err(e)
    case Ok(ram) =>
      match NormalizeDevice(config, request)
      case Err(e) => Err(e)
      case Ok(device) =>
        if !WarmFits(device, request.retainWarm) then Err(InvalidConfiguration)
        else Ok(Normalized(ram, device, request.retainWarm))
  }

  /** A request that normalization lets through. */
  predicate Admissible(config: Config, r: Normalized) {
    && r.ram <= config.ramBudget
    && (r.device.Some? ==> r.device.value.device in config.deviceBudgets
                           && r.device.value.bytes <= config.deviceBudgets[r.device.value.device])
    && WarmFits(r.device, r.retainWarm)
  }

  // ---- The operations on the accounting ----

  function Used(state: State, d: DeviceId): nat {
    if d in state.device then state.device[d] else 0
  }

  function Budget(config: Config, d: DeviceId): nat {
    if d in config.deviceBudgets then config.deviceBudgets[d] else 0
  }

  predicate Fits(config: Config, state: State, r: Normalized) {
    && state.workers < config.cpuWorkers
    && SaturatingAdd(state.ram, r.ram) <= config.ramBudget
    && (r.device.Some? ==>
          SaturatingAdd(Used(state, r.device.value.device), r.device.value.bytes) <=
              Budget(config, r.device.value.device))
  }

  function AddDevice(state: State, d: DeviceId, bytes: nat): State {
    state.(device := state.device[d := Used(state, d) + bytes])
  }

  /** Subtracts a share and forgets the device once nothing is held on it. */
  function SubtractDevice(state: State, d: DeviceId, bytes: nat): State {
    var used := SaturatingSub(Used(state, d), bytes);
    if used == 0 then state.(device := state.device - {d}) else state.(device := state.device[d := used])
  }

  function Grant(state: State, r: Normalized): State {
    var counted := state.(workers := state.workers + 1, ram := state.ram + r.ram);
    if r.device.Some? then AddDevice(counted, r.device.value.device, r.device.value.bytes) else counted
  }

  function KeyOf(warm: WarmResidency): WarmKey {
    WarmKey(warm.model, warm.device)
  }

  /** Returns a lease's share. */
  function Returned(state: State, r: Normalized): State {
    var counted := state.(workers := SaturatingSub(state.workers, 1), ram := SaturatingSub(state.ram, r.ram));
    if r.device.Some? then SubtractDevice(counted, r.device.value.device, r.device.value.bytes) else counted
  }

  /** Leaves a model warm, unless it already is. */
  function Retain(state: State, warm: WarmResidency): State {
    if KeyOf(warm) in state.warm then state
    else AddDevice(state.(warm := state.warm[KeyOf(warm) := warm.bytes]), warm.device, warm.bytes)
  }

  /** What dropping a lease does: its share is returned, and a successful one may leave its model warm. */
  function Release(state: State, r: Normalized, successful: bool): State {
    var returned := Returned(state, r);
    if successful && r.retainWarm.Some? then Retain(returned, r.retainWarm.value) else returned
  }

  function Evict(state: State, key: WarmKey): State {
    if key in state.warm
    then SubtractDevice(state.(warm := state.warm - {key}), key.device, state.warm[key])
    else state
  }

  // ---- Sums over live leases and warm residencies ----

  datatype Lease = Lease(
    request: Normalized, peakRam: Option<nat>, peakVram: Option<nat>, successful: bool, cancelled: bool)

  ghost function RamOf(leases: seq<Lease>): nat {
    if leases == [] then 0 else RamOf(leases[..|leases| - 1]) + leases[|leases| - 1].request.ram
  }

  function ShareOn(r: Normalized, d: DeviceId): nat {
    if r.device.Some? && r.device.value.device == d then r.device.value.bytes else 0
  }

  ghost function LeasedOn(leases: seq<Lease>, d: DeviceId): nat {
    if leases == [] then 0 else LeasedOn(leases[..|leases| - 1], d) + ShareOn(leases[|leases| - 1].request, d)
  }

  function WarmShare(warm: map<WarmKey, nat>, k: WarmKey, d: DeviceId): nat {
    if k in warm && k.device == d then warm[k] else 0
  }

  ghost function WarmOver(keys: set<WarmKey>, warm: map<WarmKey, nat>, d: DeviceId): nat {
    if keys == {} then 0
    else
      var k :| k in keys;
      WarmOver(keys - {k}, warm, d) + WarmShare(warm, k, d)
  }

  ghost function WarmOn(warm: map<WarmKey, nat>, d: DeviceId): nat {
    WarmOver(warm.Keys, warm, d)
  }

  function Without(leases: seq<Lease>, i: nat): seq<Lease>
    requires i < |leases|
  {
    leases[..i] + leases[i + 1..]
  }

  lemma {:induction false} RamWithout(leases: seq<Lease>, i: nat)
    requires i < |leases|
    ensures RamOf(leases) == RamOf(Without(leases, i)) + leases[i].request.ram
  {
    var n := |leases| - 1;
    if i < n {
      RamWithout(leases[..n], i);
      assert Without(leases, i)[..n - 1] == Without(leases[..n], i);
    } else {
      assert Without(leases, i) == leases[..n];
    }
  }

  lemma {:induction false} LeasedWithout(leases: seq<Lease>, i: nat, d: DeviceId)
    requires i < |leases|
    ensures LeasedOn(leases, d) == LeasedOn(Without(leases, i), d) + ShareOn(leases[i].request, d)
  {
    var n := |leases| - 1;
    if i < n {
      LeasedWithout(leases[..n], i, d);
      assert Without(leases, i)[..n - 1] == Without(leases[..n], i);
    } else {
      assert Without(leases, i) == leases[..n];
    }
  }

  lemma {:induction false} SameRequests(a: seq<Lease>, b: seq<Lease>, d: DeviceId)
    requires |a| == |b| && forall i :: 0 <= i < |a| ==> a[i].request == b[i].request
    ensures RamOf(a) == RamOf(b) && LeasedOn(a, d) == LeasedOn(b, d)
  {
    if a != [] {
      SameRequests(a[..|a| - 1], b[..|b| - 1], d);
    }
  }

  lemma {:induction false} WarmWithout(keys: set<WarmKey>, warm: map<WarmKey, nat>, k: WarmKey, d: DeviceId)
    requires k in keys
    ensures WarmOver(keys, warm, d) == WarmOver(keys - {k}, warm, d) + WarmShare(warm, k, d)
  {
    var j :| j in keys && WarmOver(keys, warm, d) == WarmOver(keys - {j}, warm, d) + WarmShare(warm, j, d);
    if j != k {
      WarmWithout(keys - {j}, warm, k, d);
      WarmWithout(keys - {k}, warm, j, d);
      assert keys - {j} - {k} == keys - {k} - {j};
    }
  }

  lemma {:induction false} WarmSame(keys: set<WarmKey>, a: map<WarmKey, nat>, b: map<WarmKey, nat>, d: DeviceId)
    requires forall k :: k in keys ==> WarmShare(a, k, d) == WarmShare(b, k, d)
    ensures WarmOver(keys, a, d) == WarmOver(keys, b, d)
  {
    if keys != {} {
      var k :| k in keys && WarmOver(keys, a, d) == WarmOver(keys - {k}, a, d) + WarmShare(a, k, d);
      WarmSame(keys - {k}, a, b, d);
      WarmWithout(keys, b, k, d);
    }
  }

  lemma WarmAdded(warm: map<WarmKey, nat>, k: WarmKey, bytes: nat, d: DeviceId)
    requires k !in warm
    ensures WarmOn(warm[k := bytes], d) == WarmOn(warm, d) + if k.device == d then bytes else 0
  {
    var more := warm[k := bytes];
    WarmWithout(more.Keys, more, k, d);
    assert more.Keys - {k} == warm.Keys;
    WarmSame(warm.Keys, more, warm, d);
  }

  lemma WarmRemoved(warm: map<WarmKey, nat>, k: WarmKey, d: DeviceId)
    requires k in warm
    ensures WarmOn(warm, d) == WarmOn(warm - {k}, d) + if k.device == d then warm[k] else 0
  {
    WarmWithout(warm.Keys, warm, k, d);
    assert (warm - {k}).Keys == warm.Keys - {k};
    WarmSame(warm.Keys - {k}, warm, warm - {k}, d);
  }

  // ---- The invariant ----

  /** Every counter is the sum over live leases plus warm residencies. */
  ghost predicate Balanced(state: State, leases: seq<Lease>) {
    && state.workers == |leases|
    && state.ram == RamOf(leases)
    && forall d :: Used(state, d) == LeasedOn(leases, d) + WarmOn(state.warm, d)
  }

  /** No counter exceeds its budget. */
  ghost predicate WithinBudget(config: Config, state: State) {
    && state.workers <= config.cpuWorkers
    && state.ram <= config.ramBudget
    && forall d :: Used(state, d) <= Budget(config, d)
  }

  /** A lease that was not cancelled has only observed peaks within its reservation. */
  predicate Observed(l: Lease) {
    l.cancelled ||
    (&& (l.peakRam.Some? ==> l.peakRam.value <= l.request.ram)
     && (l.peakVram.Some? ==> l.peakVram.value <= if l.request.device.Some? then l.request.device.value.bytes else 0))
  }

  ghost predicate LeasesValid(config: Config, leases: seq<Lease>) {
    forall l :: l in leases ==> Admissible(config, l.request) && Observed(l)
  }

  ghost predicate Invariant(config: Config, state: State, leases: seq<Lease>) {
    Balanced(state, leases) && WithinBudget(config, state) && LeasesValid(config, leases)
  }

  /**
   * Budgets for which the saturating test and the plain addition agree: below the maximum, or,
   * for host memory, with a single worker.
   */
  predicate SafeConfig(config: Config) {
    && (config.ramBudget < U64_MAX || (config.ramBudget == U64_MAX && config.cpuWorkers <= 1))
    && forall d :: d in config.deviceBudgets ==> config.deviceBudgets[d] < U64_MAX
  }

  lemma {:induction false} GrantBalanced(state: State, leases: seq<Lease>, l: Lease)
    requires Balanced(state, leases)
    ensures Balanced(Grant(state, l.request), leases + [l])
  {
    assert (leases + [l])[..|leases|] == leases;
  }

  /** With safe budgets, a request that fits keeps every counter within its budget. */
  lemma GrantWithinBudget(config: Config, state: State, leases: seq<Lease>, r: Normalized)
    requires SafeConfig(config) && Balanced(state, leases) && WithinBudget(config, state)
    requires Admissible(config, r) && Fits(config, state, r)
    ensures WithinBudget(config, Grant(state, r))
  {
    if config.ramBudget == U64_MAX {
      assert leases == [] && state.ram == 0;
    }
  }

  lemma SubtractExact(state: State, d: DeviceId, bytes: nat, e: DeviceId)
    requires bytes <= Used(state, d)
    ensures Used(SubtractDevice(state, d, bytes), e) == Used(state, e) - if e == d then bytes else 0
  {
  }

  /** Dropping a live lease subtracts exactly: no counter would go below zero. */
  lemma ReleaseExact(state: State, leases: seq<Lease>, i: nat)
    requires Balanced(state, leases) && i < |leases|
    ensures state.workers >= 1 && state.ram >= leases[i].request.ram
    ensures leases[i].request.device.Some? ==>
      Used(state, leases[i].request.device.value.device) >= leases[i].request.device.value.bytes
  {
    RamWithout(leases, i);
    if leases[i].request.device.Some? {
      LeasedWithout(leases, i, leases[i].request.device.value.device);
    }
  }

  lemma ReturnedUsed(state: State, leases: seq<Lease>, i: nat, d: DeviceId)
    requires Balanced(state, leases) && i < |leases|
    ensures var r := leases[i].request;
            Used(Release(state, r, false), d) == Used(state, d) - ShareOn(r, d)
  {
    var r := leases[i].request;
    ReleaseExact(state, leases, i);
    var counted := state.(workers := state.workers - 1, ram := state.ram - r.ram);
    if r.device.Some? {
      SubtractExact(counted, r.device.value.device, r.device.value.bytes, d);
    }
  }

  lemma ReleaseReturns(config: Config, state: State, leases: seq<Lease>, i: nat)
    requires Invariant(config, state, leases) && i < |leases|
    ensures var after := Release(state, leases[i].request, false);
            Balanced(after, Without(leases, i)) && WithinBudget(config, after) && after.warm == state.warm
  {
    var r := leases[i].request;
    var after := Release(state, r, false);
    ReleaseExact(state, leases, i);
    RamWithout(leases, i);
    forall d
      ensures Used(after, d) == LeasedOn(Without(leases, i), d) + WarmOn(after.warm, d) &&
              Used(after, d) <= Budget(config, d)
    {
      ReturnedUsed(state, leases, i, d);
      LeasedWithout(leases, i, d);
      assert Used(state, d) <= Budget(config, d);
    }
  }

  /** Leaving a model warm takes no more than the lease returned. */
  lemma ReleaseInvariant(config: Config, state: State, leases: seq<Lease>, i: nat)
    requires Invariant(config, state, leases) && i < |leases|
    ensures Invariant(config, Release(state, leases[i].request, leases[i].successful), Without(leases, i))
  {
    var r := leases[i].request;
    var returned := Release(state, r, false);
    var after := Release(state, r, leases[i].successful);
    ReleaseReturns(config, state, leases, i);
    assert leases[i] in leases;
    if leases[i].successful && r.retainWarm.Some? && KeyOf(r.retainWarm.value) !in returned.warm {
      var warm := r.retainWarm.value;
      forall d
        ensures Used(after, d) == LeasedOn(Without(leases, i), d) + WarmOn(after.warm, d) &&
                Used(after, d) <= Budget(config, d)
      {
        WarmAdded(returned.warm, KeyOf(warm), warm.bytes, d);
        ReturnedUsed(state, leases, i, d);
        assert Used(state, d) <= Budget(config, d);
        ReleaseExact(state, leases, i);
      }
    }
  }

  lemma DropInvariant(config: Config, state: State, leases: seq<Lease>, i: nat)
    requires Invariant(config, state, leases) && i < |leases|
    ensures Invariant(config, Release(state, leases[i].request, leases[i].successful), Without(leases, i))
  {
    ReleaseInvariant(config, state, leases, i);
    assert forall l :: l in Without(leases, i) ==> l in leases;
  }

  lemma EvictInvariant(config: Config, state: State, leases: seq<Lease>, key: WarmKey)
    requires Invariant(config, state, leases)
    ensures Invariant(config, Evict(state, key), leases)
    ensures key in state.warm ==> state.warm[key] <= Used(state, key.device)
  {
    if key in state.warm {
      var after := Evict(state, key);
      WarmRemoved(state.warm, key, key.device);
      forall d
        ensures Used(after, d) == LeasedOn(leases, d) + WarmOn(after.warm, d) && Used(after, d) <= Budget(config, d)
      {
        WarmRemoved(state.warm, key, d);
        SubtractExact(state.(warm := state.warm - {key}), key.device, state.warm[key], d);
        assert Used(state, d) <= Budget(config, d);
      }
    }
  }

  /** The model a dropped lease newly leaves warm. */
  function NewlyWarm(state: State, r: Normalized, successful: bool): Option<WarmResidency> {
    if successful && r.retainWarm.Some? && KeyOf(r.retainWarm.value) !in state.warm then r.retainWarm else None
  }

  function WarmBytes(warm: Option<WarmResidency>, d: DeviceId): nat {
    if warm.Some? && warm.value.device == d then warm.value.bytes else 0
  }

  /** Nothing changed but for a model newly warm. */
  ghost predicate SameButWarm(before: State, after: State, warm: Option<WarmResidency>) {
    && after.workers == before.workers && after.ram == before.ram
    && after.warm == (if warm.Some? then before.warm[KeyOf(warm.value) := warm.value.bytes] else before.warm)
    && forall d :: Used(after, d) == Used(before, d) + WarmBytes(warm, d)
  }

  /** Granting and then dropping a lease leaves everything as it was, but for the model it newly leaves warm. */
  lemma GrantThenRelease(state: State, r: Normalized, successful: bool)
    ensures SameButWarm(state, Release(Grant(state, r), r, successful), NewlyWarm(state, r, successful))
  {
  }

  // ---- Runs ----

  function MaximumOf(current: Option<nat>, observed: nat): nat {
    if current.Some? && current.value > observed then current.value else observed
  }

  function ObserveRam(l: Lease, peak: Option<nat>): Lease {
    if peak.None? then l
    else l.(peakRam := Some(MaximumOf(l.peakRam, peak.value)), cancelled := l.cancelled || peak.value > l.request.ram)
  }

  function ObserveVram(l: Lease, peak: Option<nat>): Lease {
    var reserved := if l.request.device.Some? then l.request.device.value.bytes else 0;
    if peak.None? then l
    else l.(peakVram := Some(MaximumOf(l.peakVram, peak.value)), cancelled := l.cancelled || peak.value > reserved)
  }

  /** Records observed peaks; exceeding the reservation cancels the lease, and nothing is recorded after that. */
  function Observe(l: Lease, peakRam: Option<nat>, peakVram: Option<nat>): Lease {
    if l.cancelled then l
    else
      var afterRam := ObserveRam(l, peakRam);
      if afterRam.cancelled then afterRam else ObserveVram(afterRam, peakVram)
  }

  /** What any thread may do to the scheduler, under its lock. */
  datatype Step =
    | Acquire(request: LeaseRequest, cancelled: bool, expired: bool)
    | Observation(lease: nat, peakRam: Option<nat>, peakVram: Option<nat>)
    | Cancel(lease: nat)
    | Complete(lease: nat)
    | Drop(lease: nat)
    | EvictWarm(key: WarmKey)

  datatype System = System(state: State, leases: seq<Lease>)

  /** One look at the accounting by a thread asking for a lease. */
  function AcquireOutcome(config: Config, state: State, request: LeaseRequest, cancelled: bool, expired: bool)
    : Result<Normalized, SchedulerError>
  {
    match Normalize(config, request)
    case Err(e) => Err(e)
    case Ok(r) =>
      if cancelled then Err(Cancelled)
      else if expired then Err(DeadlineExceeded)
      else if Fits(config, state, r) then Ok(r)
      else Err(Backpressure)
  }

  function Next(config: Config, system: System, step: Step): System {
    match step
    case Acquire(request, cancelled, expired) =>
      (match AcquireOutcome(config, system.state, request, cancelled, expired)
       case Err(_) => system
       case Ok(r) => System(Grant(system.state, r), system.leases + [Lease(r, None, None, false, false)]))
    case Observation(i, ram, vram) =>
      if i < |system.leases| then system.(leases := system.leases[i := Observe(system.leases[i], ram, vram)])
           else system
    case Cancel(i) =>
      if i < |system.leases| then system.(leases := system.leases[i := system.leases[i].(cancelled := true)])
           else system
    case Complete(i) =>
      if i < |system.leases| then system.(leases := system.leases[i := system.leases[i].(successful := true)])
           else system
    case Drop(i) =>
      if i < |system.leases|
      then System(Release(system.state, system.leases[i].request, system.leases[i].successful),
          Without(system.leases, i))
      else system
    case EvictWarm(key) => system.(state := Evict(system.state, key))
  }

  function Run(config: Config, steps: seq<Step>): System {
    if steps == [] then System(IDLE, []) else Next(config, Run(config, steps[..|steps| - 1]), steps[|steps| - 1])
  }

  lemma NormalizeAdmissible(config: Config, request: LeaseRequest)
    requires Normalize(config, request).Ok?
    ensures Admissible(config, Normalize(config, request).value)
  {
  }

  lemma ChangedLease(config: Config, state: State, leases: seq<Lease>, i: nat, l: Lease)
    requires Invariant(config, state, leases) && i < |leases| && l.request == leases[i].request && Observed(l)
    ensures Invariant(config, state, leases[i := l])
  {
    forall d
      ensures RamOf(leases[i := l]) == RamOf(leases) && LeasedOn(leases[i := l], d) == LeasedOn(leases, d)
    {
      SameRequests(leases[i := l], leases, d);
    }
    assert leases[i] in leases;
    SameRequests(leases[i := l], leases, "");
  }

  lemma GrantInvariant(config: Config, state: State, leases: seq<Lease>, r: Normalized)
    requires SafeConfig(config) && Invariant(config, state, leases)
    requires Admissible(config, r) && Fits(config, state, r)
    ensures Invariant(config, Grant(state, r), leases + [Lease(r, None, None, false, false)])
  {
    GrantBalanced(state, leases, Lease(r, None, None, false, false));
    GrantWithinBudget(config, state, leases, r);
  }

  lemma NextInvariant(config: Config, system: System, step: Step)
    requires SafeConfig(config) && Invariant(config, system.state, system.leases)
    ensures Invariant(config, Next(config, system, step).state, Next(config, system, step).leases)
  {
    match step {
      case Acquire(request, cancelled, expired) =>
        var outcome := AcquireOutcome(config, system.state, request, cancelled, expired);
        if outcome.Ok? {
          NormalizeAdmissible(config, request);
          GrantInvariant(config, system.state, system.leases, outcome.value);
        }
      case Drop(i) =>
        if i < |system.leases| {
          ReleaseInvariant(config, system.state, system.leases, i);
          assert forall l :: l in Without(system.leases, i) ==> l in system.leases;
        }
      case EvictWarm(key) =>
        EvictInvariant(config, system.state, system.leases, key);
      case _ =>
        if step.lease < |system.leases| {
          assert system.leases[step.lease] in system.leases;
          ChangedLease(config, system.state, system.leases, step.lease, Next(config, system, step).leases[step.lease]);
        }
    }
  }

  lemma IdleInvariant(config: Config)
    ensures Invariant(config, IDLE, [])
  {
  }

  /**
   * Conservation: after any sequence of acquisitions, observations, drops and evictions the
   * counters are the sums over what is held, within every budget.
   */
  lemma {:induction false} Conservation(config: Config, steps: seq<Step>)
    requires SafeConfig(config)
    ensures Invariant(config, Run(config, steps).state, Run(config, steps).leases)
  {
    if steps == [] {
      IdleInvariant(config);
    } else {
      Conservation(config, steps[..|steps| - 1]);
      NextInvariant(config, Run(config, steps[..|steps| - 1]), steps[|steps| - 1]);
    }
  }

  /** With every lease dropped and every warm model evicted, any request that normalizes is admitted. */
  lemma DrainedAdmitsAll(config: Config, steps: seq<Step>, request: LeaseRequest)
    requires SafeConfig(config) && config.cpuWorkers > 0
    requires Run(config, steps).leases == [] && Run(config, steps).state.warm == map[]
    requires Normalize(config, request).Ok?
    ensures AcquireOutcome(config, Run(config, steps).state, request, false, false) == Normalize(config, request)
  {
    Conservation(config, steps);
    NormalizeAdmissible(config, request);
    assert forall d :: Used(Run(config, steps).state, d) == 0;
  }

  // ---- Exactly which budgets keep the plain additions from overflowing ----

  /** Some counter no longer fits 64 bits. */
  ghost predicate Overflowed(state: State) {
    state.ram > U64_MAX || exists d :: Used(state, d) > U64_MAX
  }

  ghost predicate NeverOverflows(config: Config) {
    forall steps :: !Overflowed(Run(config, steps).state)
  }

  predicate BudgetsAreU64(config: Config) {
    config.ramBudget <= U64_MAX && forall d :: d in config.deviceBudgets ==> config.deviceBudgets[d] <= U64_MAX
  }

  lemma SafeNeverOverflows(config: Config)
    requires SafeConfig(config)
    ensures NeverOverflows(config)
  {
    forall steps
      ensures !Overflowed(Run(config, steps).state)
    {
      Conservation(config, steps);
      var state := Run(config, steps).state;
      forall d
        ensures Used(state, d) <= U64_MAX
      {
        assert Used(state, d) <= Budget(config, d);
      }
    }
  }

  /** Two full-budget leases: the saturating sum still equals the budget, the plain sum does not fit. */
  lemma RamOverflow(config: Config)
    requires config.ramBudget == U64_MAX && config.cpuWorkers >= 2
    ensures !NeverOverflows(config)
  {
    var ask := Acquire(LeaseRequest(Some(U64_MAX), None, None, false), false, false);
    var r := Normalized(U64_MAX, None, None);
    var s0, s1, s2 := [], [ask], [ask, ask];
    assert s1[..0] == s0 && s2[..1] == s1;
    assert Run(config, s0) == System(IDLE, []);
    assert Run(config, s1).state == Grant(IDLE, r);
    assert Run(config, s2).state == Grant(Grant(IDLE, r), r);
    assert Overflowed(Run(config, s2).state);
  }

  /** A warm model holding the whole device, then a lease of the whole device. */
  lemma DeviceOverflow(config: Config, d: DeviceId)
    requires d in config.deviceBudgets && config.deviceBudgets[d] == U64_MAX && config.cpuWorkers >= 1
    ensures !NeverOverflows(config)
  {
    var ask := Acquire(
      LeaseRequest(Some(0), Some(DeviceRequest(d, Some(U64_MAX))), Some(WarmResidency(0, d, U64_MAX)), false), false,
          false);
    var r := Normalized(0, Some(DeviceShare(d, U64_MAX)), Some(WarmResidency(0, d, U64_MAX)));
    var steps := [ask, Complete(0), Drop(0), ask];
    assert Normalize(config, ask.request) == Ok(r);
    var s1, s2, s3 := steps[..1], steps[..2], steps[..3];
    assert steps[..4] == steps && s1[..0] == [] && s2[..1] == s1 && s3[..2] == s2 && steps[..3] == s3;
    var l := Lease(r, None, None, false, false);
    assert Run(config, []) == System(IDLE, []);
    assert Run(config, s1) == System(Grant(IDLE, r), [l]);
    assert Run(config, s2) == System(Grant(IDLE, r), [l.(successful := true)]);
    var dropped := Run(config, s3).state;
    assert dropped == Release(Grant(IDLE, r), r, true);
    assert Used(dropped, d) == U64_MAX && dropped.workers == 0 && dropped.ram == 0;
    assert Run(config, steps).state == Grant(dropped, r);
    assert Used(Run(config, steps).state, d) > U64_MAX;
  }

  /** The accounting never overflows in any run exactly when the budgets are safe. */
  lemma NeverOverflowsIff(config: Config)
    requires BudgetsAreU64(config) && config.cpuWorkers > 0
    ensures NeverOverflows(config) <==> SafeConfig(config)
  {
    if SafeConfig(config) {
      SafeNeverOverflows(config);
    } else if config.ramBudget == U64_MAX && config.cpuWorkers >= 2 {
      RamOverflow(config);
    } else {
      var d :| d in config.deviceBudgets && config.deviceBudgets[d] >= U64_MAX;
      DeviceOverflow(config, d);
    }
  }
}

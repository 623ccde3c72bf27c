/**
 * What the operations of the scheduler do (crates/ferrodoc-runtime/src/scheduler.rs), said of the request, the budgets
 * and the accounts themselves.
 */
module LeaseMeaning {
  import opened Collections
  import opened LeaseScheduler

  // ---- What a request reserves ----

  /** The known value, if the budget allows it, or the whole budget where unknown values are guarded. */
  ghost predicate Reserved(estimate: Option<nat>, budget: nat, guardUnknown: bool, bytes: nat) {
    if estimate.Some? then bytes == estimate.value <= budget else guardUnknown && bytes == budget
  }

  ghost predicate ReservedOn(config: Config, request: LeaseRequest, share: Option<DeviceShare>) {
    if request.device.None? then share == None
    else
      && request.device.value.device in config.deviceBudgets
      && share.Some? && share.value.device == request.device.value.device
      && Reserved(request.device.value.estimate, config.deviceBudgets[request.device.value.device],
           request.guardUnknown, share.value.bytes)
  }

  /** A model that stays behind lies on the leased device, within the leased share. */
  ghost predicate StaysOn(share: Option<DeviceShare>, kept: Option<WarmResidency>) {
    kept == None
    || (share.Some? && kept.value.device == share.value.device && kept.value.bytes <= share.value.bytes)
  }

  /** What a lease for the request reserves. */
  ghost predicate Reserves(config: Config, request: LeaseRequest, r: Normalized) {
    && Reserved(request.ram, config.ramBudget, request.guardUnknown, r.ram)
    && ReservedOn(config, request, r.device)
    && r.retainWarm == request.retainWarm && StaysOn(r.device, r.retainWarm)
  }

  lemma EstimateIff(estimate: Option<nat>, budget: nat, guardUnknown: bool, bytes: nat)
    ensures NormalizeEstimate(estimate, budget, guardUnknown) == Ok(bytes)
       <==> Reserved(estimate, budget, guardUnknown, bytes)
    ensures NormalizeEstimate(estimate, budget, guardUnknown).Err? ==>
              NormalizeEstimate(estimate, budget, guardUnknown).error
              == if estimate.Some? then ExceedsBudget else UnknownEstimate
  {
  }

  lemma ShareIff(config: Config, request: LeaseRequest, share: Option<DeviceShare>)
    ensures NormalizeDevice(config, request) == Ok(share) <==> ReservedOn(config, request, share)
  {
    if request.device.Some? && request.device.value.device in config.deviceBudgets && share.Some? {
      EstimateIff(request.device.value.estimate, config.deviceBudgets[request.device.value.device],
        request.guardUnknown, share.value.bytes);
    }
  }

  /** A request is normalized to what it reserves, and refused exactly when it can reserve nothing. */
  lemma NormalizeIff(config: Config, request: LeaseRequest, r: Normalized)
    ensures Normalize(config, request) == Ok(r) <==> Reserves(config, request, r)
  {
    EstimateIff(request.ram, config.ramBudget, request.guardUnknown, r.ram);
    ShareIff(config, request, r.device);
  }

  /** There is room: a free worker, and host and device memory within the budgets as 64 bits count. */
  ghost predicate HasRoom(config: Config, state: State, r: Normalized) {
    && state.workers < config.cpuWorkers
    && (state.ram + r.ram <= config.ramBudget || config.ramBudget >= 0xFFFF_FFFF_FFFF_FFFF)
    && (r.device.Some? && r.device.value.device in config.deviceBudgets ==>
          || Used(state, r.device.value.device) + r.device.value.bytes <= config.deviceBudgets[r.device.value.device]
          || config.deviceBudgets[r.device.value.device] >= 0xFFFF_FFFF_FFFF_FFFF)
  }

  /** A normalized request is admitted exactly when there is room. */
  lemma FitsIff(config: Config, state: State, request: LeaseRequest, r: Normalized)
    requires Normalize(config, request) == Ok(r)
    ensures Fits(config, state, r) <==> HasRoom(config, state, r)
  {
    NormalizeIff(config, request, r);
  }

  // ---- What the operations change ----

  /** The account of one device grows by this much, those of all others not at all. */
  ghost predicate Moves(before: State, after: State, d: DeviceId, more: nat) {
    forall e :: Used(after, e) == Used(before, e) + if e == d then more else 0
  }

  /** Evicting forgets that model alone and gives back exactly its memory. */
  lemma EvictExactly(config: Config, state: State, leases: seq<Lease>, key: WarmKey)
    requires Invariant(config, state, leases)
    ensures var after := Evict(state, key);
            && after.workers == state.workers && after.ram == state.ram
            && after.warm.Keys == state.warm.Keys - {key}
            && (forall k :: k in after.warm ==> after.warm[k] == state.warm[k])
            && (if key in state.warm then Moves(after, state, key.device, state.warm[key]) else after == state)
  {
    EvictInvariant(config, state, leases, key);
  }

  /** Granting takes a worker and exactly what the request reserves. */
  lemma GrantExactly(state: State, r: Normalized)
    ensures var after := Grant(state, r);
            && after.workers == state.workers + 1 && after.ram == state.ram + r.ram && after.warm == state.warm
            && (r.device.Some? ==> Moves(state, after, r.device.value.device, r.device.value.bytes))
            && (r.device.None? ==> after.device == state.device)
  {
  }

  /** Only this lease changes. */
  ghost predicate OnlyLease(before: System, after: System, i: nat) {
    && after.state == before.state && |after.leases| == |before.leases|
    && (forall j: nat :: j < |before.leases| && j != i ==> after.leases[j] == before.leases[j])
    && (i < |before.leases| ==> after.leases[i].request == before.leases[i].request)
  }

  lemma LeaseSteps(config: Config, system: System, i: nat, ram: Option<nat>, vram: Option<nat>)
    ensures var observed, cancelled, completed := Next(config, system, Observation(i, ram, vram)),
                Next(config, system, LeaseScheduler.Cancel(i)), Next(config, system, LeaseScheduler.Complete(i));
            && OnlyLease(system, observed, i) && OnlyLease(system, cancelled, i) && OnlyLease(system, completed, i)
            && (i < |system.leases| ==>
                  && cancelled.leases[i].cancelled && completed.leases[i].successful
                  && cancelled.leases[i].successful == system.leases[i].successful
                  && completed.leases[i].cancelled == system.leases[i].cancelled
                  && Watched(system.leases[i], ram, vram, observed.leases[i]))
  {
  }

  /** A peak is the greater of the one recorded and the one observed. */
  ghost predicate Peaked(before: Option<nat>, seen: Option<nat>, after: Option<nat>) {
    if seen.None? then after == before
    else
      && after.Some? && after.value >= seen.value && after in {before, seen}
      && (before.Some? ==> after.value >= before.value)
  }

  ghost predicate Exceeds(seen: Option<nat>, reserved: nat) {
    seen.Some? && seen.value > reserved
  }

  /** What observing does to a lease: peaks are recorded until one exceeds what is reserved, which cancels it. */
  ghost predicate Watched(before: Lease, ram: Option<nat>, vram: Option<nat>, after: Lease) {
    var reserved := if before.request.device.Some? then before.request.device.value.bytes else 0;
    if before.cancelled then after == before
    else
      && after.request == before.request && after.successful == before.successful
      && Peaked(before.peakRam, ram, after.peakRam)
      && Peaked(before.peakVram, if Exceeds(ram, before.request.ram) then None else vram, after.peakVram)
      && (after.cancelled <==> Exceeds(ram, before.request.ram) || Exceeds(vram, reserved))
  }
}

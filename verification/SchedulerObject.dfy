/** The scheduler and its leases as objects, one locked call at a time. */
module SchedulerObject {
  import opened Collections
  import opened LeaseScheduler

  class Scheduler {
    const config: Config
    var workers: nat
    var ram: nat
    var device: map<DeviceId, nat>
    var warm: map<WarmKey, nat>
    ghost var held: seq<ResourceLease>

    ghost function Accounting(): State
      reads this
    {
      State(workers, ram, device, warm)
    }

    /** The leases in other hands, as they stand. */
    ghost function Leases(): (leases: seq<Lease>)
      reads this, held
      ensures |leases| == |held| && forall i: nat :: i < |held| ==> leases[i] == held[i].View()
    {
      Views(held)
    }

    ghost predicate Valid()
      reads this, held
    {
      SafeConfig(config) && Invariant(config, Accounting(), Leases()) && Apart(held)
    }

    constructor (config: Config)
      requires SafeConfig(config)
      ensures Valid() && this.config == config && Accounting() == IDLE && held == []
    {
      this.config := config;
      workers, ram, device, warm, held := 0, 0, map[], map[], [];
      new;
      IdleInvariant(config);
    }

    /** Admits a request once: the counters grow by exactly what the lease reserves, or nothing changes. */
    method TryAcquire(request: LeaseRequest, cancelled: bool) returns (result: Result<ResourceLease, SchedulerError>)
      requires Valid()
      modifies this
      ensures Valid()
      ensures match result
              case Err(e) =>
                && Err(e) == (if cancelled then Err(Cancelled)
                              else AcquireOutcome(config, old(Accounting()), request, false, false))
                && Accounting() == old(Accounting()) && held == old(held)
              case Ok(lease) =>
                && !cancelled && AcquireOutcome(config, old(Accounting()), request, false, false) == Ok(lease.request)
                && Accounting() == Grant(old(Accounting()), lease.request)
                && fresh(lease) && held == old(held) + [lease]
                && lease.View() == Lease(lease.request, None, None, false, false)
      ensures System(Accounting(), Leases())
           == Next(config, old(System(Accounting(), Leases())), Acquire(request, cancelled, false))
    {
      if cancelled {
        return Err(Cancelled);
      }
      var normalized := Normalize(config, request);
      if normalized.Err? {
        return Err(normalized.error);
      }
      var r := normalized.value;
      var state := State(workers, ram, device, warm);
      if !Fits(config, state, r) {
        return Err(Backpressure);
      }
      NormalizeAdmissible(config, request);
      var lease := Admit(r);
      return Ok(lease);
    }

    /** Counts a lease that was found to fit, and hands it out. */
    method Admit(r: Normalized) returns (lease: ResourceLease)
      requires Valid() && Admissible(config, r) && Fits(config, Accounting(), r)
      modifies this
      ensures Valid() && Accounting() == Grant(old(Accounting()), r)
      ensures fresh(lease) && held == old(held) + [lease]
      ensures lease.View() == Lease(r, None, None, false, false)
    {
      GrantInvariant(config, Accounting(), Leases(), r);
      ghost var before := Leases();
      Count(r);
      lease := new ResourceLease(r);
      held := held + [lease];
      assert Leases() == before + [lease.View()];
    }

    method Count(r: Normalized)
      modifies this`workers, this`ram, this`device
      ensures Accounting() == Grant(old(Accounting()), r)
    {
      workers := workers + 1;
      ram := ram + r.ram;
      if r.device.Some? {
        var d := r.device.value.device;
        device := device[d := (if d in device then device[d] else 0) + r.device.value.bytes];
      }
    }

    method Subtract(d: DeviceId, bytes: nat)
      modifies this`device
      ensures Accounting() == SubtractDevice(old(Accounting()), d, bytes)
    {
      var used := SaturatingSub(if d in device then device[d] else 0, bytes);
      device := device[d := used];
      if used == 0 {
        device := device - {d};
        assert device == old(device) - {d};
      }
    }

    method KeepWarm(kept: WarmResidency)
      modifies this`warm, this`device
      ensures Accounting() == Retain(old(Accounting()), kept)
    {
      if KeyOf(kept) !in warm {
        warm := warm[KeyOf(kept) := kept.bytes];
        device := device[kept.device := (if kept.device in device then device[kept.device] else 0) + kept.bytes];
      }
    }

    /** Returns a share to the counters, and leaves the model of successful work warm. */
    method Return(r: Normalized, successful: bool)
      modifies this`workers, this`ram, this`device, this`warm
      ensures Accounting() == Release(old(Accounting()), r, successful)
    {
      workers := SaturatingSub(workers, 1);
      ram := SaturatingSub(ram, r.ram);
      if r.device.Some? {
        Subtract(r.device.value.device, r.device.value.bytes);
      }
      if successful && r.retainWarm.Some? {
        KeepWarm(r.retainWarm.value);
      }
    }

    /** Dropping a lease, number `i` of those held: its share returns, and a completed one may leave its model warm. */
    method Drop(lease: ResourceLease, ghost i: nat)
      requires Valid() && i < |held| && held[i] == lease
      modifies this
      ensures Valid()
      ensures Accounting() == Release(old(Accounting()), lease.request, lease.successful)
      ensures held == old(held)[..i] + old(held)[i + 1..]
      ensures System(Accounting(), Leases())
           == Next(config, old(System(Accounting(), Leases())), LeaseScheduler.Step.Drop(i))
    {
      ghost var before := Leases();
      DropInvariant(config, Accounting(), before, i);
      Return(lease.request, lease.successful);
      ViewsWithout(held, i);
      ApartWithout(held, i);
      held := held[..i] + held[i + 1..];
    }

    method EvictWarm(key: WarmKey) returns (existed: bool)
      requires Valid()
      modifies this
      ensures Valid()
      ensures existed <==> key in old(warm)
      ensures Accounting() == Evict(old(Accounting()), key) && held == old(held)
      ensures System(Accounting(), Leases())
           == Next(config, old(System(Accounting(), Leases())), LeaseScheduler.Step.EvictWarm(key))
    {
      if key !in warm {
        return false;
      }
      EvictInvariant(config, Accounting(), Leases(), key);
      var bytes := warm[key];
      warm := warm - {key};
      Subtract(key.device, bytes);
      return true;
    }

    /** What its holder does with lease `i` never disturbs the accounting; `before` is how the leases stood. */
    lemma LeaseMoves(before: seq<Lease>, i: nat)
      requires SafeConfig(config) && Invariant(config, Accounting(), before)
      requires Apart(held)
      requires |before| == |held| && i < |held|
      requires forall j: nat :: j < |held| && j != i ==> held[j].View() == before[j]
      requires held[i].request == before[i].request && Observed(held[i].View())
      ensures Valid()
    {
      assert Leases() == before[i := held[i].View()];
      ChangedLease(config, Accounting(), before, i, held[i].View());
    }
  }

  ghost function Views(held: seq<ResourceLease>): (leases: seq<Lease>)
    reads held
    ensures |leases| == |held| && forall i: nat :: i < |held| ==> leases[i] == held[i].View()
  {
    seq(|held|, i requires 0 <= i < |held| reads held => held[i].View())
  }

  /** No lease is held twice. */
  ghost predicate Apart(held: seq<ResourceLease>) {
    forall i: nat, j: nat :: i < j < |held| ==> held[i] != held[j]
  }

  lemma ApartWithout(held: seq<ResourceLease>, i: nat)
    requires i < |held| && Apart(held)
    ensures Apart(held[..i] + held[i + 1..])
  {
  }

  lemma ViewsWithout(held: seq<ResourceLease>, i: nat)
    requires i < |held|
    ensures Views(held[..i] + held[i + 1..]) == Without(Views(held), i)
  {
  }

  /** A granted lease, held by the thread that runs the work. */
  class ResourceLease {
    const request: Normalized
    var peakRam: Option<nat>
    var peakVram: Option<nat>
    var successful: bool
    var cancelled: bool

    function View(): Lease
      reads this
    {
      Lease(request, peakRam, peakVram, successful, cancelled)
    }

    constructor (request: Normalized)
      ensures this.request == request && View() == Lease(request, None, None, false, false)
    {
      this.request := request;
      peakRam, peakVram, successful, cancelled := None, None, false, false;
    }

    /** Records what was observed; the first peak above its reservation cancels the lease and is reported. */
    method Observe(ram: Option<nat>, vram: Option<nat>) returns (result: Result<(), SchedulerError>)
      modifies this
      ensures View() == LeaseScheduler.Observe(old(View()), ram, vram)
      ensures old(Observed(View())) ==> Observed(View())
      ensures result == if old(cancelled) then Err(Cancelled) else if cancelled
              then Err(ObservationExceeded) else Ok(())
    {
      if cancelled {
        return Err(Cancelled);
      }
      if ram.Some? {
        peakRam := Some(MaximumOf(peakRam, ram.value));
        if ram.value > request.ram {
          cancelled := true;
          return Err(ObservationExceeded);
        }
      }
      if vram.Some? {
        peakVram := Some(MaximumOf(peakVram, vram.value));
        var reserved := if request.device.Some? then request.device.value.bytes else 0;
        if vram.value > reserved {
          cancelled := true;
          return Err(ObservationExceeded);
        }
      }
      return Ok(());
    }

    method Complete()
      modifies this
      ensures View() == old(View()).(successful := true)
    {
      successful := true;
    }
  }

  /** How the work done under a lease goes: the peaks it reports, and whether it succeeds. */
  datatype Work = Work(peakRam: Option<nat>, peakVram: Option<nat>, succeeds: bool)

  datatype RunError = Refused(error: SchedulerError) | Exceeded(error: SchedulerError) | WorkFailed

  /** No reported peak exceeds its reservation. */
  predicate StaysWithin(r: Normalized, work: Work) {
    && (work.peakRam.Some? ==> work.peakRam.value <= r.ram)
    && (work.peakVram.Some? ==> work.peakVram.value <= if r.device.Some? then r.device.value.bytes else 0)
  }

  /**
   * One stage run under a lease, with its peaks observed: afterwards no lease is added and nothing is reserved beyond
   * what was, except for the model that successful work newly leaves warm.
   */
  method RunUnderLease(scheduler: Scheduler, request: LeaseRequest, work: Work) returns (result: Result<(), RunError>)
    requires scheduler.Valid()
    modifies scheduler
    ensures scheduler.Valid() && scheduler.held == old(scheduler.held)
    ensures var outcome := AcquireOutcome(scheduler.config, old(scheduler.Accounting()), request, false, false);
            if outcome.Err?
            then result == Err(Refused(outcome.error)) && scheduler.Accounting() == old(scheduler.Accounting())
            else && (result.Ok? <==> work.succeeds && StaysWithin(outcome.value, work))
                 && SameButWarm(old(scheduler.Accounting()), scheduler.Accounting(),
                                NewlyWarm(old(scheduler.Accounting()), outcome.value, result.Ok?))
  {
    ghost var start := scheduler.Accounting();
    var acquired := scheduler.TryAcquire(request, false);
    if acquired.Err? {
      return Err(Refused(acquired.error));
    }
    var lease := acquired.value;
    ghost var i := |scheduler.held| - 1;
    result := Perform(scheduler, lease, i, work);
    scheduler.Drop(lease, i);
    GrantThenRelease(start, lease.request, lease.successful);
    assert scheduler.held == old(scheduler.held);
  }

  /** Work under a new lease: completed exactly when it succeeds within its reservation. */
  method Perform(scheduler: Scheduler, lease: ResourceLease, ghost i: nat, work: Work)
    returns (result: Result<(), RunError>)
    requires scheduler.Valid() && i < |scheduler.held| && scheduler.held[i] == lease
    requires !lease.cancelled && !lease.successful
    modifies lease
    ensures scheduler.Valid() && lease.successful == result.Ok? && (result.Err? ==> !result.error.Refused?)
    ensures result.Ok? <==> work.succeeds && StaysWithin(lease.request, work)
  {
    ghost var before := scheduler.Leases();
    var observed := lease.Observe(work.peakRam, work.peakVram);
    if observed.Err? {
      result := Err(Exceeded(observed.error));
    } else if !work.succeeds {
      result := Err(WorkFailed);
    } else {
      lease.Complete();
      result := Ok(());
    }
    scheduler.LeaseMoves(before, i);
  }
}

/**
 * The host's engine object, the child's server loop and its blob registry, as objects whose methods change their
 * fields (crates/ferrodoc-runtime/src/process.rs, crates/ferrodoc-plugin-sdk/src/lib.rs).
 */
module ProcessHost {
  import opened Collections
  import opened Framing
  import opened EngineProtocol
  import opened EngineRuns

  class BlobRegistry {
    var blobs: Registry

    constructor ()
      ensures blobs == map[]
    {
      blobs := map[];
    }

    method Register(setup: Setup, blob: ScopedBlob, bytes: seq<byte>) returns (result: Result<string, EngineError>)
      modifies this
      ensures Update(blobs, result) == EngineProtocol.Register(setup, old(blobs), blob, bytes)
    {
      if blob.offset != 0 || blob.length != |bytes| {
        return Err(INVALID);
      }
      if blob.digest.Some? && blob.digest.value != setup.digest(bytes) {
        return Err(INVALID);
      }
      if blob.id in blobs {
        return Err(PROTOCOL);
      }
      blobs := blobs[blob.id := Registered(blob, bytes)];
      return Ok(blob.id);
    }

    method Release(id: string) returns (result: Result<(), EngineError>)
      modifies this
      ensures Update(blobs, result) == EngineProtocol.Release(old(blobs), id)
    {
      if id !in blobs {
        return Err(INVALID);
      }
      blobs := blobs - {id};
      return Ok(());
    }
  }

  /** The loop that answers one request after another. */
  class EngineServer {
    var up: bool
    var seen: set<string>
    const registry: BlobRegistry
    ghost var handled: seq<Exchange>

    ghost function View(): Child
      reads this, registry
    {
      Child(up, seen, registry.blobs, handled)
    }

    constructor ()
      ensures fresh(registry) && View() == STARTED
    {
      up, seen, handled := true, {}, [];
      registry := new BlobRegistry();
    }

    /** One pass of the loop. */
    method Serve(setup: Setup, request: RequestEnvelope, outcome: Outcome) returns (answer: EngineMessage)
      modifies this, registry
      ensures View() == Answer(setup, old(View()), request, outcome)
      ensures handled == old(handled) + [Exchange(request, answer)]
    {
      if request.id in seen {
        answer := Error(PROTOCOL);
      } else {
        seen := seen + {request.id};
        answer := HandleMessage(setup, request.message, outcome);
      }
      handled := handled + [Exchange(request, answer)];
      up := !request.message.Shutdown?;
      assert old(seen) + {request.id} == seen;
    }

    method HandleMessage(setup: Setup, message: HostMessage, outcome: Outcome) returns (answer: EngineMessage)
      modifies registry
      ensures Handled(registry.blobs, answer) == Handle(setup, old(registry.blobs), message, outcome)
    {
      match message {
        case RegisterBlob(blob, bytes) =>
          var result := registry.Register(setup, blob, bytes);
          answer := if result.Ok? then BlobRegistered(result.value) else Error(result.error);
        case ReleaseBlob(id) =>
          var result := registry.Release(id);
          answer := if result.Ok? then BlobReleased(id) else Error(result.error);
        case Discover => answer := Descriptor;
        case Health(_) => answer := if outcome.Ok? then HealthReport(outcome.value) else Error(outcome.error);
        case Estimate(_, _) => answer := if outcome.Ok? then Candidates(outcome.value) else Error(outcome.error);
        case Execute(_) => answer := if outcome.Ok? then Executed(outcome.value) else Error(outcome.error);
        case Cancel(id) => answer := CancelAcknowledged(id);
        case Ping => answer := Pong;
        case Shutdown => answer := ShutdownAcknowledged;
      }
    }
  }

  class ProcessEngine {
    const setup: Setup
    var alive: bool
    var counter: nat
    var restarts: nat
    var child: EngineServer
    var requests: seq<RequestEnvelope>
    var events: seq<Event>
    ghost var exchanges: seq<Exchange>

    ghost function Current(): World
      reads this, child, child.registry
    {
      World(alive, counter, restarts, child.View(), requests, events, exchanges)
    }

    /** Between operations: host and child agree about every exchange, and nothing is in flight. */
    ghost predicate Valid()
      reads this, child, child.registry
    {
      Lockstep(setup, Current())
    }

    constructor (setup: Setup)
      ensures this.setup == setup && fresh(child) && fresh(child.registry) && Current() == Spawned(0)
      ensures Valid()
    {
      this.setup := setup;
      alive, counter, restarts, requests, events, exchanges := true, 0, 0, [], [], [];
      child := new EngineServer();
    }

    method Terminate()
      modifies this, child
      ensures child == old(child)
      ensures Current() == EngineProtocol.Terminate(old(Current()))
    {
      if alive {
        child.up := false;
        alive := false;
      }
    }

    method NextRequestId() returns (id: string)
      modifies this`counter
      ensures Current() == old(Current()).(counter := NextCounter(old(counter)))
      ensures id == setup.derive(counter)
    {
      counter := (counter + 1) % COUNTER_RANGE;
      return setup.derive(counter);
    }

    /** What the child does while the host waits. */
    method ChildActs(act: ChildAct)
      modifies this`requests, this`events, child, child.registry
      ensures child == old(child)
      ensures Current() == Act(setup, old(Current()), act)
    {
      if !child.up || act.Waits? {
        return;
      }
      if act.Serves? {
        if requests == [] {
          return;
        }
        var request := requests[0];
        if request.version == setup.version {
          requests := requests[1..];
          var answer := child.Serve(setup, request, act.outcome);
          events := events + [Response(ResponseEnvelope(setup.version, request.id, answer))];
          if !child.up {
            events := events + [Failure];
          }
          return;
        }
      }
      child.up := false;
      events := events + [Failure];
    }

    /**
     * Sends one request and waits: an engine still running afterwards delivered the child's answer to this very
     * request, and any other end has killed it.
     */
    method Roundtrip(message: HostMessage, cancellable: bool, script: Script)
      returns (result: Result<EngineMessage, EngineError>)
      requires Valid()
      modifies this, child, child.registry
      ensures Valid() && child == old(child)
      ensures Turn(Current(), result) == EngineProtocol.Roundtrip(setup, old(Current()), message, cancellable, script)
      ensures result.Ok? ==> alive
      ensures alive ==> old(alive) && exists outcome ::
        AnsweredBy(setup, old(child.View()), old(exchanges), old(Request(setup, Current(), message)), outcome,
                   Turn(Current(), result))
    {
      ghost var outcome := RoundtripAnswers(setup, Current(), message, cancellable, script);
      if !alive {
        return Err(EngineError(Unavailable, false));
      }
      var id := NextRequestId();
      var request := RequestEnvelope(setup.version, id, message);
      if !script.written {
        Terminate();
        return Err(PROTOCOL);
      }
      requests := requests + [request];
      result := Wait(request, cancellable, script.ticks);
    }

    method Wait(request: RequestEnvelope, cancellable: bool, ticks: seq<Tick>)
      returns (result: Result<EngineMessage, EngineError>)
      modifies this, child, child.registry
      ensures child == old(child)
      ensures Turn(Current(), result) == Await(setup, old(Current()), request, cancellable, ticks)
    {
      var i := 0;
      while i < |ticks|
        invariant i <= |ticks| && child == old(child)
        invariant Await(setup, old(Current()), request, cancellable, ticks)
               == Await(setup, Current(), request, cancellable, ticks[i..])
      {
        var polled := Poll(request, cancellable, ticks[i..]);
        if polled.Some? {
          return polled.value;
        }
        assert ticks[i..][1..] == ticks[i + 1..];
        i := i + 1;
      }
      Terminate();
      return Err(EngineError(DeadlineExceeded, true));
    }

    /** One pass of the wait loop: a result, or nothing yet. */
    method Poll(request: RequestEnvelope, cancellable: bool, ticks: seq<Tick>)
      returns (polled: Option<Result<EngineMessage, EngineError>>)
      requires ticks != []
      modifies this, child, child.registry
      ensures child == old(child)
      ensures match polled
              case None => Await(setup, old(Current()), request, cancellable, ticks)
                        == Await(setup, Current(), request, cancellable, ticks[1..])
              case Some(result) => Await(setup, old(Current()), request, cancellable, ticks) == Turn(Current(), result)
    {
      ChildActs(ticks[0].act);
      if cancellable && ticks[0].cancelled {
        Terminate();
        return Some(Err(EngineError(Cancelled, false)));
      }
      if ticks[0].expired {
        Terminate();
        return Some(Err(EngineError(DeadlineExceeded, true)));
      }
      if events != [] {
        var result := Take(request);
        return Some(result);
      }
      if !child.up {
        Terminate();
        return Some(Err(PROTOCOL));
      }
      return None;
    }

    method Take(request: RequestEnvelope) returns (result: Result<EngineMessage, EngineError>)
      requires events != []
      modifies this, child
      ensures child == old(child)
      ensures Turn(Current(), result) == Receive(old(Current()), request)
    {
      var event := events[0];
      events := events[1..];
      match event {
        case Failure =>
          Terminate();
          return Err(PROTOCOL);
        case Response(response) =>
          if response.version != request.version || response.id != request.id {
            Terminate();
            return Err(PROTOCOL);
          }
          exchanges := exchanges + [Exchange(request, response.message)];
          return if response.message.Error? then Err(response.message.error) else Ok(response.message);
      }
    }

    /**
     * Runs one request on the child: success means that the child answered it over exactly the bytes resolved, and a
     * child still running holds the blobs it held before, unless the request counter went round in between.
     */
    method Execute(request: EngineRequest, script: ExecuteScript) returns (result: Result<string, EngineError>)
      requires Valid()
      modifies this, child, child.registry
      ensures Valid() && child == old(child)
      ensures Turn(Current(), result) == ExecuteRequest(setup, old(Current()), request, script)
      ensures DistinctIds(setup) && result.Ok? ==>
        && alive && script.resolved.Ok?
        && ExecutedBy(setup, old(Current()), request, script.resolved.value, result.value, Current())
      ensures DistinctIds(setup) && alive ==>
        && old(alive)
        && (child.registry.blobs == old(child.registry.blobs)
            <==> !(Registers(old(Current()), request, script) && WrapsWithin(old(Current()))))
    {
      ExecuteLockstep(setup, Current(), request, script);
      if DistinctIds(setup) {
        ExecutionLeavesRegistry(setup, Current(), request, script);
      }
      if script.checkpoint.Some? {
        return Err(script.checkpoint.value);
      }
      if script.resolved.Err? {
        return Err(script.resolved.error);
      }
      var bytes := script.resolved.value;
      if bytes == [] {
        return Err(INVALID);
      }
      var prepared := Prepared(setup, request, bytes);
      var registered := Roundtrip(RegisterBlob(prepared.input, bytes), true, script.register);
      if registered.Err? {
        return Err(registered.error);
      }
      if registered.value != BlobRegistered(request.input.id) {
        return Err(PROTOCOL);
      }
      result := RunAndRelease(request, bytes, script);
    }

    method RunAndRelease(request: EngineRequest, bytes: seq<byte>, script: ExecuteScript)
      returns (result: Result<string, EngineError>)
      requires Valid()
      modifies this, child, child.registry
      ensures Valid() && child == old(child)
      ensures Turn(Current(), result)
           == Releasing(setup, Executing(setup, old(Current()), request, bytes, script.execute), request.input.id,
               script.release)
    {
      var executed := Roundtrip(EngineProtocol.Execute(Prepared(setup, request, bytes)), true, script.execute);
      result := match executed
        case Ok(Executed(response)) => Ok(response)
        case Ok(_) => Err(PROTOCOL)
        case Err(e) => Err(e);
      if alive {
        var release := Roundtrip(ReleaseBlob(request.input.id), false, script.release);
        if release != Ok(BlobReleased(request.input.id)) && result.Ok? {
          return Err(PROTOCOL);
        }
      }
    }

    /** Whatever the child does about it, the engine is dead afterwards. */
    method Shutdown(script: Script, wait: ExitWait) returns (result: Result<(), EngineError>)
      requires Valid()
      modifies this, child, child.registry
      ensures Valid() && child == old(child) && !alive
      ensures Turn(Current(), result) == ShutDown(setup, old(Current()), script, wait)
    {
      if !alive {
        return Ok(());
      }
      var response := Roundtrip(HostMessage.Shutdown, false, script);
      if response != Ok(ShutdownAcknowledged) {
        Terminate();
        return Err(if response.Err? then response.error else PROTOCOL);
      }
      if wait.Exited? {
        alive := false;
        return Ok(());
      }
      Terminate();
      return Err(if wait.WaitFailed? then PROTOCOL else EngineError(DeadlineExceeded, true));
    }

    /** Replaces a dead engine by a new child on new streams, while the bound permits. */
    method Restart(spawn: Option<EngineError>) returns (result: Result<(), EngineError>)
      requires Valid()
      modifies this
      ensures Valid() && (result.Ok? <==> !old(alive) && old(restarts) < setup.maximumRestarts && spawn.None?)
      ensures result.Ok? ==> alive && exchanges == [] && child.registry.blobs == map[] && restarts == old(restarts) + 1
      ensures Turn(Current(), result) == EngineProtocol.Restart(setup, old(Current()), spawn)
      ensures if result.Ok? then fresh(child) && fresh(child.registry) else child == old(child)
    {
      if alive {
        return Err(PROTOCOL);
      }
      if restarts >= setup.maximumRestarts {
        return Err(EngineError(Unavailable, false));
      }
      if spawn.Some? {
        return Err(spawn.value);
      }
      child := new EngineServer();
      alive, counter, restarts, requests, events, exchanges := true, 0, restarts + 1, [], [], [];
      return Ok(());
    }
  }
}

/**
 * One plugin child and the host driving it (crates/ferrodoc-runtime/src/process.rs and
 * crates/ferrodoc-plugin-sdk/src/lib.rs), as transitions of one world.
 */
module EngineProtocol {
  import opened Collections
  import opened Framing

  /** The range of the wrapping request counter. */
  const COUNTER_RANGE: nat := 0x1_0000_0000_0000_0000

  datatype Category =
    | Cancelled | DeadlineExceeded | InvalidRequest | Protocol | Unavailable | EngineFailure

  datatype EngineError = EngineError(category: Category, retryable: bool)

  datatype ScopedBlob = ScopedBlob(id: string, offset: nat, length: nat, mediaType: string, digest: Option<string>)

  datatype Registered = Registered(scope: ScopedBlob, bytes: seq<byte>)

  type Registry = map<string, Registered>

  datatype EngineRequest = EngineRequest(input: ScopedBlob, body: string)

  datatype HostMessage =
    | RegisterBlob(blob: ScopedBlob, bytes: seq<byte>)
    | ReleaseBlob(released: string)
    | Discover
    | Health(query: string)
    | Estimate(estimated: EngineRequest, inventory: string)
    | Execute(request: EngineRequest)
    | Cancel(target: string)
    | Ping
    | Shutdown

  datatype EngineMessage =
    | BlobRegistered(registered: string)
    | BlobReleased(released: string)
    | Descriptor
    | HealthReport(report: string)
    | Candidates(candidates: string)
    | Executed(response: string)
    | CancelAcknowledged(target: string)
    | Pong
    | ShutdownAcknowledged
    | Error(error: EngineError)

  datatype RequestEnvelope = RequestEnvelope(version: nat, id: string, message: HostMessage)
  datatype ResponseEnvelope = ResponseEnvelope(version: nat, id: string, message: EngineMessage)

  /** What the host's reader thread puts on its channel. */
  datatype Event = Response(envelope: ResponseEnvelope) | Failure

  datatype Exchange = Exchange(request: RequestEnvelope, answer: EngineMessage)

  /** The negotiated version, identifier derivation, digest, and the configured restart bound. */
  datatype Setup = Setup(version: nat, derive: nat -> string, digest: seq<byte> -> string, maximumRestarts: nat)

  /** One engine answer, of any kind: the engine itself is not part of this model. */
  type Outcome = Result<string, EngineError>

  // ---- The child's blob registry ----

  datatype Update<+T> = Update(blobs: Registry, result: Result<T, EngineError>)

  const INVALID := EngineError(InvalidRequest, false)
  const PROTOCOL := EngineError(Protocol, false)

  function Register(setup: Setup, blobs: Registry, blob: ScopedBlob, bytes: seq<byte>): Update<string> {
    if blob.offset != 0 || blob.length != |bytes| then Update(blobs, Err(INVALID))
    else if blob.digest.Some? && blob.digest.value != setup.digest(bytes) then Update(blobs, Err(INVALID))
    else if blob.id in blobs then Update(blobs, Err(PROTOCOL))
    else Update(blobs[blob.id := Registered(blob, bytes)], Ok(blob.id))
  }

  function Release(blobs: Registry, id: string): Update<()> {
    if id in blobs then Update(blobs - {id}, Ok(())) else Update(blobs, Err(INVALID))
  }

  function Resolve(setup: Setup, blobs: Registry, blob: ScopedBlob): Result<seq<byte>, EngineError> {
    if blob.id !in blobs then Err(INVALID)
    else
      var registered := blobs[blob.id];
      if blob.mediaType != registered.scope.mediaType || blob.offset < registered.scope.offset
         || blob.offset + blob.length > registered.scope.offset + registered.scope.length then Err(INVALID)
      else if blob.offset + blob.length > |registered.bytes| then Err(INVALID)
      else
        var bytes := registered.bytes[blob.offset..blob.offset + blob.length];
        if blob.digest.Some? && blob.digest.value != setup.digest(bytes) then Err(INVALID) else Ok(bytes)
  }

  /** A scope resolves exactly when it lies in the one registered under its identifier and its digest, if any, fits. */
  lemma ResolveIff(setup: Setup, blobs: Registry, blob: ScopedBlob)
    ensures Resolve(setup, blobs, blob).Ok?
       <==> && blob.id in blobs && blob.mediaType == blobs[blob.id].scope.mediaType
            && blobs[blob.id].scope.offset <= blob.offset
            && blob.offset + blob.length <= blobs[blob.id].scope.offset + blobs[blob.id].scope.length
            && blob.offset + blob.length <= |blobs[blob.id].bytes|
            && blob.digest in {None, Some(setup.digest(blobs[blob.id].bytes[blob.offset..blob.offset + blob.length]))}
    ensures Resolve(setup, blobs, blob).Ok? ==>
              && |Resolve(setup, blobs, blob).value| == blob.length
              && forall k: nat :: k < blob.length ==>
                   Resolve(setup, blobs, blob).value[k] == blobs[blob.id].bytes[blob.offset + k]
    ensures Resolve(setup, blobs, blob).Err? ==> Resolve(setup, blobs, blob).error == EngineError(InvalidRequest, false)
  {
  }

  /** Resolving inside a registered blob gives exactly the bytes of that range, and releasing it forgets only it. */
  lemma RegistryRoundTrip(setup: Setup, blobs: Registry, blob: ScopedBlob, bytes: seq<byte>, offset: nat, length: nat)
    requires Register(setup, blobs, blob, bytes).result.Ok?
    requires offset + length <= |bytes|
    ensures var after := Register(setup, blobs, blob, bytes).blobs;
            && Release(after, blob.id) == Update(blobs, Ok(()))
            && Resolve(setup, after, blob) == Ok(bytes)
            && Resolve(setup, after, blob.(offset := offset, length := length, digest := None))
               == Ok(bytes[offset..offset + length])
            && Resolve(setup, after, blob.(offset := offset, length := length,
                 digest := Some(setup.digest(bytes[offset..offset + length]))))
               == Ok(bytes[offset..offset + length])
            && forall other: ScopedBlob :: other.id != blob.id ==>
                 Resolve(setup, after, other) == Resolve(setup, blobs, other)
  {
    var after := Register(setup, blobs, blob, bytes).blobs;
    assert after - {blob.id} == blobs;
    assert bytes[0..|bytes|] == bytes;
  }

  // ---- The child ----

  /** `handled` records every request the child has answered, with its answer. */
  datatype Child = Child(up: bool, seen: set<string>, blobs: Registry, handled: seq<Exchange>)

  const STARTED := Child(true, {}, map[], [])

  datatype Handled = Handled(blobs: Registry, message: EngineMessage)

  function Handle(setup: Setup, blobs: Registry, message: HostMessage, outcome: Outcome): Handled {
    match message
    case RegisterBlob(blob, bytes) =>
      var update := Register(setup, blobs, blob, bytes);
      Handled(update.blobs, match update.result case Ok(id) => BlobRegistered(id) case Err(e) => Error(e))
    case ReleaseBlob(id) =>
      var update := Release(blobs, id);
      Handled(update.blobs, match update.result case Ok(_) => BlobReleased(id) case Err(e) => Error(e))
    case Discover => Handled(blobs, Descriptor)
    case Health(_) => Handled(blobs, match outcome case Ok(x) => HealthReport(x) case Err(e) => Error(e))
    case Estimate(_, _) => Handled(blobs, match outcome case Ok(x) => Candidates(x) case Err(e) => Error(e))
    case Execute(_) => Handled(blobs, match outcome case Ok(x) => Executed(x) case Err(e) => Error(e))
    case Cancel(id) => Handled(blobs, CancelAcknowledged(id))
    case Ping => Handled(blobs, Pong)
    case Shutdown => Handled(blobs, ShutdownAcknowledged)
  }

  /** One pass of the server loop on a request of the negotiated version. */
  function Answer(setup: Setup, child: Child, request: RequestEnvelope, outcome: Outcome): Child {
    var handled :=
      if request.id in child.seen then Handled(child.blobs, Error(PROTOCOL))
      else Handle(setup, child.blobs, request.message, outcome);
    Child(!request.message.Shutdown?, child.seen + {request.id}, handled.blobs,
          child.handled + [Exchange(request, handled.message)])
  }

  // ---- The world ----

  /**
   * The host's fields, its current child, the two streams between them, and the exchanges this child's answers
   * completed.
   */
  datatype World = World(
    alive: bool, counter: nat, restarts: nat,
    child: Child, requests: seq<RequestEnvelope>, events: seq<Event>, exchanges: seq<Exchange>)

  function Spawned(restarts: nat): World {
    World(true, 0, restarts, STARTED, [], [], [])
  }

  datatype ChildAct = Waits | Exits | Serves(outcome: Outcome)

  /** What happens before one poll of the host's wait loop. */
  datatype Tick = Tick(act: ChildAct, cancelled: bool, expired: bool)

  /** Whether the request could be written, and the polls until the deadline. */
  datatype Script = Script(written: bool, ticks: seq<Tick>)

  datatype Turn<+T> = Turn(world: World, result: Result<T, EngineError>)

  function Exit(w: World): World {
    if w.child.up then w.(child := w.child.(up := false), events := w.events + [Failure]) else w
  }

  function Serve(setup: Setup, w: World, outcome: Outcome): World {
    if !w.child.up || w.requests == [] then w
    else
      var request := w.requests[0];
      if request.version != setup.version then Exit(w)
      else
        var child := Answer(setup, w.child, request, outcome);
        var answer := child.handled[|child.handled| - 1].answer;
        var events := w.events + [Response(ResponseEnvelope(setup.version, request.id, answer))];
        w.(child := child, requests := w.requests[1..], events := if child.up then events else events + [Failure])
  }

  function Act(setup: Setup, w: World, act: ChildAct): World {
    match act
    case Waits => w
    case Exits => Exit(w)
    case Serves(outcome) => Serve(setup, w, outcome)
  }

  function Terminate(w: World): World {
    if w.alive then w.(alive := false, child := w.child.(up := false)) else w
  }

  function NextCounter(counter: nat): nat {
    (counter + 1) % COUNTER_RANGE
  }

  function Delivered(message: EngineMessage): Result<EngineMessage, EngineError> {
    if message.Error? then Err(message.error) else Ok(message)
  }

  /** The wait loop after a request was written. */
  function Await(
      setup: Setup, w: World, request: RequestEnvelope, cancellable: bool, ticks: seq<Tick>): Turn<EngineMessage>
    decreases |ticks|
  {
    if ticks == [] then Turn(Terminate(w), Err(EngineError(DeadlineExceeded, true)))
    else
      var acted := Act(setup, w, ticks[0].act);
      if cancellable && ticks[0].cancelled then Turn(Terminate(acted), Err(EngineError(Cancelled, false)))
      else if ticks[0].expired then Turn(Terminate(acted), Err(EngineError(DeadlineExceeded, true)))
      else if acted.events == [] then
        if acted.child.up then Await(setup, acted, request, cancellable, ticks[1..])
        else Turn(Terminate(acted), Err(PROTOCOL))
      else Receive(acted, request)
  }

  /** Takes the next event off the channel. */
  function Receive(w: World, request: RequestEnvelope): Turn<EngineMessage>
    requires w.events != []
  {
    var taken := w.(events := w.events[1..]);
    match w.events[0]
    case Failure => Turn(Terminate(taken), Err(PROTOCOL))
    case Response(response) =>
      if response.version != request.version || response.id != request.id then Turn(Terminate(taken), Err(PROTOCOL))
      else Turn(taken.(exchanges := taken.exchanges + [Exchange(request, response.message)]),
          Delivered(response.message))
  }

  function Request(setup: Setup, w: World, message: HostMessage): RequestEnvelope {
    RequestEnvelope(setup.version, setup.derive(NextCounter(w.counter)), message)
  }

  function Roundtrip(
      setup: Setup, w: World, message: HostMessage, cancellable: bool, script: Script): Turn<EngineMessage> {
    if !w.alive then Turn(w, Err(EngineError(Unavailable, false)))
    else
      var request := Request(setup, w, message);
      var counted := w.(counter := NextCounter(w.counter));
      if !script.written then Turn(Terminate(counted), Err(PROTOCOL))
      else Await(setup, counted.(requests := counted.requests + [request]), request, cancellable, script.ticks)
  }

  // ---- The host's operations ----

  datatype ExecuteScript = ExecuteScript(
    checkpoint: Option<EngineError>, resolved: Result<seq<byte>, EngineError>,
    register: Script, execute: Script, release: Script)

  /** The request as it is sent: its input covers the whole registered blob. */
  function Prepared(setup: Setup, request: EngineRequest, bytes: seq<byte>): EngineRequest {
    request.(input := request.input.(offset := 0, length := |bytes|, digest := Some(setup.digest(bytes))))
  }

  function Registering(
      setup: Setup, w: World, request: EngineRequest, bytes: seq<byte>, script: Script): Turn<EngineMessage> {
    Roundtrip(setup, w, RegisterBlob(Prepared(setup, request, bytes).input, bytes), true, script)
  }

  function Executing(setup: Setup, w: World, request: EngineRequest, bytes: seq<byte>, script: Script): Turn<string> {
    var turn := Roundtrip(setup, w, Execute(Prepared(setup, request, bytes)), true, script);
    Turn(turn.world,
         match turn.result
         case Ok(Executed(response)) => Ok(response)
         case Ok(_) => Err(PROTOCOL)
         case Err(e) => Err(e))
  }

  function Releasing(setup: Setup, executed: Turn<string>, id: string, script: Script): Turn<string> {
    if !executed.world.alive then executed
    else
      var turn := Roundtrip(setup, executed.world, ReleaseBlob(id), false, script);
      if turn.result != Ok(BlobReleased(id)) && executed.result.Ok? then Turn(turn.world, Err(PROTOCOL))
      else Turn(turn.world, executed.result)
  }

  function ExecuteRequest(setup: Setup, w: World, request: EngineRequest, script: ExecuteScript): Turn<string> {
    if script.checkpoint.Some? then Turn(w, Err(script.checkpoint.value))
    else if script.resolved.Err? then Turn(w, Err(script.resolved.error))
    else
      var bytes := script.resolved.value;
      if bytes == [] then Turn(w, Err(INVALID))
      else
        var registered := Registering(setup, w, request, bytes, script.register);
        match registered.result
        case Err(e) => Turn(registered.world, Err(e))
        case Ok(message) =>
          if message != BlobRegistered(request.input.id) then Turn(registered.world, Err(PROTOCOL))
          else
            Releasing(setup, Executing(setup, registered.world, request, bytes, script.execute), request.input.id,
                script.release)
  }

  function CheckHealth(setup: Setup, w: World, query: string, script: Script): Turn<string> {
    var turn := Roundtrip(setup, w, Health(query), false, script);
    Turn(turn.world,
         match turn.result
         case Ok(HealthReport(report)) => Ok(report)
         case Ok(_) => Err(PROTOCOL)
         case Err(e) => Err(e))
  }

  function EstimateCost(
      setup: Setup, w: World, request: EngineRequest, inventory: string, script: Script): Turn<string> {
    var turn := Roundtrip(setup, w, Estimate(request, inventory), false, script);
    Turn(turn.world,
         match turn.result
         case Ok(Candidates(candidates)) => Ok(candidates)
         case Ok(_) => Err(PROTOCOL)
         case Err(e) => Err(e))
  }

  /** How the wait for the process to exit ended. */
  datatype ExitWait = Exited | WaitFailed | TimedOut

  function ShutDown(setup: Setup, w: World, script: Script, wait: ExitWait): Turn<()> {
    if !w.alive then Turn(w, Ok(()))
    else
      var turn := Roundtrip(setup, w, Shutdown, false, script);
      if turn.result != Ok(ShutdownAcknowledged) then
        Turn(Terminate(turn.world), Err(if turn.result.Err? then turn.result.error else PROTOCOL))
      else
        match wait
        case Exited => Turn(turn.world.(alive := false), Ok(()))
        case WaitFailed => Turn(Terminate(turn.world), Err(PROTOCOL))
        case TimedOut => Turn(Terminate(turn.world), Err(EngineError(DeadlineExceeded, true)))
  }

  /** `spawn` is why the replacement could not be started, if it could not. */
  function Restart(setup: Setup, w: World, spawn: Option<EngineError>): Turn<()> {
    if w.alive then Turn(w, Err(PROTOCOL))
    else if w.restarts >= setup.maximumRestarts then Turn(w, Err(EngineError(Unavailable, false)))
    else if spawn.Some? then Turn(w, Err(spawn.value))
    else Turn(Spawned(w.restarts + 1), Ok(()))
  }

  // ---- Lockstep ----

  /** The identifier of the request number `k` (from zero) written to one child. */
  function IdAt(setup: Setup, k: nat): string {
    setup.derive((k + 1) % COUNTER_RANGE)
  }

  predicate Numbered(setup: Setup, exchanges: seq<Exchange>) {
    forall k: nat :: k < |exchanges| ==> exchanges[k].request.id == IdAt(setup, k)
  }

  predicate SeenExactly(child: Child) {
    && (forall k: nat :: k < |child.handled| ==> child.handled[k].request.id in child.seen)
    && (forall id :: id in child.seen ==> exists k: nat :: k < |child.handled| && child.handled[k].request.id == id)
  }

  /** The completed exchanges are those the child handled, up to one whose answer was never taken. */
  predicate Delivers(w: World) {
    w.exchanges <= w.child.handled && |w.child.handled| <= |w.exchanges| + 1
  }

  predicate QuietChannels(w: World) {
    w.requests == [] && w.events == if w.child.up then [] else [Failure]
  }

  /** Between round trips: a running engine has nothing in flight, and agrees with its child about every exchange. */
  predicate Lockstep(setup: Setup, w: World) {
    && Delivers(w)
    && (!w.alive ==> !w.child.up)
    && (w.alive ==> && QuietChannels(w)
                    && w.child.handled == w.exchanges
                    && w.counter == |w.exchanges| % COUNTER_RANGE
                    && Numbered(setup, w.exchanges)
                    && SeenExactly(w.child))
  }

  /** During a wait: exactly the one request is in flight, still unread. */
  predicate Awaiting(setup: Setup, w: World, request: RequestEnvelope) {
    && w.alive && w.requests == [request]
    && w.events == (if w.child.up then [] else [Failure])
    && w.child.handled == w.exchanges
    && w.counter == (|w.exchanges| + 1) % COUNTER_RANGE
    && request.version == setup.version && request.id == IdAt(setup, |w.exchanges|)
    && Numbered(setup, w.exchanges) && SeenExactly(w.child)
  }

  /** `turn` is the child's answer to this very request: one pass of its loop, delivered once. */
  ghost predicate AnsweredBy(
      setup: Setup, child: Child, exchanges: seq<Exchange>, request: RequestEnvelope, outcome: Outcome,
      turn: Turn<EngineMessage>) {
    var answered := Answer(setup, child, request, outcome);
    && child.up
    && turn.world.child == answered
    && answered.handled == child.handled + [Exchange(request, answered.handled[|child.handled|].answer)]
    && turn.world.exchanges == exchanges + [Exchange(request, answered.handled[|child.handled|].answer)]
    && turn.result == Delivered(answered.handled[|child.handled|].answer)
  }

  lemma AnswerNumbered(setup: Setup, child: Child, request: RequestEnvelope, outcome: Outcome)
    requires Numbered(setup, child.handled) && SeenExactly(child) && request.id == IdAt(setup, |child.handled|)
    ensures Numbered(setup, Answer(setup, child, request, outcome).handled)
    ensures SeenExactly(Answer(setup, child, request, outcome))
  {
    var after := Answer(setup, child, request, outcome);
    var n := |child.handled|;
    assert after.handled[n].request == request;
    forall id | id in after.seen
      ensures exists k: nat :: k < |after.handled| && after.handled[k].request.id == id
    {
      if id == request.id {
        assert after.handled[n].request.id == id;
      } else {
        var k: nat :| k < n && child.handled[k].request.id == id;
        assert after.handled[k].request.id == id;
      }
    }
  }

  /** What taking the child's answer off the channel leaves. */
  lemma ServedThenReceived(setup: Setup, w: World, request: RequestEnvelope, outcome: Outcome)
    requires Awaiting(setup, w, request) && w.child.up
    ensures var served := Serve(setup, w, outcome);
            && Delivers(served) && served.events != []
            && Lockstep(setup, Receive(served, request).world)
            && Receive(served, request).world.alive && Receive(served, request).world.restarts == w.restarts
            && AnsweredBy(setup, w.child, w.exchanges, request, outcome, Receive(served, request))
  {
    AnswerNumbered(setup, w.child, request, outcome);
  }

  /**
   * Whatever happens during a wait, either the engine is dead afterwards or the result is the child's own answer to
   * the request that was sent, taken once.
   */
  lemma {:induction false} AwaitAnswers(
      setup: Setup, w: World, request: RequestEnvelope, cancellable: bool, ticks: seq<Tick>)
    returns (outcome: Outcome)
    requires Awaiting(setup, w, request)
    ensures var turn := Await(setup, w, request, cancellable, ticks);
            && Lockstep(setup, turn.world) && turn.world.restarts == w.restarts
            && (turn.result.Ok? ==> turn.world.alive)
            && (turn.world.alive ==> AnsweredBy(setup, w.child, w.exchanges, request, outcome, turn))
    decreases |ticks|
  {
    outcome := Ok("");
    if ticks != [] {
      var act := ticks[0].act;
      if act.Serves? && w.child.up {
        ServedThenReceived(setup, w, request, act.outcome);
        outcome := act.outcome;
      } else {
        var acted := Act(setup, w, act);
        if acted.events == [] && acted.child.up {
          outcome := AwaitAnswers(setup, acted, request, cancellable, ticks[1..]);
        }
      }
    }
  }

  /** The same for a whole round trip from a quiet engine. */
  lemma RoundtripAnswers(setup: Setup, w: World, message: HostMessage, cancellable: bool, script: Script)
    returns (outcome: Outcome)
    requires Lockstep(setup, w)
    ensures var turn := Roundtrip(setup, w, message, cancellable, script);
            && Lockstep(setup, turn.world) && turn.world.restarts == w.restarts
            && (turn.result.Ok? ==> turn.world.alive)
            && (turn.world.alive ==>
                  w.alive && AnsweredBy(setup, w.child, w.exchanges, Request(setup, w, message), outcome, turn))
  {
    outcome := Ok("");
    if w.alive && script.written {
      var request := Request(setup, w, message);
      assert NextCounter(w.counter) == (|w.exchanges| + 1) % COUNTER_RANGE;
      outcome := AwaitAnswers(setup, w.(counter := NextCounter(w.counter), requests := [request]), request,
          cancellable, script.ticks);
      assert w.requests + [request] == [request];
    }
  }
}

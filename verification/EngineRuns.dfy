/** Whole runs of a process engine: correlation, the blob registry, and restarts. */
module EngineRuns {
  import opened Collections
  import opened Framing
  import opened EngineProtocol

  ghost predicate DistinctIds(setup: Setup) {
    forall i: nat, j: nat :: i < COUNTER_RANGE && j < COUNTER_RANGE && setup.derive(i) == setup.derive(j) ==> i == j
  }

  lemma CounterWraps(k: nat, n: nat)
    requires k < n
    ensures n < COUNTER_RANGE ==> (k + 1) % COUNTER_RANGE != (n + 1) % COUNTER_RANGE
    ensures n == k + COUNTER_RANGE ==> (k + 1) % COUNTER_RANGE == (n + 1) % COUNTER_RANGE
  {
  }

  /** A request identifier repeats on one child exactly once the counter has gone all the way round. */
  lemma RepeatsIff(setup: Setup, child: Child)
    requires DistinctIds(setup) && Numbered(setup, child.handled) && SeenExactly(child)
    ensures IdAt(setup, |child.handled|) in child.seen <==> |child.handled| >= COUNTER_RANGE
  {
    var n := |child.handled|;
    if n >= COUNTER_RANGE {
      CounterWraps(n - COUNTER_RANGE, n);
      assert child.handled[n - COUNTER_RANGE].request.id == IdAt(setup, n);
    } else if IdAt(setup, n) in child.seen {
      var k: nat :| k < n && child.handled[k].request.id == IdAt(setup, n);
      assert child.handled[k].request.id == IdAt(setup, k);
      CounterWraps(k, n);
    }
  }

  // ---- One execution ----

  /** An execution that gets as far as registering its input, on a child that does not hold that blob. */
  predicate Registers(w: World, request: EngineRequest, script: ExecuteScript) {
    && script.checkpoint.None? && script.resolved.Ok? && script.resolved.value != []
    && request.input.id !in w.child.blobs
  }

  /** The counter goes round after the registration and no later than the release. */
  predicate WrapsWithin(w: World) {
    |w.exchanges| < COUNTER_RANGE < |w.exchanges| + 3
  }

  /** What the host may conclude from a successful execution about what the child did. */
  ghost predicate ExecutedBy(
      setup: Setup, w: World, request: EngineRequest, bytes: seq<byte>, response: string, after: World) {
    var n := |w.child.handled|;
    && |after.child.handled| == n + 3
    && after.child.handled[..n] == w.child.handled
    && ToldToRegister(setup, request, bytes, after.child.handled[n])
    && ToldToExecute(setup, request, bytes, response, after.child.handled[n + 1])
    && after.child.handled[n + 2].request.message == ReleaseBlob(request.input.id)
    && after.child.handled[n + 2].answer == BlobReleased(request.input.id)
    && request.input.id !in w.child.blobs && after.child.blobs == w.child.blobs
    && Resolve(setup, w.child.blobs[request.input.id := Registered(HeldScope(after, n), bytes)],
         SentScope(after, n + 1)) == Ok(bytes)
  }

  /** The input of a request, but for its range and digest: those are of the whole blob sent along. */
  predicate CoversAll(setup: Setup, input: ScopedBlob, bytes: seq<byte>, sent: ScopedBlob) {
    && sent.id == input.id && sent.mediaType == input.mediaType
    && sent.offset == 0 && sent.length == |bytes| && sent.digest == Some(setup.digest(bytes))
  }

  predicate ToldToRegister(setup: Setup, request: EngineRequest, bytes: seq<byte>, told: Exchange) {
    && told.request.message.RegisterBlob? && told.request.message.bytes == bytes
    && CoversAll(setup, request.input, bytes, told.request.message.blob)
    && told.answer == BlobRegistered(request.input.id)
  }

  predicate ToldToExecute(setup: Setup, request: EngineRequest, bytes: seq<byte>, response: string, told: Exchange) {
    && told.request.message.Execute?
    && told.request.message.request.body == request.body
    && CoversAll(setup, request.input, bytes, told.request.message.request.input)
    && told.answer == Executed(response)
  }

  /** The scope that the exchange of this number registered. */
  function HeldScope(w: World, n: nat): ScopedBlob
    requires n < |w.child.handled| && w.child.handled[n].request.message.RegisterBlob?
  {
    w.child.handled[n].request.message.blob
  }

  /** The input that the exchange of this number executed. */
  function SentScope(w: World, n: nat): ScopedBlob
    requires n < |w.child.handled| && w.child.handled[n].request.message.Execute?
  {
    w.child.handled[n].request.message.request.input
  }

  /** One more request handled, or the engine is dead. */
  predicate Advanced(setup: Setup, w: World, after: World) {
    && Lockstep(setup, after) && after.restarts == w.restarts
    && (after.alive ==>
          w.alive && w.child.handled <= after.child.handled && |after.child.handled| == |w.child.handled| + 1)
  }

  predicate RegisterEffect(setup: Setup, w: World, input: ScopedBlob, bytes: seq<byte>, turn: Turn<EngineMessage>) {
    && Advanced(setup, w, turn.world)
    && (turn.result.Ok? ==>
          && turn.world.alive && turn.result == Ok(BlobRegistered(input.id))
          && turn.world.child.handled[|w.child.handled|].request.message == RegisterBlob(input, bytes)
          && turn.world.child.handled[|w.child.handled|].answer == BlobRegistered(input.id))
    && (turn.world.alive ==>
          && (turn.result.Ok? <==> |w.exchanges| < COUNTER_RANGE && input.id !in w.child.blobs)
          && turn.world.child.blobs
             == if turn.result.Ok? then w.child.blobs[input.id := Registered(input, bytes)] else w.child.blobs)
  }

  predicate ExecuteEffect(setup: Setup, w: World, prepared: EngineRequest, turn: Turn<string>) {
    && Advanced(setup, w, turn.world)
    && (turn.result.Ok? ==> turn.world.alive)
    && (turn.world.alive ==>
          && turn.world.child.blobs == w.child.blobs
          && (turn.result.Ok? ==>
                && turn.world.child.handled[|w.child.handled|].request.message == Execute(prepared)
                && turn.world.child.handled[|w.child.handled|].answer == Executed(turn.result.value)))
  }

  predicate ReleaseEffect(setup: Setup, executed: Turn<string>, id: string, turn: Turn<string>) {
    var w := executed.world;
    && (w.alive ==> Advanced(setup, w, turn.world))
    && (!w.alive ==> turn == executed)
    && (turn.result.Ok? ==>
          && turn.world.alive && turn.result == executed.result && |w.exchanges| < COUNTER_RANGE
          && turn.world.child.handled[|w.child.handled|].request.message == ReleaseBlob(id)
          && turn.world.child.handled[|w.child.handled|].answer == BlobReleased(id))
    && (turn.world.alive ==>
          turn.world.child.blobs == if |w.exchanges| < COUNTER_RANGE then w.child.blobs - {id} else w.child.blobs)
  }

  lemma RegisterOutcome(setup: Setup, w: World, request: EngineRequest, bytes: seq<byte>, script: Script)
    requires DistinctIds(setup) && Lockstep(setup, w) && bytes != []
    ensures RegisterEffect(setup, w, Prepared(setup, request, bytes).input, bytes,
            Registering(setup, w, request, bytes, script))
  {
    var input := Prepared(setup, request, bytes).input;
    var outcome := RoundtripAnswers(setup, w, RegisterBlob(input, bytes), true, script);
    if w.alive {
      RepeatsIff(setup, w.child);
    }
  }

  lemma ExecuteOutcome(setup: Setup, w: World, request: EngineRequest, bytes: seq<byte>, script: Script)
    requires Lockstep(setup, w)
    ensures ExecuteEffect(setup, w, Prepared(setup, request, bytes), Executing(setup, w, request, bytes, script))
  {
    var outcome := RoundtripAnswers(setup, w, Execute(Prepared(setup, request, bytes)), true, script);
  }

  lemma ReleaseOutcome(setup: Setup, executed: Turn<string>, id: string, script: Script)
    requires DistinctIds(setup) && Lockstep(setup, executed.world) && id in executed.world.child.blobs
    requires executed.result.Ok? ==> executed.world.alive
    ensures ReleaseEffect(setup, executed, id, Releasing(setup, executed, id, script))
  {
    if executed.world.alive {
      var outcome := RoundtripAnswers(setup, executed.world, ReleaseBlob(id), false, script);
      RepeatsIff(setup, executed.world.child);
    }
  }

  /** An execution as far as a registered input is three requests in a row. */
  lemma ThreeTurns(
    setup: Setup, w: World, request: EngineRequest, bytes: seq<byte>,
    registered: Turn<EngineMessage>, executed: Turn<string>, released: Turn<string>)
    requires Lockstep(setup, w) && registered.result.Ok? && bytes != []
    requires RegisterEffect(setup, w, Prepared(setup, request, bytes).input, bytes, registered)
    requires ExecuteEffect(setup, registered.world, Prepared(setup, request, bytes), executed)
    requires ReleaseEffect(setup, executed, request.input.id, released)
    ensures Lockstep(setup, released.world) && released.world.restarts == w.restarts
    ensures released.world.alive ==> w.alive && |released.world.exchanges| == |w.exchanges| + 3
    ensures released.world.alive ==> (released.world.child.blobs == w.child.blobs <==> !WrapsWithin(w))
    ensures released.result.Ok? ==>
            released.world.alive && ExecutedBy(setup, w, request, bytes, released.result.value, released.world)
  {
    var id := request.input.id;
    if released.world.alive {
      assert w.child.blobs[id := Registered(Prepared(setup, request, bytes).input, bytes)] - {id} == w.child.blobs;
    }
    if released.result.Ok? {
      ThreeExchanges(setup, w, request, bytes, registered, executed, released);
    }
  }

  lemma ThreeExchanges(
    setup: Setup, w: World, request: EngineRequest, bytes: seq<byte>,
    registered: Turn<EngineMessage>, executed: Turn<string>, released: Turn<string>)
    requires Lockstep(setup, w) && registered.result.Ok? && bytes != [] && released.result.Ok?
    requires RegisterEffect(setup, w, Prepared(setup, request, bytes).input, bytes, registered)
    requires ExecuteEffect(setup, registered.world, Prepared(setup, request, bytes), executed)
    requires ReleaseEffect(setup, executed, request.input.id, released)
    requires released.world.child.blobs == w.child.blobs
    ensures released.world.alive && ExecutedBy(setup, w, request, bytes, released.result.value, released.world)
  {
    var n := |w.child.handled|;
    var handled := released.world.child.handled;
    assert handled[n] == registered.world.child.handled[n];
    assert handled[n + 1] == executed.world.child.handled[n + 1];
    assert handled[n].request.message == RegisterBlob(Prepared(setup, request, bytes).input, bytes);
    assert handled[n + 1].request.message == Execute(Prepared(setup, request, bytes));
    Recovered(setup, w.child.blobs, request, bytes);
  }

  /** What was sent along is what the child finds. */
  lemma Recovered(setup: Setup, blobs: Registry, request: EngineRequest, bytes: seq<byte>)
    requires bytes != [] && request.input.id !in blobs
    ensures var input := Prepared(setup, request, bytes).input;
            Resolve(setup, blobs[request.input.id := Registered(input, bytes)], input) == Ok(bytes)
  {
    RegistryRoundTrip(setup, blobs, Prepared(setup, request, bytes).input, bytes, 0, |bytes|);
  }

  /**
   * An execution leaves a live child's registry as it found it, except exactly when the request counter goes round
   * between its registration and its release: then the child refuses the release as a duplicate and keeps the blob.
   * A successful execution always leaves it as found, and its response is the child's answer to that very request.
   */
  lemma ExecutionLeavesRegistry(setup: Setup, w: World, request: EngineRequest, script: ExecuteScript)
    requires DistinctIds(setup) && Lockstep(setup, w)
    ensures var turn := ExecuteRequest(setup, w, request, script);
            && Lockstep(setup, turn.world) && turn.world.restarts == w.restarts
            && (turn.result.Ok? ==> turn.world.alive && script.resolved.Ok?
                                    && ExecutedBy(setup, w, request, script.resolved.value, turn.result.value,
                                         turn.world))
            && (turn.world.alive ==>
                  && w.alive && |turn.world.exchanges| <= |w.exchanges| + 3
                  && (turn.world.child.blobs == w.child.blobs <==> !(Registers(w, request, script) && WrapsWithin(w))))
  {
    if script.checkpoint.None? && script.resolved.Ok? && script.resolved.value != [] {
      var bytes := script.resolved.value;
      RegisterOutcome(setup, w, request, bytes, script.register);
      var registered := Registering(setup, w, request, bytes, script.register);
      if registered.result.Ok? {
        ExecuteOutcome(setup, registered.world, request, bytes, script.execute);
        var executed := Executing(setup, registered.world, request, bytes, script.execute);
        if executed.world.alive {
          ReleaseOutcome(setup, executed, request.input.id, script.release);
        }
        ThreeTurns(setup, w, request, bytes, registered, executed,
            Releasing(setup, executed, request.input.id, script.release));
      }
    }
  }

  // ---- Health and estimates ----

  /** The child was told this once more, and answered so. */
  ghost predicate Told(w: World, after: World, message: HostMessage, answer: EngineMessage) {
    && |after.child.handled| == |w.child.handled| + 1 && after.child.handled[..|w.child.handled|] == w.child.handled
    && after.child.handled[|w.child.handled|].request.message == message
    && after.child.handled[|w.child.handled|].answer == answer
  }

  /** A health report is what the running child answered to this very query, and nothing else is reported. */
  lemma HealthIsAnswered(setup: Setup, w: World, query: string, script: Script)
    requires Lockstep(setup, w)
    ensures var turn := CheckHealth(setup, w, query, script);
            && (turn.result.Ok? ==> turn.world.alive)
            && (turn.world.alive ==> w.alive && exists answer ::
                  Told(w, turn.world, Health(query), answer)
                  && match answer
                     case HealthReport(report) => turn.result == Ok(report)
                     case Error(e) => turn.result == Err(e)
                     case _ => turn.result == Err(EngineError(Protocol, false)))
  {
    var outcome := RoundtripAnswers(setup, w, Health(query), false, script);
    var turn := Roundtrip(setup, w, Health(query), false, script);
    if turn.world.alive {
      assert Told(w, turn.world, Health(query), turn.world.child.handled[|w.child.handled|].answer);
    }
  }

  /** The candidates of an estimate are what the running child answered to this very request and inventory. */
  lemma EstimateIsAnswered(setup: Setup, w: World, request: EngineRequest, inventory: string, script: Script)
    requires Lockstep(setup, w)
    ensures var turn := EstimateCost(setup, w, request, inventory, script);
            && (turn.result.Ok? ==> turn.world.alive)
            && (turn.world.alive ==> w.alive && exists answer ::
                  Told(w, turn.world, Estimate(request, inventory), answer)
                  && match answer
                     case Candidates(candidates) => turn.result == Ok(candidates)
                     case Error(e) => turn.result == Err(e)
                     case _ => turn.result == Err(EngineError(Protocol, false)))
  {
    var outcome := RoundtripAnswers(setup, w, Estimate(request, inventory), false, script);
    var turn := Roundtrip(setup, w, Estimate(request, inventory), false, script);
    if turn.world.alive {
      assert Told(w, turn.world, Estimate(request, inventory), turn.world.child.handled[|w.child.handled|].answer);
    }
  }

  // ---- The counter going round is reachable ----

  /** The child answers each request at the first poll. */
  const PROMPT := Script(true, [Tick(Serves(Ok("")), false, false)])

  lemma PromptRoundtrip(setup: Setup, w: World, message: HostMessage, cancellable: bool)
    requires Lockstep(setup, w) && w.alive && w.child.up && !message.Shutdown?
    ensures var turn := Roundtrip(setup, w, message, cancellable, PROMPT);
            && Lockstep(setup, turn.world) && turn.world.alive && turn.world.child.up
            && |turn.world.exchanges| == |w.exchanges| + 1
            && (message.Health? ==> turn.world.child.blobs == w.child.blobs)
  {
    var request := Request(setup, w, message);
    var sent := w.(counter := NextCounter(w.counter), requests := w.requests + [request]);
    assert NextCounter(w.counter) == (|w.exchanges| + 1) % COUNTER_RANGE;
    ServedThenReceived(setup, sent, request, Ok(""));
  }

  function Repeat(op: Operation, n: nat): seq<Operation> {
    if n == 0 then [] else [op] + Repeat(op, n - 1)
  }

  predicate Healthy(setup: Setup, w: World, after: World, n: nat) {
    && Lockstep(setup, after) && after.alive && after.child.up
    && |after.exchanges| == |w.exchanges| + n && after.child.blobs == w.child.blobs
  }

  /** Running `step` over the operations, whatever it is. */
  function Fold(step: (World, Operation) -> World, w: World, ops: seq<Operation>): World
    decreases |ops|
  {
    if ops == [] then w else Fold(step, step(w, ops[0]), ops[1..])
  }

  lemma {:induction false} RunIsFold(setup: Setup, step: (World, Operation) -> World, w: World, ops: seq<Operation>)
    requires forall v: World, op: Operation :: step(v, op) == Step(setup, v, op)
    ensures Run(setup, w, ops) == Fold(step, w, ops)
    decreases |ops|
  {
    if ops != [] {
      RunIsFold(setup, step, step(w, ops[0]), ops[1..]);
    }
  }

  lemma {:induction false} FoldRepeats(
      step: (World, Operation) -> World, good: (World, nat) -> bool, w: World, op: Operation, n: nat, done: nat)
    requires good(w, done)
    requires forall v: World, k: nat :: good(v, k) ==> good(step(v, op), k + 1)
    ensures good(Fold(step, w, Repeat(op, n)), done + n)
    decreases n
  {
    if n > 0 {
      FoldRepeats(step, good, step(w, op), op, n - 1, done + 1);
      assert Repeat(op, n)[1..] == Repeat(op, n - 1);
    }
  }

  const PROMPT_CHECK := HealthCheck("", PROMPT)

  lemma HealthyRun(setup: Setup, w: World, n: nat)
    requires Lockstep(setup, w) && w.alive && w.child.up
    ensures Healthy(setup, w, Run(setup, w, Repeat(PROMPT_CHECK, n)), n)
  {
    var step := (v: World, op: Operation) => Step(setup, v, op);
    var good := (v: World, k: nat) => Healthy(setup, w, v, k);
    forall v: World, k: nat | good(v, k)
      ensures good(step(v, PROMPT_CHECK), k + 1)
    {
      PromptRoundtrip(setup, v, Health(""), false);
    }
    RunIsFold(setup, step, w, Repeat(PROMPT_CHECK, n));
    FoldRepeats(step, good, w, PROMPT_CHECK, n, 0);
  }

  lemma PromptExecution(setup: Setup, w: World, request: EngineRequest, bytes: seq<byte>)
    requires DistinctIds(setup) && Lockstep(setup, w) && w.alive && w.child.up && bytes != []
    ensures ExecuteRequest(setup, w, request, ExecuteScript(None, Ok(bytes), PROMPT, PROMPT, PROMPT)).world.alive
  {
    PromptRoundtrip(setup, w, RegisterBlob(Prepared(setup, request, bytes).input, bytes), true);
    var registered := Registering(setup, w, request, bytes, PROMPT).world;
    PromptRoundtrip(setup, registered, Execute(Prepared(setup, request, bytes)), true);
    var executed := Executing(setup, registered, request, bytes, PROMPT);
    PromptRoundtrip(setup, executed.world, ReleaseBlob(request.input.id), false);
  }

  /** After 2^64 - 2 health checks, one execution leaves its blob with the live child. */
  lemma WrappedCounterKeepsBlob(setup: Setup, request: EngineRequest, bytes: seq<byte>, checks: nat)
    requires DistinctIds(setup) && bytes != [] && checks + 2 == COUNTER_RANGE
    ensures var w := Run(setup, Spawned(0), Repeat(PROMPT_CHECK, checks));
            var after := ExecuteRequest(setup, w, request,
                ExecuteScript(None, Ok(bytes), PROMPT, PROMPT, PROMPT)).world;
            w.alive && after.alive && w.child.blobs == map[] && after.child.blobs != map[]
  {
    HealthyRun(setup, Spawned(0), checks);
    var w := Run(setup, Spawned(0), Repeat(PROMPT_CHECK, checks));
    WrapKeepsBlob(setup, w, request, bytes);
  }

  lemma WrapKeepsBlob(setup: Setup, w: World, request: EngineRequest, bytes: seq<byte>)
    requires DistinctIds(setup) && Lockstep(setup, w) && w.alive && w.child.up && bytes != []
    requires |w.exchanges| + 2 == COUNTER_RANGE && w.child.blobs == map[]
    ensures var after := ExecuteRequest(setup, w, request,
            ExecuteScript(None, Ok(bytes), PROMPT, PROMPT, PROMPT)).world;
            after.alive && after.child.blobs != map[]
  {
    PromptExecution(setup, w, request, bytes);
    ExecutionLeavesRegistry(setup, w, request, ExecuteScript(None, Ok(bytes), PROMPT, PROMPT, PROMPT));
  }

  // ---- Runs ----

  /** The public operations of a process engine, and a child that exits between them. */
  datatype Operation =
    | HealthCheck(query: string, script: Script)
    | CostEstimate(request: EngineRequest, inventory: string, script: Script)
    | Execution(request: EngineRequest, execution: ExecuteScript)
    | ShutdownCall(script: Script, wait: ExitWait)
    | RestartCall(spawn: Option<EngineError>)
    | ChildExits

  function Step(setup: Setup, w: World, op: Operation): World {
    match op
    case HealthCheck(query, script) => CheckHealth(setup, w, query, script).world
    case CostEstimate(request, inventory, script) => EstimateCost(setup, w, request, inventory, script).world
    case Execution(request, script) => ExecuteRequest(setup, w, request, script).world
    case ShutdownCall(script, wait) => ShutDown(setup, w, script, wait).world
    case RestartCall(spawn) => Restart(setup, w, spawn).world
    case ChildExits => Exit(w)
  }

  function Run(setup: Setup, w: World, ops: seq<Operation>): World
    decreases |ops|
  {
    if ops == [] then w else Run(setup, Step(setup, w, ops[0]), ops[1..])
  }

  /** What holds between operations: lockstep, the restart bound, and a live child that holds no blob. */
  predicate Settled(setup: Setup, w: World) {
    Lockstep(setup, w) && w.restarts <= setup.maximumRestarts && (w.alive ==> w.child.blobs == map[])
  }

  /** How many requests a running child has been sent. */
  function Sent(w: World): nat {
    if w.alive then |w.exchanges| else 0
  }

  lemma QuietRoundtrip(setup: Setup, w: World, message: HostMessage, script: Script)
    requires Settled(setup, w)
    requires message.Health? || message.Estimate? || message.Shutdown?
    ensures var turn := Roundtrip(setup, w, message, false, script);
            && Settled(setup, turn.world) && turn.world.restarts == w.restarts
            && (turn.world.alive ==> w.alive && |turn.world.exchanges| <= |w.exchanges| + 1)
  {
    var outcome := RoundtripAnswers(setup, w, message, false, script);
  }

  lemma StepSettled(setup: Setup, w: World, op: Operation)
    requires DistinctIds(setup) && Settled(setup, w) && Sent(w) + 3 <= COUNTER_RANGE
    ensures Settled(setup, Step(setup, w, op)) && Sent(Step(setup, w, op)) <= Sent(w) + 3
  {
    match op
    case HealthCheck(query, script) => QuietRoundtrip(setup, w, Health(query), script);
    case CostEstimate(request, inventory, script) => QuietRoundtrip(setup, w, Estimate(request, inventory), script);
    case Execution(request, script) => ExecutionLeavesRegistry(setup, w, request, script);
    case ShutdownCall(script, wait) =>
      QuietRoundtrip(setup, w, Shutdown, script);
      var _ := RoundtripAnswers(setup, w, Shutdown, false, script);
    case RestartCall(spawn) =>
    case ChildExits =>
  }

  /** Every run keeps host and child in lockstep, within the restart bound, and leaves no blob behind. */
  lemma {:induction false} RunSettled(setup: Setup, w: World, ops: seq<Operation>)
    requires DistinctIds(setup) && Settled(setup, w) && Sent(w) + 3 * |ops| <= COUNTER_RANGE
    ensures Settled(setup, Run(setup, w, ops))
    decreases |ops|
  {
    if ops != [] {
      StepSettled(setup, w, ops[0]);
      RunSettled(setup, Step(setup, w, ops[0]), ops[1..]);
    }
  }

  /** Lockstep alone needs neither distinct identifiers nor a bound on the run. */
  lemma StepLockstep(setup: Setup, w: World, op: Operation)
    requires Lockstep(setup, w)
    ensures Lockstep(setup, Step(setup, w, op))
  {
    match op
    case HealthCheck(query, script) =>
      var _ := RoundtripAnswers(setup, w, Health(query), false, script);
    case CostEstimate(request, inventory, script) =>
      var _ := RoundtripAnswers(setup, w, Estimate(request, inventory), false, script);
    case Execution(request, script) => ExecuteLockstep(setup, w, request, script);
    case ShutdownCall(script, wait) =>
      var _ := RoundtripAnswers(setup, w, Shutdown, false, script);
    case RestartCall(spawn) =>
    case ChildExits =>
  }

  lemma ExecuteLockstep(setup: Setup, w: World, request: EngineRequest, script: ExecuteScript)
    requires Lockstep(setup, w)
    ensures Lockstep(setup, ExecuteRequest(setup, w, request, script).world)
  {
    if script.checkpoint.None? && script.resolved.Ok? && script.resolved.value != [] {
      var bytes := script.resolved.value;
      RegisteringLockstep(setup, w, request, bytes, script.register);
      var registered := Registering(setup, w, request, bytes, script.register).world;
      ExecuteOutcome(setup, registered, request, bytes, script.execute);
      ReleasingLockstep(setup, Executing(setup, registered, request, bytes, script.execute), request.input.id,
          script.release);
    }
  }

  lemma RegisteringLockstep(setup: Setup, w: World, request: EngineRequest, bytes: seq<byte>, script: Script)
    requires Lockstep(setup, w)
    ensures Lockstep(setup, Registering(setup, w, request, bytes, script).world)
  {
    var _ := RoundtripAnswers(setup, w, RegisterBlob(Prepared(setup, request, bytes).input, bytes), true, script);
  }

  lemma ReleasingLockstep(setup: Setup, executed: Turn<string>, id: string, script: Script)
    requires Lockstep(setup, executed.world)
    ensures Lockstep(setup, Releasing(setup, executed, id, script).world)
  {
    var _ := RoundtripAnswers(setup, executed.world, ReleaseBlob(id), false, script);
  }

  lemma {:induction false} RunLockstep(setup: Setup, w: World, ops: seq<Operation>)
    requires Lockstep(setup, w)
    ensures Lockstep(setup, Run(setup, w, ops))
    decreases |ops|
  {
    if ops != [] {
      StepLockstep(setup, w, ops[0]);
      RunLockstep(setup, Step(setup, w, ops[0]), ops[1..]);
    }
  }

  /**
   * After any run at all, a message that a round trip delivers was computed by the running child from that very
   * request, after everything it had answered before and once. A round trip that ends in any other way kills the
   * engine.
   */
  lemma EveryAnswerIsItsOwn(setup: Setup, ops: seq<Operation>, message: HostMessage, cancellable: bool, script: Script)
    returns (outcome: Outcome)
    ensures var w := Run(setup, Spawned(0), ops);
            var turn := Roundtrip(setup, w, message, cancellable, script);
            && (turn.result.Ok? ==> turn.world.alive)
            && (turn.world.alive ==>
                  w.alive && AnsweredBy(setup, w.child, w.exchanges, Request(setup, w, message), outcome, turn))
  {
    RunLockstep(setup, Spawned(0), ops);
    outcome := RoundtripAnswers(setup, Run(setup, Spawned(0), ops), message, cancellable, script);
  }

  /** A dead engine sends nothing and takes nothing until it is restarted, and then starts on empty channels. */
  lemma DeadUntilRestart(setup: Setup, w: World, op: Operation)
    requires Lockstep(setup, w) && !w.alive
    ensures var after := Step(setup, w, op);
            after == w || (op.RestartCall? && w.restarts < setup.maximumRestarts && after == Spawned(w.restarts + 1))
  {
  }
}

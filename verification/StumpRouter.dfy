/** The decision-stump router (crates/ferrodoc-router/src/lib.rs), with scores as exact reals. */
module StumpRouter {
  import opened Collections
  import opened Orderings

  datatype Route = Native | Ocr

  datatype Features = Features(characters: Option<nat>, scanned: Option<real>)

  datatype Outcome = Outcome(engine: string, route: Route, quality: real, failed: bool, latency: Option<real>)

  datatype Record = Record(training: bool, features: Features, outcomes: seq<Outcome>)

  datatype Objective = Objective(
    latencyPenalty: real, failurePenalty: real, minimumImprovement: real, minimumConfidence: real)

  datatype Engines = Engines(native: string, ocr: string)

  type Policy = Features -> Route

  // ---- Scoring a policy on records ----

  /** The engine's first outcome among those from position `i` on. */
  function FindFrom(outcomes: seq<Outcome>, engine: string, i: nat): Option<Outcome>
    requires i <= |outcomes|
    decreases |outcomes| - i
  {
    if i == |outcomes| then None
    else if outcomes[i].engine == engine then Some(outcomes[i])
    else FindFrom(outcomes, engine, i + 1)
  }

  function Selected(record: Record, policy: Policy, engines: Engines): Option<Outcome> {
    FindFrom(record.outcomes, if policy(record.features).Native? then engines.native else engines.ocr, 0)
  }

  datatype Totals = Totals(quality: real, failures: nat, latency: real, measured: nat)

  function AddOutcome(totals: Totals, outcome: Option<Outcome>): Totals {
    match outcome
    case None => totals.(failures := totals.failures + 1)
    case Some(o) =>
      Totals(totals.quality + o.quality, totals.failures + if o.failed then 1 else 0,
             totals.latency + (if o.latency.Some? then o.latency.value else 0.0),
             totals.measured + if o.latency.Some? then 1 else 0)
  }

  function Sum(records: seq<Record>, policy: Policy, engines: Engines): Totals {
    if records == [] then Totals(0.0, 0, 0.0, 0)
    else
      var n := |records| - 1;
      AddOutcome(Sum(records[..n], policy, engines), Selected(records[n], policy, engines))
  }

  function FailureCost(failures: nat, count: nat, objective: Objective): real
    requires count > 0
  {
    failures as real / count as real * objective.failurePenalty
  }

  /** Latency counts only when every record has a measurement. */
  function LatencyCost(totals: Totals, count: nat, objective: Objective): real
    requires count > 0
  {
    if totals.measured == count then totals.latency / count as real / 1000.0 * objective.latencyPenalty else 0.0
  }

  /** Mean quality less the penalties. */
  function Score(totals: Totals, count: nat, objective: Objective): real
    requires count > 0
  {
    totals.quality / count as real - FailureCost(totals.failures, count, objective) -
        LatencyCost(totals, count, objective)
  }

  /** No worse in quality, failures and latency, and as often measured. */
  predicate AtLeastAsGood(a: Totals, b: Totals) {
    a.quality >= b.quality && a.failures <= b.failures && a.latency <= b.latency && a.measured == b.measured
  }

  lemma Divided(a: real, b: real, n: real)
    requires a <= b && n > 0.0
    ensures a / n <= b / n
  {
  }

  lemma Weighted(a: real, b: real, penalty: real)
    requires a <= b && penalty >= 0.0
    ensures a * penalty <= b * penalty
  {
  }

  lemma FailureCostGrows(a: nat, b: nat, count: nat, objective: Objective)
    requires count > 0 && a <= b && objective.failurePenalty >= 0.0
    ensures FailureCost(a, count, objective) <= FailureCost(b, count, objective)
  {
    Divided(a as real, b as real, count as real);
    Weighted(a as real / count as real, b as real / count as real, objective.failurePenalty);
  }

  lemma LatencyCostGrows(a: Totals, b: Totals, count: nat, objective: Objective)
    requires count > 0 && a.latency <= b.latency && a.measured == b.measured && objective.latencyPenalty >= 0.0
    ensures LatencyCost(a, count, objective) <= LatencyCost(b, count, objective)
  {
    var n := count as real;
    Divided(a.latency, b.latency, n);
    Divided(a.latency / n, b.latency / n, 1000.0);
    Weighted(a.latency / n / 1000.0, b.latency / n / 1000.0, objective.latencyPenalty);
  }

  /** Under non-negative penalties totals at least as good score at least as much. */
  lemma ScoreIsMonotone(a: Totals, b: Totals, count: nat, objective: Objective)
    requires count > 0 && ValidObjective(objective) && AtLeastAsGood(a, b)
    ensures Score(a, count, objective) >= Score(b, count, objective)
  {
    Divided(b.quality, a.quality, count as real);
    FailureCostGrows(a.failures, b.failures, count, objective);
    LatencyCostGrows(a, b, count, objective);
  }

  function Evaluate(records: seq<Record>, policy: Policy, engines: Engines, objective: Objective): real
    requires records != []
  {
    Score(Sum(records, policy, engines), |records|, objective)
  }

  method EvaluateRecords(records: seq<Record>, policy: Policy, engines: Engines, objective: Objective)
    returns (score: real)
    requires records != []
    ensures score == Evaluate(records, policy, engines, objective)
  {
    var totals := Totals(0.0, 0, 0.0, 0);
    for i := 0 to |records|
      invariant totals == Sum(records[..i], policy, engines)
    {
      assert records[..i + 1][..i] == records[..i];
      var engine := if policy(records[i].features).Native? then engines.native else engines.ocr;
      var outcomes := records[i].outcomes;
      var j := 0;
      while j < |outcomes| && outcomes[j].engine != engine
        invariant j <= |outcomes|
        invariant FindFrom(outcomes, engine, 0) == FindFrom(outcomes, engine, j)
      {
        j := j + 1;
      }
      if j < |outcomes| {
        var o := outcomes[j];
        totals := Totals(totals.quality + o.quality, totals.failures +
            (if o.failed then 1 else 0), totals.latency, totals.measured);
        if o.latency.Some? {
          totals := totals.(latency := totals.latency + o.latency.value, measured := totals.measured + 1);
        }
      } else {
        totals := totals.(failures := totals.failures + 1);
      }
    }
    assert records[..|records|] == records;
    var count := |records| as real;
    var latencyCost := 0.0;
    if totals.measured == |records| {
      latencyCost := totals.latency / count / 1000.0 * objective.latencyPenalty;
    }
    return totals.quality / count - totals.failures as real / count * objective.failurePenalty - latencyCost;
  }

  /** Policies that route every record alike score alike. */
  lemma {:induction false} SameRoutesSameSum(records: seq<Record>, a: Policy, b: Policy, engines: Engines)
    requires forall i: nat :: i < |records| ==> a(records[i].features) == b(records[i].features)
    ensures Sum(records, a, engines) == Sum(records, b, engines)
  {
    if records != [] {
      SameRoutesSameSum(records[..|records| - 1], a, b, engines);
    }
  }

  // ---- Stumps ----

  datatype Stump = Stump(threshold: nat, nativeIfAtLeast: bool)

  function StumpRoute(features: Features, stump: Stump): Route {
    match features.characters
    case None => Native
    case Some(characters) => if (characters >= stump.threshold) == stump.nativeIfAtLeast then Native else Ocr
  }

  /** A page without a count goes the native way, any other as its count compares with the threshold. */
  lemma RoutesIff(features: Features, stump: Stump)
    ensures StumpRoute(features, stump) == Native
       <==> || features.characters == None
            || (stump.nativeIfAtLeast && features.characters.value >= stump.threshold)
            || (!stump.nativeIfAtLeast && features.characters.value < stump.threshold)
  {
  }

  function Routes(stump: Stump): Policy {
    features => StumpRoute(features, stump)
  }

  function StumpScore(records: seq<Record>, stump: Stump, engines: Engines, objective: Objective): real
    requires records != []
  {
    Evaluate(records, Routes(stump), engines, objective)
  }

  function Observed(records: seq<Record>): seq<nat> {
    if records == [] then []
    else
      var rest := Observed(records[1..]);
      if records[0].features.characters.Some? then [records[0].features.characters.value] + rest else rest
  }

  function ThresholdKey(threshold: nat): Key {
    (threshold, 0)
  }

  /** Every observed count and zero, ascending and without repetition. */
  function Thresholds(records: seq<Record>): seq<nat> {
    Dedup(ThresholdKey, SortBy(ThresholdKey, Observed(records) + [0]))
  }

  /** Some record was observed with this count. */
  predicate HasCount(records: seq<Record>, t: nat) {
    exists i: nat :: i < |records| && records[i].features.characters == Some(t)
  }

  lemma {:induction false} ObservedExactly(records: seq<Record>)
    ensures forall t: nat :: t in Observed(records) <==> HasCount(records, t)
  {
    if records != [] {
      ObservedExactly(records[1..]);
      forall t: nat
        ensures t in Observed(records) <==> HasCount(records, t)
      {
        if HasCount(records[1..], t) {
          var i: nat :| i < |records| - 1 && records[1..][i].features.characters == Some(t);
          assert records[i + 1].features.characters == Some(t);
        }
        if HasCount(records, t) {
          var i: nat :| i < |records| && records[i].features.characters == Some(t);
          assert i > 0 ==> records[1..][i - 1].features.characters == Some(t);
        }
      }
    }
  }

  lemma ThresholdsExactly(records: seq<Record>)
    ensures forall t: nat :: t in Thresholds(records) <==> t == 0 || HasCount(records, t)
    ensures forall i: nat, j: nat :: i < j < |Thresholds(records)| ==> Thresholds(records)[i] < Thresholds(records)[j]
  {
    var all: seq<nat> := Observed(records) + [0];
    var sorted: seq<nat> := SortBy(ThresholdKey, all);
    ObservedExactly(records);
    SortByProperties(ThresholdKey, all);
    DedupDistinct(ThresholdKey, sorted);
    DedupKeeps(ThresholdKey, sorted);
    forall t: nat
      ensures t in Thresholds(records) <==> t == 0 || HasCount(records, t)
    {
      assert t in sorted <==> t in multiset(all);
      if t in sorted {
        var i: nat :| i < |sorted| && sorted[i] == t;
        var j := DedupCovers(ThresholdKey, sorted, i);
      }
    }
  }

  predicate Candidate(records: seq<Record>, stump: Stump) {
    stump.threshold in Thresholds(records)
  }

  /** The least candidate at or above a threshold, if there is one. */
  function RoundUp(thresholds: seq<nat>, t: nat, i: nat): (r: Option<nat>)
    requires i <= |thresholds|
    ensures r.Some? ==> r.value in thresholds && r.value >= t
    ensures (forall a: nat, b: nat :: a < b < |thresholds| ==> thresholds[a] < thresholds[b]) ==>
              match r
              case None => forall k: nat :: i <= k < |thresholds| ==> thresholds[k] < t
              case Some(v) => forall k: nat :: i <= k < |thresholds| && thresholds[k] >= t ==> thresholds[k] >= v
    decreases |thresholds| - i
  {
    if i == |thresholds| then None
    else if thresholds[i] >= t then Some(thresholds[i])
    else RoundUp(thresholds, t, i + 1)
  }

  /** Every stump routes the records like some candidate: rounded up to an observed count, or turned round at zero. */
  lemma StumpHasCandidate(records: seq<Record>, stump: Stump) returns (candidate: Stump)
    ensures Candidate(records, candidate)
    ensures forall i: nat :: i < |records| ==>
              StumpRoute(records[i].features, candidate) == StumpRoute(records[i].features, stump)
  {
    ThresholdsExactly(records);
    var thresholds := Thresholds(records);
    var up := RoundUp(thresholds, stump.threshold, 0);
    candidate := if up.Some? then Stump(up.value, stump.nativeIfAtLeast) else Stump(0, !stump.nativeIfAtLeast);
    assert 0 in thresholds;
    forall i: nat | i < |records|
      ensures StumpRoute(records[i].features, candidate) == StumpRoute(records[i].features, stump)
    {
      if records[i].features.characters.Some? {
        var c := records[i].features.characters.value;
        assert HasCount(records, c) && c in thresholds;
        var k: nat :| k < |thresholds| && thresholds[k] == c;
      }
    }
  }

  predicate Better(a: Stump, b: Stump) {
    a.threshold < b.threshold || (a.threshold == b.threshold && !a.nativeIfAtLeast && b.nativeIfAtLeast)
  }

  /** No candidate scores more, and those that score as much come later in the search. */
  ghost predicate BestCandidate(records: seq<Record>, stump: Stump, engines: Engines, objective: Objective)
    requires records != []
  {
    && Candidate(records, stump)
    && forall other: Stump :: Candidate(records, other) && other != stump ==>
         var mine, others := StumpScore(records, stump, engines, objective),
             StumpScore(records, other, engines, objective);
         others < mine || (others == mine && Better(stump, other))
  }

  /** The best candidate scores at least as well as every threshold in either direction. */
  lemma SearchIsOptimal(records: seq<Record>, best: Stump, engines: Engines, objective: Objective, other: Stump)
    requires records != [] && BestCandidate(records, best, engines, objective)
    ensures StumpScore(records, other, engines, objective) <= StumpScore(records, best, engines, objective)
  {
    var candidate := StumpHasCandidate(records, other);
    SameRoutesSameSum(records, Routes(candidate), Routes(other), engines);
  }

  /** Position `2 k + d` of the search is threshold `k`, direction `d`. */
  function At(thresholds: seq<nat>, p: nat): Stump
    requires p < 2 * |thresholds|
  {
    Stump(thresholds[p / 2], p % 2 == 1)
  }

  /** Stump `best` leads the first `n` positions. */
  ghost predicate Leads(
      records: seq<Record>, thresholds: seq<nat>, n: nat, best: nat, engines: Engines, objective: Objective)
    requires records != []
  {
    && best < n <= 2 * |thresholds|
    && var score := ScoreAt(records, thresholds, best, engines, objective);
    && (forall p: nat :: p < best ==> ScoreAt(records, thresholds, p, engines, objective) < score)
    && (forall p: nat :: best < p < n ==> ScoreAt(records, thresholds, p, engines, objective) <= score)
  }

  ghost function ScoreAt(
      records: seq<Record>, thresholds: seq<nat>, p: nat, engines: Engines, objective: Objective): real
    requires records != []
  {
    if p < 2 * |thresholds| then StumpScore(records, At(thresholds, p), engines, objective) else 0.0
  }

  lemma LeaderIsBest(records: seq<Record>, best: nat, engines: Engines, objective: Objective)
    requires records != []
    requires Leads(records, Thresholds(records), 2 * |Thresholds(records)|, best, engines, objective)
    ensures BestCandidate(records, At(Thresholds(records), best), engines, objective)
  {
    var thresholds := Thresholds(records);
    ThresholdsExactly(records);
    var stump := At(thresholds, best);
    forall other: Stump | Candidate(records, other) && other != stump
      ensures var mine, others := StumpScore(records, stump, engines, objective),
              StumpScore(records, other, engines, objective);
              others < mine || (others == mine && Better(stump, other))
    {
      var k: nat :| k < |thresholds| && thresholds[k] == other.threshold;
      var p := 2 * k + if other.nativeIfAtLeast then 1 else 0;
      assert At(thresholds, p) == other;
      assert ScoreAt(records, thresholds, p, engines, objective) == StumpScore(records, other, engines, objective);
    }
  }

  datatype Evaluated = Evaluated(stump: Stump, score: real)

  /** The running best after the first `n` positions: position `at` leads them. */
  ghost predicate Running(
    records: seq<Record>, thresholds: seq<nat>, n: nat, best: Option<Evaluated>, at: nat, engines: Engines,
    objective: Objective)
    requires records != []
  {
    && n <= 2 * |thresholds|
    && (best.None? <==> n == 0)
    && (best.Some? ==>
          && Leads(records, thresholds, n, at, engines, objective)
          && best.value.stump == At(thresholds, at)
          && best.value.score == ScoreAt(records, thresholds, at, engines, objective))
  }

  /** Keeping the running best unless the next position scores strictly more. */
  lemma NextPosition(
    records: seq<Record>, thresholds: seq<nat>, n: nat, best: Option<Evaluated>, at: nat, score: real, engines: Engines,
    objective: Objective)
    requires records != [] && n < 2 * |thresholds|
    requires Running(records, thresholds, n, best, at, engines, objective)
    requires score == ScoreAt(records, thresholds, n, engines, objective)
    ensures if best.None? || score > best.value.score
            then Running(records, thresholds, n + 1, Some(Evaluated(At(thresholds, n), score)), n, engines, objective)
            else Running(records, thresholds, n + 1, best, at, engines, objective)
  {
  }

  /** The search over the candidates, keeping the first of the best. */
  method Search(records: seq<Record>, engines: Engines, objective: Objective) returns (best: Evaluated)
    requires records != []
    ensures best.score == StumpScore(records, best.stump, engines, objective)
    ensures BestCandidate(records, best.stump, engines, objective)
    ensures forall other: Stump :: StumpScore(records, other, engines, objective) <= best.score
  {
    var thresholds := Thresholds(records);
    ThresholdsExactly(records);
    assert 0 in thresholds;
    var running: Option<Evaluated> := None;
    ghost var at: nat := 0;
    for i: nat := 0 to |thresholds|
      invariant Running(records, thresholds, 2 * i, running, at, engines, objective)
    {
      for d: nat := 0 to 2
        invariant Running(records, thresholds, 2 * i + d, running, at, engines, objective)
      {
        running, at := Consider(records, thresholds, i, d, running, at, engines, objective);
      }
    }
    best := running.value;
    RunningIsOptimal(records, best, at, engines, objective);
  }

  /** Scores one candidate and keeps it if it is the first or strictly the best. */
  method Consider(
    records: seq<Record>, thresholds: seq<nat>, i: nat, d: nat, running: Option<Evaluated>, ghost at: nat,
    engines: Engines,
    objective: Objective) returns (best: Option<Evaluated>, ghost leader: nat)
    requires records != [] && i < |thresholds| && d < 2
    requires Running(records, thresholds, 2 * i + d, running, at, engines, objective)
    ensures Running(records, thresholds, 2 * i + d + 1, best, leader, engines, objective)
  {
    var stump := Stump(thresholds[i], d == 1);
    var score := EvaluateRecords(records, Routes(stump), engines, objective);
    PositionOf(thresholds, i, d);
    NextPosition(records, thresholds, 2 * i + d, running, at, score, engines, objective);
    if running.None? || score > running.value.score {
      best, leader := Some(Evaluated(stump, score)), 2 * i + d;
    } else {
      best, leader := running, at;
    }
  }

  lemma PositionOf(thresholds: seq<nat>, i: nat, d: nat)
    requires i < |thresholds| && d < 2
    ensures At(thresholds, 2 * i + d) == Stump(thresholds[i], d == 1)
  {
    assert (2 * i + d) / 2 == i && (2 * i + d) % 2 == d;
  }

  lemma RunningIsOptimal(records: seq<Record>, best: Evaluated, at: nat, engines: Engines, objective: Objective)
    requires records != []
    requires Running(records, Thresholds(records), 2 * |Thresholds(records)|, Some(best), at, engines, objective)
    ensures best.score == StumpScore(records, best.stump, engines, objective)
    ensures BestCandidate(records, best.stump, engines, objective)
    ensures forall other: Stump :: StumpScore(records, other, engines, objective) <= best.score
  {
    LeaderIsBest(records, at, engines, objective);
    forall other: Stump
      ensures StumpScore(records, other, engines, objective) <= best.score
    {
      SearchIsOptimal(records, best.stump, engines, objective, other);
    }
  }

  // ---- Training and qualification ----

  datatype RouterError = Integrity

  datatype Model = Model(
    stump: Stump, engines: Engines, confidence: real, minimumConfidence: real, qualified: bool,
    trained: real, heldOut: real)

  predicate ValidObjective(objective: Objective) {
    && objective.latencyPenalty >= 0.0 && objective.failurePenalty >= 0.0 && objective.minimumImprovement >= 0.0
    && 0.0 <= objective.minimumConfidence <= 1.0
  }

  function Partition(records: seq<Record>, training: bool): seq<Record> {
    if records == [] then []
    else
      var n := |records| - 1;
      Partition(records[..n], training) + if records[n].training == training then [records[n]] else []
  }

  method SelectPartition(records: seq<Record>, training: bool) returns (selected: seq<Record>)
    ensures selected == Partition(records, training)
  {
    selected := [];
    for i := 0 to |records|
      invariant selected == Partition(records[..i], training)
    {
      assert records[..i + 1][..i] == records[..i];
      if records[i].training == training {
        selected := selected + [records[i]];
      }
    }
    assert records[..|records|] == records;
  }

  /** Some record reports this engine for this route. */
  predicate Offers(records: seq<Record>, route: Route, engine: string) {
    exists i: nat, j: nat :: i < |records| && j < |records[i].outcomes|
      && records[i].outcomes[j].route == route && records[i].outcomes[j].engine == engine
  }

  predicate CommonEngine(records: seq<Record>, route: Route, engine: string) {
    && Offers(records, route, engine)
    && forall i: nat, j: nat :: i < |records| && j < |records[i].outcomes| && records[i].outcomes[j].route == route
         ==> records[i].outcomes[j].engine == engine
  }

  /** The engines offered for a route. */
  predicate Collected(records: seq<Record>, route: Route, engines: set<string>) {
    && (forall e :: e in engines ==> Offers(records, route, e))
    && forall i: nat, j: nat :: i < |records| && j < |records[i].outcomes| && records[i].outcomes[j].route == route
         ==> records[i].outcomes[j].engine in engines
  }

  lemma CommonIsOnly(records: seq<Record>, route: Route, engines: set<string>)
    requires Collected(records, route, engines)
    ensures forall engine :: CommonEngine(records, route, engine) ==> engines == {engine}
  {
  }

  lemma OnlyMember<T>(s: set<T>, x: T)
    requires |s| == 1 && x in s
    ensures s == {x}
  {
    assert |s - {x}| == 0;
    assert s == (s - {x}) + {x};
  }

  method FindCommonEngine(records: seq<Record>, route: Route) returns (result: Result<string, RouterError>)
    ensures result.Ok? ==> CommonEngine(records, route, result.value)
    ensures result.Err? ==> forall engine :: !CommonEngine(records, route, engine)
  {
    var engines: set<string> := {};
    for i: nat := 0 to |records|
      invariant forall e :: e in engines ==> Offers(records, route, e)
      invariant forall k: nat, j: nat :: k < i && j < |records[k].outcomes| && records[k].outcomes[j].route == route
                  ==> records[k].outcomes[j].engine in engines
    {
      var outcomes := records[i].outcomes;
      for j: nat := 0 to |outcomes|
        invariant forall e :: e in engines ==> Offers(records, route, e)
        invariant forall k: nat, l: nat :: k < i && l < |records[k].outcomes| && records[k].outcomes[l].route == route
                    ==> records[k].outcomes[l].engine in engines
        invariant forall l: nat :: l < j && outcomes[l].route == route ==> outcomes[l].engine in engines
      {
        if outcomes[j].route == route {
          assert Offers(records, route, outcomes[j].engine);
          engines := engines + {outcomes[j].engine};
        }
      }
    }
    if |engines| != 1 {
      CommonIsOnly(records, route, engines);
      return Err(Integrity);
    }
    var engine :| engine in engines;
    OnlyMember(engines, engine);
    return Ok(engine);
  }

  const BASELINE_CHARACTERS: nat := 32

  function AlwaysNative(features: Features): Route {
    Native
  }

  function NativeThreshold(features: Features): Route {
    if features.characters.Some? && features.characters.value >= BASELINE_CHARACTERS then Native else Ocr
  }

  function PageTypeRules(features: Features): Route {
    var scanned := features.scanned.Some? && features.scanned.value >= 0.5;
    if !scanned && features.characters.Some? && features.characters.value >= BASELINE_CHARACTERS then Native else Ocr
  }

  /** The fixed baselines; the balanced profile's rule is the native threshold again. */
  const BASELINES: seq<Policy> := [AlwaysNative, NativeThreshold, PageTypeRules, NativeThreshold]

  /** What the baselines decide: always native, or by the count, the third sending scanned pages to recognition. */
  lemma BaselineRoutes(features: Features)
    ensures |BASELINES| == 4
    ensures BASELINES[0](features) == Native
    ensures forall i :: i in {1, 3} ==>
              (BASELINES[i](features) == Native <==> features.characters.Some? && features.characters.value >= 32)
    ensures BASELINES[2](features) == Native
       <==> && features.characters.Some? && features.characters.value >= 32
            && (features.scanned == None || features.scanned.value < 0.5)
  {
  }

  function ObservedCount(records: seq<Record>): nat {
    |Observed(records)|
  }

  method CountObserved(records: seq<Record>) returns (count: nat)
    ensures count == ObservedCount(records)
  {
    count := 0;
    for i := |records| downto 0
      invariant count == ObservedCount(records[i..])
    {
      assert records[i..][1..] == records[i + 1..];
      if records[i].features.characters.Some? {
        count := count + 1;
      }
    }
    assert records[0..] == records;
  }

  /** The model may be used: enough training coverage, and strictly ahead of every baseline on the held-out records. */
  predicate Qualifies(training: seq<Record>, heldOut: seq<Record>, stump: Stump, engines: Engines, objective: Objective)
    requires training != [] && heldOut != []
  {
    && ObservedCount(training) as real / |training| as real >= objective.minimumConfidence
    && forall i: nat :: i < |BASELINES| ==>
         StumpScore(heldOut, stump, engines, objective)
         > Evaluate(heldOut, BASELINES[i], engines, objective) + objective.minimumImprovement
  }

  /** Trains on the training records only, and qualifies on the held-out records only. */
  method Train(dataset: seq<Record>, objective: Objective) returns (result: Result<Model, RouterError>)
    ensures result.Err? <==>
            || !ValidObjective(objective) || Partition(dataset, true) == [] || Partition(dataset, false) == []
            || (forall engine :: !CommonEngine(dataset, Native, engine)) ||
                 (forall engine :: !CommonEngine(dataset, Ocr, engine))
    ensures result.Ok? ==>
              var training, heldOut, model := Partition(dataset, true), Partition(dataset, false), result.value;
              && CommonEngine(dataset, Native, model.engines.native) && CommonEngine(dataset, Ocr, model.engines.ocr)
              && BestCandidate(training, model.stump, model.engines, objective)
              && (model.qualified <==> Qualifies(training, heldOut, model.stump, model.engines, objective))
              && model.confidence == ObservedCount(training) as real / |training| as real
              && model.minimumConfidence == objective.minimumConfidence
              && model.trained == StumpScore(training, model.stump, model.engines, objective)
              && model.heldOut == StumpScore(heldOut, model.stump, model.engines, objective)
  {
    if objective.latencyPenalty < 0.0 || objective.failurePenalty < 0.0 || objective.minimumImprovement < 0.0
       || objective.minimumConfidence < 0.0 || objective.minimumConfidence > 1.0 {
      return Err(Integrity);
    }
    var training := SelectPartition(dataset, true);
    var heldOut := SelectPartition(dataset, false);
    if training == [] || heldOut == [] {
      return Err(Integrity);
    }
    var native := FindCommonEngine(dataset, Native);
    if native.Err? {
      return Err(Integrity);
    }
    var ocr := FindCommonEngine(dataset, Ocr);
    if ocr.Err? {
      return Err(Integrity);
    }
    var engines := Engines(native.value, ocr.value);
    var best := Search(training, engines, objective);
    var score := EvaluateRecords(heldOut, Routes(best.stump), engines, objective);
    var baseline := BestBaseline(heldOut, engines, objective);
    var observed := CountObserved(training);
    var confidence := observed as real / |training| as real;
    var qualified := confidence >= objective.minimumConfidence && score > baseline + objective.minimumImprovement;
    return Ok(Model(best.stump, engines, confidence, objective.minimumConfidence, qualified, best.score, score));
  }

  method BestBaseline(heldOut: seq<Record>, engines: Engines, objective: Objective) returns (best: real)
    requires heldOut != []
    ensures forall i: nat :: i < |BASELINES| ==> Evaluate(heldOut, BASELINES[i], engines, objective) <= best
    ensures exists i: nat :: i < |BASELINES| && Evaluate(heldOut, BASELINES[i], engines, objective) == best
  {
    best := EvaluateRecords(heldOut, BASELINES[0], engines, objective);
    for i: nat := 1 to |BASELINES|
      invariant forall k: nat :: k < i ==> Evaluate(heldOut, BASELINES[k], engines, objective) <= best
      invariant exists k: nat :: k < i && Evaluate(heldOut, BASELINES[k], engines, objective) == best
    {
      var score := EvaluateRecords(heldOut, BASELINES[i], engines, objective);
      if score > best {
        best := score;
      }
    }
  }

  /** The first engine of the fallback order that the planner accepted. */
  predicate FirstAccepted(accepted: set<string>, fallback: seq<string>, engine: string) {
    exists i: nat :: i < |fallback| && fallback[i] == engine && engine in accepted
      && forall j: nat :: j < i ==> fallback[j] !in accepted
  }

  predicate IsLeast(accepted: set<string>, engine: string) {
    engine in accepted && forall e :: e in accepted ==> CompareText(engine, e) != Greater
  }

  lemma {:induction false} LeastExists(accepted: set<string>)
    requires accepted != {}
    ensures exists engine :: IsLeast(accepted, engine)
  {
    var e :| e in accepted;
    TextPreorder();
    if accepted == {e} {
      TextFlips(e, e);
      assert IsLeast(accepted, e);
    } else {
      LeastExists(accepted - {e});
      var other :| IsLeast(accepted - {e}, other);
      var least := if CompareText(e, other) == Greater then other else e;
      forall x | x in accepted
        ensures CompareText(least, x) != Greater
      {
        TextFlips(e, other);
        TextFlips(x, x);
      }
      assert IsLeast(accepted, least);
    }
  }

  predicate Recommends(model: Model, features: Features, accepted: set<string>, engine: string) {
    && model.qualified && model.confidence >= model.minimumConfidence && features.characters.Some?
    && engine == (if StumpRoute(features, model.stump).Native? then model.engines.native else model.engines.ocr)
    && engine in accepted
  }

  /**
   * The model's recommendation, if the model may be used and the planner accepted it; otherwise the first accepted
   * fallback, and without one the accepted engine that is first in the alphabet.
   */
  method GuardedDecision(model: Model, features: Features, accepted: set<string>, fallback: seq<string>)
    returns (result: Result<string, RouterError>)
    ensures result.Err? <==> accepted == {}
    ensures result.Ok? ==> result.value in accepted
    ensures forall engine :: Recommends(model, features, accepted, engine) ==> result == Ok(engine)
    ensures (forall engine :: !Recommends(model, features, accepted, engine)) ==>
              forall engine :: FirstAccepted(accepted, fallback, engine) ==> result == Ok(engine)
    ensures (exists e :: e in fallback && e in accepted) && result.Ok? ==>
              Recommends(model, features, accepted, result.value) || FirstAccepted(accepted, fallback, result.value)
    ensures (forall e :: e in fallback ==> e !in accepted) && result.Ok? ==>
              Recommends(model, features, accepted, result.value) || IsLeast(accepted, result.value)
  {
    var engine := if StumpRoute(features, model.stump).Native? then model.engines.native else model.engines.ocr;
    if model.qualified && model.confidence >= model.minimumConfidence && features.characters.Some? &&
         engine in accepted {
      assert Recommends(model, features, accepted, engine);
      return Ok(engine);
    }
    for i := 0 to |fallback|
      invariant forall j: nat :: j < i ==> fallback[j] !in accepted
    {
      if fallback[i] in accepted {
        return Ok(fallback[i]);
      }
    }
    if accepted == {} {
      return Err(Integrity);
    }
    LeastExists(accepted);
    engine :| IsLeast(accepted, engine);
    return Ok(engine);
  }
}

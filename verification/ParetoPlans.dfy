/** Candidate plans, dominance, and the Pareto frontier (crates/ferrodoc-runtime/src/enrichment.rs). */
module ParetoPlans {
  import opened Collections
  import opened DocumentIr
  import opened EvidenceState
  import opened PlanEstimates

  datatype Device = Cpu | Accelerator(family: string, index: Option<nat>)

  /** Known resource values; `None` is an unknown estimate. */
  datatype Resources = Resources(
    peakRam: Option<nat>, warmRam: Option<nat>, peakVram: Option<nat>, warmVram: Option<nat>,
    latency: Option<nat>, remoteCost: Option<nat>)

  /** What identifies an invocation; estimates and correlation identities are not part of it. */
  datatype SemanticKey = SemanticKey(
    stageId: string, build: Digest, model: Option<Digest>, engineId: string, engineVersion: string,
    capability: string, scope: RefinementScope, backend: string, device: Device, parameters: string)

  datatype Invocation = Invocation(key: SemanticKey, resources: Resources)

  datatype Profile = Profile(
    gain: Estimate, success: Estimate, quality: Estimate, cpu: Estimate, gpu: Estimate,
    readBytes: Estimate, writeBytes: Estimate)

  /** The aggregated dimensions of a plan. */
  type Explanation = Profile

  datatype CandidatePlan = CandidatePlan(id: Digest, invocations: seq<Invocation>, explanation: Explanation)

  // ---- Metrics ----

  /** The maximum when every value is known and there is one. */
  function MaximumKnown(values: seq<Option<nat>>): Option<nat> {
    if values == [] then None
    else if |values| == 1 then values[0]
    else
      var rest, last := MaximumKnown(values[..|values| - 1]), values[|values| - 1];
      if rest.None? || last.None? then None
      else if rest.value <= last.value then last else rest
  }

  function KnownSum(values: seq<Option<nat>>): Result<Option<nat>, PlanError> {
    if exists v :: v in values && v.None? then Ok(None)
    else
      match CheckedSum(seq(|values|, i requires 0 <= i < |values| => assert values[i] in values; values[i].value))
      case Err(e) => Err(e)
      case Ok(total) => Ok(Some(total))
  }

  function ResourcesOf(plan: CandidatePlan): seq<Resources> {
    seq(|plan.invocations|, i requires 0 <= i < |plan.invocations| => plan.invocations[i].resources)
  }

  function Values(field: Resources -> Option<nat>, rs: seq<Resources>): seq<Option<nat>> {
    seq(|rs|, i requires 0 <= i < |rs| => field(rs[i]))
  }

  function PeakRam(r: Resources): Option<nat> { r.peakRam }
  function WarmRam(r: Resources): Option<nat> { r.warmRam }
  function PeakVram(r: Resources): Option<nat> { r.peakVram }
  function WarmVram(r: Resources): Option<nat> { r.warmVram }
  function Latency(r: Resources): Option<nat> { r.latency }
  function RemoteCost(r: Resources): Option<nat> { r.remoteCost }

  /** Six cost metrics: maxima of memory, sums of latency and remote cost. */
  function Metrics(plan: CandidatePlan): Result<seq<Option<nat>>, PlanError> {
    var rs := ResourcesOf(plan);
    match (KnownSum(Values(Latency, rs)), KnownSum(Values(RemoteCost, rs)))
    case (Err(e), _) => Err(e)
    case (_, Err(e)) => Err(e)
    case (Ok(latency), Ok(cost)) =>
      Ok([MaximumKnown(Values(PeakRam, rs)), MaximumKnown(Values(WarmRam, rs)),
          MaximumKnown(Values(PeakVram, rs)), MaximumKnown(Values(WarmVram, rs)), latency, cost])
  }

  // ---- Dominance ----

  /** Not worse, and strictly better, with certainty: what one interval guarantees over another. */
  function ConservativeHigher(a: Estimate, b: Estimate): Option<(bool, bool)> {
    if a.Known? && b.Known? then Some((a.lower >= b.upper, a.lower > b.upper)) else None
  }

  function ConservativeLower(a: Estimate, b: Estimate): Option<(bool, bool)> {
    if a.Known? && b.Known? then Some((a.upper <= b.lower, a.upper < b.lower)) else None
  }

  function Comparisons(a: Explanation, b: Explanation): seq<Option<(bool, bool)>> {
    [ConservativeHigher(a.gain, b.gain), ConservativeHigher(a.success, b.success),
     ConservativeHigher(a.quality, b.quality), ConservativeLower(a.cpu, b.cpu), ConservativeLower(a.gpu, b.gpu),
     ConservativeLower(a.readBytes, b.readBytes), ConservativeLower(a.writeBytes, b.writeBytes)]
  }

  predicate AllKnown(cs: seq<Option<(bool, bool)>>) {
    forall i :: 0 <= i < |cs| ==> cs[i].Some?
  }

  predicate NoWorse(a: Explanation, b: Explanation) {
    var cs := Comparisons(a, b);
    AllKnown(cs) && forall i :: 0 <= i < |cs| ==> cs[i].value.0
  }

  predicate StrictlyBetter(a: Explanation, b: Explanation) {
    var cs := Comparisons(a, b);
    AllKnown(cs) && exists i :: 0 <= i < |cs| && cs[i].value.1
  }

  predicate CostsNoHigher(a: seq<Option<nat>>, b: seq<Option<nat>>) {
    |a| == |b| && forall i :: 0 <= i < |a| ==> a[i].Some? && b[i].Some? && a[i].value <= b[i].value
  }

  predicate SomeCostLower(a: seq<Option<nat>>, b: seq<Option<nat>>) {
    |a| == |b| && exists i :: 0 <= i < |a| && a[i].Some? && b[i].Some? && a[i].value < b[i].value
  }

  function Dominates(a: CandidatePlan, b: CandidatePlan): Result<bool, PlanError> {
    match (Metrics(a), Metrics(b))
    case (Err(e), _) => Err(e)
    case (_, Err(e)) => Err(e)
    case (Ok(x), Ok(y)) =>
      if !CostsNoHigher(x, y) || !NoWorse(a.explanation, b.explanation) then Ok(false)
      else Ok(SomeCostLower(x, y) || StrictlyBetter(a.explanation, b.explanation))
  }

  ghost predicate Dominated(a: CandidatePlan, b: CandidatePlan) {
    Dominates(a, b) == Ok(true)
  }

  ghost predicate ExplanationWellFormed(e: Explanation) {
    WellFormed(e.gain) && WellFormed(e.success) && WellFormed(e.quality) && WellFormed(e.cpu)
    && WellFormed(e.gpu) && WellFormed(e.readBytes) && WellFormed(e.writeBytes)
  }

  lemma Irreflexive(a: CandidatePlan)
    requires ExplanationWellFormed(a.explanation)
    ensures !Dominated(a, a)
  {
  }

  lemma ExplanationTransitive(a: Explanation, b: Explanation, c: Explanation)
    requires ExplanationWellFormed(b) && NoWorse(a, b) && NoWorse(b, c)
    ensures NoWorse(a, c) && (StrictlyBetter(a, b) || StrictlyBetter(b, c) ==> StrictlyBetter(a, c))
  {
    var x, y, z := Comparisons(a, b), Comparisons(b, c), Comparisons(a, c);
    assert x[0].Some? && x[1].Some? && x[2].Some? && x[3].Some? && x[4].Some? && x[5].Some? && x[6].Some?;
    assert y[0].Some? && y[1].Some? && y[2].Some? && y[3].Some? && y[4].Some? && y[5].Some? && y[6].Some?;
    forall i | 0 <= i < 7
      ensures z[i].Some? && z[i].value.0 && (x[i].value.1 || y[i].value.1 ==> z[i].value.1)
    {
      assert x[i].value.0 && y[i].value.0;
    }
    if StrictlyBetter(a, b) {
      var i :| 0 <= i < |x| && x[i].value.1;
      assert z[i].value.1;
    }
    if StrictlyBetter(b, c) {
      var i :| 0 <= i < |y| && y[i].value.1;
      assert z[i].value.1;
    }
  }

  lemma CostsTransitive(a: seq<Option<nat>>, b: seq<Option<nat>>, c: seq<Option<nat>>)
    requires CostsNoHigher(a, b) && CostsNoHigher(b, c)
    ensures CostsNoHigher(a, c) && (SomeCostLower(a, b) || SomeCostLower(b, c) ==> SomeCostLower(a, c))
  {
    if i :| 0 <= i < |a| && a[i].Some? && b[i].Some? && a[i].value < b[i].value {
      assert b[i].value <= c[i].value;
    }
    if i :| 0 <= i < |b| && b[i].Some? && c[i].Some? && b[i].value < c[i].value {
      assert a[i].value <= b[i].value;
    }
  }

  /** Dominance between plans with proper intervals is a strict partial order. */
  lemma Transitive(a: CandidatePlan, b: CandidatePlan, c: CandidatePlan)
    requires ExplanationWellFormed(b.explanation) && Dominated(a, b) && Dominated(b, c)
    ensures Dominated(a, c)
  {
    CostsTransitive(Metrics(a).value, Metrics(b).value, Metrics(c).value);
    ExplanationTransitive(a.explanation, b.explanation, c.explanation);
  }

  // ---- The frontier ----

  /** Whether one position dominates another, or the failure met when comparing them. */
  type Verdicts = (nat, nat) -> Result<bool, PlanError>

  function VerdictsOf(plans: seq<CandidatePlan>): Verdicts {
    (k: nat, i: nat) => if k < |plans| && i < |plans| then Dominates(plans[k], plans[i]) else Ok(false)
  }

  /** Whether some position from `j` on, other than `i` itself, dominates position `i`. */
  function DominatedFrom(v: Verdicts, size: nat, i: nat, j: nat): Result<bool, PlanError>
    requires j <= size
    decreases size - j
  {
    if j == size then Ok(false)
    else if j == i then DominatedFrom(v, size, i, j + 1)
    else
      match v(j, i)
      case Err(e) => Err(e)
      case Ok(yes) => if yes then Ok(true) else DominatedFrom(v, size, i, j + 1)
  }

  /** The positions before `n` that no other position dominates, in order. */
  function FrontierUpTo(v: Verdicts, size: nat, n: nat): Result<seq<nat>, PlanError>
    requires n <= size
  {
    if n == 0 then Ok([])
    else
      match FrontierUpTo(v, size, n - 1)
      case Err(e) => Err(e)
      case Ok(rest) =>
        match DominatedFrom(v, size, n - 1, 0)
        case Err(e) => Err(e)
        case Ok(dominated) => Ok(if dominated then rest else rest + [n - 1])
  }

  function Pick(plans: seq<CandidatePlan>, positions: seq<nat>): seq<CandidatePlan>
    requires forall i :: i in positions ==> i < |plans|
  {
    seq(|positions|, k requires 0 <= k < |positions| => assert positions[k] in positions; plans[positions[k]])
  }

  function Frontier(plans: seq<CandidatePlan>): Result<seq<CandidatePlan>, PlanError> {
    match FrontierUpTo(VerdictsOf(plans), |plans|, |plans|)
    case Err(e) => Err(e)
    case Ok(positions) =>
      FrontierMembers(VerdictsOf(plans), |plans|, |plans|);
      Ok(Pick(plans, positions))
  }

  ghost predicate DominatedByOther(v: Verdicts, size: nat, i: nat, j: nat) {
    exists k: nat :: j <= k < size && k != i && v(k, i) == Ok(true)
  }

  lemma {:induction false} DominatedFromMeans(v: Verdicts, size: nat, i: nat, j: nat)
    requires j <= size && DominatedFrom(v, size, i, j).Ok?
    ensures DominatedFrom(v, size, i, j).value <==> DominatedByOther(v, size, i, j)
    decreases size - j
  {
    if j < size {
      if j == i || v(j, i) == Ok(false) {
        DominatedFromMeans(v, size, i, j + 1);
      }
    }
  }

  lemma {:induction false} FrontierMembers(v: Verdicts, size: nat, n: nat)
    requires n <= size && FrontierUpTo(v, size, n).Ok?
    ensures forall i: nat :: i in FrontierUpTo(v, size, n).value <==> i < n && !DominatedByOther(v, size, i, 0)
  {
    if n > 0 {
      FrontierMembers(v, size, n - 1);
      DominatedFromMeans(v, size, n - 1, 0);
    }
  }

  lemma {:induction false} Undominated(v: Verdicts, size: nat, i: nat, j: nat)
    requires j <= size && DominatedFrom(v, size, i, j) == Ok(false)
    ensures forall k: nat :: j <= k < size && k != i ==> v(k, i) == Ok(false)
    decreases size - j
  {
    if j < size {
      Undominated(v, size, i, j + 1);
    }
  }

  /** A position is in the frontier only when every comparison against it was made and said no. */
  lemma {:induction false} FrontierCompared(v: Verdicts, size: nat, n: nat)
    requires n <= size && FrontierUpTo(v, size, n).Ok?
    ensures forall i: nat, k: nat :: i in FrontierUpTo(v, size, n).value && k < size && k != i ==> v(k, i) == Ok(false)
  {
    if n > 0 {
      FrontierCompared(v, size, n - 1);
      if DominatedFrom(v, size, n - 1, 0) == Ok(false) {
        Undominated(v, size, n - 1, 0);
      }
    }
  }

  /** Two different plans of the frontier were compared. */
  lemma FrontierVerdict(plans: seq<CandidatePlan>, p: CandidatePlan, q: CandidatePlan)
    requires Frontier(plans).Ok? && p in Frontier(plans).value && q in Frontier(plans).value && p != q
    ensures Dominates(p, q) == Ok(false)
  {
    var v := VerdictsOf(plans);
    var positions := FrontierUpTo(v, |plans|, |plans|).value;
    FrontierCompared(v, |plans|, |plans|);
    FrontierMembers(v, |plans|, |plans|);
    PickMembers(plans, positions);
    var i: nat :| i in positions && plans[i] == p;
    var j: nat :| j in positions && plans[j] == q;
    assert v(i, j) == Dominates(p, q);
  }

  ghost predicate StrictOrder(v: Verdicts) {
    && (forall i: nat :: v(i, i) != Ok(true))
    && (forall i: nat, j: nat, k: nat :: v(i, j) == Ok(true) && v(j, k) == Ok(true) ==> v(i, k) == Ok(true))
  }

  /** Climbing dominators in a finite strict order ends at a position nothing dominates. */
  lemma {:induction false} Climb(v: Verdicts, size: nat, i: nat, above: set<nat>) returns (k: nat)
    requires i < size && StrictOrder(v)
    requires forall j: nat :: j in above <==> j < size && v(j, i) == Ok(true)
    ensures k < size && !DominatedByOther(v, size, k, 0)
    ensures k == i || v(k, i) == Ok(true)
    decreases above
  {
    if !DominatedByOther(v, size, i, 0) {
      k := i;
    } else {
      var j: nat :| j < size && j != i && v(j, i) == Ok(true);
      var higher := set h | h in above && v(h, j) == Ok(true);
      assert j in above && j !in higher;
      k := Climb(v, size, j, higher);
    }
  }

  lemma OrderOfPlans(plans: seq<CandidatePlan>)
    requires forall p :: p in plans ==> ExplanationWellFormed(p.explanation)
    ensures StrictOrder(VerdictsOf(plans))
  {
    var v := VerdictsOf(plans);
    forall i: nat
      ensures v(i, i) != Ok(true)
    {
      if i < |plans| {
        assert plans[i] in plans;
        Irreflexive(plans[i]);
      }
    }
    forall i: nat, j: nat, k: nat | v(i, j) == Ok(true) && v(j, k) == Ok(true)
      ensures v(i, k) == Ok(true)
    {
      assert plans[j] in plans;
      Transitive(plans[i], plans[j], plans[k]);
    }
  }

  lemma FrontierPositions(v: Verdicts, size: nat)
    requires FrontierUpTo(v, size, size).Ok? && StrictOrder(v)
    ensures forall i: nat, k: nat :: i in FrontierUpTo(v, size, size).value && k < size ==> v(k, i) != Ok(true)
    ensures forall i: nat :: i < size ==>
      i in FrontierUpTo(v, size, size).value
      || exists k: nat :: k in FrontierUpTo(v, size, size).value && v(k, i) == Ok(true)
  {
    var positions := FrontierUpTo(v, size, size).value;
    FrontierMembers(v, size, size);
    forall i: nat | i < size
      ensures i in positions || exists k: nat :: k in positions && v(k, i) == Ok(true)
    {
      var k := Climb(v, size, i, set j: nat | j < size && v(j, i) == Ok(true));
      assert k in positions;
    }
  }

  lemma PickMembers(plans: seq<CandidatePlan>, positions: seq<nat>)
    requires forall i :: i in positions ==> i < |plans|
    ensures forall p :: p in Pick(plans, positions) <==> exists i: nat :: i in positions && plans[i] == p
  {
    forall p
      ensures p in Pick(plans, positions) <==> exists i: nat :: i in positions && plans[i] == p
    {
      if p in Pick(plans, positions) {
        var k :| 0 <= k < |positions| && Pick(plans, positions)[k] == p;
        assert positions[k] in positions;
      }
      if i: nat :| i in positions && plans[i] == p {
        var k :| 0 <= k < |positions| && positions[k] == i;
        assert Pick(plans, positions)[k] == p;
      }
    }
  }

  lemma VerdictAt(plans: seq<CandidatePlan>, k: nat, i: nat)
    requires k < |plans| && i < |plans|
    ensures VerdictsOf(plans)(k, i) == Ok(true) <==> Dominated(plans[k], plans[i])
  {
  }

  ghost predicate DominatedByFrontier(plans: seq<CandidatePlan>, p: CandidatePlan)
    requires Frontier(plans).Ok?
  {
    exists q :: q in Frontier(plans).value && Dominated(q, p)
  }

  lemma FrontierUndominated(plans: seq<CandidatePlan>, p: CandidatePlan, q: CandidatePlan)
    requires Frontier(plans).Ok? && p in Frontier(plans).value && q in plans
    requires forall p :: p in plans ==> ExplanationWellFormed(p.explanation)
    ensures p in plans && !Dominated(q, p)
  {
    var v := VerdictsOf(plans);
    var positions := FrontierUpTo(v, |plans|, |plans|).value;
    OrderOfPlans(plans);
    FrontierPositions(v, |plans|);
    FrontierMembers(v, |plans|, |plans|);
    PickMembers(plans, positions);
    var i: nat :| i in positions && plans[i] == p;
    var j: nat :| j < |plans| && plans[j] == q;
    VerdictAt(plans, j, i);
  }

  lemma FrontierCovers(plans: seq<CandidatePlan>, p: CandidatePlan)
    requires Frontier(plans).Ok? && p in plans
    requires forall p :: p in plans ==> ExplanationWellFormed(p.explanation)
    ensures p in Frontier(plans).value || DominatedByFrontier(plans, p)
  {
    var v := VerdictsOf(plans);
    var positions := FrontierUpTo(v, |plans|, |plans|).value;
    OrderOfPlans(plans);
    FrontierPositions(v, |plans|);
    FrontierMembers(v, |plans|, |plans|);
    PickMembers(plans, positions);
    var i: nat :| i < |plans| && plans[i] == p;
    if i !in positions {
      var k: nat :| k in positions && v(k, i) == Ok(true);
      VerdictAt(plans, k, i);
      assert plans[k] in Frontier(plans).value;
    }
  }

  /**
   * The frontier of a nonempty candidate list is nonempty, drawn from the candidates, free of
   * dominated plans, and for every candidate left out it holds one that dominates it.
   */
  lemma FrontierIsPareto(plans: seq<CandidatePlan>)
    requires Frontier(plans).Ok? && plans != []
    requires forall p :: p in plans ==> ExplanationWellFormed(p.explanation)
    ensures Frontier(plans).value != []
    ensures forall p :: p in Frontier(plans).value ==> p in plans
    ensures forall p, q :: p in Frontier(plans).value && q in plans ==> !Dominated(q, p)
    ensures forall p :: p in plans && p !in Frontier(plans).value ==> DominatedByFrontier(plans, p)
  {
    assert plans[0] in plans;
    FrontierCovers(plans, plans[0]);
    forall p | p in Frontier(plans).value
      ensures p in plans
    {
      FrontierUndominated(plans, p, plans[0]);
    }
    forall p, q | p in Frontier(plans).value && q in plans
      ensures !Dominated(q, p)
    {
      FrontierUndominated(plans, p, q);
    }
    forall p | p in plans && p !in Frontier(plans).value
      ensures DominatedByFrontier(plans, p)
    {
      FrontierCovers(plans, p);
    }
  }

  /** The inner loop, which stops looking as soon as the plan is dominated. */
  method IsDominated(plans: seq<CandidatePlan>, n: nat) returns (result: Result<bool, PlanError>)
    requires n < |plans|
    ensures result == DominatedFrom(VerdictsOf(plans), |plans|, n, 0)
  {
    ghost var v := VerdictsOf(plans);
    var j := 0;
    while j < |plans|
      invariant 0 <= j <= |plans|
      invariant DominatedFrom(v, |plans|, n, 0) == DominatedFrom(v, |plans|, n, j)
    {
      if j != n {
        var verdict := Dominates(plans[j], plans[n]);
        assert v(j, n) == verdict;
        if verdict != Ok(false) {
          return verdict;
        }
      }
      j := j + 1;
    }
    return Ok(false);
  }

  /** The outer loop, keeping every plan that nothing dominates. */
  method ComputeFrontier(plans: seq<CandidatePlan>) returns (result: Result<seq<CandidatePlan>, PlanError>)
    ensures result == Frontier(plans)
  {
    var pareto, n := [], 0;
    ghost var v, positions := VerdictsOf(plans), [];
    while n < |plans|
      invariant 0 <= n <= |plans|
      invariant FrontierUpTo(v, |plans|, n) == Ok(positions)
      invariant forall i :: i in positions ==> i < |plans|
      invariant pareto == Pick(plans, positions)
    {
      var dominated := IsDominated(plans, n);
      if dominated.Err? {
        FailurePersists(v, |plans|, n + 1, |plans|, dominated.error);
        return Err(dominated.error);
      }
      if !dominated.value {
        assert Pick(plans, positions + [n]) == Pick(plans, positions) + [plans[n]];
        pareto, positions := pareto + [plans[n]], positions + [n];
      }
      n := n + 1;
    }
    return Ok(pareto);
  }

  lemma {:induction false} FailurePersists(v: Verdicts, size: nat, m: nat, n: nat, e: PlanError)
    requires m <= n <= size && FrontierUpTo(v, size, m) == Err(e)
    ensures FrontierUpTo(v, size, n) == Err(e)
  {
    if m < n {
      FailurePersists(v, size, m, n - 1, e);
    }
  }
}

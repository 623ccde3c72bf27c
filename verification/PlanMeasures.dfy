/**
 * What the numbers of a plan mean (crates/ferrodoc-runtime/src/enrichment.rs): totals, maxima and intervals said of the
 * invocations and stages themselves, and dominance said of those.
 */
module PlanMeasures {
  import opened Collections
  import opened PlanEstimates
  import opened ParetoPlans

  /** The sum of `f` over a sequence. */
  ghost function SumBy<T>(f: T -> nat, s: seq<T>): nat {
    if s == [] then 0 else SumBy(f, s[..|s| - 1]) + f(s[|s| - 1])
  }

  lemma {:induction false} TotalIsSumBy<T>(f: T -> nat, s: seq<T>, values: seq<nat>)
    requires |values| == |s| && forall k: nat :: k < |s| ==> values[k] == f(s[k])
    ensures Total(values) == SumBy(f, s)
  {
    if s != [] {
      TotalIsSumBy(f, s[..|s| - 1], values[..|s| - 1]);
    }
  }

  // ---- Aggregated estimates ----

  function LowerOf(e: Estimate): nat { if e.Known? then e.lower else 0 }
  function PointOf(e: Estimate): nat { if e.Known? then e.point else 0 }
  function UpperOf(e: Estimate): nat { if e.Known? then e.upper else 0 }

  ghost predicate SomeUnknown<T>(f: T -> Estimate, s: seq<T>) {
    exists x :: x in s && f(x).Unknown?
  }

  ghost function Capped(cap: Option<nat>, n: nat): nat {
    if cap.Some? && n > cap.value then cap.value else n
  }

  /** The estimates of a sequence added up bound by bound, each sum capped; unknown as soon as one of them is. */
  ghost predicate Summed<T(!new)>(f: T -> Estimate, s: seq<T>, cap: Option<nat>, total: Estimate) {
    if s == [] || SomeUnknown(f, s) then total == Unknown
    else total == Known(Capped(cap, SumBy((x: T) => LowerOf(f(x)), s)), Capped(cap, SumBy((x: T) => PointOf(f(x)), s)),
                        Capped(cap, SumBy((x: T) => UpperOf(f(x)), s)))
  }

  ghost predicate LeastOf<T(!new)>(f: T -> nat, s: seq<T>, least: nat) {
    (exists x :: x in s && f(x) == least) && forall x :: x in s ==> least <= f(x)
  }

  /** The least of the estimates bound by bound; unknown as soon as one of them is. */
  ghost predicate Lowest<T(!new)>(f: T -> Estimate, s: seq<T>, least: Estimate) {
    if s == [] || SomeUnknown(f, s) then least == Unknown
    else
      && least.Known? && LeastOf((x: T) => LowerOf(f(x)), s, least.lower)
      && LeastOf((x: T) => PointOf(f(x)), s, least.point) && LeastOf((x: T) => UpperOf(f(x)), s, least.upper)
  }

  function Mapped<T>(f: T -> Estimate, s: seq<T>): seq<Estimate> {
    seq(|s|, i requires 0 <= i < |s| => f(s[i]))
  }

  lemma MappedKnown<T>(f: T -> Estimate, s: seq<T>)
    ensures SomeUnknown(f, s) <==> exists e :: e in Mapped(f, s) && e.Unknown?
  {
    if e :| e in Mapped(f, s) && e.Unknown? {
      var k: nat :| k < |s| && Mapped(f, s)[k] == e;
      assert s[k] in s;
    }
    if SomeUnknown(f, s) {
      var x :| x in s && f(x).Unknown?;
      var k: nat :| k < |s| && s[k] == x;
      assert Mapped(f, s)[k].Unknown?;
    }
  }

  lemma SummedMeans<T(!new)>(f: T -> Estimate, s: seq<T>, cap: Option<nat>)
    requires var operation := if cap.Some? then SumCapped(cap.value) else Sum; Aggregate(operation, Mapped(f, s)).Ok?
    ensures var operation := if cap.Some? then SumCapped(cap.value) else Sum;
            Summed(f, s, cap, Aggregate(operation, Mapped(f, s)).value)
  {
    MappedKnown(f, s);
    if s != [] && !SomeUnknown(f, s) {
      var es := Mapped(f, s);
      assert forall k: nat :: k < |s| ==> es[k] in es;
      CombinedTotal((x: T) => LowerOf(f(x)), s, cap, Lowers(es));
      CombinedTotal((x: T) => PointOf(f(x)), s, cap, Points(es));
      CombinedTotal((x: T) => UpperOf(f(x)), s, cap, Uppers(es));
    }
  }

  lemma CombinedTotal<T>(f: T -> nat, s: seq<T>, cap: Option<nat>, values: seq<nat>)
    requires s != [] && |values| == |s| && forall k: nat :: k < |s| ==> values[k] == f(s[k])
    ensures var combined := PlanEstimates.Combine(if cap.Some? then SumCapped(cap.value) else Sum, values);
            combined.Ok? ==> combined.value == Capped(cap, SumBy(f, s))
  {
    TotalIsSumBy(f, s, values);
    SumIsTotal(values);
  }

  lemma {:induction false} MinimumIsLeast<T(!new)>(f: T -> nat, s: seq<T>, values: seq<nat>)
    requires s != [] && |values| == |s| && forall k: nat :: k < |s| ==> values[k] == f(s[k])
    ensures LeastOf(f, s, MinimumOf(values))
  {
    var n := |s| - 1;
    if n > 0 {
      MinimumIsLeast(f, s[..n], values[..n]);
      assert s == s[..n] + [s[n]];
    }
    assert s[n] in s;
  }

  lemma LowestMeans<T(!new)>(f: T -> Estimate, s: seq<T>)
    requires Aggregate(Minimum, Mapped(f, s)).Ok?
    ensures Lowest(f, s, Aggregate(Minimum, Mapped(f, s)).value)
  {
    MappedKnown(f, s);
    if s != [] && !SomeUnknown(f, s) {
      var es := Mapped(f, s);
      assert forall k: nat :: k < |s| ==> es[k] in es;
      MinimumIsLeast((x: T) => LowerOf(f(x)), s, Lowers(es));
      MinimumIsLeast((x: T) => PointOf(f(x)), s, Points(es));
      MinimumIsLeast((x: T) => UpperOf(f(x)), s, Uppers(es));
    }
  }

  /** Proper intervals are added up unless their upper bounds pass 64 bits; their least never fails. */
  lemma AggregatesOf<T(!new)>(f: T -> Estimate, s: seq<T>, operation: Operation)
    requires forall x :: x in s ==> WellFormed(f(x))
    ensures Aggregate(operation, Mapped(f, s)).Ok?
       <==> operation == Minimum || s == [] || SomeUnknown(f, s) || SumBy((x: T) => UpperOf(f(x)), s) < U64
  {
    var es := Mapped(f, s);
    MappedKnown(f, s);
    forall e | e in es
      ensures WellFormed(e)
    {
      var k: nat :| k < |s| && es[k] == e;
      assert s[k] in s;
    }
    AggregateInterval(operation, es);
    if s != [] && !SomeUnknown(f, s) {
      assert forall k: nat :: k < |s| ==> es[k] in es;
      TotalIsSumBy((x: T) => UpperOf(f(x)), s, Uppers(es));
    }
  }

  // ---- Totals and maxima of known values ----

  ghost predicate AllGiven<T(!new)>(f: T -> Option<nat>, s: seq<T>) {
    forall x :: x in s ==> f(x).Some?
  }

  function ValueOf(v: Option<nat>): nat { if v.Some? then v.value else 0 }

  ghost function TotalOf<T>(f: T -> Option<nat>, s: seq<T>): nat {
    SumBy((x: T) => ValueOf(f(x)), s)
  }

  lemma KnownSumMeans<T(!new)>(f: T -> Option<nat>, s: seq<T>, values: seq<Option<nat>>)
    requires |values| == |s| && forall k: nat :: k < |s| ==> values[k] == f(s[k])
    ensures KnownSum(values)
         == if !AllGiven(f, s) then Ok(None)
            else if TotalOf(f, s) < U64 then Ok(Some(TotalOf(f, s))) else Err(EstimateOverflow)
  {
    if x :| x in s && f(x).None? {
      var k: nat :| k < |s| && s[k] == x;
      assert values[k] in values;
    }
    if AllGiven(f, s) {
      forall v | v in values
        ensures v.Some?
      {
        var k: nat :| k < |values| && values[k] == v;
        assert s[k] in s;
      }
      var known := seq(|values|, i requires 0 <= i < |values| => assert values[i] in values; values[i].value);
      forall k: nat | k < |s|
        ensures known[k] == ValueOf(f(s[k]))
      {
      }
      TotalIsSumBy((x: T) => ValueOf(f(x)), s, known);
      SumIsTotal(known);
    }
  }

  /** The value is the greatest, every one being known. */
  ghost predicate GreatestOf<T(!new)>(f: T -> Option<nat>, s: seq<T>, greatest: nat) {
    AllGiven(f, s) && (exists x :: x in s && f(x) == Some(greatest)) && forall x :: x in s ==> f(x).value <= greatest
  }

  lemma {:induction false} MaximumMeans<T(!new)>(f: T -> Option<nat>, s: seq<T>, values: seq<Option<nat>>)
    requires |values| == |s| && forall k: nat :: k < |s| ==> values[k] == f(s[k])
    ensures MaximumKnown(values).Some? <==> s != [] && AllGiven(f, s)
    ensures MaximumKnown(values).Some? ==> GreatestOf(f, s, MaximumKnown(values).value)
  {
    if s != [] {
      var n := |s| - 1;
      assert s == s[..n] + [s[n]] && s[n] in s;
      if n > 0 {
        MaximumMeans(f, s[..n], values[..n]);
        assert AllGiven(f, s) <==> AllGiven(f, s[..n]) && f(s[n]).Some?;
      }
    }
  }

  // ---- Dominance ----

  function RamPeak(i: Invocation): Option<nat> { i.resources.peakRam }
  function RamKept(i: Invocation): Option<nat> { i.resources.warmRam }
  function VramPeak(i: Invocation): Option<nat> { i.resources.peakVram }
  function VramKept(i: Invocation): Option<nat> { i.resources.warmVram }
  function Delay(i: Invocation): Option<nat> { i.resources.latency }
  function Price(i: Invocation): Option<nat> { i.resources.remoteCost }

  /** All values known on both sides, and to each value of `a` there is one of `b` no smaller. */
  ghost predicate PeakNoHigher<T(!new)>(f: T -> Option<nat>, a: seq<T>, b: seq<T>) {
    && a != [] && b != [] && AllGiven(f, a) && AllGiven(f, b)
    && forall x :: x in a ==> exists y :: y in b && f(x).value <= f(y).value
  }

  /** Some value of `b` exceeds every value of `a`. */
  ghost predicate PeakLower<T(!new)>(f: T -> Option<nat>, a: seq<T>, b: seq<T>) {
    exists y :: y in b && f(y).Some? && forall x :: x in a ==> f(x).Some? && f(x).value < f(y).value
  }

  ghost predicate TotalNoHigher<T(!new)>(f: T -> Option<nat>, a: seq<T>, b: seq<T>) {
    AllGiven(f, a) && AllGiven(f, b) && TotalOf(f, a) <= TotalOf(f, b)
  }

  lemma PeaksCompare<T(!new)>(f: T -> Option<nat>, a: seq<T>, b: seq<T>, m: Option<nat>, n: Option<nat>)
    requires m.Some? <==> a != [] && AllGiven(f, a)
    requires n.Some? <==> b != [] && AllGiven(f, b)
    requires m.Some? ==> GreatestOf(f, a, m.value)
    requires n.Some? ==> GreatestOf(f, b, n.value)
    ensures PeakNoHigher(f, a, b) <==> m.Some? && n.Some? && m.value <= n.value
    ensures m.Some? && n.Some? ==> (PeakLower(f, a, b) <==> m.value < n.value)
  {
    if m.Some? && n.Some? {
      var x :| x in a && f(x) == m;
      var y :| y in b && f(y) == n;
      if m.value <= n.value {
        forall z | z in a
          ensures exists w :: w in b && f(z).value <= f(w).value
        {
          assert f(z).value <= f(y).value;
        }
      }
    }
  }

  /** Certainly at least as much: even the least that `a` promises is no less than the most `b` promises. */
  predicate SurelyAtLeast(a: Estimate, b: Estimate) {
    a.Known? && b.Known? && a.lower >= b.upper
  }

  predicate SurelyMore(a: Estimate, b: Estimate) {
    a.Known? && b.Known? && a.lower > b.upper
  }

  /** Every estimate known, and with certainty no dimension of `a` worse than that of `b`. */
  predicate SurelyNoWorse(a: Explanation, b: Explanation) {
    && SurelyAtLeast(a.gain, b.gain) && SurelyAtLeast(a.success, b.success) && SurelyAtLeast(a.quality, b.quality)
    && SurelyAtLeast(b.cpu, a.cpu) && SurelyAtLeast(b.gpu, a.gpu)
    && SurelyAtLeast(b.readBytes, a.readBytes) && SurelyAtLeast(b.writeBytes, a.writeBytes)
  }

  predicate SurelyBetterSomewhere(a: Explanation, b: Explanation) {
    || SurelyMore(a.gain, b.gain) || SurelyMore(a.success, b.success) || SurelyMore(a.quality, b.quality)
    || SurelyMore(b.cpu, a.cpu) || SurelyMore(b.gpu, a.gpu)
    || SurelyMore(b.readBytes, a.readBytes) || SurelyMore(b.writeBytes, a.writeBytes)
  }

  /** All six costs known, the memory peaks and the latency and cost totals no higher. */
  ghost predicate NoCostlier(a: seq<Invocation>, b: seq<Invocation>) {
    && PeakNoHigher(RamPeak, a, b)
    && PeakNoHigher(RamKept, a, b)
    && PeakNoHigher(VramPeak, a, b)
    && PeakNoHigher(VramKept, a, b)
    && TotalNoHigher(Delay, a, b)
    && TotalNoHigher(Price, a, b)
  }

  ghost predicate CheaperSomewhere(a: seq<Invocation>, b: seq<Invocation>) {
    || PeakLower(RamPeak, a, b)
    || PeakLower(RamKept, a, b)
    || PeakLower(VramPeak, a, b)
    || PeakLower(VramKept, a, b)
    || TotalOf(Delay, a) < TotalOf(Delay, b)
    || TotalOf(Price, a) < TotalOf(Price, b)
  }

  /** The totals that must be formed fit 64 bits: an unknown value leaves nothing to add. */
  ghost predicate TotalsFit(plan: seq<Invocation>) {
    && (AllGiven(Delay, plan) ==>
          TotalOf(Delay, plan) < U64)
    && (AllGiven(Price, plan) ==>
          TotalOf(Price, plan) < U64)
  }

  /** A total as it is formed: nothing when a value is unknown, an error when it passes 64 bits. */
  lemma TotalMeans(plan: CandidatePlan, f: Invocation -> Option<nat>, field: Resources -> Option<nat>)
    requires forall i: Invocation :: f(i) == field(i.resources)
    ensures KnownSum(Values(field, ResourcesOf(plan)))
         == if !AllGiven(f, plan.invocations) then Ok(None)
            else if TotalOf(f, plan.invocations) < U64 then Ok(Some(TotalOf(f, plan.invocations)))
            else Err(EstimateOverflow)
  {
    KnownSumMeans(f, plan.invocations, Values(field, ResourcesOf(plan)));
  }

  ghost function TotalGiven(f: Invocation -> Option<nat>, plan: seq<Invocation>): Option<nat> {
    if AllGiven(f, plan) then Some(TotalOf(f, plan)) else None
  }

  lemma MetricsMean(plan: CandidatePlan)
    ensures Metrics(plan).Ok? <==> TotalsFit(plan.invocations)
    ensures Metrics(plan).Ok? ==>
              Metrics(plan).value
              == [MaximumKnown(Values(PeakRam, ResourcesOf(plan))), MaximumKnown(Values(WarmRam, ResourcesOf(plan))),
                  MaximumKnown(Values(PeakVram, ResourcesOf(plan))), MaximumKnown(Values(WarmVram, ResourcesOf(plan))),
                  TotalGiven(Delay, plan.invocations), TotalGiven(Price, plan.invocations)]
  {
    TotalMeans(plan, Delay, Latency);
    TotalMeans(plan, Price, RemoteCost);
  }

  lemma PeakOf(plan: CandidatePlan, other: CandidatePlan, f: Invocation -> Option<nat>, field: Resources -> Option<nat>)
    requires forall i: Invocation :: f(i) == field(i.resources)
    ensures var m, n := MaximumKnown(Values(field, ResourcesOf(plan))), MaximumKnown(Values(field, ResourcesOf(other)));
            && (PeakNoHigher(f, plan.invocations, other.invocations) <==> AtMost(m, n))
            && (AtMost(m, n) ==> (PeakLower(f, plan.invocations, other.invocations) <==> Under(m, n)))
  {
    var m, n := MaximumKnown(Values(field, ResourcesOf(plan))), MaximumKnown(Values(field, ResourcesOf(other)));
    MaximumMeans(f, plan.invocations, Values(field, ResourcesOf(plan)));
    MaximumMeans(f, other.invocations, Values(field, ResourcesOf(other)));
    PeaksCompare(f, plan.invocations, other.invocations, m, n);
  }

  predicate AtMost(m: Option<nat>, n: Option<nat>) {
    m.Some? && n.Some? && m.value <= n.value
  }

  predicate Under(m: Option<nat>, n: Option<nat>) {
    m.Some? && n.Some? && m.value < n.value
  }

  lemma SixCosts(x: seq<Option<nat>>, y: seq<Option<nat>>)
    requires |x| == 6 && |y| == 6
    ensures CostsNoHigher(x, y)
       <==> && AtMost(x[0], y[0]) && AtMost(x[1], y[1]) && AtMost(x[2], y[2]) && AtMost(x[3], y[3])
            && AtMost(x[4], y[4]) && AtMost(x[5], y[5])
    ensures SomeCostLower(x, y)
       <==> || Under(x[0], y[0]) || Under(x[1], y[1]) || Under(x[2], y[2]) || Under(x[3], y[3]) || Under(x[4], y[4])
            || Under(x[5], y[5])
  {
  }

  lemma TotalsCompare<T(!new)>(f: T -> Option<nat>, a: seq<T>, b: seq<T>, m: Option<nat>, n: Option<nat>)
    requires m == (if AllGiven(f, a) then Some(TotalOf(f, a)) else None)
    requires n == (if AllGiven(f, b) then Some(TotalOf(f, b)) else None)
    ensures TotalNoHigher(f, a, b) <==> AtMost(m, n)
    ensures AtMost(m, n) ==> (TotalOf(f, a) < TotalOf(f, b) <==> Under(m, n))
  {
  }

  lemma CostsMean(a: CandidatePlan, b: CandidatePlan)
    requires Metrics(a).Ok? && Metrics(b).Ok?
    ensures CostsNoHigher(Metrics(a).value, Metrics(b).value) <==> NoCostlier(a.invocations, b.invocations)
    ensures NoCostlier(a.invocations, b.invocations) ==>
              (SomeCostLower(Metrics(a).value, Metrics(b).value) <==> CheaperSomewhere(a.invocations, b.invocations))
  {
    MetricsMean(a);
    MetricsMean(b);
    SixCosts(Metrics(a).value, Metrics(b).value);
    TotalsCompare(Delay, a.invocations, b.invocations, Metrics(a).value[4], Metrics(b).value[4]);
    TotalsCompare(Price, a.invocations, b.invocations, Metrics(a).value[5], Metrics(b).value[5]);
    PeakOf(a, b, RamPeak, PeakRam);
    PeakOf(a, b, RamKept, WarmRam);
    PeakOf(a, b, VramPeak, PeakVram);
    PeakOf(a, b, VramKept, WarmVram);
  }

  lemma ExplanationsMean(a: Explanation, b: Explanation)
    ensures NoWorse(a, b) <==> SurelyNoWorse(a, b)
    ensures SurelyNoWorse(a, b) ==> (StrictlyBetter(a, b) <==> SurelyBetterSomewhere(a, b))
  {
    var cs := Comparisons(a, b);
    assert |cs| == 7;
    assert NoWorse(a, b) <==> (
      && AllKnown(cs) && cs[0].value.0 && cs[1].value.0 && cs[2].value.0 && cs[3].value.0
      && cs[4].value.0 && cs[5].value.0 && cs[6].value.0);
    if AllKnown(cs) {
      assert StrictlyBetter(a, b) <==> (
        || cs[0].value.1 || cs[1].value.1 || cs[2].value.1 || cs[3].value.1
        || cs[4].value.1 || cs[5].value.1 || cs[6].value.1);
    }
  }

  /**
   * One plan dominates another exactly when all their costs and estimates are known, none of its costs is higher and
   * none of its estimates possibly worse, and something is certainly better.
   */
  lemma DominatedIff(a: CandidatePlan, b: CandidatePlan)
    ensures Dominated(a, b)
       <==> && TotalsFit(a.invocations) && TotalsFit(b.invocations)
            && NoCostlier(a.invocations, b.invocations) && SurelyNoWorse(a.explanation, b.explanation)
            && (CheaperSomewhere(a.invocations, b.invocations) || SurelyBetterSomewhere(a.explanation, b.explanation))
    ensures Dominates(a, b).Err? <==> !TotalsFit(a.invocations) || !TotalsFit(b.invocations)
  {
    MetricsMean(a);
    MetricsMean(b);
    if Metrics(a).Ok? && Metrics(b).Ok? {
      CostsMean(a, b);
      ExplanationsMean(a.explanation, b.explanation);
    }
  }
}

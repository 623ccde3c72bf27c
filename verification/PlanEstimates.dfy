/** Interval estimates of plans and their aggregation (crates/ferrodoc-runtime/src/enrichment.rs). */
module PlanEstimates {
  import opened Collections

  const U64: nat := 0x1_0000_0000_0000_0000

  /** An interval with a point, or nothing known. Unknown is never zero. */
  datatype Estimate = Known(lower: nat, point: nat, upper: nat) | Unknown

  datatype PlanError =
    | InvalidInterval | EstimateOverflow | InvalidRequest | EngineFailure | FrontierBoundExceeded
    | PlanNotOffered | ResponseInvalid | MaterializationFailed

  datatype Operation = Sum | SumCapped(cap: nat) | Minimum

  ghost predicate WellFormed(e: Estimate) {
    e.Known? ==> e.lower <= e.point <= e.upper
  }

  function CheckedKnown(lower: nat, point: nat, upper: nat): Result<Estimate, PlanError> {
    if lower > point || point > upper then Err(InvalidInterval) else Ok(Known(lower, point, upper))
  }

  function CheckedSum(values: seq<nat>): Result<nat, PlanError> {
    if values == [] then Ok(0)
    else
      match CheckedSum(values[..|values| - 1])
      case Err(e) => Err(e)
      case Ok(total) =>
        if total + values[|values| - 1] < U64 then Ok(total + values[|values| - 1]) else Err(EstimateOverflow)
  }

  function MinimumOf(values: seq<nat>): nat
    requires values != []
  {
    if |values| == 1 then values[0]
    else
      var rest := MinimumOf(values[..|values| - 1]);
      if values[|values| - 1] < rest then values[|values| - 1] else rest
  }

  function Combine(operation: Operation, values: seq<nat>): Result<nat, PlanError>
    requires values != []
  {
    match operation
    case Minimum => Ok(MinimumOf(values))
    case Sum => CheckedSum(values)
    case SumCapped(cap) =>
      match CheckedSum(values)
      case Err(e) => Err(e)
      case Ok(total) => Ok(if total < cap then total else cap)
  }

  function Lowers(es: seq<Estimate>): seq<nat>
    requires forall e :: e in es ==> e.Known?
  {
    seq<nat>(|es|, i requires 0 <= i < |es| => es[i].lower)
  }

  function Points(es: seq<Estimate>): seq<nat>
    requires forall e :: e in es ==> e.Known?
  {
    seq<nat>(|es|, i requires 0 <= i < |es| => es[i].point)
  }

  function Uppers(es: seq<Estimate>): seq<nat>
    requires forall e :: e in es ==> e.Known?
  {
    seq<nat>(|es|, i requires 0 <= i < |es| => es[i].upper)
  }

  /** Combines lower bounds, points and upper bounds separately; one unknown makes the whole unknown. */
  function Aggregate(operation: Operation, es: seq<Estimate>): Result<Estimate, PlanError> {
    if es == [] || exists e :: e in es && e.Unknown? then Ok(Unknown)
    else
      match (Combine(operation, Lowers(es)), Combine(operation, Points(es)), Combine(operation, Uppers(es)))
      case (Err(e), _, _) => Err(e)
      case (_, Err(e), _) => Err(e)
      case (_, _, Err(e)) => Err(e)
      case (Ok(lower), Ok(point), Ok(upper)) => CheckedKnown(lower, point, upper)
  }

  ghost predicate Below(a: seq<nat>, b: seq<nat>) {
    |a| == |b| && forall i :: 0 <= i < |a| ==> a[i] <= b[i]
  }

  ghost function Total(values: seq<nat>): nat {
    if values == [] then 0 else Total(values[..|values| - 1]) + values[|values| - 1]
  }

  lemma {:induction false} SumIsTotal(values: seq<nat>)
    ensures CheckedSum(values).Ok? <==> Total(values) < U64
    ensures CheckedSum(values).Ok? ==> CheckedSum(values).value == Total(values)
    ensures CheckedSum(values).Err? ==> CheckedSum(values).error == EstimateOverflow
  {
    if values != [] {
      SumIsTotal(values[..|values| - 1]);
    }
  }

  lemma {:induction false} TotalMonotone(a: seq<nat>, b: seq<nat>)
    requires Below(a, b)
    ensures Total(a) <= Total(b)
  {
    if a != [] {
      TotalMonotone(a[..|a| - 1], b[..|b| - 1]);
    }
  }

  lemma {:induction false} MinimumMonotone(a: seq<nat>, b: seq<nat>)
    requires Below(a, b) && a != []
    ensures MinimumOf(a) <= MinimumOf(b)
  {
    if |a| > 1 {
      MinimumMonotone(a[..|a| - 1], b[..|b| - 1]);
    }
  }

  lemma CombineMonotone(operation: Operation, a: seq<nat>, b: seq<nat>)
    requires Below(a, b) && a != []
    ensures Combine(operation, b).Ok? ==>
            Combine(operation, a).Ok? && Combine(operation, a).value <= Combine(operation, b).value
  {
    SumIsTotal(a);
    SumIsTotal(b);
    TotalMonotone(a, b);
    MinimumMonotone(a, b);
  }

  /**
   * Aggregating proper intervals gives a proper interval; it fails only by overflow, and
   * exactly when the operation adds and the upper bounds add up to 2^64 or more.
   */
  lemma AggregateInterval(operation: Operation, es: seq<Estimate>)
    requires forall e :: e in es ==> WellFormed(e)
    ensures Aggregate(operation, es).Ok? ==> WellFormed(Aggregate(operation, es).value)
    ensures Aggregate(operation, es).Err? <==>
      && es != [] && (forall e :: e in es ==> e.Known?) && operation != Minimum
      && Total(Uppers(es)) >= U64
    ensures Aggregate(operation, es).Err? ==> Aggregate(operation, es).error == EstimateOverflow
  {
    if es != [] && forall e :: e in es ==> e.Known? {
      assert forall i :: 0 <= i < |es| ==> es[i] in es;
      CombineMonotone(operation, Lowers(es), Points(es));
      CombineMonotone(operation, Points(es), Uppers(es));
      SumIsTotal(Lowers(es));
      SumIsTotal(Points(es));
      SumIsTotal(Uppers(es));
    }
  }

  /** Whatever the inputs, an aggregate that is returned is a proper interval. */
  lemma AggregateWellFormed(operation: Operation, es: seq<Estimate>)
    requires Aggregate(operation, es).Ok?
    ensures WellFormed(Aggregate(operation, es).value)
  {
  }
}

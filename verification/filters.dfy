/** Attribute filters over close approaches, the factory that builds them
    from user criteria, and the limiter that truncates a result stream. */
module Filters {
  import opened Outcomes
  import opened Models

  /** The comparators `operator.le`, `operator.eq` and `operator.ge`. */
  datatype Op = Le | Eq | Ge

  /** `op(lhs, rhs)`: the attribute is the left operand and the filter's
      reference value the right one. */
  predicate Holds(op: Op, lhs: real, rhs: real) {
    match op
    case Le => lhs <= rhs
    case Eq => lhs == rhs
    case Ge => lhs >= rhs
  }

  /** The closed family of attribute filters, each with its comparator and
      reference value. */
  datatype Filter =
    | DateFilter(op: Op, date: int)
    | DistanceFilter(op: Op, distance: real)
    | VelocityFilter(op: Op, velocity: real)
    | DiameterFilter(op: Op, diameter: real)
    | HazardousFilter(op: Op, hazardous: bool)
  {
    /** The kinds whose attribute is read through `approach.neo`. */
    predicate NeedsNeo() {
      DiameterFilter? || HazardousFilter?
    }
  }

  /** An attribute as Python sees it: a number (dates by day number, booleans
      as 0 and 1) or the float NaN, which every comparison rejects. */
  datatype Value = Number(x: real) | NotANumber

  function BoolNumber(b: bool): real {
    if b then 1.0 else 0.0
  }

  /** The `get` override of each filter kind. */
  function Get(f: Filter, a: Approach, neos: seq<Neo>): Result<Value, Fault>
    requires a.neo.Some? ==> a.neo.value < |neos|
  {
    match f
    case DateFilter(_, _) => Success(Number(a.time.date as real))
    case DistanceFilter(_, _) => Success(Number(a.distance))
    case VelocityFilter(_, _) => Success(Number(a.velocity))
    case DiameterFilter(_, _) =>
      if a.neo.None? then Failure(NeoIsNone)
      else (
        match neos[a.neo.value].diameter
        case Some(d) => Success(Number(d))
        case None => Success(NotANumber))
    case HazardousFilter(_, _) =>
      if a.neo.None? then Failure(NeoIsNone)
      else Success(Number(BoolNumber(neos[a.neo.value].hazardous)))
  }

  /** The reference value the filter was constructed with. */
  function Reference(f: Filter): real {
    match f
    case DateFilter(_, d) => d as real
    case DistanceFilter(_, x) => x
    case VelocityFilter(_, x) => x
    case DiameterFilter(_, x) => x
    case HazardousFilter(_, h) => BoolNumber(h)
  }

  predicate Compare(op: Op, lhs: Value, rhs: real) {
    match lhs
    case Number(x) => Holds(op, x, rhs)
    case NotANumber => false
  }

  /** Calling a filter on an approach: `op(get(approach), value)`. It raises
      exactly when the filter reads the linked NEO and there is none. */
  function Eval(f: Filter, a: Approach, neos: seq<Neo>): (r: Result<bool, Fault>)
    requires a.neo.Some? ==> a.neo.value < |neos|
    ensures r.Failure? <==> f.NeedsNeo() && a.neo.None?
    ensures r.Failure? ==> r.error == NeoIsNone
  {
    match Get(f, a, neos)
    case Failure(e) => Failure(e)
    case Success(v) => Success(Compare(f.op, v, Reference(f)))
  }

  /** What each filter kind computes: the attribute it reads is the left
      operand of its comparator and the reference value the right one; an
      unknown diameter satisfies no comparison. */
  lemma EvalSemantics(f: Filter, a: Approach, neos: seq<Neo>)
    requires a.neo.Some? ==> a.neo.value < |neos|
    ensures f.DateFilter? ==> Eval(f, a, neos) == Success(Holds(f.op, a.time.date as real, f.date as real))
    ensures f.DistanceFilter? ==> Eval(f, a, neos) == Success(Holds(f.op, a.distance, f.distance))
    ensures f.VelocityFilter? ==> Eval(f, a, neos) == Success(Holds(f.op, a.velocity, f.velocity))
    ensures f.DiameterFilter? && a.neo.Some? ==>
      Eval(f, a, neos) == Success(neos[a.neo.value].diameter.Some? && Holds(f.op, neos[a.neo.value].diameter.value, f.diameter))
    ensures f.HazardousFilter? && a.neo.Some? ==>
      Eval(f, a, neos) == Success(Holds(f.op, BoolNumber(neos[a.neo.value].hazardous), BoolNumber(f.hazardous)))
  {
  }

  /** Each filter kind reads exactly one attribute: two approaches that agree
      on it are judged alike, whatever else differs. */
  lemma EvalReadsOneAttribute(f: Filter, a: Approach, b: Approach, neos: seq<Neo>)
    requires a.neo.Some? ==> a.neo.value < |neos|
    requires b.neo.Some? ==> b.neo.value < |neos|
    requires f.DateFilter? ==> a.time.date == b.time.date
    requires f.DistanceFilter? ==> a.distance == b.distance
    requires f.VelocityFilter? ==> a.velocity == b.velocity
    requires f.DiameterFilter? ==>
      a.neo.None? == b.neo.None? && (a.neo.Some? ==> neos[a.neo.value].diameter == neos[b.neo.value].diameter)
    requires f.HazardousFilter? ==>
      a.neo.None? == b.neo.None? && (a.neo.Some? ==> neos[a.neo.value].hazardous == neos[b.neo.value].hazardous)
    ensures Eval(f, a, neos) == Eval(f, b, neos)
  {
  }

  /** `all(filter(approach) for filter in filters)`: the filters are called in
      order and the first one that is false or raises ends the evaluation. */
  function AllHold(fs: seq<Filter>, a: Approach, neos: seq<Neo>): (r: Result<bool, Fault>)
    requires a.neo.Some? ==> a.neo.value < |neos|
    ensures r == Success(true) <==> forall i :: 0 <= i < |fs| ==> Eval(fs[i], a, neos) == Success(true)
    ensures (forall i :: 0 <= i < |fs| ==> Eval(fs[i], a, neos).Success?) ==> r.Success?
  {
    if |fs| == 0 then Success(true)
    else
      match Eval(fs[0], a, neos)
      case Failure(e) => Failure(e)
      case Success(b) =>
        if !b then Success(false)
        else
          var rest := AllHold(fs[1..], a, neos);
          assert forall i :: 1 <= i < |fs| ==> fs[i] == fs[1..][i - 1];
          rest
  }

  /** The evaluation ends at the first filter that does not return true: its
      outcome, false or the exception it raises, is the outcome of the whole. */
  lemma {:induction false} AllHoldShortCircuits(fs: seq<Filter>, a: Approach, neos: seq<Neo>, j: nat)
    requires a.neo.Some? ==> a.neo.value < |neos|
    requires j < |fs| && Eval(fs[j], a, neos) != Success(true)
    requires forall i :: 0 <= i < j ==> Eval(fs[i], a, neos) == Success(true)
    ensures AllHold(fs, a, neos) == Eval(fs[j], a, neos)
  {
    if j > 0 {
      assert forall i :: 0 <= i < j - 1 ==> fs[1..][i] == fs[i + 1];
      AllHoldShortCircuits(fs[1..], a, neos, j - 1);
    }
  }

  /** The ten optional criteria of `create_filters`; `None` is an option the
      user did not give. */
  datatype Criteria = Criteria(
    date: Option<int>,
    startDate: Option<int>,
    endDate: Option<int>,
    distanceMin: Option<real>,
    distanceMax: Option<real>,
    velocityMin: Option<real>,
    velocityMax: Option<real>,
    diameterMin: Option<real>,
    diameterMax: Option<real>,
    hazardous: Option<bool>)

  /** Python truthiness of a numeric option: `None` and zero are false.
      (A date option needs no such test: a `date` object is always true.) */
  predicate Truthy(x: Option<real>) {
    x.Some? && x.value != 0.0
  }

  function CountIf(b: bool): nat {
    if b then 1 else 0
  }

  /** How many filters the criteria call for. */
  function ActiveCount(c: Criteria): nat {
    CountIf(c.date.Some?) + CountIf(c.startDate.Some?) + CountIf(c.endDate.Some?)
    + CountIf(Truthy(c.distanceMin)) + CountIf(Truthy(c.distanceMax))
    + CountIf(Truthy(c.velocityMin)) + CountIf(Truthy(c.velocityMax))
    + CountIf(Truthy(c.diameterMin)) + CountIf(Truthy(c.diameterMax))
    + CountIf(c.hazardous.Some?)
  }

  /** The place of a filter in the factory's fixed order; 10 for a filter the
      factory never makes. */
  function Rank(f: Filter): nat {
    match f
    case DateFilter(Eq, _) => 0
    case DateFilter(Ge, _) => 1
    case DateFilter(Le, _) => 2
    case DistanceFilter(Ge, _) => 3
    case DistanceFilter(Le, _) => 4
    case VelocityFilter(Ge, _) => 5
    case VelocityFilter(Le, _) => 6
    case DiameterFilter(Ge, _) => 7
    case DiameterFilter(Le, _) => 8
    case HazardousFilter(Eq, _) => 9
    case _ => 10
  }

  /** `f` is the filter that some truthy criterion of `c` asks for. */
  predicate Requested(c: Criteria, f: Filter) {
    match f
    case DateFilter(op, d) =>
      (op == Eq && c.date == Some(d)) || (op == Ge && c.startDate == Some(d)) || (op == Le && c.endDate == Some(d))
    case DistanceFilter(op, x) =>
      x != 0.0 && ((op == Ge && c.distanceMin == Some(x)) || (op == Le && c.distanceMax == Some(x)))
    case VelocityFilter(op, x) =>
      x != 0.0 && ((op == Ge && c.velocityMin == Some(x)) || (op == Le && c.velocityMax == Some(x)))
    case DiameterFilter(op, x) =>
      x != 0.0 && ((op == Ge && c.diameterMin == Some(x)) || (op == Le && c.diameterMax == Some(x)))
    case HazardousFilter(op, h) =>
      op == Eq && c.hazardous == Some(h)
  }

  /** `s` holds only requested filters, ranked below `bound`, in strictly
      increasing rank. */
  predicate Ordered(c: Criteria, s: seq<Filter>, bound: nat) {
    && (forall i :: 0 <= i < |s| ==> Requested(c, s[i]) && Rank(s[i]) < bound)
    && (forall i, j :: 0 <= i < j < |s| ==> Rank(s[i]) < Rank(s[j]))
  }

  /** The test of step `k` of the factory: dates are tested for presence,
      numbers for truthiness, and `hazardous` with `is not None`. */
  predicate Given(c: Criteria, k: nat) {
    match k
    case 0 => c.date.Some?
    case 1 => c.startDate.Some?
    case 2 => c.endDate.Some?
    case 3 => Truthy(c.distanceMin)
    case 4 => Truthy(c.distanceMax)
    case 5 => Truthy(c.velocityMin)
    case 6 => Truthy(c.velocityMax)
    case 7 => Truthy(c.diameterMin)
    case 8 => Truthy(c.diameterMax)
    case 9 => c.hazardous.Some?
    case _ => false
  }

  /** The filter step `k` of the factory appends when its test passes. */
  function Slot(c: Criteria, k: nat): Filter
    requires k < 10
  {
    match k
    case 0 => DateFilter(Eq, c.date.GetOr(0))
    case 1 => DateFilter(Ge, c.startDate.GetOr(0))
    case 2 => DateFilter(Le, c.endDate.GetOr(0))
    case 3 => DistanceFilter(Ge, c.distanceMin.GetOr(0.0))
    case 4 => DistanceFilter(Le, c.distanceMax.GetOr(0.0))
    case 5 => VelocityFilter(Ge, c.velocityMin.GetOr(0.0))
    case 6 => VelocityFilter(Le, c.velocityMax.GetOr(0.0))
    case 7 => DiameterFilter(Ge, c.diameterMin.GetOr(0.0))
    case 8 => DiameterFilter(Le, c.diameterMax.GetOr(0.0))
    case _ => HazardousFilter(Eq, c.hazardous.GetOr(false))
  }

  /** Step `k` makes the filter of rank `k`, and its test passes exactly when
      that filter is requested. */
  lemma SlotRequested(c: Criteria, k: nat)
    requires k < 10
    ensures Rank(Slot(c, k)) == k
    ensures Given(c, k) <==> Requested(c, Slot(c, k))
  {
  }

  /** A requested filter is the one its rank's step makes. */
  lemma RequestedIsSlot(c: Criteria, f: Filter)
    requires Requested(c, f)
    ensures Rank(f) < 10 && f == Slot(c, Rank(f))
  {
  }

  /** The filters made by the first `k` steps of the factory. */
  function Steps(c: Criteria, k: nat): (r: seq<Filter>)
    requires k <= 10
    ensures Ordered(c, r, k)
    ensures forall j :: 0 <= j < k ==> (Slot(c, j) in r <==> Given(c, j))
    ensures |r| == GivenCount(c, k)
  {
    if k == 0 then []
    else
      var s := Steps(c, k - 1);
      SlotRequested(c, k - 1);
      if Given(c, k - 1) then s + [Slot(c, k - 1)] else s
  }

  /** How many of the first `k` tests pass. */
  function GivenCount(c: Criteria, k: nat): nat {
    if k == 0 then 0 else GivenCount(c, k - 1) + CountIf(Given(c, k - 1))
  }

  /** All ten tests together pass as often as the criteria are active. */
  lemma CountAllSteps(c: Criteria)
    ensures GivenCount(c, 10) == ActiveCount(c)
  {
    assert GivenCount(c, 1) == CountIf(c.date.Some?);
    assert GivenCount(c, 2) == GivenCount(c, 1) + CountIf(c.startDate.Some?);
    assert GivenCount(c, 3) == GivenCount(c, 2) + CountIf(c.endDate.Some?);
    assert GivenCount(c, 4) == GivenCount(c, 3) + CountIf(Truthy(c.distanceMin));
    assert GivenCount(c, 5) == GivenCount(c, 4) + CountIf(Truthy(c.distanceMax));
    assert GivenCount(c, 6) == GivenCount(c, 5) + CountIf(Truthy(c.velocityMin));
    assert GivenCount(c, 7) == GivenCount(c, 6) + CountIf(Truthy(c.velocityMax));
    assert GivenCount(c, 8) == GivenCount(c, 7) + CountIf(Truthy(c.diameterMin));
    assert GivenCount(c, 9) == GivenCount(c, 8) + CountIf(Truthy(c.diameterMax));
  }

  /** `create_filters`: exactly the filters the truthy criteria ask for, one
      each, in the factory's fixed order (date, start date, end date, distance
      bounds, velocity bounds, diameter bounds, hazardous). */
  function CreateFilters(c: Criteria): (r: seq<Filter>)
    ensures Ordered(c, r, 10)
    ensures forall f :: f in r <==> Requested(c, f)
    ensures |r| == ActiveCount(c)
  {
    var r := Steps(c, 10);
    CountAllSteps(c);
    assert forall f :: Requested(c, f) ==> f in r by {
      forall f | Requested(c, f) ensures f in r {
        RequestedIsSlot(c, f);
        SlotRequested(c, Rank(f));
      }
    }
    r
  }

  /** `n` selects no limit: `not n or n <= 0`. */
  predicate Unlimited(n: Option<int>) {
    n.None? || n.value <= 0
  }

  function Min(a: int, b: int): int {
    if a <= b then a else b
  }

  /** `limit` on a lazy stream that may raise: `islice` stops pulling once it
      has produced `n` items, so an exception further along never surfaces. */
  function LimitRun<T, E>(s: Run<T, E>, n: Option<int>): (r: Run<T, E>)
    ensures Unlimited(n) ==> r == s
    ensures !Unlimited(n) ==> |r.items| == Min(n.value, |s.items|)
    ensures forall i :: 0 <= i < |r.items| ==> r.items[i] == s.items[i]
    ensures r.raised.Some? <==> s.raised.Some? && (Unlimited(n) || |s.items| < n.value)
    ensures r.raised.Some? ==> r.raised == s.raised
  {
    if Unlimited(n) then s
    else if |s.items| < n.value then s
    else Run(s.items[..n.value], None)
  }
}

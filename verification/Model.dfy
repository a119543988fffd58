// Tuning values, capabilities and the grid normalisation of requests
// (internal/tuning/model.go). Floating point numbers are modelled as exact reals.
module Wrappers {
  datatype Option<+T> = None | Some(value: T)

  datatype Result<+T, +E> = Success(value: T) | Failure(error: E)
}

module Model {
  import opened Wrappers

  type ControlId = string

  const PL1: ControlId := "intel.package.pl1"
  const PL2: ControlId := "intel.package.pl2"
  const RATIO_P_CORE: ControlId := "intel.ratio.pcore"
  const RATIO_E_CORE: ControlId := "intel.ratio.ecore"
  const VOLTAGE_CORE: ControlId := "intel.voltage.core"
  const VOLTAGE_CACHE: ControlId := "intel.voltage.cache"

  // Differences up to this size are not differences to the validator.
  const TOLERANCE: real := 0.000000001

  datatype State =
    | Supported | ReadOnly | FirmwareLocked | KernelBlocked | RequiresProbe | Unavailable | UnknownModel

  datatype Unit = Watt | Second | Celsius | Ratio | MilliVolt | ChoiceUnit

  datatype Value = NoValue | Numeric(number: real) | Choice(choice: string) | Vector(vector: seq<real>)

  datatype Range = Range(minimum: real, maximum: real, step: real)

  datatype Error =
    | StaleCapabilities | DuplicateControl | UnknownControl | NotSupported | WrongKind | UnsupportedChoice
    | PositiveVoltage | InvalidRange | NoSchema | BadRatio | CrossField

  datatype Normalized = Normalized(value: Value, adjusted: bool)

  predicate IsVoltage(id: ControlId) { id == VOLTAGE_CORE || id == VOLTAGE_CACHE }

  predicate IsRatio(id: ControlId) { id == RATIO_P_CORE || id == RATIO_E_CORE }

  function Max(a: real, b: real): real { if a < b then b else a }

  function Min(a: real, b: real): real { if b < a then b else a }

  function Abs(a: real): real { if a < 0.0 then -a else a }

  // Rounds half away from zero, as Go's math.Round does.
  function Round(x: real): int {
    if x >= 0.0 then (x + 0.5).Floor else -(0.5 - x).Floor
  }

  function Clamp(r: Range, x: real): real { Max(r.minimum, Min(r.maximum, x)) }

  function Grid(r: Range, x: real): real
    requires r.step > 0.0
  {
    Point(r.minimum, r.step, Round((x - r.minimum) / r.step))
  }

  function Point(origin: real, step: real, k: int): real { origin + k as real * step }

  function OnGrid(r: Range, x: real): real
    requires r.step > 0.0
  {
    Clamp(r, Grid(r, Clamp(r, x)))
  }

  function Snap(x: real): real { if Abs(x) < TOLERANCE then 0.0 else x }

  // The number the validator puts in place of a requested one.
  function Settle(r: Range, x: real): real
    requires r.step > 0.0
  {
    Snap(OnGrid(r, x))
  }

  predicate ValidRange(r: Range) { r.minimum <= r.maximum && r.step > 0.0 }

  datatype Capability = Capability(
    id: ControlId,
    revision: string,
    unit: Unit,
    state: State,
    current: Value,
    range: Option<Range>,
    choices: seq<string>,
    driver: string)
  {
    function Normalize(requested: Value): Result<Normalized, Error> {
      if state != Supported then Failure(NotSupported)
      else if range.Some? then NormalizeNumeric(range.value, requested)
      else if |choices| > 0 || unit == ChoiceUnit then
        if !requested.Choice? then Failure(WrongKind)
        else if requested.choice !in choices then Failure(UnsupportedChoice)
        else Success(Normalized(requested, false))
      else if unit == Ratio then
        if !requested.Vector? || |requested.vector| == 0 then Failure(WrongKind)
        else Success(Normalized(requested, false))
      else Failure(NoSchema)
    }

    function NormalizeNumeric(r: Range, requested: Value): Result<Normalized, Error> {
      if !requested.Numeric? then Failure(WrongKind)
      else if IsVoltage(id) && requested.number > 0.0 then Failure(PositiveVoltage)
      else if !ValidRange(r) then Failure(InvalidRange)
      else
        var settled := Settle(r, requested.number);
        Success(Normalized(Numeric(settled), Abs(settled - requested.number) > TOLERANCE))
    }

    // What a numeric range must satisfy for its own output to be a fixed point.
    predicate Settles() {
      state == Supported && range.Some? && ValidRange(range.value) ==>
        if IsVoltage(id) then Settle(range.value, 0.0) <= 0.0
        else Settle(range.value, range.value.maximum) == 0.0 ==> Settle(range.value, 0.0) == 0.0
    }
  }

  lemma RoundIsNearest(x: real)
    ensures -0.5 <= Round(x) as real - x <= 0.5
  {
  }

  lemma RoundIsMonotone(x: real, y: real)
    requires x <= y
    ensures Round(x) <= Round(y)
  {
  }

  lemma RoundOfInteger(x: real, k: int)
    requires x == k as real
    ensures Round(x) == k
  {
  }

  lemma Product(a: real, b: real, step: real)
    requires step > 0.0 && a <= b
    ensures a * step <= b * step
  {
  }

  lemma Quotient(a: real, b: real, step: real)
    requires step > 0.0 && a <= b
    ensures a / step <= b / step
  {
  }

  lemma PointIsNear(origin: real, step: real, x: real, q: real, k: int)
    requires step > 0.0 && q == (x - origin) / step && -0.5 <= k as real - q <= 0.5
    ensures -(step / 2.0) <= Point(origin, step, k) - x <= step / 2.0
  {
    var d := k as real - q;
    assert Point(origin, step, k) - x == d * step by {
      assert q * step == x - origin;
    }
    Product(-0.5, d, step);
    Product(d, 0.5, step);
  }

  lemma GridIsNear(r: Range, x: real)
    requires r.step > 0.0
    ensures -(r.step / 2.0) <= Grid(r, x) - x <= r.step / 2.0
  {
    var q := (x - r.minimum) / r.step;
    RoundIsNearest(q);
    PointIsNear(r.minimum, r.step, x, q, Round(q));
  }

  lemma GridIsMonotone(r: Range, x: real, y: real)
    requires r.step > 0.0 && x <= y
    ensures Grid(r, x) <= Grid(r, y)
  {
    var p, q := (x - r.minimum) / r.step, (y - r.minimum) / r.step;
    Quotient(x - r.minimum, y - r.minimum, r.step);
    RoundIsMonotone(p, q);
    PointIsMonotone(r.minimum, r.step, Round(p), Round(q));
  }

  lemma PointIsMonotone(origin: real, step: real, j: int, k: int)
    requires step > 0.0 && j <= k
    ensures Point(origin, step, j) <= Point(origin, step, k)
  {
    Product(j as real, k as real, step);
  }

  lemma GridIsFixed(r: Range, x: real)
    requires r.step > 0.0
    ensures Grid(r, Grid(r, x)) == Grid(r, x)
  {
    PointIsOnGrid(r, Round((x - r.minimum) / r.step));
  }

  lemma PointIsOnGrid(r: Range, k: int)
    requires r.step > 0.0
    ensures Grid(r, Point(r.minimum, r.step, k)) == Point(r.minimum, r.step, k)
  {
    assert k as real * r.step / r.step == k as real;
    RoundOfInteger((Point(r.minimum, r.step, k) - r.minimum) / r.step, k);
  }

  lemma OnGridIsMonotone(r: Range, x: real, y: real)
    requires ValidRange(r) && x <= y
    ensures OnGrid(r, x) <= OnGrid(r, y)
  {
    GridIsMonotone(r, Clamp(r, x), Clamp(r, y));
  }

  // A grid point above an off-grid maximum is cut down to the maximum, and the maximum stays there.
  lemma OnGridIsFixed(r: Range, x: real)
    requires ValidRange(r)
    ensures OnGrid(r, OnGrid(r, x)) == OnGrid(r, x)
    ensures r.minimum <= OnGrid(r, x) <= r.maximum
    ensures OnGrid(r, x) == Grid(r, Clamp(r, x)) || OnGrid(r, x) == r.maximum
  {
    var c := Clamp(r, x);
    var g := Grid(r, c);
    GridIsFixed(r, c);
    GridIsMonotone(r, c, r.maximum);
    GridIsMonotone(r, r.minimum, c);
    RoundOfInteger((r.minimum - r.minimum) / r.step, 0);
    assert Grid(r, r.minimum) == r.minimum;
  }

  lemma NextPointIsApart(origin: real, j: int, k: int, step: real)
    requires step > 0.0 && j < k
    ensures Point(origin, step, j) + step <= Point(origin, step, k)
  {
    assert Point(origin, step, j + 1) == Point(origin, step, j) + step;
    PointIsMonotone(origin, step, j + 1, k);
  }

  lemma PointsAreApart(origin: real, j: int, k: int, step: real)
    requires step > 0.0
    ensures Point(origin, step, j) == Point(origin, step, k)
         || Abs(Point(origin, step, j) - Point(origin, step, k)) >= step
  {
    if j < k {
      NextPointIsApart(origin, j, k, step);
    } else if k < j {
      NextPointIsApart(origin, k, j, step);
    }
  }

  lemma GridPointsAreApart(r: Range, x: real, y: real)
    requires r.step > 0.0
    ensures Grid(r, x) == Grid(r, y) || Abs(Grid(r, x) - Grid(r, y)) >= r.step
  {
    PointsAreApart(r.minimum, Round((x - r.minimum) / r.step), Round((y - r.minimum) / r.step), r.step);
  }

  // No grid point lies nearer to x than the one chosen for it.
  lemma GridIsNearest(r: Range, x: real, y: real)
    requires r.step > 0.0
    ensures Abs(Grid(r, x) - x) <= Abs(Grid(r, y) - x)
  {
    var g, h := Grid(r, x), Grid(r, y);
    GridIsNear(r, x);
    GridPointsAreApart(r, x, y);
    assert g == h || Abs(g - h) >= r.step;
  }

  lemma ZeroStaysZero(r: Range, x: real)
    requires ValidRange(r) && Abs(OnGrid(r, x)) < TOLERANCE
    requires Settle(r, r.maximum) == 0.0 ==> Settle(r, 0.0) == 0.0
    ensures Settle(r, 0.0) == 0.0
  {
    var v, zero, c := OnGrid(r, x), Clamp(r, 0.0), Clamp(r, x);
    OnGridIsFixed(r, x);
    if v == r.maximum {
      assert OnGrid(r, r.maximum) == r.maximum;
      assert Settle(r, r.maximum) == 0.0;
    } else {
      assert v == Grid(r, c);
      GridIsNearest(r, zero, c);
      ZeroIsNearEnough(r, Grid(r, zero), v);
    }
  }

  lemma ZeroIsNearEnough(r: Range, g: real, v: real)
    requires ValidRange(r) && r.minimum <= v <= r.maximum && Abs(v) < TOLERANCE
    requires Abs(g - Clamp(r, 0.0)) <= Abs(v - Clamp(r, 0.0))
    ensures Abs(Clamp(r, g)) < TOLERANCE
  {
  }

  lemma SettleIsFixed(r: Range, x: real)
    requires ValidRange(r)
    requires Settle(r, r.maximum) == 0.0 ==> Settle(r, 0.0) == 0.0
    ensures Settle(r, Settle(r, x)) == Settle(r, x)
  {
    OnGridIsFixed(r, x);
    if Abs(OnGrid(r, x)) < TOLERANCE {
      ZeroStaysZero(r, x);
    }
  }

  lemma SettleIsMonotone(r: Range, x: real, y: real)
    requires ValidRange(r) && x <= y
    ensures Settle(r, x) <= Settle(r, y)
  {
    OnGridIsMonotone(r, x, y);
  }

  // The substitute is within half a step of the request cut to the range, up to the zero tolerance.
  lemma SettleIsNear(r: Range, x: real)
    requires ValidRange(r)
    ensures Abs(Settle(r, x) - Clamp(r, x)) <= r.step / 2.0 + TOLERANCE
    ensures Settle(r, x) != 0.0 ==> Abs(Settle(r, x) - Clamp(r, x)) <= r.step / 2.0
    ensures Settle(r, x) == 0.0 || r.minimum <= Settle(r, x) <= r.maximum
  {
    GridIsNear(r, Clamp(r, x));
    OnGridIsFixed(r, x);
  }

  // Idempotence of one control's normalisation, for all requests, holds exactly for ranges that settle.
  lemma NormalizeIsIdempotentIffSettles(c: Capability)
    ensures (forall v :: c.Normalize(v).Success? ==>
               c.Normalize(c.Normalize(v).value.value) == Success(Normalized(c.Normalize(v).value.value, false)))
            <==> c.Settles()
  {
    if c.Settles() {
      forall v | c.Normalize(v).Success?
        ensures c.Normalize(c.Normalize(v).value.value) == Success(Normalized(c.Normalize(v).value.value, false))
      {
        NormalizeIsFixed(c, v);
      }
    } else {
      var r := c.range.value;
      var x := if IsVoltage(c.id) then 0.0 else r.maximum;
      assert c.Normalize(Numeric(x)).Success?;
      assert c.Normalize(Numeric(x)).value.value == Numeric(Settle(r, x));
      assert c.Normalize(Numeric(Settle(r, x))) != Success(Normalized(Numeric(Settle(r, x)), false));
    }
  }

  lemma NormalizeIsFixed(c: Capability, v: Value)
    requires c.Settles() && c.Normalize(v).Success?
    ensures c.Normalize(c.Normalize(v).value.value) == Success(Normalized(c.Normalize(v).value.value, false))
  {
    if c.range.Some? {
      var r := c.range.value;
      if IsVoltage(c.id) {
        SettleIsMonotone(r, v.number, 0.0);
        VoltageSettles(r, v.number);
      } else {
        SettleIsFixed(r, v.number);
      }
    }
  }

  lemma VoltageSettles(r: Range, x: real)
    requires ValidRange(r) && x <= 0.0 && Settle(r, 0.0) <= 0.0
    ensures Settle(r, Settle(r, x)) == Settle(r, x)
  {
    OnGridIsFixed(r, x);
    OnGridIsFixed(r, 0.0);
    OnGridIsMonotone(r, x, 0.0);
    if Abs(OnGrid(r, x)) < TOLERANCE {
      assert OnGrid(r, x) <= OnGrid(r, 0.0) < TOLERANCE;
    }
  }

  // A range whose maximum is positive but below the tolerance can move a settled request.
  lemma TinyMaximumDoesNotSettle()
    ensures var r := Range(-0.4999999995, 0.0000000009, 1.0);
            ValidRange(r) && Settle(r, r.maximum) == 0.0 && Settle(r, 0.0) == r.minimum
  {
    var r := Range(-0.4999999995, 0.0000000009, 1.0);
    assert Round((r.maximum - r.minimum) / r.step) == 1;
    assert Round((0.0 - r.minimum) / r.step) == 0;
  }

  lemma OrdinaryMaximumSettles(r: Range)
    requires ValidRange(r)
    requires r.maximum <= 0.0 || r.maximum >= TOLERANCE
    ensures Settle(r, r.maximum) == 0.0 ==> Settle(r, 0.0) == 0.0
  {
    if Settle(r, r.maximum) == 0.0 {
      OnGridIsFixed(r, r.maximum);
      OnGridIsFixed(r, 0.0);
      if r.maximum <= 0.0 {
        assert Clamp(r, 0.0) == r.maximum;
      } else {
        GridIsNearest(r, Clamp(r, 0.0), r.maximum);
        GridIsMonotone(r, Clamp(r, 0.0), r.maximum);
      }
    }
  }

  // --- What normalising comes to ---

  // A request of the kind this control takes, on a control that can be set.
  predicate Fits(c: Capability, v: Value) {
    && c.state == Supported
    && match c.range
       case Some(r) =>
         v.Numeric? && r.minimum <= r.maximum && 0.0 < r.step
         && (c.id == VOLTAGE_CORE || c.id == VOLTAGE_CACHE ==> v.number <= 0.0)
       case None =>
         if c.choices != [] || c.unit == ChoiceUnit
         then v.Choice? && exists i :: 0 <= i < |c.choices| && c.choices[i] == v.choice
         else c.unit == Ratio && v.Vector? && v.vector != []
  }

  function Cut(r: Range, x: real): real { if x < r.minimum then r.minimum else if x > r.maximum then r.maximum else x }

  // `y` is the grid point nearest to the request cut to the range, the upper one of two; one beyond the range is cut
  // to its maximum, and one that is nearly zero is zero.
  ghost predicate Nearest(r: Range, x: real, y: real) {
    exists k: int :: NearestAt(r, x, y, k)
  }

  predicate NearestAt(r: Range, x: real, y: real, k: int) { ComesOf(r, x, y, r.minimum + Steps(r.step, k)) }

  function Steps(step: real, k: int): real { k as real * step }

  predicate ComesOf(r: Range, x: real, y: real, point: real) {
    var v := if point > r.maximum then r.maximum else point;
    && 0.0 - r.step < 2.0 * (point - Cut(r, x)) <= r.step
    && y == if 0.0 - TOLERANCE < v < TOLERANCE then 0.0 else v
  }

  lemma StepsDiffer(step: real, a: int, b: int)
    requires step > 0.0 && 0.0 - step < Steps(step, a) - Steps(step, b) < step
    ensures a == b
  {
    Distributes(a as real, b as real, step);
    Distributes(b as real, a as real, step);
    if a > b {
      Product(1.0, a as real - b as real, step);
    } else if a < b {
      Product(1.0, b as real - a as real, step);
    }
  }

  lemma RoundTiesUpwards(q: real)
    requires q >= 0.0
    ensures -0.5 < Round(q) as real - q <= 0.5 && Round(q) >= 0
  {
  }

  lemma QuotientIsBack(d: real, step: real)
    requires step > 0.0
    ensures d / step * step == d && (d >= 0.0 ==> d / step >= 0.0)
  {
  }

  lemma SettlesAt(r: Range, x: real) returns (k: int)
    requires ValidRange(r)
    ensures NearestAt(r, x, Settle(r, x), k)
  {
    var c := Clamp(r, x);
    k := Round((c - r.minimum) / r.step);
    RoundedSteps(c - r.minimum, r.step);
    assert Grid(r, c) == r.minimum + Steps(r.step, k);
    hide Steps, Grid, Round, Clamp, Settle;
    assert c >= r.minimum && 0.0 - r.step < 2.0 * (r.minimum + Steps(r.step, k) - c) <= r.step;
    SettledComesOf(r, x, r.minimum + Steps(r.step, k));
  }

  lemma RoundedSteps(d: real, step: real)
    requires d >= 0.0 && step > 0.0
    ensures var k := Round(d / step); 0.0 <= Steps(step, k) && 0.0 - step < 2.0 * (Steps(step, k) - d) <= step
  {
    var q := d / step;
    var k := Round(q);
    QuotientIsBack(d, step);
    RoundTiesUpwards(q);
    var e := Halves(k as real - q, step);
    Distributes(k as real, q, step);
    assert e == Steps(step, k) - d;
    Product(0.0, k as real, step);
    assert Steps(step, k) >= 0.0;
    hide Steps, Round;
    Twice(e, step);
  }

  lemma Twice(e: real, step: real)
    requires 0.0 - step / 2.0 < e <= step / 2.0
    ensures 0.0 - step < 2.0 * e <= step
  {
  }

  lemma Distributes(a: real, b: real, step: real)
    ensures (a - b) * step == a * step - b * step
  {
  }

  lemma SettledComesOf(r: Range, x: real, point: real)
    requires ValidRange(r) && Grid(r, Clamp(r, x)) == point && r.minimum <= point
    requires 0.0 - r.step < 2.0 * (point - Clamp(r, x)) <= r.step
    ensures ComesOf(r, x, Settle(r, x), point)
  {
    hide Grid;
  }

  lemma Halves(d: real, step: real) returns (e: real)
    requires step > 0.0 && -0.5 < d <= 0.5
    ensures e == d * step && 0.0 - step / 2.0 < e <= step / 2.0
  {
    e := d * step;
    Product(d, 0.5, step);
    Distributes(d, -0.5, step);
    assert (d - -0.5) * step > 0.0;
  }

  lemma CloseTogether(r: Range, x: real, y: real, z: real, a: real, b: real)
    requires ComesOf(r, x, y, r.minimum + a) && ComesOf(r, x, z, r.minimum + b)
    ensures 0.0 - r.step < a - b < r.step
  {
  }

  // There is only one nearest.
  lemma NearestIsUnique(r: Range, x: real, y: real, z: real, j: int, k: int)
    requires ValidRange(r) && NearestAt(r, x, y, j) && NearestAt(r, x, z, k)
    ensures y == z
  {
    hide Steps;
    CloseTogether(r, x, y, z, Steps(r.step, j), Steps(r.step, k));
    StepsDiffer(r.step, j, k);
  }

  // A number is settled for a request exactly if it is the nearest one.
  lemma SettleIsNearestIff(r: Range, x: real, y: real)
    requires ValidRange(r)
    ensures y == Settle(r, x) <==> Nearest(r, x, y)
  {
    var k := SettlesAt(r, x);
    hide Settle, NearestAt;
    if Nearest(r, x, y) {
      var j :| NearestAt(r, x, y, j);
      NearestIsUnique(r, x, y, Settle(r, x), j, k);
    }
  }

  // The outcome for a request that fits; it counts as adjusted if it is off by more than the tolerance.
  ghost predicate Yields(c: Capability, v: Value, n: Normalized) {
    match c.range
    case Some(r) =>
      v.Numeric? && n.value.Numeric? && Nearest(r, v.number, n.value.number)
      && (n.adjusted <==> n.value.number > v.number + TOLERANCE || n.value.number < v.number - TOLERANCE)
    case None => n == Normalized(v, false)
  }

  // Why a request is refused; for each there is one reason.
  predicate Refused(c: Capability, v: Value, error: Error) {
    var picks := c.range.None? && (c.choices != [] || c.unit == ChoiceUnit);
    var takesRatios := c.range.None? && !picks && c.unit == Ratio;
    match error
    case NotSupported => c.state != Supported
    case WrongKind =>
      && c.state == Supported
      && ((c.range.Some? && !v.Numeric?) || (picks && !v.Choice?)
          || (takesRatios && (!v.Vector? || v.vector == [])))
    case PositiveVoltage =>
      c.state == Supported && c.range.Some? && v.Numeric? && v.number > 0.0
      && (c.id == VOLTAGE_CORE || c.id == VOLTAGE_CACHE)
    case InvalidRange =>
      c.state == Supported && c.range.Some? && v.Numeric?
      && !(v.number > 0.0 && (c.id == VOLTAGE_CORE || c.id == VOLTAGE_CACHE))
      && (c.range.value.minimum > c.range.value.maximum || c.range.value.step <= 0.0)
    case UnsupportedChoice =>
      c.state == Supported && picks && v.Choice? && forall i :: 0 <= i < |c.choices| ==> c.choices[i] != v.choice
    case NoSchema => c.state == Supported && c.range.None? && !picks && !takesRatios
    case _ => false
  }

  // A request passes exactly if it fits, and then yields the nearest value, or itself.
  lemma NormalizePassesIff(c: Capability, v: Value, n: Normalized)
    ensures c.Normalize(v) == Success(n) <==> Fits(c, v) && Yields(c, v, n)
    ensures c.Normalize(v).Success? <==> Fits(c, v)
  {
    if c.range.Some? && v.Numeric? && ValidRange(c.range.value) && n.value.Numeric? {
      SettleIsNearestIff(c.range.value, v.number, n.value.number);
    }
    hide Nearest, Settle;
  }

  lemma NormalizeRefusesIff(c: Capability, v: Value, error: Error)
    ensures c.Normalize(v) == Failure(error) <==> Refused(c, v, error)
  {
    hide Settle;
  }
}

// Moving a voltage offset in bounded steps over an unreliable mailbox (internal/tuning/intel/msr/voltage.go).
module VoltageSpec {
  import opened Wrappers
  import Model
  import opened VoltageCodec

  const STEP: int := 10

  // One call's luck: whether its context is cancelled, whether it reports success, and whether a write command,
  // reported or not, takes effect.
  datatype Fault = Fault(cancelled: bool, ok: bool, lands: bool)

  type Faults = nat -> Fault

  // The offset in force on one plane, in mailbox units; `trace` lists what every write left behind, and `commands`
  // what was asked for.
  datatype Mailbox = Mailbox(units: int, clock: nat, trace: seq<int>, commands: seq<int>)

  function Tick(box: Mailbox): Mailbox { box.(clock := box.clock + 1) }

  function Millivolts(units: int): real { units as real / UNIT }

  function Units(millivolts: real): int { Model.Round(millivolts * UNIT) }

  // Asking for the offset fails, or tells the truth.
  function ReadVoltage(box: Mailbox, f: Faults): (Mailbox, Option<int>) {
    (Tick(box), if f(box.clock).ok then Some(box.units) else None)
  }

  // A command that encodes is sent, and then the offset is read back and compared.
  function WriteVoltage(box: Mailbox, units: int, f: Faults): (Mailbox, bool) {
    if EncodeVoltageOffset(Millivolts(units)).None? then (box, false)
    else
      var units1 := if f(box.clock).lands then units else box.units;
      var box1 := Mailbox(units1, box.clock + 1, box.trace + [units1], box.commands + [units]);
      if !f(box.clock).ok then (box1, false)
      else
        var (box2, back) := ReadVoltage(box1, f);
        (box2, back == Some(units))
  }

  // The next offset on the way, at most one step further.
  function Toward(current: int, target: int): int {
    var distance := target - current;
    current + if distance > STEP then STEP else if distance < -STEP then -STEP else distance
  }

  function Distance(a: int, b: int): nat { if a <= b then b - a else a - b }

  // `cancellable`: whether the caller's context still counts.
  function StepFrom(box: Mailbox, current: int, target: int, cancellable: bool, f: Faults): (Mailbox, bool)
    decreases Distance(current, target)
  {
    if current == target then (box, true)
    else if cancellable && f(box.clock).cancelled then (Tick(box), false)
    else
      var next := Toward(current, target);
      var (box1, written) := WriteVoltage(Tick(box), next, f);
      if !written then (box1, false)
      else if cancellable && f(box1.clock).cancelled then (Tick(box1), false)
      else StepFrom(Tick(box1), next, target, cancellable, f)
  }

  function StepTo(box: Mailbox, millivolts: real, cancellable: bool, f: Faults): (Mailbox, bool) {
    if cancellable && f(box.clock).cancelled then (Tick(box), false)
    else
      var encoding := EncodeVoltageOffset(millivolts);
      if encoding.None? then (Tick(box), false)
      else
        var (box1, current) := ReadVoltage(Tick(box), f);
        if current.None? then (box1, false)
        else StepFrom(box1, current.value, Units(encoding.value.normalized), cancellable, f)
  }

  // What is captured must be exactly restorable.
  function Capture(box: Mailbox, f: Faults): (Mailbox, Option<real>) {
    if f(box.clock).cancelled then (Tick(box), None)
    else
      var (box1, current) := ReadVoltage(Tick(box), f);
      (box1, if current.Some? && Restorable(Millivolts(current.value)) then Some(Millivolts(current.value)) else None)
  }

  predicate Restorable(millivolts: real) {
    var encoding := EncodeVoltageOffset(millivolts);
    encoding.Some? && encoding.value.normalized == millivolts
  }

  function Apply(box: Mailbox, requested: real, captured: Option<real>, f: Faults): (Mailbox, bool) {
    if captured.None? then (box, false)
    else
      var (box1, stepped) := StepTo(box, requested, true, f);
      if stepped then (box1, true) else (StepTo(box1, captured.value, false, f).0, false)
  }

  function Restore(box: Mailbox, captured: real, f: Faults): (Mailbox, bool) {
    if !Restorable(captured) then (box, false) else StepTo(box, captured, true, f)
  }

  // --- Properties ---

  // Nothing is written before a capture.
  lemma UncapturedIsNotApplied(box: Mailbox, requested: real, f: Faults)
    ensures Apply(box, requested, None, f) == (box, false)
  {
  }

  // The offsets to ask for, one after another.
  function Waypoints(current: int, target: int): seq<int>
    decreases Distance(current, target)
  {
    if current == target then [] else [Toward(current, target)] + Waypoints(Toward(current, target), target)
  }

  predicate Between(units: int, a: int, b: int) { a <= units <= b || b <= units <= a }

  function PointBefore(points: seq<int>, current: int, i: nat): int
    requires i < |points|
  {
    if i == 0 then current else points[i - 1]
  }

  // A stretch leads on towards the target, and is no longer than a step.
  predicate Stretch(points: seq<int>, current: int, target: int, i: nat)
    requires i < |points|
  {
    var from := PointBefore(points, current, i);
    Between(points[i], from, target) && points[i] != from && Distance(from, points[i]) <= STEP
  }

  // A tenth of the distance, rounded up; no stretch longer than a step, none backwards; and the target at the end.
  lemma {:induction false} WaypointsMarch(current: int, target: int)
    ensures var points := Waypoints(current, target);
            && |points| == (Distance(current, target) + STEP - 1) / STEP
            && (points != [] ==> points[|points| - 1] == target)
            && forall i :: 0 <= i < |points| ==> Stretch(points, current, target, i)
    decreases Distance(current, target)
  {
    if current != target {
      var next := Toward(current, target);
      WaypointsMarch(next, target);
      var points, rest := Waypoints(current, target), Waypoints(next, target);
      assert points == [next] + rest;
      forall i | 0 <= i < |points|
        ensures Stretch(points, current, target, i)
      {
        if i > 0 {
          assert Stretch(rest, next, target, i - 1);
        }
      }
    }
  }

  lemma InRange(units: int)
    ensures EncodeVoltageOffset(Millivolts(units)).Some? <==> -256 <= units <= 0
    ensures Units(Millivolts(units)) == units && (Restorable(Millivolts(units)) <==> -256 <= units <= 0)
  {
    UnitsAreExact(units);
  }

  // Since `before`, every offset in force has been between the two, and every command one that encodes.
  ghost predicate Travels(before: Mailbox, after: Mailbox, a: int, b: int) {
    && before.trace <= after.trace && before.commands <= after.commands
    && Between(after.units, a, b)
    && (forall i :: |before.trace| <= i < |after.trace| ==> Between(after.trace[i], a, b))
    && (forall i :: |before.commands| <= i < |after.commands| ==> -256 <= after.commands[i] <= 0)
  }

  lemma WriteIsVerified(box: Mailbox, units: int, f: Faults)
    ensures var (box1, ok) := WriteVoltage(box, units, f);
            && (box1.units == box.units || box1.units == units)
            && (ok ==> box1.units == units && box1.commands == box.commands + [units])
            && (box1 == box
                || (box1.trace == box.trace + [box1.units] && box1.commands == box.commands + [units]
                    && -256 <= units <= 0))
            && (ok ==> box1 != box)
  {
    InRange(units);
  }

  // The commands sent are the waypoints, up to where the march stopped; a march that succeeds ends at its target.
  lemma {:induction false} MarchKeepsBetween(box: Mailbox, target: int, cancellable: bool, f: Faults)
    ensures var (box1, ok) := StepFrom(box, box.units, target, cancellable, f);
            && Travels(box, box1, box.units, target)
            && box1.commands <= box.commands + Waypoints(box.units, target)
            && (ok ==> box1.units == target && box1.commands == box.commands + Waypoints(box.units, target))
    decreases Distance(box.units, target)
  {
    if box.units != target && !(cancellable && f(box.clock).cancelled) {
      var next := Toward(box.units, target);
      var (box1, written) := WriteVoltage(Tick(box), next, f);
      WriteIsVerified(Tick(box), next, f);
      if written && !(cancellable && f(box1.clock).cancelled) {
        MarchKeepsBetween(Tick(box1), target, cancellable, f);
        var box2 := StepFrom(Tick(box1), next, target, cancellable, f).0;
        MarchGoesOn(box, box1, box2, next, target);
      }
    }
  }

  lemma MarchGoesOn(box: Mailbox, box1: Mailbox, box2: Mailbox, next: int, target: int)
    requires box.units != target && next == Toward(box.units, target) && box1.units == next
    requires box1.trace == box.trace + [next] && box1.commands == box.commands + [next] && -256 <= next <= 0
    requires Travels(box1, box2, next, target) && box2.commands <= box1.commands + Waypoints(next, target)
    ensures Travels(box, box2, box.units, target)
    ensures box2.commands <= box.commands + Waypoints(box.units, target)
    ensures box2.commands == box1.commands + Waypoints(next, target) ==>
              box2.commands == box.commands + Waypoints(box.units, target)
  {
    var points := Waypoints(box.units, target);
    assert points == [next] + Waypoints(next, target);
    assert box1.commands + Waypoints(next, target) == box.commands + points;
    forall i | |box.trace| <= i < |box2.trace|
      ensures Between(box2.trace[i], box.units, target)
    {
      if i == |box.trace| {
        assert box2.trace[i] == box1.trace[i] == next;
      }
    }
    forall i | |box.commands| <= i < |box2.commands|
      ensures -256 <= box2.commands[i] <= 0
    {
      if i == |box.commands| {
        assert box2.commands[i] == box1.commands[i] == next;
      }
    }
  }

  // Stepping to an offset stays between where it starts and where it goes, and arrives if it reports success.
  lemma StepToArrives(box: Mailbox, millivolts: real, cancellable: bool, f: Faults)
    ensures var (box1, ok) := StepTo(box, millivolts, cancellable, f);
            var target := Units(millivolts);
            && Travels(box, box1, box.units, target)
            && box1.commands <= box.commands + Waypoints(box.units, target)
            && (ok ==> -256 <= target <= 0 && box1.units == target
                       && box1.commands == box.commands + Waypoints(box.units, target))
  {
    var encoding := EncodeVoltageOffset(millivolts);
    if encoding.Some? {
      OffsetRoundTrips(millivolts);
      UnitsAreExact(Units(millivolts));
      assert -256.0 <= millivolts * UNIT <= 0.0;
      MarchKeepsBetween(ReadVoltage(Tick(box), f).0, Units(millivolts), cancellable, f);
    }
  }

  // An offset can be captured exactly when it can be restored exactly.
  lemma CaptureIsRestorable(box: Mailbox, f: Faults)
    ensures var (box1, captured) := Capture(box, f);
            && box1 == box.(clock := box1.clock)
            && (captured.Some? ==> captured.value == Millivolts(box.units) && -256 <= box.units <= 0)
            && (!f(box.clock).cancelled && f(box.clock + 1).ok && -256 <= box.units <= 0 ==> captured.Some?)
  {
    InRange(box.units);
  }

  // At every instant of an Apply, its own undoing included, the offset is between the captured and the requested
  // one. Success means the request is in force; after a failure, if stepping back succeeds, the captured offset is.
  lemma ApplyStaysBetween(box: Mailbox, requested: real, f: Faults)
    requires -256 <= box.units <= 0
    ensures var captured := Some(Millivolts(box.units));
            var (box1, ok) := Apply(box, requested, captured, f);
            var (halfway, stepped) := StepTo(box, requested, true, f);
            && Travels(box, box1, box.units, Units(requested))
            && (ok <==> stepped)
            && (ok ==> box1.units == Units(requested))
            && (!ok && StepTo(halfway, captured.value, false, f).1 ==> box1.units == box.units)
  {
    var captured := Millivolts(box.units);
    var (halfway, stepped) := StepTo(box, requested, true, f);
    InRange(box.units);
    StepToArrives(box, requested, true, f);
    if !stepped {
      StepToArrives(halfway, captured, false, f);
      TravelsCompose(box, halfway, StepTo(halfway, captured, false, f).0, Units(requested));
    }
  }

  lemma TravelsCompose(a: Mailbox, b: Mailbox, c: Mailbox, target: int)
    requires Travels(a, b, a.units, target) && Travels(b, c, b.units, a.units)
    ensures Travels(a, c, a.units, target)
  {
    forall i | |a.trace| <= i < |c.trace|
      ensures Between(c.trace[i], a.units, target)
    {
      if i < |b.trace| {
        assert c.trace[i] == b.trace[i];
      }
    }
    forall i | |a.commands| <= i < |c.commands|
      ensures -256 <= c.commands[i] <= 0
    {
      if i < |b.commands| {
        assert c.commands[i] == b.commands[i];
      }
    }
  }

  // A restoration that succeeds puts the captured offset back; one of an offset already in force sends nothing.
  lemma RestorePutsBack(box: Mailbox, units: int, f: Faults)
    ensures var (box1, ok) := Restore(box, Millivolts(units), f);
            && (ok ==> box1.units == units)
            && Travels(box, box1, box.units, units)
            && (box.units == units ==> box1 == box.(clock := box1.clock))
  {
    InRange(units);
    StepToArrives(box, Millivolts(units), true, f);
  }

  ghost predicate Quiet(f: Faults, t: nat) {
    forall i :: i >= t ==> f(i) == Fault(false, true, true)
  }

  lemma {:induction false} QuietMarchArrives(box: Mailbox, target: int, f: Faults)
    requires Quiet(f, box.clock) && -256 <= box.units <= 0 && -256 <= target <= 0
    ensures StepFrom(box, box.units, target, true, f).1
    decreases Distance(box.units, target)
  {
    if box.units != target {
      var next := Toward(box.units, target);
      InRange(next);
      assert f(box.clock) == f(box.clock + 1) == f(box.clock + 2) == f(box.clock + 3) == Fault(false, true, true);
      QuietMarchArrives(Tick(WriteVoltage(Tick(box), next, f).0), target, f);
    }
  }

  // Without faults, an offset within range is reached from any other within range.
  lemma QuietRestoreArrives(box: Mailbox, units: int, f: Faults)
    requires Quiet(f, box.clock) && -256 <= box.units <= 0 && -256 <= units <= 0
    ensures var (box1, ok) := Restore(box, Millivolts(units), f); ok && box1.units == units
  {
    InRange(units);
    assert f(box.clock) == f(box.clock + 1) == Fault(false, true, true);
    QuietMarchArrives(ReadVoltage(Tick(box), f).0, units, f);
    RestorePutsBack(box, units, f);
  }
}

// The operation as it runs.
module Voltage {
  import opened Wrappers
  import opened VoltageCodec
  import opened VoltageSpec

  class Device {
    const faults: Faults
    var units: int
    var clock: nat
    ghost var trace: seq<int>
    ghost var commands: seq<int>

    constructor (faults: Faults, units: int)
      ensures this.faults == faults && View() == Mailbox(units, 0, [], [])
    {
      this.faults, this.units, clock, trace, commands := faults, units, 0, [], [];
    }

    ghost function View(): Mailbox
      reads this
    {
      Mailbox(units, clock, trace, commands)
    }

    method Cancelled() returns (cancelled: bool)
      modifies this`clock
      ensures View() == Tick(old(View())) && cancelled == faults(old(clock)).cancelled
    {
      cancelled := faults(clock).cancelled;
      clock := clock + 1;
    }

    method Read() returns (current: Option<int>)
      modifies this`clock
      ensures (View(), current) == ReadVoltage(old(View()), faults)
    {
      current := if faults(clock).ok then Some(units) else None;
      clock := clock + 1;
    }

    method Write(next: int) returns (ok: bool)
      modifies this
      ensures (View(), ok) == WriteVoltage(old(View()), next, faults)
    {
      if EncodeVoltageOffset(Millivolts(next)).None? {
        return false;
      }
      ok := faults(clock).ok;
      if faults(clock).lands {
        units := next;
      }
      clock, trace, commands := clock + 1, trace + [units], commands + [next];
      if ok {
        var back := Read();
        ok := back == Some(next);
      }
    }
  }

  class VoltageOperation {
    const device: Device
    const requested: real
    var captured: Option<real>

    constructor (device: Device, requested: real)
      ensures this.device == device && this.requested == requested && captured == None
    {
      this.device, this.requested, captured := device, requested, None;
    }

    method Capture() returns (ok: bool)
      modifies this, device
      ensures var (box, value) := VoltageSpec.Capture(old(device.View()), device.faults);
              && device.View() == box && ok == value.Some? && captured == if ok then value else old(captured)
    {
      var cancelled := device.Cancelled();
      if cancelled {
        return false;
      }
      var current := device.Read();
      if current.None? || !Restorable(Millivolts(current.value)) {
        return false;
      }
      captured, ok := Some(Millivolts(current.value)), true;
    }

    method MoveTo(millivolts: real, cancellable: bool) returns (ok: bool)
      modifies device
      ensures (device.View(), ok) == StepTo(old(device.View()), millivolts, cancellable, device.faults)
    {
      hide WriteVoltage, EncodeVoltageOffset;
      var cancelled := device.Cancelled();
      if cancellable && cancelled {
        return false;
      }
      var encoding := EncodeVoltageOffset(millivolts);
      if encoding.None? {
        return false;
      }
      var read := device.Read();
      if read.None? {
        return false;
      }
      var current := read.value;
      var target := Units(encoding.value.normalized);
      while current != target
        invariant StepFrom(device.View(), current, target, cancellable, device.faults)
               == StepTo(old(device.View()), millivolts, cancellable, device.faults)
        decreases Distance(current, target)
      {
        cancelled := device.Cancelled();
        if cancellable && cancelled {
          return false;
        }
        current := Toward(current, target);
        ok := device.Write(current);
        if !ok {
          return;
        }
        cancelled := device.Cancelled();
        if cancellable && cancelled {
          return false;
        }
      }
      ok := true;
    }

    method Apply() returns (ok: bool)
      modifies device
      ensures (device.View(), ok) == VoltageSpec.Apply(old(device.View()), requested, captured, device.faults)
    {
      if captured.None? {
        return false;
      }
      ok := MoveTo(requested, true);
      if !ok {
        var undone := MoveTo(captured.value, false);
      }
    }

    method Restore(snapshot: real) returns (ok: bool)
      modifies device
      ensures (device.View(), ok) == VoltageSpec.Restore(old(device.View()), snapshot, device.faults)
    {
      if !Restorable(snapshot) {
        return false;
      }
      ok := MoveTo(snapshot, true);
    }
  }
}

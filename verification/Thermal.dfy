// The thermal limit, written through one kernel interface and read back through two
// (internal/tuning/intel/thermal/tcc.go).
module ThermalSpec {
  import opened Wrappers
  import Model

  // The offsets the two interfaces show.
  datatype Offsets = Offsets(pci: int, cooling: int)

  datatype Fault = Fault(cancelled: bool, ok: bool, left: Option<Offsets>)

  type Faults = nat -> Fault

  datatype Sensor = Sensor(offsets: Offsets, clock: nat)

  datatype Limits = Limits(tjMax: int, maxOffset: int)

  function Tick(s: Sensor): Sensor { s.(clock := s.clock + 1) }

  function ReadPci(s: Sensor, f: Faults): (Sensor, Option<int>) {
    (Tick(s), if f(s.clock).ok then Some(s.offsets.pci) else None)
  }

  function ReadCooling(s: Sensor, f: Faults): (Sensor, Option<int>) {
    (Tick(s), if f(s.clock).ok then Some(s.offsets.cooling) else None)
  }

  // Reported or not, a write shows in both interfaces, unless it leaves something else.
  function Write(s: Sensor, offset: int, f: Faults): (Sensor, bool) {
    var left := f(s.clock).left;
    (Sensor(if left.Some? then left.value else Offsets(offset, offset), s.clock + 1), f(s.clock).ok)
  }

  function WriteOffset(s: Sensor, offset: int, f: Faults): (Sensor, bool) {
    var (s1, written) := Write(s, offset, f);
    if !written then (s1, false)
    else
      var (s2, pci) := ReadPci(s1, f);
      if pci.None? then (s2, false)
      else
        var (s3, cooling) := ReadCooling(s2, f);
        (s3, cooling.Some? && pci.value == offset && cooling.value == offset)
  }

  function OffsetFor(limits: Limits, ceiling: real): int { limits.tjMax - Model.Round(ceiling) }

  function Capture(s: Sensor, f: Faults): (Sensor, Option<int>) {
    if f(s.clock).cancelled then (Tick(s), None) else ReadPci(Tick(s), f)
  }

  // The limit in force, in degrees.
  function Apply(s: Sensor, limits: Limits, ceiling: real, f: Faults): (Sensor, Option<int>) {
    if f(s.clock).cancelled then (Tick(s), None)
    else
      var offset := OffsetFor(limits, ceiling);
      if offset < 0 || offset > limits.maxOffset then (Tick(s), None)
      else
        var (s1, ok) := WriteOffset(Tick(s), offset, f);
        (s1, if ok then Some(limits.tjMax - offset) else None)
  }

  // A snapshot is written back as it is, in range or not.
  function Restore(s: Sensor, limits: Limits, snapshot: int, f: Faults): (Sensor, Option<int>) {
    if f(s.clock).cancelled then (Tick(s), None)
    else
      var (s1, ok) := WriteOffset(Tick(s), snapshot, f);
      (s1, if ok then Some(limits.tjMax - snapshot) else None)
  }

  // The range a capability offers: the kernel's, cut off at zero degrees.
  function LowestCeiling(limits: Limits): int {
    if limits.tjMax - limits.maxOffset > 0 then limits.tjMax - limits.maxOffset else 0
  }

  lemma RoundBetween(low: int, x: real, high: int)
    requires low as real <= x <= high as real
    ensures low <= Model.Round(x) <= high
  {
  }

  // Every ceiling on offer is within the kernel's range.
  lemma OfferedCeilingIsInRange(limits: Limits, ceiling: real)
    requires LowestCeiling(limits) as real <= ceiling <= limits.tjMax as real
    ensures 0 <= OffsetFor(limits, ceiling) <= limits.maxOffset
  {
    RoundBetween(LowestCeiling(limits), ceiling, limits.tjMax);
  }

  // And every whole one within it is on offer, unless it is below zero.
  lemma WholeCeilingIsOffered(limits: Limits, degrees: nat)
    requires 0 <= limits.tjMax - degrees <= limits.maxOffset
    ensures LowestCeiling(limits) <= degrees <= limits.tjMax
  {
  }

  // Success means that both interfaces show the requested ceiling; a ceiling out of range changes nothing.
  lemma ApplySetsBoth(s: Sensor, limits: Limits, ceiling: real, f: Faults)
    ensures var (s1, limit) := Apply(s, limits, ceiling, f);
            && (limit.Some? ==>
                  && limit.value == Model.Round(ceiling)
                  && s1.offsets == Offsets(limits.tjMax - limit.value, limits.tjMax - limit.value))
            && (OffsetFor(limits, ceiling) < 0 || OffsetFor(limits, ceiling) > limits.maxOffset ==>
                  limit.None? && s1.offsets == s.offsets)
  {
  }

  ghost predicate Quiet(f: Faults, t: nat) { forall i :: i >= t ==> f(i).ok && !f(i).cancelled && f(i).left.None? }

  // Without faults, Apply succeeds exactly for ceilings in the kernel's range, and Restore for any snapshot.
  lemma QuietApplySucceedsIff(s: Sensor, limits: Limits, ceiling: real, f: Faults)
    requires Quiet(f, s.clock)
    ensures Apply(s, limits, ceiling, f).1.Some? <==>
            limits.tjMax - limits.maxOffset <= Model.Round(ceiling) <= limits.tjMax
  {
    assert !f(s.clock).cancelled && f(s.clock + 1).ok && f(s.clock + 2).ok && f(s.clock + 3).ok;
  }

  lemma QuietRestoreSucceeds(s: Sensor, limits: Limits, snapshot: int, f: Faults)
    requires Quiet(f, s.clock)
    ensures Capture(s, f).1 == Some(s.offsets.pci)
    ensures var (s1, limit) := Restore(s, limits, snapshot, f);
            limit == Some(limits.tjMax - snapshot) && s1.offsets == Offsets(snapshot, snapshot)
  {
    assert !f(s.clock).cancelled && f(s.clock + 1).ok && f(s.clock + 2).ok && f(s.clock + 3).ok;
  }

  // Whatever Apply did, a restoration that succeeds brings both interfaces to what the first one showed; so it puts
  // both back exactly when they agreed at the capture.
  lemma RestoreUndoesApplyIff(s: Sensor, limits: Limits, ceiling: real, f: Faults)
    ensures var captured := Capture(s, f);
            captured.1.Some? ==>
              var applied := Apply(captured.0, limits, ceiling, f);
              var (restored, limit) := Restore(applied.0, limits, captured.1.value, f);
              limit.Some? ==>
                && restored.offsets == Offsets(s.offsets.pci, s.offsets.pci)
                && (restored.offsets == s.offsets <==> s.offsets.pci == s.offsets.cooling)
  {
    hide Apply;
  }
}

// The operation as it runs.
module Thermal {
  import opened Wrappers
  import Model
  import opened ThermalSpec

  class TccOperation {
    const faults: Faults
    const limits: Limits
    const requested: real
    var offsets: Offsets
    var clock: nat

    constructor (faults: Faults, limits: Limits, requested: real, offsets: Offsets)
      ensures this.faults == faults && this.limits == limits && this.requested == requested
      ensures View() == Sensor(offsets, 0)
    {
      this.faults, this.limits, this.requested, this.offsets, clock := faults, limits, requested, offsets, 0;
    }

    ghost function View(): Sensor
      reads this
    {
      Sensor(offsets, clock)
    }

    method Cancelled() returns (cancelled: bool)
      modifies this`clock
      ensures View() == Tick(old(View())) && cancelled == faults(old(clock)).cancelled
    {
      cancelled := faults(clock).cancelled;
      clock := clock + 1;
    }

    method ReadPci() returns (offset: Option<int>)
      modifies this`clock
      ensures (View(), offset) == ThermalSpec.ReadPci(old(View()), faults)
    {
      offset := if faults(clock).ok then Some(offsets.pci) else None;
      clock := clock + 1;
    }

    method ReadCooling() returns (offset: Option<int>)
      modifies this`clock
      ensures (View(), offset) == ThermalSpec.ReadCooling(old(View()), faults)
    {
      offset := if faults(clock).ok then Some(offsets.cooling) else None;
      clock := clock + 1;
    }

    method WriteOffset(offset: int) returns (ok: bool)
      modifies this
      ensures (View(), ok) == ThermalSpec.WriteOffset(old(View()), offset, faults)
    {
      var fault := faults(clock);
      offsets := if fault.left.Some? then fault.left.value else Offsets(offset, offset);
      clock := clock + 1;
      if !fault.ok {
        return false;
      }
      var pci := ReadPci();
      if pci.None? {
        return false;
      }
      var cooling := ReadCooling();
      return cooling.Some? && pci.value == offset && cooling.value == offset;
    }

    method Apply() returns (limit: Option<int>)
      modifies this
      ensures (View(), limit) == ThermalSpec.Apply(old(View()), limits, requested, faults)
    {
      var cancelled := Cancelled();
      if cancelled {
        return None;
      }
      var offset := limits.tjMax - Model.Round(requested);
      if offset < 0 || offset > limits.maxOffset {
        return None;
      }
      var ok := WriteOffset(offset);
      return if ok then Some(limits.tjMax - offset) else None;
    }

    method Restore(snapshot: int) returns (limit: Option<int>)
      modifies this
      ensures (View(), limit) == ThermalSpec.Restore(old(View()), limits, snapshot, faults)
    {
      var cancelled := Cancelled();
      if cancelled {
        return None;
      }
      var ok := WriteOffset(snapshot);
      return if ok then Some(limits.tjMax - snapshot) else None;
    }
  }
}

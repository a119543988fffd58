// Turbo ratios packed one byte each into a 64-bit register (internal/tuning/intel/msr/ratio.go).
module RatioSpec {
  import opened Wrappers

  const SLOTS: nat := 8

  type Word64 = x: int | 0 <= x < 0x1_0000_0000_0000_0000

  // value >> (index * 8)
  function ShiftRight(value: nat, index: nat): nat
    decreases index
  {
    if index == 0 then value else ShiftRight(value / 256, index - 1)
  }

  function ByteAt(value: nat, index: nat): nat { ShiftRight(value, index) % 256 }

  // value &^ (0xff << shift) | byte << shift
  function WithByte(value: nat, index: nat, byte: nat): nat
    decreases index
  {
    if index == 0 then value - value % 256 + byte else 256 * WithByte(value / 256, index - 1, byte) + value % 256
  }

  function DecodedFrom(value: nat, count: nat): seq<real> {
    seq(count, i requires 0 <= i < count => ByteAt(value, i) as real)
  }

  // The count is brought between zero and eight.
  function DecodeTurboRatios(value: nat, count: int): seq<real> {
    DecodedFrom(value, if count < 0 then 0 else if count > SLOTS then SLOTS else count)
  }

  predicate Multiplier(ratio: real) { 1.0 <= ratio <= 255.0 && ratio == ratio.Floor as real }

  predicate Acceptable(current: seq<real>, requested: seq<real>) {
    && 0 < |requested| == |current| <= SLOTS
    && forall i :: 0 <= i < |requested| ==>
         && Multiplier(requested[i])
         && (i > 0 ==> requested[i] <= requested[i - 1])
         && requested[i] <= current[i]
  }

  // Each of these ratios put into its byte, from index n on.
  function Packed(value: nat, requested: seq<real>, n: nat): nat
    requires forall i :: 0 <= i < |requested| ==> Multiplier(requested[i])
    decreases |requested| - n
  {
    if n >= |requested| then value
    else
      assert Multiplier(requested[n]);
      Packed(WithByte(value, n, requested[n].Floor), requested, n + 1)
  }

  function Encode(raw: nat, current: seq<real>, requested: seq<real>): Option<nat> {
    if Acceptable(current, requested) then Some(Packed(raw, requested, 0)) else None
  }

  predicate Descending(ratios: seq<real>) {
    && (forall i :: 0 <= i < |ratios| ==> ratios[i] > 0.0)
    && (forall i :: 0 < i < |ratios| ==> ratios[i] <= ratios[i - 1])
  }

  // --- Properties ---

  // A count below zero or above eight is cut; each ratio is the next byte from the lowest one up.
  lemma RatiosAreBytes(value: nat, count: int)
    ensures |DecodeTurboRatios(value, count)| == if count <= 0 then 0 else if count >= 8 then 8 else count
    ensures var ratios := DecodeTurboRatios(value, count);
            && (|ratios| > 0 ==> ratios[0] == (value % 256) as real)
            && (|ratios| > 1 ==> ratios[1..] == DecodeTurboRatios(value / 256, |ratios| - 1))
  {
  }

  // Only the byte written changes, and the bits beyond it stay where they are.
  lemma {:induction false} WithByteSetsOne(value: nat, index: nat, byte: nat, other: nat)
    requires byte < 256
    ensures ByteAt(WithByte(value, index, byte), other) == if other == index then byte else ByteAt(value, other)
    ensures index < other ==> ShiftRight(WithByte(value, index, byte), other) == ShiftRight(value, other)
    decreases index, other
  {
    var value1 := WithByte(value, index, byte);
    if index == 0 {
      assert value1 / 256 == value / 256 && value1 % 256 == byte;
    } else {
      assert value1 / 256 == WithByte(value / 256, index - 1, byte) && value1 % 256 == value % 256;
      if other > 0 {
        WithByteSetsOne(value / 256, index - 1, byte, other - 1);
      }
    }
  }

  // What no longer fits into the register would show beyond its eighth byte.
  lemma FitsIffShiftedOut(value: nat)
    ensures ShiftRight(value, SLOTS) == 0 <==> value < 0x1_0000_0000_0000_0000
  {
    assert ShiftRight(value, 8) == ShiftRight(value / 256 / 256 / 256 / 256, 4);
    assert ShiftRight(value, 8) == value / 256 / 256 / 256 / 256 / 256 / 256 / 256 / 256;
  }

  lemma {:induction false} PackedSetsBytes(value: nat, requested: seq<real>, n: nat, other: nat)
    requires forall i :: 0 <= i < |requested| ==> Multiplier(requested[i])
    ensures ByteAt(Packed(value, requested, n), other)
         == if n <= other < |requested| then requested[other].Floor else ByteAt(value, other)
    ensures |requested| <= other ==> ShiftRight(Packed(value, requested, n), other) == ShiftRight(value, other)
    decreases |requested| - n
  {
    if n < |requested| {
      WithByteSetsOne(value, n, requested[n].Floor, other);
      PackedSetsBytes(WithByte(value, n, requested[n].Floor), requested, n + 1, other);
    }
  }

  // Decoding what was encoded gives exactly the request; the bytes above it are as they were; and the register
  // still holds 64 bits.
  lemma EncodingRoundTrips(raw: Word64, current: seq<real>, requested: seq<real>)
    requires Encode(raw, current, requested).Some?
    ensures var encoded := Encode(raw, current, requested).value;
            && encoded < 0x1_0000_0000_0000_0000
            && DecodeTurboRatios(encoded, |requested|) == requested
            && forall i :: |requested| <= i ==> ByteAt(encoded, i) == ByteAt(raw, i)
  {
    var encoded := Packed(raw, requested, 0);
    PackedSetsBytes(raw, requested, 0, SLOTS);
    FitsIffShiftedOut(raw);
    FitsIffShiftedOut(encoded);
    forall i: nat
      ensures ByteAt(encoded, i) == if i < |requested| then requested[i].Floor else ByteAt(raw, i)
    {
      PackedSetsBytes(raw, requested, 0, i);
    }
  }

  // An encoded register can be restored: its ratios are positive and descending, and none exceeds those in force.
  lemma EncodingIsRestorable(raw: Word64, count: nat, requested: seq<real>)
    requires Encode(raw, DecodeTurboRatios(raw, count), requested).Some?
    ensures var encoded := Encode(raw, DecodeTurboRatios(raw, count), requested).value;
            var ratios := DecodeTurboRatios(encoded, count);
            && ratios == requested && Descending(ratios)
            && forall i :: 0 <= i < |ratios| ==> ratios[i] <= ByteAt(raw, i) as real
  {
    EncodingRoundTrips(raw, DecodeTurboRatios(raw, count), requested);
  }

  // --- The operation ---

  // A write, whatever it reports, leaves `left`, or the value written if that is absent.
  datatype Fault = Fault(cancelled: bool, ok: bool, left: Option<nat>)

  type Faults = nat -> Fault

  datatype Register = Register(value: nat, clock: nat)

  function Read(reg: Register, f: Faults): (Register, Option<nat>) {
    (reg.(clock := reg.clock + 1), if f(reg.clock).ok then Some(reg.value) else None)
  }

  function WriteAndVerify(reg: Register, value: nat, f: Faults): (Register, bool) {
    var left := f(reg.clock).left;
    var reg1 := Register(if left.Some? then left.value else value, reg.clock + 1);
    if !f(reg.clock).ok then (reg1, false)
    else
      var (reg2, back) := Read(reg1, f);
      (reg2, back == Some(value))
  }

  function Apply(reg: Register, count: nat, requested: seq<real>, f: Faults): (Register, Option<seq<real>>) {
    if f(reg.clock).cancelled then (reg.(clock := reg.clock + 1), None)
    else
      var (reg1, raw) := Read(reg.(clock := reg.clock + 1), f);
      if raw.None? then (reg1, None)
      else
        var encoded := Encode(raw.value, DecodeTurboRatios(raw.value, count), requested);
        if encoded.None? then (reg1, None)
        else
          var (reg2, ok) := WriteAndVerify(reg1, encoded.value, f);
          (reg2, if ok then Some(DecodeTurboRatios(encoded.value, count)) else None)
  }

  function Restore(reg: Register, count: nat, captured: nat, f: Faults): (Register, Option<seq<real>>) {
    if f(reg.clock).cancelled || !Descending(DecodeTurboRatios(captured, count)) then
      (reg.(clock := reg.clock + 1), None)
    else
      var (reg1, ok) := WriteAndVerify(reg.(clock := reg.clock + 1), captured, f);
      (reg1, if ok then Some(DecodeTurboRatios(captured, count)) else None)
  }

  // Success means that the ratios in force are those requested and that the other bytes have not changed; a refusal
  // leaves the register alone.
  lemma ApplySetsRatios(reg: Register, count: nat, requested: seq<real>, f: Faults)
    requires reg.value < 0x1_0000_0000_0000_0000
    ensures var (reg1, ratios) := Apply(reg, count, requested, f);
            && (ratios.Some? ==>
                  && ratios.value == requested == DecodeTurboRatios(reg1.value, count)
                  && Acceptable(DecodeTurboRatios(reg.value, count), requested)
                  && forall i :: |requested| <= i ==> ByteAt(reg1.value, i) == ByteAt(reg.value, i))
            && (!Acceptable(DecodeTurboRatios(reg.value, count), requested) ==>
                  ratios.None? && reg1.value == reg.value)
  {
    if Acceptable(DecodeTurboRatios(reg.value, count), requested) {
      EncodingRoundTrips(reg.value, DecodeTurboRatios(reg.value, count), requested);
    }
  }

  // A restoration that succeeds puts the captured register back, and one can only succeed if its ratios were positive
  // and descending; the capture does not check that.
  lemma RestorePutsBack(reg: Register, count: nat, captured: nat, f: Faults)
    ensures var (reg1, ratios) := Restore(reg, count, captured, f);
            && (ratios.Some? ==> reg1.value == captured && Descending(DecodeTurboRatios(captured, count)))
            && (!Descending(DecodeTurboRatios(captured, count)) ==> reg1.value == reg.value)
  {
  }

  ghost predicate Quiet(f: Faults, t: nat) { forall i :: i >= t ==> f(i).ok && !f(i).cancelled && f(i).left.None? }

  predicate IsWhole(ratio: real, k: int) { 1 <= k <= 255 && ratio == k as real }

  ghost predicate Whole(ratio: real) { exists k :: IsWhole(ratio, k) }

  // Whole ratios from 1 to 255, one for each byte that counts, that do not ascend and do not exceed those in force.
  ghost predicate Settable(raw: nat, count: nat, requested: seq<real>) {
    && 0 < |requested| == (if count > 8 then 8 else count)
    && (forall i :: 0 <= i < |requested| ==> Whole(requested[i]))
    && (forall i :: 0 <= i < |requested| ==> requested[i] <= ByteAt(raw, i) as real)
    && (forall i, j :: 0 <= i < j < |requested| ==> requested[j] <= requested[i])
  }

  // Without faults, Apply succeeds exactly for such ratios.
  lemma QuietApplySucceedsIff(reg: Register, count: nat, requested: seq<real>, f: Faults)
    requires reg.value < 0x1_0000_0000_0000_0000 && Quiet(f, reg.clock)
    ensures Apply(reg, count, requested, f).1.Some? <==> Settable(reg.value, count, requested)
  {
    assert !f(reg.clock).cancelled && f(reg.clock + 1).ok && f(reg.clock + 2).ok && f(reg.clock + 3).ok;
    assert f(reg.clock + 2).left.None?;
    AcceptableIff(reg.value, count, requested);
    hide Acceptable, DecodeTurboRatios, Settable, Packed;
  }

  lemma AcceptableIff(raw: nat, count: nat, requested: seq<real>)
    ensures Acceptable(DecodeTurboRatios(raw, count), requested) <==> Settable(raw, count, requested)
  {
    forall i | 0 <= i < |requested|
      ensures Multiplier(requested[i]) <==> Whole(requested[i])
    {
      WholeIsMultiplier(requested[i]);
    }
    var current := DecodeTurboRatios(raw, count);
    assert |current| == (if count > 8 then 8 else count);
    assert forall i :: 0 <= i < |current| ==> current[i] == ByteAt(raw, i) as real;
    hide DecodeTurboRatios, ByteAt, Multiplier, Whole;
    if Acceptable(current, requested) {
      forall i, j | 0 <= i < j < |requested|
        ensures requested[j] <= requested[i]
      {
        RatiosFall(requested, i, j);
      }
      forall i | 0 <= i < |requested|
        ensures requested[i] <= ByteAt(raw, i) as real
      {
        assert requested[i] <= current[i];
      }
      assert Settable(raw, count, requested);
    }
  }

  lemma WholeIsMultiplier(ratio: real)
    ensures Multiplier(ratio) <==> Whole(ratio)
  {
    if Multiplier(ratio) {
      assert IsWhole(ratio, ratio.Floor);
    }
  }

  lemma {:induction false} RatiosFall(ratios: seq<real>, i: nat, j: nat)
    requires i < j < |ratios| && forall k :: 0 < k < |ratios| ==> ratios[k] <= ratios[k - 1]
    ensures ratios[j] <= ratios[i]
    decreases j
  {
    if i < j - 1 {
      RatiosFall(ratios, i, j - 1);
    }
  }

  // Without faults, a restoration succeeds exactly if the captured ratios are positive and do not ascend.
  lemma QuietRestoreSucceedsIff(reg: Register, count: nat, captured: nat, f: Faults)
    requires Quiet(f, reg.clock)
    ensures var ratios := DecodeTurboRatios(captured, count);
            Restore(reg, count, captured, f).1 == Some(ratios) <==>
            && (forall i :: 0 <= i < |ratios| ==> ratios[i] > 0.0)
            && (forall i, j :: 0 <= i < j < |ratios| ==> ratios[j] <= ratios[i])
  {
    assert !f(reg.clock).cancelled && f(reg.clock + 1).ok && f(reg.clock + 2).ok && f(reg.clock + 1).left.None?;
    var ratios := DecodeTurboRatios(captured, count);
    if Descending(ratios) {
      forall i, j | 0 <= i < j < |ratios|
        ensures ratios[j] <= ratios[i]
      {
        RatiosFall(ratios, i, j);
      }
    }
    hide DecodeTurboRatios;
  }
}

// The codecs and the operation as they run.
module Ratio {
  import opened Wrappers
  import opened RatioSpec

  method DecodeRatios(value: nat, count: int) returns (ratios: seq<real>)
    ensures ratios == DecodeTurboRatios(value, count)
  {
    var n := if count < 0 then 0 else if count > SLOTS then SLOTS else count;
    ratios := [];
    for index := 0 to n
      invariant ratios == DecodedFrom(value, index)
    {
      ratios := ratios + [ByteAt(value, index) as real];
    }
  }

  method EncodePreserving(raw: nat, current: seq<real>, requested: seq<real>) returns (encoded: Option<nat>)
    ensures encoded == Encode(raw, current, requested)
  {
    if |requested| == 0 || |requested| != |current| || |requested| > SLOTS {
      return None;
    }
    var value := raw;
    for index := 0 to |requested|
      invariant forall i :: 0 <= i < index ==>
        && Multiplier(requested[i])
        && (i > 0 ==> requested[i] <= requested[i - 1])
        && requested[i] <= current[i]
      invariant Acceptable(current, requested) ==>
        Packed(value, requested, index) == Packed(raw, requested, 0)
    {
      var ratio := requested[index];
      if !Multiplier(ratio) || (index > 0 && ratio > requested[index - 1]) || ratio > current[index] {
        return None;
      }
      value := WithByte(value, index, ratio.Floor);
    }
    return Some(value);
  }

  class RatioOperation {
    const faults: Faults
    const count: nat
    const requested: seq<real>
    var value: nat
    var clock: nat

    constructor (faults: Faults, value: nat, count: nat, requested: seq<real>)
      ensures this.faults == faults && this.count == count && this.requested == requested
      ensures View() == Register(value, 0)
    {
      this.faults, this.value, this.count, this.requested, clock := faults, value, count, requested, 0;
    }

    ghost function View(): Register
      reads this
    {
      Register(value, clock)
    }

    method Cancelled() returns (cancelled: bool)
      modifies this`clock
      ensures View() == old(View()).(clock := old(clock) + 1) && cancelled == faults(old(clock)).cancelled
    {
      cancelled := faults(clock).cancelled;
      clock := clock + 1;
    }

    method ReadRegister() returns (read: Option<nat>)
      modifies this`clock
      ensures (View(), read) == Read(old(View()), faults)
    {
      read := if faults(clock).ok then Some(value) else None;
      clock := clock + 1;
    }

    method Write(next: nat) returns (ok: bool)
      modifies this
      ensures (View(), ok) == WriteAndVerify(old(View()), next, faults)
    {
      ok := faults(clock).ok;
      value := if faults(clock).left.Some? then faults(clock).left.value else next;
      clock := clock + 1;
      if ok {
        var back := ReadRegister();
        ok := back == Some(next);
      }
    }

    method Apply() returns (ratios: Option<seq<real>>)
      modifies this
      ensures (View(), ratios) == RatioSpec.Apply(old(View()), count, requested, faults)
    {
      var cancelled := Cancelled();
      if cancelled {
        return None;
      }
      var raw := ReadRegister();
      if raw.None? {
        return None;
      }
      var current := DecodeRatios(raw.value, count);
      var encoded := EncodePreserving(raw.value, current, requested);
      if encoded.None? {
        return None;
      }
      var ok := Write(encoded.value);
      if !ok {
        return None;
      }
      var effective := DecodeRatios(encoded.value, count);
      return Some(effective);
    }

    method Restore(captured: nat) returns (ratios: Option<seq<real>>)
      modifies this
      ensures (View(), ratios) == RatioSpec.Restore(old(View()), count, captured, faults)
    {
      var cancelled := Cancelled();
      var discovered := DecodeRatios(captured, count);
      if cancelled || !Descending(discovered) {
        return None;
      }
      var ok := Write(captured);
      return if ok then Some(discovered) else None;
    }
  }
}

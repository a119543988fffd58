// Voltage offsets and the mailbox commands that carry them (internal/tuning/intel/msr/voltage.go, main.go).
// Registers are numbers; a field is shifted by multiplying and cut out by dividing, and fields that do not overlap
// are joined by adding.
module VoltageCodec {
  import opened Wrappers
  import Model

  const UNIT: real := 1.024

  const BIT_21: nat := 0x20_0000
  const BIT_32: nat := 0x1_0000_0000
  const BIT_36: nat := 0x10_0000_0000
  const BIT_40: nat := 0x100_0000_0000
  const BIT_63: nat := 0x8000_0000_0000_0000

  type Word32 = x: int | 0 <= x < 0x1_0000_0000
  type Word64 = x: int | 0 <= x < 0x1_0000_0000_0000_0000

  datatype Encoding = Encoding(field: Word32, normalized: real)

  // The low eleven bits of the two's complement, shifted to the top of the word.
  function Field(units: int): Word32 { (units % 2048) * BIT_21 }

  function EncodeVoltageOffset(millivolts: real): Option<Encoding> {
    if millivolts > 0.0 || millivolts < -250.0 then None
    else
      var rounded := Model.Round(millivolts * UNIT);
      Some(Encoding(Field(rounded), rounded as real / UNIT))
  }

  function RawBits(encoded: Word32): int { encoded / BIT_21 % 2048 }

  function DecodeUnits(encoded: Word32): int {
    var raw := RawBits(encoded);
    if raw > 1023 then raw - 2048 else raw
  }

  function DecodeVoltageOffset(encoded: Word32): real { DecodeUnits(encoded) as real / UNIT }

  predicate ValidVoltagePlane(plane: int) { plane == 0 || plane == 2 }

  function PackVoltageRead(plane: int): Word64 {
    if !ValidVoltagePlane(plane) then 0 else BIT_63 + plane * BIT_40 + BIT_36
  }

  function PackVoltageWrite(plane: int, encoded: Word32): Word64 {
    if !ValidVoltagePlane(plane) || encoded % BIT_21 != 0 then 0
    else PackVoltageRead(plane) + BIT_32 + encoded
  }

  // --- The older codec of the command line ---

  // Twelve bits are shifted; the twelfth falls off the end of the word.
  function ConvertRoundedOffset(x: int): Word32 {
    var shifted := x % 4096 * BIT_21 % BIT_32;
    shifted - shifted % BIT_21
  }

  function UnconvertRoundedOffset(y: Word32): int {
    var x := y / BIT_21;
    if x <= 1024 then x else -(2048 - x)
  }

  // --- Properties ---

  // The field holds any two's complement number of eleven bits, and leaves the bits below it clear.
  lemma DecodeInvertsField(units: int)
    requires -1024 <= units < 1024
    ensures DecodeUnits(Field(units)) == units && Field(units) % BIT_21 == 0
  {
  }

  // Nothing else fits: every word with clear low bits is the field of the number it decodes to.
  lemma FieldInvertsDecode(encoded: Word32)
    requires encoded % BIT_21 == 0
    ensures -1024 <= DecodeUnits(encoded) < 1024 && Field(DecodeUnits(encoded)) == encoded
  {
    assert encoded / BIT_21 < 2048;
  }

  lemma UnitsAreExact(units: int)
    ensures Model.Round(units as real / UNIT * UNIT) == units
  {
    assert units as real / UNIT * UNIT == units as real;
    assert (units as real + 0.5).Floor == units;
    assert (0.5 - units as real).Floor == -units;
  }

  lemma RoundIsNear(x: real)
    ensures -0.5 <= Model.Round(x) as real - x <= 0.5
  {
  }

  // An accepted offset lies within 256 units below zero and at most half a unit from the request; its field decodes
  // to the normalised offset, and that encodes to itself.
  lemma OffsetRoundTrips(millivolts: real)
    ensures EncodeVoltageOffset(millivolts).Some? <==> -250.0 <= millivolts <= 0.0
    ensures var e := EncodeVoltageOffset(millivolts);
            e.Some? ==>
              && e.value.field % BIT_21 == 0
              && -256 <= DecodeUnits(e.value.field) <= 0
              && DecodeVoltageOffset(e.value.field) == e.value.normalized
              && -0.5 <= (e.value.normalized - millivolts) * UNIT <= 0.5
              && EncodeVoltageOffset(e.value.normalized) == e
  {
    if -250.0 <= millivolts <= 0.0 {
      var x := millivolts * UNIT;
      var units := Model.Round(x);
      RoundIsNear(x);
      assert -256.0 <= x <= 0.0;
      assert -256 <= units <= 0;
      DecodeInvertsField(units);
      UnitsAreExact(units);
      assert -250.0 <= units as real / UNIT <= 0.0;
    }
  }

  // The parts of a command do not overlap: each can be read back.
  lemma CommandHoldsItsParts(plane: int, encoded: Word32)
    requires (plane == 0 || plane == 2) && encoded % BIT_21 == 0
    ensures var read, write := PackVoltageRead(plane), PackVoltageWrite(plane, encoded);
            && read % BIT_32 == 0 && write % BIT_32 == encoded
            && read / BIT_32 % 2 == 0 && write / BIT_32 % 2 == 1
            && read / BIT_36 % 16 == 1 == write / BIT_36 % 16
            && read / BIT_40 % 256 == plane == write / BIT_40 % 256
            && read / BIT_63 == 1 == write / BIT_63
  {
  }

  // Other planes, and offsets beyond their field, make no command.
  lemma CommandsAreRefused(plane: int, encoded: Word32)
    ensures PackVoltageRead(plane) == 0 <==> plane != 0 && plane != 2
    ensures PackVoltageWrite(plane, encoded) == 0 <==> (plane != 0 && plane != 2) || encoded % BIT_21 != 0
  {
  }

  // The older codec encodes every number alike, and decodes alike every word but those of one field, the most
  // negative number.
  lemma LegacyAgrees(x: int, encoded: Word32)
    ensures ConvertRoundedOffset(x) == Field(x)
    ensures UnconvertRoundedOffset(encoded) == DecodeUnits(encoded) <==> RawBits(encoded) != 1024
    ensures -1024 < x < 1024 ==> UnconvertRoundedOffset(ConvertRoundedOffset(x)) == x
  {
    assert x % 4096 == x % 2048 || x % 4096 == x % 2048 + 2048;
    assert encoded / BIT_21 < 2048;
  }
}

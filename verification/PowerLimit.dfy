// The package power limit register, read and written as two halves (main.go; Intel SDM volume 3B, "Package RAPL
// Domain").
module PowerLimitSpec {
  import opened Wrappers
  import opened TimeWindowSpec

  const BIT_15: nat := 0x8000
  const BIT_16: nat := 0x1_0000
  const BIT_17: nat := 0x2_0000
  const BIT_24: nat := 0x100_0000
  const BIT_32: nat := 0x1_0000_0000

  type Positive = x: real | x > 0.0 witness 1.0

  // `clamp` and `rest`, the eight bits above the time window, are reserved, and carried over; but for the topmost bit
  // of the short-term half, which is the lock of the whole register.
  datatype Half = Half(power: nat, enabled: bool, clamp: bool, time: nat, rest: nat)

  const LOCK: nat := 128

  const ALL_ONES: Half := Half(0x7fff, true, true, 127, 255)

  datatype Register = Register(long: Half, short: Half)

  // A power of nothing asks for nothing; the window comes with it, whatever it is.
  datatype Setting = Setting(power: Positive, seconds: real)

  datatype Units = Units(power: Positive, time: Positive)

  // Bitwise or.
  function Or(a: nat, b: nat): nat {
    if a == 0 && b == 0 then 0 else (if a % 2 == 1 || b % 2 == 1 then 1 else 0) + 2 * Or(a / 2, b / 2)
  }

  function Bit(b: bool): nat { if b then 1 else 0 }

  predicate Fitting(h: Half) { h.power < BIT_15 && h.time < 128 && h.rest < 256 }

  predicate IsLocked(r: Register) { r.short.rest >= LOCK }

  function HalfWord(h: Half): nat {
    h.power + BIT_15 * Bit(h.enabled) + BIT_16 * Bit(h.clamp) + BIT_17 * h.time + BIT_24 * h.rest
  }

  function ParseHalf(word: nat): Half {
    Half(word % BIT_15, word / BIT_15 % 2 == 1, word / BIT_16 % 2 == 1, word / BIT_17 % 128, word / BIT_24 % 256)
  }

  function RegisterWord(r: Register): nat { HalfWord(r.long) + BIT_32 * HalfWord(r.short) }

  function ParseRegister(word: nat): Register { Register(ParseHalf(word % BIT_32), ParseHalf(word / BIT_32)) }

  // Field by field, the halves of joined words.
  function JoinHalves(a: Half, b: Half): Half {
    Half(Or(a.power, b.power), a.enabled || b.enabled, a.clamp || b.clamp, Or(a.time, b.time), Or(a.rest, b.rest))
  }

  function InUnits(value: real, unit: Positive): real { value * unit }

  function FromUnits(value: real, unit: Positive): real { value / unit }

  // int() of a float cuts towards zero; powers are not negative.
  function PowerField(watts: real, unit: Positive): int { InUnits(watts, unit).Floor }

  // A half with the time field joined to it, and what the field joins to the 32 bits above the half.
  datatype Joined = Joined(half: Half, above: nat)

  // The saturated value has eight bits for a field of seven. A negative exponent, in two's complement, has no end.
  function JoinTime(h: Half, field: Field): Joined {
    match field
    case Fits(code) => Joined(h.(time := code), 0)
    case Saturates => Joined(h.(time := 0x7e, rest := Or(h.rest, 1)), 0)
    case Spills(exponent, quarters) =>
      var ones := exponent / 128;
      Joined(h.(time := Or(32 * quarters, exponent % 128), rest := Or(h.rest, ones % 256)), ones / 256 % BIT_32)
  }

  // A half with these values, everything else as it was.
  function BuildHalf(before: Half, asked: bool, power: int, product: real): Option<Joined> {
    if power < 0 || power >= BIT_15 then None
    else Some(JoinTime(before.(power := power, enabled := before.enabled || asked), FromProduct(product)))
  }

  // One that is not asked for is written anew from what was read.
  function NewHalf(before: Half, setting: Option<Setting>, units: Units): Option<Joined> {
    var watts := if setting.Some? then setting.value.power else FromUnits(before.power as real, units.power);
    var seconds := if setting.Some? then setting.value.seconds else FromUnits(ToProduct(before.time), units.time);
    BuildHalf(before, setting.Some?, PowerField(watts, units.power), InUnits(seconds, units.time))
  }

  function WithLock(h: Half, lock: bool): Half { if lock then h.(rest := Or(h.rest, LOCK)) else h }

  datatype Outcome = Locked | OutOfRange | Written(register: Register)

  function SetPowerLimit(before: Register, long: Option<Setting>, short: Option<Setting>, lock: bool, units: Units)
    : Outcome
  {
    if IsLocked(before) then Locked
    else
      var short1, long1 := NewHalf(before.short, short, units), NewHalf(before.long, long, units);
      if short1.None? || long1.None? then OutOfRange
      else
        Written(Register(long1.value.half,
                         WithLock(JoinHalves(short1.value.half, ParseHalf(long1.value.above)), lock)))
  }

  // --- Words ---

  lemma Cut(word: nat, power: nat, above: nat)
    requires word == power + BIT_15 * above && power < BIT_15
    ensures word % BIT_15 == power && word / BIT_15 == above && word / BIT_16 == above / 2
    ensures word / BIT_17 == above / 4 && word / BIT_24 == above / 512
  {
  }

  lemma CutAbove(enabled: nat, clamp: nat, time: nat, rest: nat)
    requires enabled < 2 && clamp < 2 && time < 128
    ensures var above := enabled + 2 * clamp + 4 * time + 512 * rest;
            && above % 2 == enabled && above / 2 == clamp + 2 * time + 256 * rest
            && above / 4 == time + 128 * rest && above / 512 == rest
  {
  }

  lemma FieldsAre(word: nat, power: nat, enabled: nat, clamp: nat, time: nat, rest: nat)
    requires word == power + BIT_15 * (enabled + 2 * clamp + 4 * time + 512 * rest)
    requires power < BIT_15 && enabled < 2 && clamp < 2 && time < 128 && rest < 256
    ensures word % BIT_15 == power && word / BIT_15 % 2 == enabled && word / BIT_16 % 2 == clamp
    ensures word / BIT_17 % 128 == time && word / BIT_24 % 256 == rest
  {
    var above := enabled + 2 * clamp + 4 * time + 512 * rest;
    Cut(word, power, above);
    CutAbove(enabled, clamp, time, rest);
    Remainders(clamp, time, rest);
  }

  lemma Remainders(clamp: nat, time: nat, rest: nat)
    requires clamp < 2 && time < 128 && rest < 256
    ensures (clamp + 2 * time + 256 * rest) % 2 == clamp && (time + 128 * rest) % 128 == time && rest % 256 == rest
  {
  }

  lemma HalfWordsParse(h: Half)
    requires Fitting(h)
    ensures ParseHalf(HalfWord(h)) == h && HalfWord(h) < BIT_32
  {
    FieldsAre(HalfWord(h), h.power, Bit(h.enabled), Bit(h.clamp), h.time, h.rest);
  }

  lemma AboveIs(above: nat)
    requires above < 0x2_0000
    ensures above == above % 2 + 2 * (above / 2 % 2) + 4 * (above / 4 % 128) + 512 * (above / 512)
    ensures above / 512 < 256
  {
    assert above / 2 == above / 2 % 2 + 2 * (above / 4);
    assert above / 4 == above / 4 % 128 + 128 * (above / 512);
  }

  lemma WordsAreHalves(word: nat)
    requires word < BIT_32
    ensures HalfWord(ParseHalf(word)) == word && Fitting(ParseHalf(word))
  {
    var low, above := word % BIT_15, word / BIT_15;
    assert word == low + BIT_15 * above;
    Cut(word, low, above);
    AboveIs(above);
  }

  // Where the manual puts the fields: the power in bits 14 to 0, enable in bit 15, clamp in bit 16, the window in
  // bits 23 to 17, and the lock in bit 63.
  lemma FieldsLieWhereTheManualPutsThem(power: nat, time: nat)
    requires power < BIT_15 && time < 128
    ensures HalfWord(Half(power, false, false, 0, 0)) == power
    ensures HalfWord(Half(0, true, false, 0, 0)) == 0x8000 && HalfWord(Half(0, false, true, 0, 0)) == 0x1_0000
    ensures HalfWord(Half(0, false, false, time, 0)) == 0x2_0000 * time
    ensures RegisterWord(Register(Half(0, false, false, 0, 0), Half(0, false, false, 0, LOCK)))
            == 0x8000_0000_0000_0000
  {
  }

  // The fields cover the register and do not overlap.
  lemma RegisterWordsParse(r: Register)
    requires Fitting(r.long) && Fitting(r.short)
    ensures ParseRegister(RegisterWord(r)) == r
  {
    HalfWordsParse(r.long);
    HalfWordsParse(r.short);
    var low, high := HalfWord(r.long), HalfWord(r.short);
    hide HalfWord, ParseHalf;
    assert RegisterWord(r) % BIT_32 == low && RegisterWord(r) / BIT_32 == high;
  }

  // --- Bitwise or ---

  function Pow2(k: nat): nat { if k == 0 then 1 else 2 * Pow2(k - 1) }

  lemma {:induction false} OrZero(a: nat)
    ensures Or(a, 0) == a == Or(0, a)
  {
    if a > 0 {
      OrZero(a / 2);
    }
  }

  // Bits below and bits above a border are joined separately.
  lemma {:induction false} OrSplits(a: nat, b: nat, c: nat, d: nat, k: nat)
    requires a < Pow2(k) && c < Pow2(k)
    ensures Or(a + Pow2(k) * b, c + Pow2(k) * d) == Or(a, c) + Pow2(k) * Or(b, d)
    ensures Or(a, c) < Pow2(k)
    decreases k
  {
    if k > 0 {
      var p := Pow2(k - 1);
      Halved(a, b, p);
      Halved(c, d, p);
      OrSplits(a / 2, b, c / 2, d, k - 1);
      Doubled(p, Or(b, d));
    }
  }

  lemma Doubled(p: nat, x: nat)
    ensures 2 * (p * x) == 2 * p * x
  {
  }

  lemma Halved(a: nat, b: nat, p: nat)
    ensures (a + 2 * p * b) / 2 == a / 2 + p * b && (a + 2 * p * b) % 2 == a % 2
  {
    var x := p * b;
    assert 2 * p * b == 2 * x;
  }

  lemma {:induction false} OrAllOnes(a: nat, k: nat)
    requires a < Pow2(k)
    ensures Or(a, Pow2(k) - 1) == Pow2(k) - 1
    decreases k
  {
    if k > 0 {
      OrAllOnes(a / 2, k - 1);
    }
  }

  lemma BitsAre()
    ensures Pow2(1) == 2 && Pow2(7) == 128 && Pow2(8) == 256 && Pow2(15) == BIT_15 && Pow2(32) == BIT_32
  {
    assert Pow2(8) == 256;
    assert Pow2(16) == 256 * Pow2(8);
    assert Pow2(24) == 256 * Pow2(16);
    assert Pow2(32) == 256 * Pow2(24);
  }

  lemma OrBits(a: bool, b: bool)
    ensures Or(Bit(a), Bit(b)) == Bit(a || b)
  {
    assert Or(0, 0) == 0;
  }

  function Upper(h: Half): nat { h.time + 128 * h.rest }

  lemma HalfWordNests(h: Half)
    ensures HalfWord(h) == h.power + BIT_15 * (Bit(h.enabled) + 2 * (Bit(h.clamp) + 2 * Upper(h)))
  {
  }

  lemma OrSplitsAt1(a: nat, b: nat, c: nat, d: nat)
    requires a < 2 && c < 2
    ensures Or(a + 2 * b, c + 2 * d) == Or(a, c) + 2 * Or(b, d)
  {
    BitsAre();
    OrSplits(a, b, c, d, 1);
  }

  lemma OrSplitsAt7(a: nat, b: nat, c: nat, d: nat)
    requires a < 128 && c < 128
    ensures Or(a + 128 * b, c + 128 * d) == Or(a, c) + 128 * Or(b, d) && Or(a, c) < 128
  {
    BitsAre();
    OrSplits(a, b, c, d, 7);
  }

  lemma OrSplitsAt15(a: nat, b: nat, c: nat, d: nat)
    requires a < BIT_15 && c < BIT_15
    ensures Or(a + BIT_15 * b, c + BIT_15 * d) == Or(a, c) + BIT_15 * Or(b, d) && Or(a, c) < BIT_15
  {
    BitsAre();
    OrSplits(a, b, c, d, 15);
  }

  lemma OrFitsByte(a: nat, b: nat)
    requires a < 256 && b < 256
    ensures Or(a, b) < 256
  {
    BitsAre();
    OrSplits(a, 0, b, 0, 8);
  }

  // Joining halves field by field is the bitwise or of their words.
  lemma JoinHalvesIsOr(a: Half, b: Half)
    requires Fitting(a) && Fitting(b)
    ensures Fitting(JoinHalves(a, b)) && HalfWord(JoinHalves(a, b)) == Or(HalfWord(a), HalfWord(b))
  {
    hide Or;
    OrSplitsAt7(a.time, a.rest, b.time, b.rest);
    OrFitsByte(a.rest, b.rest);
    OrBits(a.clamp, b.clamp);
    OrBits(a.enabled, b.enabled);
    OrSplitsAt1(Bit(a.clamp), Upper(a), Bit(b.clamp), Upper(b));
    OrSplitsAt1(Bit(a.enabled), Bit(a.clamp) + 2 * Upper(a), Bit(b.enabled), Bit(b.clamp) + 2 * Upper(b));
    OrSplitsAt15(a.power, Bit(a.enabled) + 2 * (Bit(a.clamp) + 2 * Upper(a)),
                 b.power, Bit(b.enabled) + 2 * (Bit(b.clamp) + 2 * Upper(b)));
    HalfWordNests(a);
    HalfWordNests(b);
    HalfWordNests(JoinHalves(a, b));
    hide HalfWord;
  }

  // --- One half ---

  lemma Cancels(x: real, unit: Positive)
    ensures InUnits(FromUnits(x, unit), unit) == x
  {
  }

  lemma UnaskedIsRebuilt(before: Half, units: Units)
    ensures NewHalf(before, None, units) == BuildHalf(before, false, before.power, ToProduct(before.time))
  {
    var power, product := before.power as real, ToProduct(before.time);
    hide ToProduct, BuildHalf, InUnits, FromUnits;
    Cancels(power, units.power);
    Cancels(product, units.time);
    assert power.Floor == before.power;
  }

  // A half that is not asked for keeps every bit, exactly when its time code is not the longest, and touches nothing
  // above it.
  lemma UnaskedHalfIsKept(before: Half, units: Units)
    requires Fitting(before)
    ensures var kept := NewHalf(before, None, units);
            && kept.Some? && kept.value.above == 0 && Fitting(kept.value.half)
            && (kept.value.half == before <==> before.time != 127)
            && (before.time == 127 ==> kept.value.half.time == 126)
            && (before.rest < LOCK ==> kept.value.half.rest < LOCK)
  {
    hide ToProduct, NewHalf, Or, Best, InUnits, FromUnits;
    UnaskedIsRebuilt(before, units);
    CodesRoundTrip(before.time);
    WindowIsInRange(127);
    OrLowest(before.rest);
  }

  lemma OrLowest(rest: nat)
    ensures Or(rest, 1) == if rest % 2 == 1 then rest else rest + 1
  {
    OrZero(rest / 2);
  }

  // The windows a floating point number of the source can stand for.
  predicate Float(product: real) { product <= 0.0 || product >= Pow(SMALLEST) }

  // What a spilled exponent joins to everything above its time field.
  lemma SpilledOnes(exponent: int)
    requires SMALLEST - 1 <= exponent < 0
    ensures exponent / 128 / 256 % BIT_32 == BIT_32 - 1 && LOCK <= exponent / 128 % 256 < 256
  {
    assert -9 <= exponent / 128 < 0;
  }

  lemma JoinedFits(h: Half, field: Field)
    requires Fitting(h) && (field.Fits? ==> field.code < 128)
    ensures Fitting(JoinTime(h, field).half) && JoinTime(h, field).above < BIT_32
  {
    BitsAre();
    match field
    case Fits(_) =>
    case Saturates => OrSplits(h.rest, 0, 1, 0, 8);
    case Spills(exponent, quarters) =>
      OrSplits(h.rest, 0, exponent / 128 % 256, 0, 8);
      OrSplits(32 * quarters, 0, exponent % 128, 0, 7);
  }

  lemma NewHalfFits(before: Half, setting: Option<Setting>, units: Units)
    requires Fitting(before)
    ensures var h := NewHalf(before, setting, units);
            h.Some? ==> Fitting(h.value.half) && h.value.above < BIT_32
  {
    var watts := if setting.Some? then setting.value.power else FromUnits(before.power as real, units.power);
    var seconds := if setting.Some? then setting.value.seconds else FromUnits(ToProduct(before.time), units.time);
    var power, field := PowerField(watts, units.power), FromProduct(InUnits(seconds, units.time));
    FitsExactlyBetween(InUnits(seconds, units.time));
    hide InUnits, FromUnits, FromProduct, PowerField, ToProduct, JoinTime;
    if 0 <= power < BIT_15 {
      JoinedFits(before.(power := power, enabled := before.enabled || setting.Some?), field);
    }
  }

  lemma LockingIsOr(h: Half)
    requires Fitting(h)
    ensures Fitting(WithLock(h, true)) && HalfWord(WithLock(h, true)) == Or(HalfWord(h), 0x8000_0000)
  {
    var top := Half(0, false, false, 0, LOCK);
    JoinHalvesIsOr(h, top);
    OrZero(h.power);
    OrZero(h.time);
    hide Or;
  }

  lemma OrReaches(a: nat, b: nat)
    requires a < 256 && LOCK <= b < 256
    ensures LOCK <= Or(a, b) < 256
  {
    BitsAre();
    OrSplits(a, 0, b, 0, 8);
    OrSplits(a % 128, a / 128, b % 128, b / 128, 7);
    OrBits(a / 128 == 1, b / 128 == 1);
    hide Or, Pow2;
  }

  lemma BuiltHalfIsSet(before: Half, power: int, product: real)
    requires Fitting(before) && Float(product)
    ensures var built := BuildHalf(before, true, power, product);
            && (built.Some? <==> 0 <= power < BIT_15)
            && (built.Some? ==>
                  var h, above := built.value.half, built.value.above;
                  && Fitting(h) && h.power == power && h.enabled && h.clamp == before.clamp
                  && (FromProduct(product).Fits? ==> FromProduct(product) == Fits(h.time))
                  && (!Tiny(product) ==>
                        above == 0 && (h.rest == before.rest <==> product < CEILING || before.rest % 2 == 1)
                        && (before.rest < LOCK ==> h.rest < LOCK))
                  && (Tiny(product) ==> above == BIT_32 - 1 && h.rest >= LOCK))
  {
    FitsExactlyBetween(product);
    OrLowest(before.rest);
    var field := FromProduct(product);
    if field.Spills? {
      TinyExponentIsBounded(product);
      SpilledOnes(field.exponent);
      OrReaches(before.rest, field.exponent / 128 % 256);
      BitsAre();
      OrSplits(32 * field.quarters, 0, field.exponent % 128, 0, 7);
    }
    hide Or, Best, Pow, Pow2, FromProduct;
  }

  // A half that is asked for takes its power, and the code of its window if that has one; its reserved bits then stay.
  // A longer window costs the lowest of them, unless that is set already. One too short for any code sets the top one,
  // and every bit of the word above.
  lemma AskedHalfIsSet(before: Half, setting: Setting, units: Units)
    requires Fitting(before) && Float(InUnits(setting.seconds, units.time))
    ensures var product, power := InUnits(setting.seconds, units.time), PowerField(setting.power, units.power);
            var asked := NewHalf(before, Some(setting), units);
            && (asked.Some? <==> power < BIT_15)
            && (asked.Some? ==>
                  var h, above := asked.value.half, asked.value.above;
                  && Fitting(h) && h.power == power && h.enabled && h.clamp == before.clamp
                  && (FromProduct(product).Fits? ==> FromProduct(product) == Fits(h.time))
                  && (!Tiny(product) ==>
                        above == 0 && (h.rest == before.rest <==> product < CEILING || before.rest % 2 == 1)
                        && (before.rest < LOCK ==> h.rest < LOCK))
                  && (Tiny(product) ==> above == BIT_32 - 1 && h.rest >= LOCK))
  {
    var power := PowerField(setting.power, units.power);
    assert power >= 0 by { NotNegativeField(setting.power, units.power); }
    hide InUnits, BuildHalf, FromProduct, Float, PowerField;
    BuiltHalfIsSet(before, power, InUnits(setting.seconds, units.time));
  }

  // The field is the greatest whole number of units not above the watts asked for.
  lemma PowerFieldIsWhole(watts: Positive, unit: Positive, field: int)
    ensures PowerField(watts, unit) == field <==> field as real <= watts * unit < (field + 1) as real
  {
  }

  lemma NotNegativeField(watts: Positive, unit: Positive)
    ensures PowerField(watts, unit) >= 0
  {
    TimeWindowSpec.Positive(watts, unit);
  }

  // --- The register ---

  lemma JoiningNothing(h: Half)
    ensures JoinHalves(h, ParseHalf(0)) == h
  {
    OrZero(h.power);
    OrZero(h.time);
    OrZero(h.rest);
  }

  lemma AllOnesParse()
    ensures ParseHalf(BIT_32 - 1) == ALL_ONES
  {
  }

  lemma JoiningEverything(h: Half)
    requires Fitting(h)
    ensures JoinHalves(h, ParseHalf(BIT_32 - 1)) == ALL_ONES
  {
    hide Or;
    AllOnesParse();
    BitsAre();
    OrAllOnes(h.power, 15);
    OrAllOnes(h.time, 7);
    OrAllOnes(h.rest, 8);
    hide ParseHalf, Pow2;
  }

  lemma LockOnTop(h: Half, lock: bool)
    requires Fitting(h) && h.rest < LOCK
    ensures WithLock(h, lock) == if lock then h.(rest := h.rest + LOCK) else h
  {
    BitsAre();
    OrSplits(h.rest, 0, 0, 1, 7);
    OrZero(h.rest);
    OrZero(1);
  }

  lemma AllOnesStays(lock: bool)
    ensures WithLock(ALL_ONES, lock) == ALL_ONES
  {
    BitsAre();
    OrSplits(127, 1, 0, 1, 7);
    OrZero(127);
    OrBits(true, true);
  }

  // Setting the long-term half goes through exactly when the register is not locked and the power fits. It keeps every
  // bit of the short-term half, and the lock as it is asked to be, exactly when the time code there is not the longest
  // and the window here not too short; one too short sets every bit of the short-term half, the lock among them.
  lemma ShortHalfIsKept(before: Register, setting: Setting, lock: bool, units: Units)
    requires Fitting(before.long) && Fitting(before.short) && Float(InUnits(setting.seconds, units.time))
    ensures var outcome := SetPowerLimit(before, Some(setting), None, lock, units);
            var product := InUnits(setting.seconds, units.time);
            && (outcome.Written? <==> !IsLocked(before) && PowerField(setting.power, units.power) < BIT_15)
            && (outcome.Written? ==>
                  var short := outcome.register.short;
                  && (Tiny(product) ==> short == ALL_ONES)
                  && (!Tiny(product) ==> (short == WithLock(before.short, lock) <==> before.short.time != 127)
                                         && (IsLocked(outcome.register) <==> lock)))
  {
    UnaskedHalfIsKept(before.short, units);
    AskedHalfIsSet(before.long, setting, units);
    var short1, long1 := NewHalf(before.short, None, units), NewHalf(before.long, Some(setting), units);
    JoiningNothing(short1.value.half);
    JoiningEverything(short1.value.half);
    AllOnesStays(lock);
    if !IsLocked(before) {
      LockOnTop(short1.value.half, lock);
      LockOnTop(before.short, lock);
    }
    hide NewHalf, Tiny, Float, InUnits, PowerField, WithLock, JoinHalves, FromProduct;
  }

  // Setting the short-term half keeps every bit of the long-term half exactly when the time code there is not the
  // longest; a window too short sets the lock.
  lemma LongHalfIsKept(before: Register, setting: Setting, lock: bool, units: Units)
    requires Fitting(before.long) && Fitting(before.short) && Float(InUnits(setting.seconds, units.time))
    ensures var outcome := SetPowerLimit(before, None, Some(setting), lock, units);
            var product := InUnits(setting.seconds, units.time);
            && (outcome.Written? <==> !IsLocked(before) && PowerField(setting.power, units.power) < BIT_15)
            && (outcome.Written? ==>
                  && (outcome.register.long == before.long <==> before.long.time != 127)
                  && (IsLocked(outcome.register) <==> lock || Tiny(product)))
  {
    UnaskedHalfIsKept(before.long, units);
    AskedHalfIsSet(before.short, setting, units);
    var short1 := NewHalf(before.short, Some(setting), units);
    if short1.Some? && !IsLocked(before) {
      var h := short1.value.half;
      JoiningNothing(h);
      if h.rest < LOCK {
        LockOnTop(h, lock);
      } else if lock {
        OrReaches(h.rest, LOCK);
      }
    }
    hide NewHalf, Tiny, Float, InUnits, PowerField, JoinHalves, FromProduct, Or;
  }

  // For instance 35 watts for half a millisecond, with the usual units of 1/8 watt and 1/1024 second; the long-term
  // window comes out as the longest there is.
  lemma HalfAMillisecondLocks(before: Register)
    requires Fitting(before.long) && Fitting(before.short) && !IsLocked(before)
    ensures var outcome := SetPowerLimit(before, Some(Setting(35.0, 0.0005)), None, false, Units(8.0, 1024.0));
            outcome.Written? && outcome.register.short == ALL_ONES && IsLocked(outcome.register)
            && outcome.register.long == Half(280, true, before.long.clamp, 127, 255)
  {
    var setting, units := Setting(35.0, 0.0005), Units(8.0, 1024.0);
    assert InUnits(0.0005, 1024.0) == 0.512;
    assert InUnits(35.0, 8.0) == 280.0;
    PowGrows(SMALLEST, -1);
    assert Pow(-1) == 0.5;
    ShortHalfIsKept(before, setting, false, units);
    AskedHalfIsSet(before.long, setting, units);
    HalfAMillisecondSpills(before.long);
    hide NewHalf, JoinHalves;
  }

  lemma HalfAMillisecondSpills(before: Half)
    requires Fitting(before)
    ensures NewHalf(before, Some(Setting(35.0, 0.0005)), Units(8.0, 1024.0))
            == Some(Joined(Half(280, true, before.clamp, 127, 255), BIT_32 - 1))
  {
    assert InUnits(0.0005, 1024.0) == 0.512;
    assert PowerField(35.0, 8.0) == 280;
    BestOfAboutHalf();
    hide Best, InUnits, PowerField;
    assert FromProduct(0.512) == Spills(-1, 1);
    var h := before.(power := 280, enabled := true);
    SpillsEverywhere(h);
    hide FromProduct, JoinTime;
  }

  lemma SpillsEverywhere(h: Half)
    requires Fitting(h)
    ensures JoinTime(h, Spills(-1, 1)) == Joined(h.(time := 127, rest := 255), BIT_32 - 1)
  {
    BitsAre();
    OrAllOnes(h.rest, 8);
    OrAllOnes(32, 7);
    hide Or, Pow2;
    assert -1 / 128 == -1 && -1 % 128 == 127 && -1 % 256 == 255 && -1 / 256 % BIT_32 == BIT_32 - 1;
  }
}

// The write as it runs: the new value is built up bit field by bit field.
module PowerLimit {
  import opened Wrappers
  import opened TimeWindowSpec
  import TimeWindow
  import opened PowerLimitSpec

  method AssembleHalf(h: Half) returns (word: nat)
    ensures word == HalfWord(h)
  {
    word := h.power;
    if h.enabled {
      word := word + BIT_15;
    }
    if h.clamp {
      word := word + BIT_16;
    }
    word := word + BIT_17 * h.time + BIT_24 * h.rest;
  }

  method RenewHalf(before: Half, setting: Option<Setting>, units: Units) returns (half: Option<Joined>)
    ensures half == NewHalf(before, setting, units)
  {
    hide InUnits, FromUnits, FromProduct, ToProduct;
    var enabled, watts := before.enabled, FromUnits(before.power as real, units.power);
    var seconds := FromUnits(ToProduct(before.time), units.time);
    if setting.Some? {
      enabled, watts, seconds := true, setting.value.power, setting.value.seconds;
    }
    var power := PowerField(watts, units.power);
    if power < 0 || power >= BIT_15 {
      return None;
    }
    var field := TimeWindow.FromUnits(InUnits(seconds, units.time));
    return Some(JoinTime(before.(power := power, enabled := enabled), field));
  }

  method WritePowerLimit(word: nat, long: Option<Setting>, short: Option<Setting>, lock: bool, units: Units)
    returns (outcome: Outcome, word1: nat)
    requires word < 0x1_0000_0000_0000_0000
    ensures outcome == SetPowerLimit(ParseRegister(word), long, short, lock, units)
    ensures word1 == if outcome.Written? then RegisterWord(outcome.register) else word
  {
    var before := ParseRegister(word);
    WordsAreHalves(word % BIT_32);
    WordsAreHalves(word / BIT_32);
    hide InUnits, FromUnits;
    if IsLocked(before) {
      return Locked, word;
    }
    var short1 := RenewHalf(before.short, short, units);
    if short1.None? {
      return OutOfRange, word;
    }
    var long1 := RenewHalf(before.long, long, units);
    if long1.None? {
      return OutOfRange, word;
    }
    ghost var upper := JoinHalves(short1.value.half, ParseHalf(long1.value.above));
    NewHalfFits(before.short, short, units);
    NewHalfFits(before.long, long, units);
    WordsAreHalves(long1.value.above);
    JoinHalvesIsOr(short1.value.half, ParseHalf(long1.value.above));
    LockingIsOr(upper);
    hide HalfWord, ParseHalf, Or, NewHalf;
    var low := AssembleHalf(long1.value.half);
    var high := AssembleHalf(short1.value.half);
    high := Or(high, long1.value.above);
    if lock {
      high := Or(high, 0x8000_0000);
    }
    word1 := low + BIT_32 * high;
    outcome := SetPowerLimit(before, long, short, lock, units);
  }
}

// RAPL time windows of 2^Y * (1 + Z/4) units, as a seven-bit code (main.go; Intel SDM volume 3B, "Package RAPL
// Domain"). `product` is a window in units; reals stand for floating point.
module TimeWindowSpec {
  import opened Wrappers

  type Quarters = z: nat | z < 4

  datatype Code = Code(exponent: int, quarters: Quarters)

  const CEILING: real := 3758096384.0

  const FIRST_ERROR: real := 1000000000.0

  function Pow(e: int): (r: real)
    ensures r > 0.0
    decreases if e < 0 then -e else e
  {
    if e == 0 then 1.0 else if e > 0 then 2.0 * Pow(e - 1) else Pow(e + 1) / 2.0
  }

  // x * (1 + Z/4)
  function Times(x: real, z: Quarters): real {
    match z
    case 0 => x
    case 1 => x * 1.25
    case 2 => x * 1.5
    case 3 => x * 1.75
  }

  // x / (1 + Z/4)
  function Over(x: real, z: Quarters): (r: real)
    ensures x > 0.0 ==> r > 0.0
  {
    match z
    case 0 => x
    case 1 => x / 1.25
    case 2 => x / 1.5
    case 3 => x / 1.75
  }

  function Window(c: Code): real { Times(Pow(c.exponent), c.quarters) }

  function Abs(x: real): real { if x < 0.0 then -x else x }

  function Max(a: real, b: real): real { if a < b then b else a }

  function Error(product: real, c: Code): real { Abs(Window(c) - product) }

  predicate Representable(c: Code) { 0 <= c.exponent <= 31 }

  // The whole part of the binary logarithm.
  function FloorLog(v: real): nat
    requires v >= 1.0
    decreases v.Floor
  {
    if v < 2.0 then 0 else 1 + FloorLog(v / 2.0)
  }

  // Go's int() of it cuts towards zero.
  function TruncatedLog(v: real): int
    requires v > 0.0
  {
    if v >= 1.0 then FloorLog(v) else 0 - FloorLog(Inverse(v))
  }

  function Inverse(v: real): real
    requires 0.0 < v < 1.0
    ensures Inverse(v) >= 1.0
  {
    InverseIsLarge(v);
    1.0 / v
  }

  lemma Positive(a: real, b: real)
    requires a > 0.0 && b > 0.0
    ensures a * b > 0.0
  {
  }

  lemma NotNegative(a: real, x: real)
    requires a > 0.0 && a * x >= 0.0
    ensures x >= 0.0
  {
  }

  lemma InverseIsLarge(v: real)
    requires 0.0 < v < 1.0
    ensures 1.0 / v >= 1.0 && (v > 0.5 ==> 1.0 / v < 2.0) && (v <= 0.5 ==> 1.0 / v >= 2.0)
  {
    var w := 1.0 / v;
    assert w * v == 1.0;
    assert w > 0.0;
    Positive(w, 1.0 - v);
    assert w - 1.0 == w * (1.0 - v);
    if v > 0.5 {
      Positive(w, v - 0.5);
      assert 1.0 - 0.5 * w == w * (v - 0.5);
    } else {
      assert 0.5 * w - 1.0 == w * (0.5 - v);
    }
  }

  function NearestExponent(v: real): int
    requires v > 0.0
  {
    var e := TruncatedLog(v);
    var rounded := if v - Pow(e) >= Pow(e + 1) - v then e + 1 else e;
    if rounded > 31 then 31 else rounded
  }

  function Candidate(product: real, z: Quarters): Code
    requires product > 0.0
  {
    Code(NearestExponent(Over(product, z)), z)
  }

  // The best so far, and then each remaining Z that does strictly better.
  function BestFrom(product: real, z: nat, least: real, best: Code): Code
    requires product > 0.0 && z <= 4
    decreases 4 - z
  {
    if z == 4 then best
    else
      var c := Candidate(product, z);
      if Error(product, c) < least then BestFrom(product, z + 1, Error(product, c), c)
      else BestFrom(product, z + 1, least, best)
  }

  function Best(product: real): Code
    requires product > 0.0
  {
    BestFrom(product, 0, FIRST_ERROR, Code(0, 0))
  }

  // What the code becomes once it is cast and shifted: seven bits; the eight bits of the saturated value; or a
  // negative exponent joined with Z, whose sign spills over all higher bits.
  datatype Field = Fits(code: nat) | Saturates | Spills(exponent: int, quarters: Quarters)

  // The logarithm of a negative number is not one, and that of zero is infinite; converted as the processor does, they
  // leave 0 and 1 in the field and nothing above it.
  function FromProduct(product: real): Field {
    if product < 0.0 then Fits(0)
    else if product == 0.0 then Fits(1)
    else if product >= CEILING then Saturates
    else FieldOf(Best(product))
  }

  function FieldOf(c: Code): Field {
    if c.exponent < 0 then Spills(c.exponent, c.quarters) else Fits(c.quarters * 32 + c.exponent)
  }

  function CodeOf(word: nat): Code { Code(word % 32, word / 32 % 4) }

  // The window a code stands for, in units.
  function ToProduct(word: nat): real { Window(CodeOf(word)) }

  // The low five bits are the exponent, and the two above them quarters on top of one; powers of two double.
  lemma WindowOfCode(word: nat)
    requires word < 128
    ensures var power := Pow(word % 32);
            ToProduct(word) == if word < 32 then power
                               else if word < 64 then power * 1.25 else if word < 96 then power * 1.5 else power * 1.75
    ensures Pow(0) == 1.0 && forall e: nat :: Pow(e + 1) == 2.0 * Pow(e)
  {
    assert word / 32 % 4 == word / 32;
  }

  // --- Powers and logarithms ---

  lemma PowDoubles(e: int)
    ensures Pow(e + 1) == 2.0 * Pow(e)
  {
  }

  lemma {:induction false} PowGrows(a: int, b: int)
    requires a <= b
    ensures Pow(a) <= Pow(b) && (a < b ==> 2.0 * Pow(a) <= Pow(b))
    decreases b - a
  {
    if a < b {
      PowDoubles(b - 1);
      PowGrows(a, b - 1);
    }
  }

  lemma {:induction false} FloorLogBrackets(v: real)
    requires v >= 1.0
    ensures Pow(FloorLog(v)) <= v < Pow(FloorLog(v) + 1)
    decreases v.Floor
  {
    if v >= 2.0 {
      FloorLogBrackets(v / 2.0);
    }
  }

  lemma {:induction false} PowAdds(a: nat, b: nat)
    ensures Pow(a + b) == Pow(a) * Pow(b)
  {
    if b > 0 {
      PowAdds(a, b - 1);
      assert Pow(a + b) == 2.0 * (Pow(a) * Pow(b - 1)) == Pow(a) * (2.0 * Pow(b - 1));
    }
  }

  lemma CeilingIs()
    ensures Pow(31) == 2147483648.0 && Pow(32) == 4294967296.0
  {
    assert Pow(8) == 256.0;
    PowAdds(8, 8);
    PowAdds(16, 8);
    PowAdds(24, 7);
    assert Pow(7) == 128.0;
    PowDoubles(31);
  }

  lemma {:induction false} PowInverse(e: nat)
    ensures Pow(e) * Pow(0 - e) == 1.0
  {
    if e > 0 {
      PowInverse(e - 1);
      assert Pow(0 - e) == Pow(1 - e) / 2.0;
      assert Pow(e) * Pow(0 - e) == 2.0 * Pow(e - 1) * (Pow(1 - e) / 2.0) == Pow(e - 1) * Pow(1 - e);
    }
  }

  lemma SmallInverse(v: real)
    requires 0.5 < v < 1.0
    ensures TruncatedLog(v) == 0
  {
    InverseIsLarge(v);
  }

  // --- The nearest code ---

  // No exponent in range comes closer.
  lemma TruncatedLogIsBelow(v: real)
    requires 0.5 < v < Pow(32)
    ensures 0 <= TruncatedLog(v) <= 31 && v < Pow(TruncatedLog(v) + 1)
    ensures if v < 1.0 then TruncatedLog(v) == 0 else Pow(TruncatedLog(v)) <= v
  {
    if v < 1.0 {
      SmallInverse(v);
    } else {
      FloorLogBrackets(v);
      if FloorLog(v) > 31 {
        PowGrows(32, FloorLog(v));
      }
    }
  }

  lemma NearestExponentIsNearest(v: real, e: int)
    requires 0.5 < v < Pow(32) && 0 <= e <= 31
    ensures 0 <= NearestExponent(v) <= 31
    ensures Abs(Pow(NearestExponent(v)) - v) <= Abs(Pow(e) - v)
  {
    var low := TruncatedLog(v);
    TruncatedLogIsBelow(v);
    PowDoubles(low);
    hide TruncatedLog, FloorLog;
    if e <= low {
      PowGrows(e, low);
    } else {
      PowGrows(low + 1, e);
    }
    hide Pow;
  }

  lemma TimesScalesErrors(x: real, y: real, product: real, z: Quarters)
    requires Abs(x - Over(product, z)) <= Abs(y - Over(product, z))
    ensures Abs(Times(x, z) - product) <= Abs(Times(y, z) - product)
  {
  }

  lemma CandidateIsNearest(product: real, e: int, z: Quarters)
    requires 0.875 < product < CEILING && 0 <= e <= 31
    ensures var c := Candidate(product, z);
            Representable(c) && Error(product, c) <= Error(product, Code(e, z))
  {
    var v := Over(product, z);
    CeilingIs();
    assert 0.5 < v < Pow(32);
    NearestExponentIsNearest(v, e);
    hide Pow, NearestExponent;
    TimesScalesErrors(Pow(NearestExponent(v)), Pow(e), product, z);
  }

  // The best is what it started from or a candidate that does better, and no candidate it passed does better still.
  lemma {:induction false} BestIsLeast(product: real, from: nat, least: real, best: Code, z: nat)
    requires product > 0.0 && from <= 4
    ensures var c := BestFrom(product, from, least, best);
            && (c == best || (from <= c.quarters && c == Candidate(product, c.quarters) && Error(product, c) < least))
            && (from <= z < 4 ==>
                  Error(product, c) <= Error(product, Candidate(product, z))
                  || least <= Error(product, Candidate(product, z)))
    decreases 4 - from
  {
    hide Error, NearestExponent, Over;
    if from < 4 {
      var c := Candidate(product, from);
      if Error(product, c) < least {
        BestIsLeast(product, from + 1, Error(product, c), c, z);
      } else {
        BestIsLeast(product, from + 1, least, best, z);
      }
    }
  }

  // Some code is within an eighth: of the window, or of one unit if the window is shorter.
  lemma NearCodeExists(product: real) returns (c: Code)
    requires 0.875 < product < CEILING
    ensures Representable(c) && Error(product, c) <= Max(1.0, product) / 8.0
  {
    if product < 1.0 {
      return Code(0, 0);
    }
    var e := FloorLog(product);
    FloorLogBrackets(product);
    CeilingIs();
    if e > 31 {
      PowGrows(32, e);
    }
    PowDoubles(e);
    hide Pow, FloorLog;
    var low := Pow(e);
    c := if product < 1.125 * low then Code(e, 0) else if product < 1.375 * low then Code(e, 1)
         else if product < 1.625 * low then Code(e, 2) else if product < 1.875 * low then Code(e, 3)
         else Code(e + 1, 0);
  }

  // Every candidate is as near as any code with its Z, so the best is as near as any code at all.
  lemma BestIsNearest(product: real, c: Code)
    requires 0.875 < product < CEILING && Representable(c)
    ensures var best := Best(product);
            && Representable(best)
            && Error(product, best) <= Error(product, c)
            && Error(product, best) <= Max(1.0, product) / 8.0
  {
    var near := NearCodeExists(product);
    var best := Best(product);
    assert Max(1.0, product) / 8.0 < FIRST_ERROR;
    hide Error, Candidate, Max;
    BestIsLeast(product, 0, FIRST_ERROR, Code(0, 0), near.quarters);
    BestIsLeast(product, 0, FIRST_ERROR, Code(0, 0), c.quarters);
    CandidateIsNearest(product, near.exponent, near.quarters);
    CandidateIsNearest(product, c.exponent, c.quarters);
    if best != Code(0, 0) {
      CandidateIsNearest(product, 0, best.quarters);
    }
  }

  // --- Too short ---

  // Parts of a unit are always rounded up, to an exponent that is not positive.
  lemma TinyExponent(v: real)
    requires 0.0 < v < 1.0
    ensures NearestExponent(v) <= 0 && v <= Pow(NearestExponent(v))
    ensures v <= 0.5 ==> NearestExponent(v) < 0
  {
    var w := Inverse(v);
    var e: int := FloorLog(w);
    InverseIsLarge(v);
    FloorLogBrackets(w);
    assert w * v == 1.0;
    PowInverse(e);
    var p, q := Pow(e), Pow(0 - e);
    NotLarger(p, q, v, w);
    PowDoubles(0 - e);
  }

  lemma NotLarger(p: real, q: real, v: real, w: real)
    requires 0.0 < p <= w && v > 0.0 && w * v == 1.0 && p * q == 1.0
    ensures v <= q
  {
    assert p * v <= w * v;
    assert p * (q - v) == p * q - p * v;
    NotNegative(p, q - v);
  }

  lemma WholeWindow(c: Code)
    ensures c.exponent >= 0 ==> Window(c) >= 1.0
    ensures c.exponent < 0 ==> Window(c) <= Times(0.5, c.quarters)
  {
    assert Pow(0) == 1.0 && Pow(-1) == 0.5;
    if c.exponent >= 0 {
      PowGrows(0, c.exponent);
    } else {
      PowGrows(c.exponent, -1);
    }
  }

  lemma TinyCandidate(product: real, z: Quarters)
    requires 0.0 < product < 1.0
    ensures var c := Candidate(product, z);
            c.exponent <= 0 && Window(c) >= product && (Over(product, z) <= 0.5 ==> c.exponent < 0)
  {
    TinyExponent(Over(product, z));
    hide Pow, NearestExponent;
  }

  // Up to seven eighths of a unit the best candidate has a negative exponent.
  lemma TinyWindowSpills(product: real)
    requires 0.0 < product <= 0.875
    ensures Best(product).exponent < 0
  {
    var best, third := Best(product), Candidate(product, 3);
    TinyCandidate(product, 3);
    WholeWindow(third);
    WholeWindow(best);
    BestIsLeast(product, 0, FIRST_ERROR, Code(0, 0), 3);
    if best != Code(0, 0) {
      TinyCandidate(product, best.quarters);
    }
    hide Pow, Window, NearestExponent, Candidate, Best;
  }

  // The least positive number of the source's floating point.
  const SMALLEST: int := -1074

  // Its exponent is not arbitrarily low.
  lemma TinyExponentIsBounded(product: real)
    requires Tiny(product) && Pow(SMALLEST) <= product
    ensures SMALLEST - 1 <= Best(product).exponent < 0
  {
    var best := Best(product);
    TinyWindowSpills(product);
    BestIsLeast(product, 0, FIRST_ERROR, Code(0, 0), 3);
    var v := Over(product, best.quarters);
    TinyExponent(v);
    PowDoubles(SMALLEST - 1);
    if best.exponent < SMALLEST - 1 {
      PowGrows(best.exponent, SMALLEST - 1);
    }
    hide Pow, NearestExponent, Best, BestFrom;
  }

  // --- Main results ---

  // Longer than nothing, and too short for any code.
  predicate Tiny(product: real) { 0.0 < product <= 0.875 }

  // A window spills exactly when it is too short, and saturates exactly when it is too long.
  lemma QuarterInverse(v: real)
    requires 0.25 < v <= 0.5
    ensures TruncatedLog(v) == -1
  {
    var w := Inverse(v);
    InverseIsLarge(v);
    assert w * v == 1.0;
    Positive(w, v - 0.25);
    assert 1.0 - 0.25 * w == w * (v - 0.25);
    assert FloorLog(w) == 1 + FloorLog(w / 2.0);
    assert FloorLog(w / 2.0) == 0;
  }

  // About half a unit comes nearest to half of one and a quarter.
  lemma BestOfAboutHalf()
    ensures Best(0.512) == Code(-1, 1)
  {
    assert Pow(-1) == 0.5 && Pow(0) == 1.0;
    SmallInverse(0.512);
    QuarterInverse(0.512 / 1.25);
    QuarterInverse(0.512 / 1.5);
    QuarterInverse(0.512 / 1.75);
    hide TruncatedLog;
    assert Candidate(0.512, 0) == Code(0, 0) && Candidate(0.512, 1) == Code(-1, 1);
    assert Candidate(0.512, 2) == Code(-1, 2) && Candidate(0.512, 3) == Code(-1, 3);
    assert Error(0.512, Code(0, 0)) == 0.488 && Error(0.512, Code(-1, 1)) == 0.113;
    assert Error(0.512, Code(-1, 2)) == 0.238 && Error(0.512, Code(-1, 3)) == 0.363;
    hide Candidate, Error;
  }

  lemma FitsExactlyBetween(product: real)
    ensures FromProduct(product).Spills? <==> Tiny(product)
    ensures FromProduct(product).Saturates? <==> product >= CEILING
    ensures FromProduct(product).Fits? ==> FromProduct(product).code < 128
    ensures FromProduct(product).Spills? ==> FromProduct(product).exponent < 0
    ensures product <= 0.0 ==> FromProduct(product) == Fits(if product < 0.0 then 0 else 1)
  {
    hide Best;
    if Tiny(product) {
      TinyWindowSpills(product);
    } else if 0.0 < product < CEILING {
      BestIsNearest(product, Code(0, 0));
    }
  }

  // The code is as near as any of the 128, and within an eighth of the window or of one unit.
  lemma FromProductIsNearest(product: real, word: nat)
    requires 0.875 < product < CEILING && word < 128
    ensures var field := FromProduct(product);
            && field.Fits? && field.code < 128
            && Abs(ToProduct(field.code) - product) <= Abs(ToProduct(word) - product)
            && Abs(ToProduct(field.code) - product) <= Max(1.0, product) / 8.0
  {
    BestIsNearest(product, CodeOf(word));
    FieldHolds(Best(product));
    assert Representable(CodeOf(word));
    hide Best, Window, Abs, Max, CodeOf;
  }

  lemma FieldHolds(c: Code)
    requires Representable(c)
    ensures FieldOf(c).Fits? && FieldOf(c).code < 128 && CodeOf(FieldOf(c).code) == c
  {
    var word := c.quarters * 32 + c.exponent;
    assert word % 32 == c.exponent && word / 32 == c.quarters;
  }

  lemma WindowIsLess(a: Code, b: Code)
    requires a.exponent < b.exponent || (a.exponent == b.exponent && a.quarters < b.quarters)
    ensures Window(a) < Window(b)
  {
    PowGrows(a.exponent, b.exponent);
    hide Pow;
  }

  lemma WindowsDiffer(a: Code, b: Code)
    requires Window(a) == Window(b)
    ensures a == b
  {
    hide Window;
    if a.exponent < b.exponent || (a.exponent == b.exponent && a.quarters < b.quarters) {
      WindowIsLess(a, b);
    } else if a != b {
      WindowIsLess(b, a);
    }
  }

  lemma WindowIsInRange(word: nat)
    requires word < 128
    ensures word != 127 ==> ToProduct(word) < CEILING
    ensures ToProduct(127) == CEILING
    ensures ToProduct(word) >= 1.0
  {
    CeilingIs();
    var c := CodeOf(word);
    assert word == c.quarters * 32 + c.exponent;
    WholeWindow(c);
    if word != 127 {
      WindowIsLess(c, Code(31, 3));
    }
  }

  lemma CodeHolds(word: nat)
    requires word < 128
    ensures Representable(CodeOf(word)) && FieldOf(CodeOf(word)) == Fits(word)
  {
    assert word == word / 32 * 32 + word % 32;
  }

  // Every code but the longest comes back from the window it stands for.
  lemma CodesRoundTrip(word: nat)
    requires word < 128
    ensures ToProduct(word) > 0.0 && (FromProduct(ToProduct(word)) == Fits(word) <==> word != 127)
  {
    WindowIsInRange(word);
    WindowIsInRange(127);
    CodeHolds(word);
    hide Window, Best, CodeOf, FieldOf;
    if word != 127 {
      var product, c := ToProduct(word), CodeOf(word);
      BestIsNearest(product, c);
      WindowsDiffer(Best(product), c);
    }
  }
}

// The search as it runs: four values of Z, each with its nearest exponent, and the least error so far.
module TimeWindow {
  import opened TimeWindowSpec

  method FromSeconds(value: real, unit: real) returns (field: Field)
    ensures field == FromProduct(value * unit)
  {
    field := FromUnits(value * unit);
  }

  method FromUnits(product: real) returns (field: Field)
    ensures field == FromProduct(product)
  {
    if product <= 0.0 {
      return if product < 0.0 then Fits(0) else Fits(1);
    }
    if product >= CEILING {
      return Saturates;
    }
    hide Over, NearestExponent, Error;
    var least := FIRST_ERROR;
    var best := Code(0, 0);
    for z := 0 to 4
      invariant BestFrom(product, z, least, best) == Best(product)
    {
      var exponent := RoundExponent(Over(product, z));
      var error := Error(product, Code(exponent, z));
      if error < least {
        least, best := error, Code(exponent, z);
      }
    }
    return FieldOf(best);
  }

  method RoundExponent(v: real) returns (exponent: int)
    requires v > 0.0
    ensures exponent == NearestExponent(v)
  {
    exponent := TruncatedLog(v);
    if v - Pow(exponent) >= Pow(exponent + 1) - v {
      exponent := exponent + 1;
    }
    if exponent > 31 {
      exponent := 31;
    }
  }

  method ToSeconds(word: nat, unit: real) returns (seconds: real)
    requires unit > 0.0
    ensures seconds * unit == ToProduct(word)
  {
    hide Window, CodeOf;
    var product := Window(CodeOf(word));
    seconds := product / unit;
  }
}

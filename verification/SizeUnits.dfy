/** Sizes of fills and settlements between doubles and units of 1e-8: how the producer of settlements
    scales a size up to units, and what a number of units divided by 1e8 prints as.

    A number is known by its text; the double that the text stands for is the closest one. */
module SizeUnits {
  import opened Prelude
  import opened Doubles
  import RealSums

  const UNITS: real := 100_000_000.0

  /** The double written 1e-6. */
  const MICRO: real := 4_722_366_482_869_645.0 / 4_722_366_482_869_645_213_696.0

  lemma NearestIsPositive(x: real)
    requires x > 0.0
    ensures Nearest(x) > 0.0
  {
    NearestRelative(x);
  }

  /** The product of the double x stands for and 1e8. */
  function Scaled(x: real): (scaled: real)
    requires x > 0.0
    ensures scaled > 0.0
  {
    NearestIsPositive(x);
    NearestIsPositive(Nearest(x) * UNITS);
    Nearest(Nearest(x) * UNITS)
  }

  /** toFixedUnits of a positive number: none where it throws. Subtracting the rounded product from
      the product is exact, as the two are close. */
  function ScaledUnits(x: real): Option<int>
    requires x > 0.0
  {
    var rounded := RealSums.Round(Scaled(x));
    var off := Scaled(x) - rounded as real;
    if !IsSafeInteger(rounded) || off > MICRO || -off > MICRO then None else Some(rounded)
  }

  function SizeOf(units: nat): real {
    units as real / UNITS
  }

  /** A size of so many units is scaled up to as many. */
  predicate IsReadBack(units: nat)
    requires units > 0
  {
    ScaledUnits(SizeOf(units)) == Some(units)
  }

  lemma CloseIsReadBack(units: nat)
    requires 0 < units <= MAX_SAFE_INTEGER
    requires -MICRO <= Scaled(SizeOf(units)) - units as real <= MICRO
    ensures IsReadBack(units)
  {
    assert RealSums.Round(Scaled(SizeOf(units))) == units;
  }

  // ----- sizes that are doubles themselves

  function Doubled(n: int, k: nat): int {
    if k == 0 then n else 2 * Doubled(n, k - 1)
  }

  lemma HalvesTwice(m: real, p: real, q: real)
    requires p == 2.0 * q
    ensures 2.0 * m * q == m * p
  {
  }

  lemma {:induction false} DoubledBack(n: int, e: int)
    requires e <= 52
    ensures IsMultiple(n as real, Ulp(e), Doubled(n, 52 - e))
    decreases 52 - e
  {
    if e == 52 {
      UlpValues();
    } else {
      DoubledBack(n, e + 1);
      Pow2Next(e - 52);
      HalvesTwice(Doubled(n, 51 - e) as real, Ulp(e + 1), Ulp(e));
    }
  }

  lemma SafeExponent(x: real)
    requires 1.0 <= x < TWO_53
    ensures 0 <= Exponent(x) <= 52
  {
    var e := Exponent(x);
    Pow2Values();
    if e >= 53 {
      Pow2Monotone(53, e);
    } else if e < 0 {
      Pow2Monotone(e + 1, 0);
    }
  }

  /** Safe integers are doubles. */
  lemma IntegerIsDouble(n: int, x: real)
    requires 0 < n <= MAX_SAFE_INTEGER && x == n as real
    ensures Nearest(x) == x
  {
    SafeExponent(x);
    DoubledBack(n, Exponent(x));
    MultipleIsDouble(x, Exponent(x), Doubled(n, 52 - Exponent(x)));
  }

  /** A size that is a double exactly is read back. */
  lemma ExactIsReadBack(units: nat)
    requires 0 < units <= MAX_SAFE_INTEGER && Nearest(SizeOf(units)) == SizeOf(units)
    ensures IsReadBack(units)
  {
    assert SizeOf(units) * UNITS == units as real;
    IntegerIsDouble(units, units as real);
    CloseIsReadBack(units);
  }

  /** In particular every whole number of contracts is. */
  lemma WholeIsReadBack(contracts: nat)
    requires 0 < contracts && contracts * 100_000_000 <= MAX_SAFE_INTEGER
    ensures IsReadBack(contracts * 100_000_000)
  {
    assert SizeOf(contracts * 100_000_000) == contracts as real;
    IntegerIsDouble(contracts, contracts as real);
    ExactIsReadBack(contracts * 100_000_000);
  }

  // ----- small sizes

  /** Up to 45 contracts, two relative errors of 2^-53 are within the tolerance. */
  lemma SmallIsReadBack(units: nat)
    requires 0 < units <= 4_503_599_000
    ensures IsReadBack(units)
  {
    NearestRelative(SizeOf(units));
    NearestIsPositive(SizeOf(units));
    NearestRelative(Nearest(SizeOf(units)) * UNITS);
    CloseIsReadBack(units);
  }

  /** Below 128 contracts the size is off by at most 2^-47. */
  lemma SizeError(units: nat)
    requires 0 < units < 12_800_000_000
    ensures -1.0 / 140_737_488_355_328.0 <= Nearest(SizeOf(units)) - SizeOf(units) <= 1.0 / 140_737_488_355_328.0
  {
    var e := Exponent(SizeOf(units));
    Pow2Values();
    UlpValues();
    if e >= 7 {
      Pow2Monotone(7, e);
    }
    Pow2Monotone(e - 52, 6 - 52);
    NearestError(SizeOf(units));
  }

  /** Multiples of 2^-20: at most one step off. */
  lemma OneStepOff(units: int, p: real, k: int, s: real)
    requires s == k as real * (1.0 / 1_048_576.0)
    requires -1.0 / 2_097_152.0 <= s - p <= 1.0 / 2_097_152.0
    requires -UNITS / 140_737_488_355_328.0 <= p - units as real <= UNITS / 140_737_488_355_328.0
    ensures -MICRO <= s - units as real <= MICRO
  {
    assert -2 < k - units * 1_048_576 < 2;
  }

  /** Multiples of 2^-19: none off. */
  lemma NoStepOff(units: int, p: real, k: int, s: real)
    requires s == k as real * (1.0 / 524_288.0)
    requires -1.0 / 1_048_576.0 <= s - p <= 1.0 / 1_048_576.0
    requires -UNITS / 140_737_488_355_328.0 <= p - units as real <= UNITS / 140_737_488_355_328.0
    ensures s == units as real
  {
    assert -1 < k - units * 524_288 < 1;
  }

  /** Between 45 and 128 contracts the product is among multiples of 2^-20 or 2^-19, and so is the
      number of units. */
  lemma ProductIsClose(units: nat, p: real)
    requires 4_503_599_000 < units < 12_800_000_000
    requires -UNITS / 140_737_488_355_328.0 <= p - units as real <= UNITS / 140_737_488_355_328.0
    ensures p > 0.0 && -MICRO <= Nearest(p) - units as real <= MICRO
  {
    ProductExponent(p);
    UlpValues();
    if Exponent(p) == 32 {
      var k := NearestSteps(p, 1.0 / 1_048_576.0);
      OneStepOff(units, p, k, Nearest(p));
    } else {
      var k := NearestSteps(p, 1.0 / 524_288.0);
      NoStepOff(units, p, k, Nearest(p));
    }
  }

  /** The closest double in steps of the distance of neighbours, off by at most half a step. */
  lemma NearestSteps(p: real, step: real) returns (k: int)
    requires p > 0.0 && step == Ulp(Exponent(p))
    ensures Nearest(p) == k as real * step && -step / 2.0 <= Nearest(p) - p <= step / 2.0
  {
    k := RoundHalfEven(p / step);
    RoundToError(p, step);
    RoundToSteps(p, step, k, RoundTo(p, step));
  }

  lemma RoundToSteps(p: real, step: real, k: int, r: real)
    requires step > 0.0 && k == RoundHalfEven(p / step) && r == RoundTo(p, step)
    ensures r == k as real * step
  {
  }

  lemma MiddleIsReadBack(units: nat)
    requires 4_503_599_000 < units < 12_800_000_000
    ensures IsReadBack(units)
  {
    SizeError(units);
    ProductIsClose(units, Nearest(SizeOf(units)) * UNITS);
    CloseIsReadBack(units);
  }

  lemma ProductExponent(p: real)
    requires 4_503_598_999.0 <= p < 12_800_000_001.0
    ensures Exponent(p) == 32 || Exponent(p) == 33
  {
    Pow2Values();
    if p < Pow2(33) {
      ExponentIs(p, 32);
    } else {
      ExponentIs(p, 33);
    }
  }

  // ----- the least size that is not read back

  /** The double closest to x: r, the multiple m of the distance k of neighbours. */
  lemma NearestIs(x: real, e: int, m: int, k: real, r: real)
    requires x > 0.0 && Pow2(e) <= x < Pow2(e + 1) && k == Ulp(e)
    requires r == m as real * k && -k / 2.0 < x - r < k / 2.0
    ensures Nearest(x) == r
  {
    ExponentIs(x, e);
    RoundToIs(x, k, m, r);
  }

  lemma QuotientBetween(y: real, k: real, m: real, r: real, x: real)
    requires k > 0.0 && y * k == x && r == m * k && -k / 2.0 < x - r < k / 2.0
    ensures m - 0.5 < y < m + 0.5
  {
    HalfMore(m, k);
    assert m * k - k / 2.0 < x < m * k + k / 2.0;
    Below(y, m + 0.5, k);
    Below(m - 0.5, y, k);
  }

  lemma Below(x: real, y: real, k: real)
    requires k > 0.0 && x * k < y * k
    ensures x < y
  {
    if x >= y {
      MulMonotone(k, y, x);
    }
  }

  lemma RoundToIs(x: real, k: real, m: int, r: real)
    requires k > 0.0 && r == m as real * k && -k / 2.0 < x - r < k / 2.0
    ensures RoundTo(x, k) == r
  {
    Quotient(x, k);
    QuotientBetween(x / k, k, m as real, r, x);
    assert RoundHalfEven(x / k) == m;
  }

  /** 128.00000001 */
  lemma LastIsReadBack()
    ensures IsReadBack(12_800_000_001)
  {
    Pow2Values();
    UlpValues();
    var v := 4_503_599_627_722_340.0 / 35_184_372_088_832.0;
    NearestIs(SizeOf(12_800_000_001), 7, 4_503_599_627_722_340, 1.0 / 35_184_372_088_832.0, v);
    NearestIs(v * UNITS, 33, 12_800_000_001 * 524_288, 1.0 / 524_288.0, 12_800_000_001.0);
    CloseIsReadBack(12_800_000_001);
  }

  /** 128.00000002 * 1e8 is 12800000002 - 2^-19. */
  lemma FirstIsRefused()
    ensures ScaledUnits(SizeOf(12_800_000_002)) == None
  {
    Pow2Values();
    UlpValues();
    var v := 4_503_599_628_074_183.0 / 35_184_372_088_832.0;
    NearestIs(SizeOf(12_800_000_002), 7, 4_503_599_628_074_183, 1.0 / 35_184_372_088_832.0, v);
    NearestIs(v * UNITS, 33, 12_800_000_002 * 524_288 - 1, 1.0 / 524_288.0, 12_800_000_002.0 - 1.0 / 524_288.0);
  }

  /** An ordinary size: 319.4 is 2809472111293235 / 2^43, and times 1e8 it is 31940000000 - 2^-18. */
  lemma OrdinaryIsRefused()
    ensures Nearest(319.4) == 2_809_472_111_293_235.0 / 8_796_093_022_208.0
    ensures Scaled(319.4) == 31_940_000_000.0 - 1.0 / 262_144.0
    ensures ScaledUnits(319.4) == None
  {
    Pow2Values();
    UlpValues();
    Pow2Next(34);
    var v := 2_809_472_111_293_235.0 / 8_796_093_022_208.0;
    NearestIs(319.4, 8, 2 * 2_809_472_111_293_235, 1.0 / 17_592_186_044_416.0, v);
    NearestIs(v * UNITS, 34, 31_940_000_000 * 262_144 - 1, 1.0 / 262_144.0, 31_940_000_000.0 - 1.0 / 262_144.0);
  }

  lemma UpToIsReadBack(units: nat)
    requires 0 < units <= 12_800_000_001
    ensures IsReadBack(units)
  {
    if units <= 4_503_599_000 {
      SmallIsReadBack(units);
    } else if units < 12_800_000_000 {
      MiddleIsReadBack(units);
    } else if units == 12_800_000_000 {
      WholeIsReadBack(128);
    } else {
      LastIsReadBack();
    }
  }

  /** Every size up to a bound is read back exactly if the bound is at most 128.00000001. */
  lemma ReadBackUpToIff(bound: nat)
    ensures (forall units: nat :: 0 < units <= bound ==> IsReadBack(units)) <==> bound <= 12_800_000_001
  {
    if bound <= 12_800_000_001 {
      forall units: nat | 0 < units <= bound
        ensures IsReadBack(units)
      {
        UpToIsReadBack(units);
      }
    } else {
      FirstIsRefused();
      assert !IsReadBack(12_800_000_002);
    }
  }

  // ----- what units / 1e8 prints as

  /** Number(units) / 1e8 */
  function Divided(units: nat): (d: real)
    requires units > 0
    ensures d > 0.0
  {
    NearestIsPositive(units as real);
    NearestIsPositive(Nearest(units as real) / UNITS);
    Nearest(Nearest(units as real) / UNITS)
  }

  function Pow10(k: nat): (r: int)
    ensures r > 0
  {
    if k == 0 then 1 else 10 * Pow10(k - 1)
  }

  /** The multiple of 10^k units closest to d. */
  function ClosestMultiple(d: real, k: nat): int {
    RoundHalfEven(d * UNITS / Pow10(k) as real) * Pow10(k)
  }

  /** The decimal of so many units stands for the double d. */
  predicate StandsFor(units: int, d: real) {
    units > 0 && Nearest(units as real / UNITS) == d
  }

  /** Number::toString of d, in units: of the decimals that stand for d one with as few digits as
      possible, and of those the closest to d. So it lies on the coarsest grid 10^k that has one. */
  function Shortest(d: real, k: nat): int {
    var u := ClosestMultiple(d, k);
    if k == 0 || StandsFor(u, d) then u else Shortest(d, k - 1)
  }

  lemma {:induction false} ShortestIsPositive(d: real, k: nat)
    requires d * UNITS >= 0.6
    ensures Shortest(d, k) > 0
  {
    if k == 0 {
      assert Pow10(0) == 1;
    } else {
      ShortestIsPositive(d, k - 1);
    }
  }

  lemma DividedIsClose(units: nat)
    requires units > 0
    ensures Divided(units) * UNITS >= 0.6
  {
    NearestRelative(units as real);
    NearestIsPositive(units as real);
    NearestRelative(Nearest(units as real) / UNITS);
  }

  /** The text of the quotient as a number of units. No text of a number of contracts that the ledger
      can hold has more than 17 digits. */
  function PrintedUnits(units: nat): (printed: nat)
    requires units > 0
    ensures printed > 0
  {
    DividedIsClose(units);
    ShortestIsPositive(Divided(units), 17);
    Shortest(Divided(units), 17)
  }

  /** The quotient prints as the exact decimal. */
  predicate IsPrintedExactly(units: nat)
    requires units > 0
  {
    PrintedUnits(units) == units
  }

  /** 2^26 contracts, in units. */
  const FINE: int := 6_710_886_400_000_000

  lemma DividedOnce(units: nat)
    requires 0 < units <= MAX_SAFE_INTEGER
    ensures Divided(units) == Nearest(SizeOf(units))
  {
    IntegerIsDouble(units, units as real);
  }

  /** Below 2^26 contracts doubles are less than 2^-27 apart. */
  lemma FineError(units: nat)
    requires 0 < units < FINE
    ensures -1.0 / 268_435_456.0 <= Nearest(SizeOf(units)) - SizeOf(units) <= 1.0 / 268_435_456.0
  {
    var e := Exponent(SizeOf(units));
    Pow2Values();
    UlpValues();
    if e >= 26 {
      Pow2Monotone(26, e);
    }
    Pow2Monotone(e - 52, 25 - 52);
    NearestError(SizeOf(units));
  }

  lemma AtLeastMultiple(x: real, k: real, m: int, low: real)
    requires k > 0.0 && IsMultiple(low, k, m) && low <= x
    ensures RoundTo(x, k) >= low
  {
    Quotient(x, k);
    NotBelow(m as real, x / k, k);
    assert RoundHalfEven(x / k) >= m;
    MulMonotone(k, m as real, RoundHalfEven(x / k) as real);
  }

  lemma NotBelow(x: real, y: real, k: real)
    requires k > 0.0 && x * k <= y * k
    ensures x <= y
  {
  }

  /** What is at least 2^26 rounds to at least 2^26. */
  lemma CoarseAtLeast(x: real)
    requires x >= 67_108_864.0
    ensures Nearest(x) >= 67_108_864.0
  {
    var e := Exponent(x);
    Pow2Values();
    if e < 26 {
      Pow2Monotone(e + 1, 26);
    }
    Pow2Monotone(26, e);
    Pow2FiftyThree(e);
    Pow2Next(e - 53);
    AtLeastMultiple(x, Ulp(e), 4_503_599_627_370_496, Pow2(e));
  }

  /** Below 2^26 contracts different numbers of units are different doubles. */
  lemma FineSizesDiffer(units: nat, other: nat)
    requires 0 < units < FINE && 0 < other && Nearest(SizeOf(other)) == Nearest(SizeOf(units))
    ensures other == units
  {
    FineError(units);
    if other < FINE {
      FineError(other);
    } else {
      CoarseAtLeast(SizeOf(other));
    }
  }

  /** The only number of units that d stands for. */
  ghost predicate IsOnly(units: nat, d: real) {
    forall u :: StandsFor(u, d) ==> u == units
  }

  lemma {:induction false} OnlyIsShortest(units: nat, d: real, k: nat)
    requires IsOnly(units, d) && ClosestMultiple(d, 0) == units
    ensures Shortest(d, k) == units
  {
    if k > 0 {
      OnlyIsShortest(units, d, k - 1);
    }
  }

  lemma ClosestUnit(units: nat, d: real)
    requires -0.5 < d * UNITS - units as real < 0.5
    ensures ClosestMultiple(d, 0) == units
  {
    assert Pow10(0) == 1;
    assert RoundHalfEven(d * UNITS) == units;
  }

  /** Every residual below 2^26 contracts prints exactly. */
  lemma FineIsPrintedExactly(units: nat)
    requires 0 < units < FINE
    ensures IsPrintedExactly(units)
  {
    var d := Nearest(SizeOf(units));
    DividedOnce(units);
    forall u | StandsFor(u, d)
      ensures u == units
    {
      FineSizesDiffer(units, u);
    }
    FineError(units);
    ClosestUnit(units, d);
    OnlyIsShortest(units, d, 17);
  }

  // ----- the least residual that does not print exactly

  lemma TenTimes(n: int, k: nat)
    requires k > 0
    ensures (n * Pow10(k)) % 10 == 0
  {
    assert n * Pow10(k) == 10 * (n * Pow10(k - 1));
  }

  /** Where no multiple of ten stands for d, all digits are needed. */
  lemma {:induction false} AllDigits(d: real, k: nat)
    requires forall u :: StandsFor(u, d) ==> u % 10 != 0
    ensures Shortest(d, k) == ClosestMultiple(d, 0)
  {
    if k > 0 {
      TenTimes(RoundHalfEven(d * UNITS / Pow10(k) as real), k);
      AllDigits(d, k - 1);
    }
  }

  const COARSE: real := 67_108_864.0 + 1.0 / 67_108_864.0

  lemma CoarseDivided()
    ensures Divided(FINE + 1) == COARSE && Divided(FINE + 2) == COARSE
  {
    DividedOnce(FINE + 1);
    DividedOnce(FINE + 2);
    Pow2Values();
    UlpValues();
    NearestIs(SizeOf(FINE + 1), 26, 4_503_599_627_370_497, 1.0 / 67_108_864.0, COARSE);
    NearestIs(SizeOf(FINE + 2), 26, 4_503_599_627_370_497, 1.0 / 67_108_864.0, COARSE);
  }

  /** What stands for COARSE lies within 0.75 units of it. */
  lemma NearCoarse(u: int)
    requires StandsFor(u, COARSE)
    ensures FINE < u < FINE + 3
  {
    NearestRelative(u as real / UNITS);
  }

  lemma CoarseIsShortest()
    ensures Shortest(COARSE, 17) == FINE + 1
  {
    forall u | StandsFor(u, COARSE)
      ensures u % 10 != 0
    {
      NearCoarse(u);
    }
    AllDigits(COARSE, 17);
    ClosestUnit(FINE + 1, COARSE);
  }

  /** 67108864.00000002 is the same double as 67108864.00000001, and prints as that. */
  lemma CoarseIsPrintedOff()
    ensures PrintedUnits(FINE + 1) == FINE + 1 && PrintedUnits(FINE + 2) == FINE + 1
  {
    CoarseDivided();
    CoarseIsShortest();
  }

  lemma NearFine(u: int)
    requires StandsFor(u, 67_108_864.0)
    ensures u == FINE
  {
    NearestRelative(u as real / UNITS);
  }

  lemma FineItself()
    ensures IsPrintedExactly(FINE)
  {
    DividedOnce(FINE);
    IntegerIsDouble(67_108_864, 67_108_864.0);
    forall u | StandsFor(u, 67_108_864.0)
      ensures u == FINE
    {
      NearFine(u);
    }
    ClosestUnit(FINE, 67_108_864.0);
    OnlyIsShortest(FINE, 67_108_864.0, 17);
  }

  /** Every residual up to a bound prints exactly if and only if the bound is at most 67108864.00000001. */
  lemma PrintedUpToIff(bound: nat)
    ensures (forall units: nat :: 0 < units <= bound ==> IsPrintedExactly(units)) <==> bound <= FINE + 1
  {
    CoarseIsPrintedOff();
    if bound <= FINE + 1 {
      forall units: nat | 0 < units <= bound
        ensures IsPrintedExactly(units)
      {
        if units < FINE {
          FineIsPrintedExactly(units);
        } else if units == FINE {
          FineItself();
        }
      }
    } else {
      assert !IsPrintedExactly(FINE + 2);
    }
  }
}

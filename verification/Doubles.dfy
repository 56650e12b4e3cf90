/** Double-precision arithmetic on positive numbers, as far as the sizes of fills need it: rounding to
    53 bits, half to even (IEEE 754). Only the normal range is modelled. */
module Doubles {
  import opened Prelude

  function Pow2(e: int): (r: real)
    ensures r > 0.0
    decreases if e < 0 then -e else e
  {
    if e == 0 then 1.0 else if e > 0 then 2.0 * Pow2(e - 1) else Pow2(e + 1) / 2.0
  }

  lemma {:induction false} Pow2Next(e: int)
    ensures Pow2(e + 1) == 2.0 * Pow2(e)
  {
  }

  lemma Pow2Ten(e: int)
    ensures Pow2(e + 10) == 1024.0 * Pow2(e)
  {
    Pow2Five(e);
    Pow2Five(e + 5);
  }

  lemma Pow2Five(e: int)
    ensures Pow2(e + 5) == 32.0 * Pow2(e)
    ensures Pow2(e + 3) == 8.0 * Pow2(e)
  {
    Pow2Next(e);
    Pow2Next(e + 1);
    Pow2Next(e + 2);
    Pow2Next(e + 3);
    Pow2Next(e + 4);
  }

  /** 2^53 */
  const TWO_53: real := 9_007_199_254_740_992.0

  lemma Pow2FiftyThree(e: int)
    ensures Pow2(e) == TWO_53 * Pow2(e - 53)
  {
    Pow2Five(e - 53);
    Pow2Ten(e - 50);
    Pow2Ten(e - 40);
    Pow2Ten(e - 30);
    Pow2Ten(e - 20);
    Pow2Ten(e - 10);
  }

  /** The exponent of x: 2^e <= x < 2^(e + 1). */
  function Exponent(x: real): (e: int)
    requires x > 0.0
    ensures Pow2(e) <= x < Pow2(e + 1)
    decreases x < 1.0, if x >= 1.0 then x.Floor else (1.0 / x).Floor
  {
    if x >= 2.0 then
      Pow2Next(Exponent(x / 2.0));
      Pow2Next(Exponent(x / 2.0) + 1);
      Exponent(x / 2.0) + 1
    else if x < 1.0 then
      Halved(x);
      Pow2Next(Exponent(2.0 * x) - 1);
      Exponent(2.0 * x) - 1
    else 0
  }

  lemma Halved(x: real)
    requires 0.0 < x < 1.0
    ensures 1.0 / x > 1.0
    ensures x < 0.5 ==> (1.0 / (2.0 * x)).Floor < (1.0 / x).Floor
  {
    var y := 1.0 / x;
    assert y * x == 1.0;
    if x < 0.5 {
      assert 1.0 / (2.0 * x) == y / 2.0;
    }
  }

  /** The distance of neighbouring doubles with exponent e. */
  function Ulp(e: int): real {
    Pow2(e - 52)
  }

  /** The closest integer, the even one of two. */
  function RoundHalfEven(y: real): int {
    var down := y.Floor;
    var rest := y - down as real;
    if rest < 0.5 || (rest == 0.5 && down % 2 == 0) then down else down + 1
  }

  /** The multiple of k closest to x. */
  function RoundTo(x: real, k: real): real
    requires k > 0.0
  {
    RoundHalfEven(x / k) as real * k
  }

  /** The double closest to x. */
  function Nearest(x: real): real
    requires x > 0.0
  {
    RoundTo(x, Ulp(Exponent(x)))
  }

  lemma RoundHalfEvenError(y: real)
    ensures -0.5 <= RoundHalfEven(y) as real - y <= 0.5
  {
  }

  lemma {:induction false} Pow2Monotone(a: int, b: int)
    requires a <= b
    ensures Pow2(a) <= Pow2(b)
    decreases b - a
  {
    if a < b {
      Pow2Monotone(a, b - 1);
      Pow2Next(b - 1);
    }
  }

  /** The exponent is determined by its bounds. */
  lemma ExponentIs(x: real, e: int)
    requires x > 0.0 && Pow2(e) <= x < Pow2(e + 1)
    ensures Exponent(x) == e
  {
    var f := Exponent(x);
    if f < e {
      Pow2Monotone(f + 1, e);
    } else if f > e {
      Pow2Monotone(e + 1, f);
    }
  }

  lemma HalfMore(y: real, k: real)
    ensures (y + 0.5) * k == y * k + k / 2.0
    ensures (y - 0.5) * k == y * k - k / 2.0
  {
  }

  lemma ErrorScales(n: real, y: real, k: real, x: real)
    requires k > 0.0 && -0.5 <= n - y <= 0.5 && y * k == x
    ensures -k / 2.0 <= n * k - x <= k / 2.0
  {
    MulMonotone(k, n, y + 0.5);
    MulMonotone(k, y - 0.5, n);
    HalfMore(y, k);
  }

  lemma Quotient(x: real, k: real)
    requires k > 0.0
    ensures x / k * k == x
  {
  }

  /** Rounding is off by at most half the distance of the multiples. */
  lemma RoundToError(x: real, k: real)
    requires k > 0.0
    ensures -k / 2.0 <= RoundTo(x, k) - x <= k / 2.0
  {
    Quotient(x, k);
    RoundHalfEvenError(x / k);
    ErrorScales(RoundHalfEven(x / k) as real, x / k, k, x);
  }

  lemma NearestError(x: real)
    requires x > 0.0
    ensures -Ulp(Exponent(x)) / 2.0 <= Nearest(x) - x <= Ulp(Exponent(x)) / 2.0
  {
    RoundToError(x, Ulp(Exponent(x)));
  }

  lemma MulMonotone(k: real, x: real, y: real)
    requires k >= 0.0 && x <= y
    ensures x * k <= y * k
  {
  }

  /** ... and so by at most 2^-53 of the number. */
  lemma NearestRelative(x: real)
    requires x > 0.0
    ensures x - x / TWO_53 <= Nearest(x) <= x + x / TWO_53
  {
    NearestError(x);
    Pow2FiftyThree(Exponent(x));
    Pow2Next(Exponent(x) - 53);
  }

  predicate IsMultiple(x: real, k: real, m: int) {
    x == m as real * k
  }

  lemma QuotientIs(m: int, k: real, x: real)
    requires k > 0.0 && IsMultiple(x, k, m)
    ensures x / k == m as real
  {
  }

  lemma MultipleStays(x: real, k: real, m: int)
    requires k > 0.0 && IsMultiple(x, k, m)
    ensures RoundTo(x, k) == x
  {
    QuotientIs(m, k, x);
    assert RoundHalfEven(x / k) == m;
  }

  /** x is a multiple of the distance of neighbours: rounding leaves it alone. */
  lemma MultipleIsDouble(x: real, e: int, m: int)
    requires x > 0.0 && e == Exponent(x) && IsMultiple(x, Ulp(e), m)
    ensures Nearest(x) == x
  {
    MultipleStays(x, Ulp(e), m);
  }

  // ----- concrete powers

  lemma Pow2Values()
    ensures Pow2(6) == 64.0 && Pow2(7) == 128.0 && Pow2(8) == 256.0 && Pow2(9) == 512.0
    ensures Pow2(26) == 67_108_864.0 && Pow2(27) == 134_217_728.0
    ensures Pow2(32) == 4_294_967_296.0 && Pow2(33) == 8_589_934_592.0 && Pow2(34) == 17_179_869_184.0
    ensures Pow2(53) == TWO_53
  {
    assert Pow2(0) == 1.0;
    Pow2Five(0);
    Pow2Next(5);
    Pow2Next(6);
    Pow2Next(7);
    Pow2Next(8);
    Pow2Ten(3);
    Pow2Ten(13);
    Pow2Ten(23);
    Pow2Five(23);
    Pow2Next(26);
    Pow2Next(32);
    Pow2Next(33);
    Pow2FiftyThree(53);
  }

  /** Neighbours among the sizes and the products that occur. */
  lemma UlpValues()
    ensures Ulp(6) == 1.0 / 70_368_744_177_664.0
    ensures Ulp(7) == 1.0 / 35_184_372_088_832.0
    ensures Ulp(8) == 1.0 / 17_592_186_044_416.0
    ensures Ulp(25) == 1.0 / 134_217_728.0 && Ulp(26) == 1.0 / 67_108_864.0
    ensures Ulp(32) == 1.0 / 1_048_576.0 && Ulp(33) == 1.0 / 524_288.0 && Ulp(34) == 1.0 / 262_144.0
    ensures Ulp(52) == 1.0
  {
    assert Pow2(0) == 1.0;
    Pow2Ten(-10);
    Pow2Ten(-20);
    Pow2Five(-23);
    Pow2Five(-28);
    Pow2Next(-19);
    Pow2Next(-20);
    Pow2Next(-27);
    Pow2Next(-28);
    Pow2Ten(-38);
    Pow2Ten(-48);
    Pow2Next(-45);
    Pow2Next(-46);
    Pow2Five(-48);
    Pow2Five(-43);
    Pow2Next(-44);
  }
}

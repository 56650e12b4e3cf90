/** Exact money: amounts are integers in units of 1e-8, read from decimal numbers and written
    as canonical decimal text. */
module FixedPoint {
  import opened Prelude

  const SCALE: int := 100_000_000
  const MAX_FIXED_UNITS: int := MAX_SAFE_INTEGER

  datatype LedgerError =
    | InvalidVersion | InvalidIntent | MissingLeg | InvalidLeg | IncoherentIdentity
    | IncompleteEvidence | NonFinalEvidence | DuplicateEvidence
    | MissingSettlement | UnexpectedSettlement | SettlementMismatch | NegativePosition
    | InvalidNumber | OutOfDomain | Overflow | InvalidDelta

  type Checked<+T> = Result<T, LedgerError>

  predicate IsFixed(v: int) {
    -MAX_FIXED_UNITS <= v <= MAX_FIXED_UNITS
  }

  function CheckedFixed(v: int): Checked<int> {
    if IsFixed(v) then Ok(v) else Err(Overflow)
  }

  // ----- digit strings and shifts of the decimal point

  type Digit = d: int | 0 <= d < 10

  function ValueOf(ds: seq<Digit>): nat {
    if ds == [] then 0 else 10 * ValueOf(ds[..|ds| - 1]) + ds[|ds| - 1]
  }

  predicate AllZero(ds: seq<Digit>) {
    forall i :: 0 <= i < |ds| ==> ds[i] == 0
  }

  /** m * 10^k */
  function ShiftUp(m: int, k: nat): (r: int)
    ensures m >= 0 ==> r >= 0
  {
    if k == 0 then m else 10 * ShiftUp(m, k - 1)
  }

  /** m / 10^k, where that is whole. */
  function ShiftDown(m: int, k: nat): Option<int>
    decreases k
  {
    if k == 0 then Some(m)
    else if m % 10 != 0 then None
    else ShiftDown(m / 10, k - 1)
  }

  lemma {:induction false} ShiftDownInverts(m: int, k: nat, u: int)
    ensures ShiftDown(m, k) == Some(u) <==> ShiftUp(u, k) == m
    decreases k
  {
    if k > 0 {
      ShiftDownInverts(m / 10, k - 1, u);
    }
  }

  /** Drops leading zeros but keeps a last digit. */
  function StripLeadingZeros(ds: seq<Digit>): seq<Digit> {
    if |ds| > 1 && ds[0] == 0 then StripLeadingZeros(ds[1..]) else ds
  }

  lemma {:induction false} LeadingZero(ds: seq<Digit>)
    ensures ValueOf([0] + ds) == ValueOf(ds)
  {
    var z := [0] + ds;
    if ds != [] {
      LeadingZero(ds[..|ds| - 1]);
      assert z[..|z| - 1] == [0] + ds[..|ds| - 1];
    } else {
      assert z[..0] == [];
    }
  }

  lemma {:induction false} StripKeepsValue(ds: seq<Digit>)
    ensures ValueOf(StripLeadingZeros(ds)) == ValueOf(ds)
  {
    if |ds| > 1 && ds[0] == 0 {
      StripKeepsValue(ds[1..]);
      LeadingZero(ds[1..]);
      assert ds == [0] + ds[1..];
    }
  }

  // ----- numbers as the source sees them: the parts of their decimal text

  /** A finite number is known by its text, sign whole . fraction e exponent. */
  datatype Number =
    | NotFinite
    | Decimal(negative: bool, whole: seq<Digit>, fraction: seq<Digit>, exponent: int)

  const MAX_EXPONENT: int := 400

  function Magnitude(n: Number): nat
    requires n.Decimal?
  {
    ValueOf(n.whole + n.fraction)
  }

  /** The number of decimal places after applying the exponent. */
  function Places(n: Number): int
    requires n.Decimal?
  {
    |n.fraction| - n.exponent
  }

  function Signed(n: Number, v: int): int
    requires n.Decimal?
  {
    if n.negative then -v else v
  }

  /** The number of units, or why there is none, by arithmetic on the digits' value. */
  function FixedUnits(n: Number): Checked<int>
    requires n.Decimal?
  {
    if n.whole == [] then Err(InvalidNumber)
    else if !(-MAX_EXPONENT <= n.exponent <= MAX_EXPONENT) then Err(Overflow)
    else if Places(n) <= 8 then Ok(Signed(n, ShiftUp(Magnitude(n), 8 - Places(n))))
    else
      match ShiftDown(Magnitude(n), Places(n) - 8)
      case None => Err(OutOfDomain)
      case Some(units) => Ok(Signed(n, units))
  }

  function Cut(digits: seq<Digit>, drop: nat): nat {
    if |digits| < drop then 0 else |digits| - drop
  }

  /** Cutting digits off the right divides, and loses nothing just when they are zeros. */
  lemma {:induction false} CutDigits(digits: seq<Digit>, drop: nat)
    ensures ShiftDown(ValueOf(digits), drop)
         == if AllZero(digits[Cut(digits, drop)..]) then Some(ValueOf(digits[..Cut(digits, drop)])) else None
  {
    var cut := Cut(digits, drop);
    if drop == 0 {
      assert digits[..cut] == digits;
    } else if digits == [] {
      CutDigits(digits, drop - 1);
    } else {
      var init, last := digits[..|digits| - 1], digits[|digits| - 1];
      CutDigits(init, drop - 1);
      assert digits[..cut] == init[..cut];
      assert digits[cut..] == init[cut..] + [last];
      assert AllZero(digits[cut..]) <==> AllZero(init[cut..]) && last == 0 by {
        assert digits[cut..][|digits| - 1 - cut] == last;
        if AllZero(digits[cut..]) {
          assert forall i :: 0 <= i < |init| - cut ==> init[cut..][i] == digits[cut..][i];
        }
      }
      assert ValueOf(digits) % 10 == last && ValueOf(digits) / 10 == ValueOf(init);
    }
  }

  /** parseNumberToFixed: the source cuts the digit string at the eighth decimal place. */
  method ParseNumberToFixed(n: Number) returns (r: Checked<int>)
    requires n.Decimal?
    ensures r == FixedUnits(n)
  {
    if n.whole == [] {
      return Err(InvalidNumber);
    }
    if !(-MAX_EXPONENT <= n.exponent <= MAX_EXPONENT) {
      return Err(Overflow);
    }
    var digits := StripLeadingZeros(n.whole + n.fraction);
    var fractionalPlaces := |n.fraction| - n.exponent;
    StripKeepsValue(n.whole + n.fraction);
    if fractionalPlaces > 8 {
      var cut := Cut(digits, fractionalPlaces - 8);
      var discarded, remainder := digits[..cut], digits[cut..];
      CutDigits(digits, fractionalPlaces - 8);
      if !AllZero(remainder) {
        return Err(OutOfDomain);
      }
      digits := if discarded == [] then [0] else discarded;
      fractionalPlaces := 8;
    }
    var zeroes := 8 - fractionalPlaces;
    var magnitude := ShiftUp(ValueOf(digits), zeroes);
    return Ok(Signed(n, magnitude));
  }

  // ----- what the number stands for, as a real

  /** x * 10^e */
  function Scaled(x: real, e: int): real
    decreases if e < 0 then -e else e
  {
    if e == 0 then x else if e > 0 then 10.0 * Scaled(x, e - 1) else Scaled(x, e + 1) / 10.0
  }

  function DecimalValue(n: Number): real
    requires n.Decimal?
  {
    Scaled(Signed(n, Magnitude(n)) as real, -Places(n))
  }

  lemma ScaledByEight(x: real, e: int)
    ensures Scaled(x, e) * 100_000_000.0 == Scaled(x, e + 8)
  {
    assert forall k :: Scaled(x, k + 1) == 10.0 * Scaled(x, k);
    assert Scaled(x, e + 4) == 10_000.0 * Scaled(x, e) by {
      assert Scaled(x, e + 2) == 10.0 * Scaled(x, e + 1);
      assert Scaled(x, e + 3) == 10.0 * Scaled(x, e + 2);
      assert Scaled(x, e + 4) == 10.0 * Scaled(x, e + 3);
    }
    assert Scaled(x, e + 6) == 10.0 * Scaled(x, e + 5);
    assert Scaled(x, e + 7) == 10.0 * Scaled(x, e + 6);
    assert Scaled(x, e + 8) == 10.0 * Scaled(x, e + 7);
  }

  lemma {:induction false} ScaledUp(m: int, k: nat)
    ensures Scaled(m as real, k) == ShiftUp(m, k) as real
  {
    if k > 0 {
      ScaledUp(m, k - 1);
    }
  }

  /** u is m / 10^k exactly when m is u * 10^k. */
  lemma {:induction false} ScaledDown(x: real, k: int, y: real)
    requires k >= 0
    ensures y == Scaled(x, -k) <==> Scaled(y, k) == x
    decreases k
  {
    if k > 0 {
      ScaledDown(x, k - 1, 10.0 * y);
      ScaledTen(y, k - 1);
    }
  }

  lemma {:induction false} ScaledTen(y: real, k: nat)
    ensures Scaled(10.0 * y, k) == Scaled(y, k + 1)
  {
    if k > 0 {
      ScaledTen(y, k - 1);
    }
  }

  /** The parse loses nothing: it yields u exactly when u units are the number, so it fails
      exactly on the numbers that are no multiple of 1e-8. */
  lemma ParseIsExact(n: Number, u: int)
    requires n.Decimal? && n.whole != [] && -MAX_EXPONENT <= n.exponent <= MAX_EXPONENT
    ensures FixedUnits(n) == Ok(u) <==> u as real == DecimalValue(n) * 100_000_000.0
  {
    var m := Signed(n, Magnitude(n));
    var k := 8 - Places(n);
    ScaledByEight(m as real, -Places(n));
    if k >= 0 {
      ScaledUp(m, k);
      ShiftUpSigned(n, Magnitude(n), k);
    } else {
      ScaledDown(m as real, -k, u as real);
      ScaledUp(u, -k);
      ShiftDownInverts(Magnitude(n), -k, Signed(n, u));
      ShiftUpSigned(n, u, -k);
    }
  }

  lemma {:induction false} ShiftUpSigned(n: Number, v: int, k: nat)
    requires n.Decimal?
    ensures ShiftUp(Signed(n, v), k) == Signed(n, ShiftUp(v, k))
  {
    if k > 0 {
      ShiftUpSigned(n, v, k - 1);
    }
  }

  // ----- canonical text

  const ZERO: CodeUnit := 48
  const POINT: CodeUnit := 46
  const MINUS: CodeUnit := 45

  predicate IsDigits(t: Text) {
    forall i :: 0 <= i < |t| ==> 48 <= t[i] <= 57
  }

  function TextValue(t: Text): nat
    requires IsDigits(t)
  {
    if t == [] then 0 else 10 * TextValue(t[..|t| - 1]) + (t[|t| - 1] - ZERO)
  }

  function NatText(n: nat): Text {
    if n < 10 then [ZERO + n] else NatText(n / 10) + [ZERO + n % 10]
  }

  function PadStart(t: Text, width: nat): Text
    decreases width - |t|
  {
    if |t| >= width then t else PadStart([ZERO] + t, width)
  }

  function FormatFixed(v: int): Text {
    var magnitude: nat := if v < 0 then -v else v;
    (if v < 0 then [MINUS] else [])
    + NatText(magnitude / SCALE) + [POINT] + PadStart(NatText(magnitude % SCALE), 8)
  }

  datatype FixedText = FixedText(negative: bool, whole: Text, fraction: Text)

  /** The groups of ^(-?)(\d+)\.(\d{8})$, if the text matches. */
  function SplitFixed(t: Text): (r: Option<FixedText>)
    ensures r.Some? ==> IsDigits(r.value.whole) && IsDigits(r.value.fraction)
  {
    var dot := |t| - 9;
    if dot < 1 || t[dot] != POINT || !IsDigits(t[dot + 1..]) then None
    else
      var whole := if t[0] == MINUS then t[1..dot] else t[..dot];
      if whole == [] || !IsDigits(whole) then None
      else Some(FixedText(t[0] == MINUS, whole, t[dot + 1..]))
  }

  function ParseCanonicalFixed(t: Text): Checked<int> {
    match SplitFixed(t)
    case None => Err(InvalidDelta)
    case Some(parts) =>
      var units := TextValue(parts.whole) * SCALE + TextValue(parts.fraction);
      CheckedFixed(if parts.negative then -units else units)
  }

  lemma {:induction false} NatTextValue(n: nat)
    ensures NatText(n) != [] && IsDigits(NatText(n)) && TextValue(NatText(n)) == n
    ensures n < 100_000_000 ==> |NatText(n)| <= 8
  {
    NatTextLength(n, 8);
    assert ShiftUp(1, 8) == 100_000_000;
    NatTextReads(n);
  }

  lemma {:induction false} NatTextReads(n: nat)
    ensures NatText(n) != [] && IsDigits(NatText(n)) && TextValue(NatText(n)) == n
  {
    if n >= 10 {
      NatTextReads(n / 10);
      var t := NatText(n);
      assert t[..|t| - 1] == NatText(n / 10);
    }
  }

  lemma {:induction false} NatTextLength(n: nat, k: nat)
    requires k > 0
    ensures n < ShiftUp(1, k) ==> |NatText(n)| <= k
  {
    if n >= 10 && n < ShiftUp(1, k) {
      assert k > 1;
      NatTextLength(n / 10, k - 1);
    }
  }

  lemma {:induction false} LeadingZeroValue(t: Text)
    requires IsDigits(t)
    ensures IsDigits([ZERO] + t) && TextValue([ZERO] + t) == TextValue(t)
  {
    var z := [ZERO] + t;
    if t != [] {
      LeadingZeroValue(t[..|t| - 1]);
      assert z[..|z| - 1] == [ZERO] + t[..|t| - 1];
    } else {
      assert z[..0] == [];
    }
  }

  lemma {:induction false} PadStartValue(t: Text, width: nat)
    requires IsDigits(t) && |t| <= width
    ensures |PadStart(t, width)| == width && IsDigits(PadStart(t, width))
    ensures TextValue(PadStart(t, width)) == TextValue(t)
    decreases width - |t|
  {
    if |t| < width {
      LeadingZeroValue(t);
      PadStartValue([ZERO] + t, width);
    }
  }

  /** Canonical text reads back as the amount that was written, over the whole domain. */
  lemma FixedRoundTrip(v: int)
    requires IsFixed(v)
    ensures ParseCanonicalFixed(FormatFixed(v)) == Ok(v)
  {
    var magnitude: nat := if v < 0 then -v else v;
    var whole, fraction := NatText(magnitude / SCALE), PadStart(NatText(magnitude % SCALE), 8);
    NatTextValue(magnitude / SCALE);
    NatTextValue(magnitude % SCALE);
    PadStartValue(NatText(magnitude % SCALE), 8);
    SplitParts(v < 0, whole, fraction);
  }

  lemma SplitParts(negative: bool, whole: Text, fraction: Text)
    requires whole != [] && IsDigits(whole) && |fraction| == 8 && IsDigits(fraction)
    ensures SplitFixed((if negative then [MINUS] else []) + whole + [POINT] + fraction)
         == Some(FixedText(negative, whole, fraction))
  {
    var tail := whole + [POINT] + fraction;
    assert tail[|whole|] == POINT && tail[|whole| + 1..] == fraction && tail[..|whole|] == whole;
    if negative {
      var t := [MINUS] + tail;
      assert t == [MINUS] + whole + [POINT] + fraction;
      assert t[|whole| + 1] == POINT && t[|whole| + 2..] == fraction && t[1..|whole| + 1] == whole;
    } else {
      assert [] + whole + [POINT] + fraction == tail && tail[0] == whole[0];
    }
  }

  lemma FormatIsInjective(v: int, w: int)
    requires IsFixed(v) && IsFixed(w) && FormatFixed(v) == FormatFixed(w)
    ensures v == w
  {
    FixedRoundTrip(v);
    FixedRoundTrip(w);
  }

  // ----- rounding

  /** left * right in units, rounded half up; both are non-negative wherever it is used. */
  function MultiplyFixed(left: nat, right: nat): Checked<int> {
    CheckedFixed(RoundedQuotient(left * right, SCALE))
  }

  function DivideFixed(numerator: int, denominator: int): Checked<int> {
    if denominator <= 0 then Err(OutOfDomain)
    else
      var magnitude := if numerator < 0 then -numerator else numerator;
      var rounded: int := RoundedQuotient(magnitude * SCALE, denominator);
      CheckedFixed(if numerator < 0 then -rounded else rounded)
  }

  /** A product is off by at most half a unit, and a price of at most one never adds value. */
  lemma MultiplyIsNearest(left: nat, right: nat)
    requires MultiplyFixed(left, right).Ok?
    ensures var m := MultiplyFixed(left, right).value;
            && -SCALE < 2 * (m * SCALE - left * right) <= SCALE
            && 0 <= m
            && (left <= SCALE ==> m <= right)
  {
    RoundedQuotientIsNearest(left * right, SCALE);
    if left <= SCALE {
      ProductBound(left, right);
      RoundedQuotientBound(left * right, SCALE, right);
    }
  }

  lemma ProductBound(left: nat, right: nat)
    requires left <= SCALE
    ensures left * right <= SCALE * right
  {
    DistributeMinus(SCALE, left, right);
  }

  lemma MultipleAtLeast(a: int, p: int)
    requires a >= 1 && p > 0
    ensures a * p >= p
  {
  }

  lemma DistributeMinus(a: int, b: int, p: int)
    ensures (a - b) * p == a * p - b * p
  {
  }

  /** A quotient is off by at most half a unit, and by exactly half only away from zero. */
  lemma DivideIsNearest(numerator: int, denominator: int)
    requires DivideFixed(numerator, denominator).Ok?
    ensures var q := DivideFixed(numerator, denominator).value;
            && -denominator <= 2 * (q * denominator - numerator * SCALE) <= denominator
            && (numerator >= 0 ==> -denominator < 2 * (q * denominator - numerator * SCALE))
            && (numerator <= 0 ==> 2 * (q * denominator - numerator * SCALE) < denominator)
            && (numerator >= -denominator ==> q >= -SCALE)
  {
    var magnitude := if numerator < 0 then -numerator else numerator;
    var rounded := RoundedQuotient(magnitude * SCALE, denominator);
    RoundedQuotientIsNearest(magnitude * SCALE, denominator);
    if magnitude <= denominator {
      RoundedQuotientBound(magnitude * SCALE, denominator, SCALE);
    }
    if numerator < 0 {
      assert -rounded * denominator == -(rounded * denominator);
    }
  }

  function RoundedQuotient(scaled: nat, denominator: int): nat
    requires denominator > 0
  {
    scaled / denominator + if scaled % denominator * 2 >= denominator then 1 else 0
  }

  lemma RoundedQuotientIsNearest(scaled: nat, denominator: int)
    requires denominator > 0
    ensures -denominator < 2 * (RoundedQuotient(scaled, denominator) * denominator - scaled) <= denominator
  {
    var down := scaled / denominator;
    assert scaled == down * denominator + scaled % denominator;
    DistributeMinus(down, -1, denominator);
  }

  lemma RoundedQuotientBound(scaled: nat, denominator: int, bound: int)
    requires denominator > 0 && scaled <= denominator * bound
    ensures RoundedQuotient(scaled, denominator) <= bound
  {
    var down := scaled / denominator;
    assert scaled == down * denominator + scaled % denominator;
    DistributeMinus(down, bound, denominator);
    if down > bound {
      MultipleAtLeast(down - bound, denominator);
    }
  }
}

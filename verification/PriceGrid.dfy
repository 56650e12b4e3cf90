/** Kalshi's price lattice: built from piecewise ranges, and rounded to and moved on from either
    side of the market. Prices on it are in units of 1e-4. */
module PriceGrid {
  import opened Prelude
  import opened Sequences
  import FixedPoint
  import opened RealSums

  const PRICE_SCALE: int := 10_000
  const EPSILON: real := 0.0000001

  datatype GridError =
    | MissingRanges | InvalidRangePrice | EmptyRange | InvalidStep | NotCovering | NotContiguous
    | Incomplete | InvalidPrice | OutsideGrid | NotTradable | InvalidTicks | AbsentFromGrid | LeavesGrid

  // ----- the ranges

  /** A price range as the venue sends it, and in units. */
  datatype RangeText = RangeText(start: Text, end: Text, step: Text)
  datatype Range = Range(start: int, end: int, step: int)

  /** Zero or one with up to four decimal places, in units. */
  function ParseFixedPrice(t: Text): (r: Option<int>)
    ensures r.Some? ==> 0 <= r.value <= PRICE_SCALE
  {
    if t == [] || !(FixedPoint.ZERO <= t[0] <= FixedPoint.ZERO + 1) then None
    else
      var whole := (t[0] - FixedPoint.ZERO) * PRICE_SCALE;
      if |t| == 1 then Some(whole)
      else if t[1] != FixedPoint.POINT || !(3 <= |t| <= 6) || !FixedPoint.IsDigits(t[2..]) then None
      else
        var fraction := FixedPoint.ShiftUp(FixedPoint.TextValue(t[2..]), 6 - |t|);
        if whole + fraction > PRICE_SCALE then None else Some(whole + fraction)
  }

  /** A price with four decimal places. */
  function PriceText(units: nat): Text {
    FixedPoint.NatText(units / PRICE_SCALE) + [FixedPoint.POINT]
    + FixedPoint.PadStart(FixedPoint.NatText(units % PRICE_SCALE), 4)
  }

  /** Every price from 0 to 1 has a text that is read as that price. */
  lemma PriceTextParses(units: nat)
    requires units <= PRICE_SCALE
    ensures ParseFixedPrice(PriceText(units)) == Some(units)
  {
    var whole, fraction := units / PRICE_SCALE, units % PRICE_SCALE;
    var digits := FixedPoint.PadStart(FixedPoint.NatText(fraction), 4);
    FixedPoint.NatTextReads(fraction);
    FixedPoint.NatTextLength(fraction, 4);
    assert FixedPoint.ShiftUp(1, 4) == 10_000;
    FixedPoint.PadStartValue(FixedPoint.NatText(fraction), 4);
    assert FixedPoint.NatText(whole) == [FixedPoint.ZERO + whole];
    var t := PriceText(units);
    assert t[0] == FixedPoint.ZERO + whole && t[1] == FixedPoint.POINT && t[2..] == digits;
  }

  function ParseRange(text: RangeText): (r: Result<Range, GridError>)
    ensures r.Ok? ==> IsRange(r.value)
  {
    var start, end, step := ParseFixedPrice(text.start), ParseFixedPrice(text.end), ParseFixedPrice(text.step);
    if start.None? || end.None? || step.None? then Err(InvalidRangePrice)
    else if start.value >= end.value then Err(EmptyRange)
    else if step.value <= 0 || (end.value - start.value) % step.value != 0 then Err(InvalidStep)
    else Ok(Range(start.value, end.value, step.value))
  }

  function ParseRanges(texts: seq<RangeText>): (r: Result<seq<Range>, GridError>)
    ensures r.Ok? ==> |r.value| == |texts| && forall range :: range in r.value ==> IsRange(range)
  {
    if texts == [] then Ok([])
    else
      var head := ParseRange(texts[0]);
      if head.Err? then Err(head.error)
      else
        var tail := ParseRanges(texts[1..]);
        if tail.Err? then tail else Ok([head.value] + tail.value)
  }

  predicate IsRange(range: Range) {
    0 <= range.start < range.end <= PRICE_SCALE && range.step > 0 && (range.end - range.start) % range.step == 0
  }

  predicate Covers(ranges: seq<Range>) {
    ranges != [] && ranges[0].start == 0 && ranges[|ranges| - 1].end == PRICE_SCALE
  }

  predicate IsContiguous(ranges: seq<Range>) {
    forall i :: 1 <= i < |ranges| ==> ranges[i].start == ranges[i - 1].end
  }

  predicate OnLattice(range: Range, p: int)
    requires range.step > 0
  {
    range.start <= p <= range.end && (p - range.start) % range.step == 0
  }

  /** p is a point of one of the ranges' lattices. */
  predicate OnGrid(ranges: seq<Range>, p: int) {
    exists range :: range in ranges && range.step > 0 && OnLattice(range, p)
  }

  /** All grid points below n, ascending. */
  function PointsBelow(ranges: seq<Range>, n: nat): (r: seq<int>)
    ensures forall p :: p in r <==> 0 <= p < n && OnGrid(ranges, p)
    ensures StrictlyIncreasing(r)
  {
    if n == 0 then []
    else
      var below := PointsBelow(ranges, n - 1);
      assert forall i :: 0 <= i < |below| ==> below[i] in below;
      below + (if OnGrid(ranges, n - 1) then [n - 1] else [])
  }

  function AllPoints(ranges: seq<Range>): seq<int>
    requires Covers(ranges)
  {
    PointsBelow(ranges, ranges[|ranges| - 1].end + 1)
  }

  // ----- division by a variable step

  lemma BelowOne(b: int, k: int)
    requires b > 0
    ensures k == 0 || b * k >= b || b * k <= -b
  {
    if k >= 1 {
      assert b * k == b * (k - 1) + b && b * (k - 1) >= 0;
    } else if k <= -1 {
      assert b * k == b * (k + 1) - b && b * (k + 1) <= 0;
    }
  }

  lemma NextMultiple(a: int, b: int)
    requires b > 0 && a % b == 0
    ensures (a + b) % b == 0
  {
    var q, r := (a + b) / b, (a + b) % b;
    assert a == b * (a / b);
    assert b * (q - a / b - 1) == b * q - b * (a / b) - b;
    BelowOne(b, q - a / b - 1);
  }

  /** Two multiples less than a step apart are the same. */
  lemma OneMultiple(a: int, c: int, b: int)
    requires b > 0 && a % b == 0 && c % b == 0 && a <= c < a + b
    ensures a == c
  {
    assert a == b * (a / b) && c == b * (c / b);
    assert b * (c / b - a / b) == c - a;
    BelowOne(b, c / b - a / b);
  }

  // ----- sorted sets of points

  lemma {:induction false} SortedIncreases(s: seq<int>)
    requires Sorted(IntLeq(), s) && NoDuplicates(s)
    ensures StrictlyIncreasing(s)
  {
    forall i, j | 0 <= i < j < |s|
      ensures s[i] < s[j]
    {
      SortedAt(IntLeq(), s, i, j);
    }
  }

  /** Sorting the collected points yields the grid. */
  lemma SortedUnits(ranges: seq<Range>, units: seq<int>)
    requires NoDuplicates(units) && forall p :: p in units <==> OnGrid(ranges, p)
    requires Covers(ranges) && forall range :: range in ranges ==> IsRange(range)
    ensures SortBy(IntLeq(), units) == AllPoints(ranges)
  {
    var prices := SortBy(IntLeq(), units);
    SortBySorted(IntLeq(), units);
    NoDuplicatesPermutation(prices, units);
    SortedIncreases(prices);
    SameElements(prices, units);
    IncreasingUnique(prices, AllPoints(ranges));
  }

  /** A grid that covers everything runs from 0 to 1. */
  lemma GridEnds(ranges: seq<Range>, prices: seq<int>)
    requires Covers(ranges) && forall range :: range in ranges ==> IsRange(range)
    requires prices == AllPoints(ranges)
    ensures IsGrid(prices)
  {
    assert ranges[0] in ranges && ranges[|ranges| - 1] in ranges;
    assert OnLattice(ranges[0], 0) && OnLattice(ranges[|ranges| - 1], PRICE_SCALE);
    assert 0 in prices && PRICE_SCALE in prices;
    assert prices[0] in prices && prices[|prices| - 1] in prices;
  }

  /** Strictly upwards from 0 to 1. */
  predicate IsGrid(prices: seq<int>) {
    && StrictlyIncreasing(prices)
    && |prices| >= 2 && prices[0] == 0 && prices[|prices| - 1] == PRICE_SCALE
  }

  type ParsedGrid = g: Result<seq<int>, GridError> | g.Ok? ==> IsGrid(g.value)
    witness Err(MissingRanges)

  /** The grid that the ranges describe: every lattice point from 0 to 1, once, ascending. */
  function Grid(texts: seq<RangeText>): ParsedGrid {
    if texts == [] then Err(MissingRanges)
    else
      var parsed := ParseRanges(texts);
      if parsed.Err? then Err(parsed.error)
      else if !Covers(parsed.value) then Err(NotCovering)
      else if !IsContiguous(parsed.value) then Err(NotContiguous)
      else
        GridEnds(parsed.value, AllPoints(parsed.value));
        Ok(AllPoints(parsed.value))
  }

  // ----- parseKalshiPriceGrid

  function IntLeq(): (int, int) -> bool {
    (a: int, b: int) => a <= b
  }

  /** Adds the points of one range to a set kept in insertion order. */
  method AddRange(range: Range, seen: seq<int>) returns (units: seq<int>)
    requires IsRange(range) && NoDuplicates(seen)
    ensures NoDuplicates(units)
    ensures forall p :: p in units <==> p in seen || OnLattice(range, p)
  {
    units := seen;
    var price := range.start;
    while price <= range.end
      invariant range.start <= price && (price - range.start) % range.step == 0
      invariant NoDuplicates(units)
      invariant forall p :: p in units <==> p in seen || (p < price && OnLattice(range, p))
      decreases range.end - price
    {
      forall p | price <= p < price + range.step && OnLattice(range, p)
        ensures p == price
      {
        OneMultiple(price - range.start, p - range.start, range.step);
      }
      if price !in units {
        units := units + [price];
      }
      NextMultiple(price - range.start, range.step);
      price := price + range.step;
    }
  }

  method ParsePriceGrid(texts: seq<RangeText>) returns (r: Result<seq<int>, GridError>)
    ensures r == Grid(texts)
  {
    if |texts| == 0 {
      return Err(MissingRanges);
    }
    var parsed := ParseRanges(texts);
    if parsed.Err? {
      return Err(parsed.error);
    }
    var ranges := parsed.value;
    if ranges[0].start != 0 || ranges[|ranges| - 1].end != PRICE_SCALE {
      return Err(NotCovering);
    }
    var index := 1;
    while index < |ranges|
      invariant 1 <= index <= |ranges|
      invariant forall i :: 1 <= i < index ==> ranges[i].start == ranges[i - 1].end
    {
      if ranges[index].start != ranges[index - 1].end {
        return Err(NotContiguous);
      }
      index := index + 1;
    }
    var units := [];
    index := 0;
    while index < |ranges|
      invariant 0 <= index <= |ranges|
      invariant NoDuplicates(units)
      invariant forall p :: p in units <==> OnGrid(ranges[..index], p)
    {
      var before := units;
      units := AddRange(ranges[index], before);
      assert ranges[..index + 1] == ranges[..index] + [ranges[index]];
      index := index + 1;
    }
    assert ranges[..index] == ranges;
    var prices := SortBy(IntLeq(), units);
    SortedUnits(ranges, units);
    GridEnds(ranges, prices);
    if |prices| < 2 || prices[0] != 0 || prices[|prices| - 1] != PRICE_SCALE {
      return Err(Incomplete);
    }
    return Ok(prices);
  }

  // ----- finding and moving on the grid

  datatype Outcome = YES | NO
  datatype BookSide = Bid | Ask

  /** The first entry at or above price, up to the tolerance. */
  function FirstFrom(grid: seq<int>, price: real): Option<int> {
    if grid == [] then None
    else if grid[0] as real + EPSILON >= price then Some(grid[0])
    else FirstFrom(grid[1..], price)
  }

  /** The last entry at or below price, up to the tolerance. */
  function LastUpTo(grid: seq<int>, price: real): Option<int> {
    if grid == [] then None
    else if grid[|grid| - 1] as real <= price + EPSILON then Some(grid[|grid| - 1])
    else LastUpTo(grid[..|grid| - 1], price)
  }

  function FoundPrice(grid: seq<int>, price: real, bookSide: BookSide): Option<int> {
    if bookSide.Bid? then FirstFrom(grid, price) else LastUpTo(grid, price)
  }

  method FindGridPrice(grid: seq<int>, price: real, bookSide: BookSide) returns (r: Option<int>)
    ensures r == FoundPrice(grid, price, bookSide)
  {
    if bookSide.Bid? {
      return FirstFrom(grid, price);
    }
    var index := |grid| - 1;
    assert grid[..index + 1] == grid;
    while index >= 0
      invariant -1 <= index < |grid|
      invariant LastUpTo(grid, price) == LastUpTo(grid[..index + 1], price)
    {
      assert grid[..index + 1][..index] == grid[..index];
      if grid[index] as real <= price + EPSILON {
        return Some(grid[index]);
      }
      index := index - 1;
    }
    return None;
  }

  predicate AtOrAbove(units: int, price: real) {
    units as real + EPSILON >= price
  }

  predicate AtOrBelow(units: int, price: real) {
    units as real <= price + EPSILON
  }

  lemma {:induction false} FirstIsLeast(grid: seq<int>, price: real)
    requires StrictlyIncreasing(grid)
    ensures FirstFrom(grid, price).None? ==> forall p :: p in grid ==> !AtOrAbove(p, price)
    ensures FirstFrom(grid, price).Some? ==>
              FirstFrom(grid, price).value in grid && AtOrAbove(FirstFrom(grid, price).value, price)
              && forall p :: p in grid && AtOrAbove(p, price) ==> FirstFrom(grid, price).value <= p
  {
    if grid != [] {
      FirstIsLeast(grid[1..], price);
      assert forall p :: p in grid <==> p == grid[0] || p in grid[1..];
      assert forall p :: p in grid ==> grid[0] <= p;
    }
  }

  lemma {:induction false} LastIsGreatest(grid: seq<int>, price: real)
    requires StrictlyIncreasing(grid)
    ensures LastUpTo(grid, price).None? ==> forall p :: p in grid ==> !AtOrBelow(p, price)
    ensures LastUpTo(grid, price).Some? ==>
              LastUpTo(grid, price).value in grid && AtOrBelow(LastUpTo(grid, price).value, price)
              && forall p :: p in grid && AtOrBelow(p, price) ==> p <= LastUpTo(grid, price).value
  {
    if grid != [] {
      var init := grid[..|grid| - 1];
      LastIsGreatest(init, price);
      assert forall p :: p in grid <==> p == grid[|grid| - 1] || p in init;
      assert forall p :: p in grid ==> p <= grid[|grid| - 1];
    }
  }

  /** getKalshiV2BookDirection: the book is quoted in YES prices, so buying NO is selling YES. */
  function BookDirection(outcome: Outcome, side: Side): BookSide {
    if outcome.YES? == side.BUY? then Bid else Ask
  }

  function RawUnits(price: Numeric): Result<real, GridError> {
    if price.NotReal? || price.value < 0.0 || price.value > 1.0 then Err(InvalidPrice)
    else Ok(price.value * 10_000.0)
  }

  function YesPrice(price: Numeric, outcome: Outcome): Numeric {
    if price.NotReal? || outcome.YES? then price else Real(1.0 - price.value)
  }

  function OutcomeUnits(yesUnits: int, outcome: Outcome): int {
    if outcome.YES? then yesUnits else PRICE_SCALE - yesUnits
  }

  predicate IsTradable(units: int) {
    0 < units < PRICE_SCALE
  }

  predicate Differs(units: int, price: real) {
    units as real - price > EPSILON || price - units as real > EPSILON
  }

  datatype Normalized = Normalized(price: int, yesBookPrice: int, bookSide: BookSide, adjusted: bool)

  /** normalizeKalshiOutcomePrice */
  function Normalize(price: Numeric, outcome: Outcome, side: Side, parsed: ParsedGrid): Result<Normalized, GridError> {
    match (RawUnits(YesPrice(price, outcome)), parsed)
    case (Err(error), _) => Err(error)
    case (Ok(_), Err(error)) => Err(error)
    case (Ok(yes), Ok(grid)) =>
      var bookSide := BookDirection(outcome, side);
      match FoundPrice(grid, yes, bookSide)
      case None => Err(OutsideGrid)
      case Some(units) =>
        if !IsTradable(units) then Err(NotTradable)
        else Ok(Normalized(OutcomeUnits(units, outcome), units, bookSide, Differs(units, yes)))
  }

  function IndexOf(grid: seq<int>, units: int): (r: int)
    ensures -1 <= r < |grid|
    ensures r >= 0 ==> grid[r] == units
    ensures units in grid ==> r >= 0
  {
    if grid == [] then -1
    else if grid[0] == units then 0
    else
      var rest := IndexOf(grid[1..], units);
      if rest < 0 then -1 else rest + 1
  }

  datatype Moved = Moved(price: int, yesBookPrice: int, bookSide: BookSide)

  function Step(bookSide: BookSide, ticks: int): int {
    if bookSide.Bid? then ticks else -ticks
  }

  function MoveTo(grid: seq<int>, target: int, outcome: Outcome, bookSide: BookSide): Result<Moved, GridError> {
    if !(0 <= target < |grid|) then Err(LeavesGrid)
    else if !IsTradable(grid[target]) then Err(NotTradable)
    else Ok(Moved(OutcomeUnits(grid[target], outcome), grid[target], bookSide))
  }

  /** moveKalshiOutcomePriceByTicks */
  function Move(price: Numeric, outcome: Outcome, side: Side, ticks: int, parsed: ParsedGrid)
    : Result<Moved, GridError>
  {
    if !IsSafeInteger(ticks) || ticks < 0 then Err(InvalidTicks)
    else
      match Normalize(price, outcome, side, parsed)
      case Err(error) => Err(error)
      case Ok(start) =>
        match parsed
        case Err(error) => Err(error)
        case Ok(grid) =>
          var index := IndexOf(grid, start.yesBookPrice);
          if index < 0 then Err(AbsentFromGrid)
          else MoveTo(grid, index + Step(start.bookSide, ticks), outcome, start.bookSide)
  }

  /** The number that a price in units stands for. */
  function ToPrice(units: int): Numeric {
    Real(units as real / 10_000.0)
  }

  // ----- what the two functions promise

  predicate OnOutcomeGrid(grid: seq<int>, outcome: Outcome, units: int) {
    OutcomeUnits(units, outcome) in grid
  }

  /** The nearest price of the outcome that is no worse for the book than what was asked: at or
      above for a BUY, at or below for a SELL. */
  ghost predicate IsNearest(grid: seq<int>, outcome: Outcome, side: Side, price: real, units: int) {
    && OnOutcomeGrid(grid, outcome, units)
    && (if side.BUY? then
          AtOrAbove(units, price)
          && forall p :: OnOutcomeGrid(grid, outcome, p) && AtOrAbove(p, price) ==> units <= p
        else
          AtOrBelow(units, price)
          && forall p :: OnOutcomeGrid(grid, outcome, p) && AtOrBelow(p, price) ==> p <= units)
  }

  lemma NearestUnique(grid: seq<int>, outcome: Outcome, side: Side, price: real, a: int, b: int)
    requires IsNearest(grid, outcome, side, price, a) && IsNearest(grid, outcome, side, price, b)
    ensures a == b
  {
  }

  function PriceIn(outcome: Outcome, price: real): real {
    if outcome.YES? then price else 10_000.0 - price
  }

  /** The search in YES prices finds the nearest price in the outcome's own terms. */
  lemma FoundIsNearest(grid: seq<int>, outcome: Outcome, side: Side, price: real)
    requires IsGrid(grid) && 0.0 <= price <= 10_000.0
    ensures var found := FoundPrice(grid, PriceIn(outcome, price), BookDirection(outcome, side));
            found.Some? && IsNearest(grid, outcome, side, price, OutcomeUnits(found.value, outcome))
  {
    var yes := PriceIn(outcome, price);
    FirstIsLeast(grid, yes);
    LastIsGreatest(grid, yes);
    assert grid[0] in grid && grid[|grid| - 1] in grid;
    assert AtOrAbove(PRICE_SCALE, yes) && AtOrBelow(0, yes);
    forall p
      ensures AtOrAbove(p, price) <==> if outcome.YES? then AtOrAbove(p, yes) else AtOrBelow(PRICE_SCALE - p, yes)
      ensures AtOrBelow(p, price) <==> if outcome.YES? then AtOrBelow(p, yes) else AtOrAbove(PRICE_SCALE - p, yes)
    {
    }
  }

  /** normalizeKalshiOutcomePrice for a price in range and a good grid. */
  lemma NormalizeInRange(price: real, outcome: Outcome, side: Side, parsed: ParsedGrid, found: int)
    requires parsed.Ok? && 0.0 <= price <= 1.0
    requires FoundPrice(parsed.value, PriceIn(outcome, price * 10_000.0), BookDirection(outcome, side)) == Some(found)
    ensures Normalize(Real(price), outcome, side, parsed)
         == if IsTradable(found)
            then Ok(Normalized(OutcomeUnits(found, outcome), found, BookDirection(outcome, side),
                               Differs(found, PriceIn(outcome, price * 10_000.0))))
            else Err(NotTradable)
  {
    assert RawUnits(YesPrice(Real(price), outcome)) == Ok(PriceIn(outcome, price * 10_000.0));
  }

  /** Normalizing yields the nearest grid price, and fails on a price in range exactly when that
      is 0 or 1. */
  lemma NormalizesToNearest(price: real, outcome: Outcome, side: Side, parsed: ParsedGrid, units: int)
    requires parsed.Ok? && 0.0 <= price <= 1.0
    requires IsNearest(parsed.value, outcome, side, price * 10_000.0, units)
    ensures Normalize(Real(price), outcome, side, parsed)
         == if IsTradable(units)
            then Ok(Normalized(units, OutcomeUnits(units, outcome), BookDirection(outcome, side),
                               Differs(units, price * 10_000.0)))
            else Err(NotTradable)
  {
    var grid, raw := parsed.value, price * 10_000.0;
    FoundIsNearest(grid, outcome, side, raw);
    var found := FoundPrice(grid, PriceIn(outcome, raw), BookDirection(outcome, side)).value;
    NearestUnique(grid, outcome, side, raw, units, OutcomeUnits(found, outcome));
    NormalizeInRange(price, outcome, side, parsed, found);
  }

  lemma GridPriceIsNearest(grid: seq<int>, outcome: Outcome, side: Side, units: int)
    requires OnOutcomeGrid(grid, outcome, units)
    ensures IsNearest(grid, outcome, side, units as real, units)
  {
  }

  lemma ToPriceInverts(units: int)
    ensures ToPrice(units).value * 10_000.0 == units as real
    ensures 0 <= units <= PRICE_SCALE ==> 0.0 <= ToPrice(units).value <= 1.0
  {
  }

  /** A price that is on the grid stays put. */
  lemma GridPriceStays(units: int, outcome: Outcome, side: Side, parsed: ParsedGrid)
    requires parsed.Ok? && OnOutcomeGrid(parsed.value, outcome, units) && IsTradable(units)
    ensures Normalize(ToPrice(units), outcome, side, parsed)
         == Ok(Normalized(units, OutcomeUnits(units, outcome), BookDirection(outcome, side), false))
  {
    ToPriceInverts(units);
    GridPriceIsNearest(parsed.value, outcome, side, units);
    NormalizesToNearest(ToPrice(units).value, outcome, side, parsed, units);
  }

  /** What normalizing yields is a tradable grid price of the outcome. */
  lemma NormalizedIsOnGrid(price: Numeric, outcome: Outcome, side: Side, parsed: ParsedGrid)
    requires Normalize(price, outcome, side, parsed).Ok?
    ensures parsed.Ok? && price.Real? && 0.0 <= price.value <= 1.0
    ensures var r := Normalize(price, outcome, side, parsed).value;
            && OnOutcomeGrid(parsed.value, outcome, r.price) && IsTradable(r.price)
            && IsNearest(parsed.value, outcome, side, price.value * 10_000.0, r.price)
            && r.yesBookPrice == OutcomeUnits(r.price, outcome) && r.bookSide == BookDirection(outcome, side)
            && r.adjusted == Differs(r.price, price.value * 10_000.0)
  {
    FoundIsNearest(parsed.value, outcome, side, price.value * 10_000.0);
    var found := FoundPrice(parsed.value, PriceIn(outcome, price.value * 10_000.0), BookDirection(outcome, side)).value;
    NormalizesToNearest(price.value, outcome, side, parsed, OutcomeUnits(found, outcome));
  }

  /** Normalizing twice, even for the other side, is normalizing once. */
  lemma NormalizeIdempotent(price: Numeric, outcome: Outcome, side: Side, again: Side, parsed: ParsedGrid)
    requires Normalize(price, outcome, side, parsed).Ok?
    ensures Normalize(ToPrice(Normalize(price, outcome, side, parsed).value.price), outcome, again, parsed)
         == Ok(Normalize(price, outcome, side, parsed).value
               .(bookSide := BookDirection(outcome, again), adjusted := false))
  {
    NormalizedIsOnGrid(price, outcome, side, parsed);
    GridPriceStays(Normalize(price, outcome, side, parsed).value.price, outcome, again, parsed);
  }

  function Other(outcome: Outcome): Outcome {
    if outcome.YES? then NO else YES
  }

  function Opposite(side: Side): Side {
    if side.BUY? then SELL else BUY
  }

  /** Buying one outcome at p and selling the other at 1 - p is the same book order. */
  lemma MirroredOrder(price: real, outcome: Outcome, side: Side, parsed: ParsedGrid)
    ensures var r := Normalize(Real(price), outcome, side, parsed);
            var m := Normalize(Real(1.0 - price), Other(outcome), Opposite(side), parsed);
            && (r.Err? ==> m == r)
            && (r.Ok? ==> m == Ok(r.value.(price := PRICE_SCALE - r.value.price)))
  {
  }

  /** What a move yields, by positions on the grid. */
  lemma MoveOnGrid(price: Numeric, outcome: Outcome, side: Side, ticks: nat, parsed: ParsedGrid, k: nat)
    requires IsSafeInteger(ticks)
    requires Normalize(price, outcome, side, parsed).Ok?
    requires parsed.Ok? && k < |parsed.value|
    requires parsed.value[k] == Normalize(price, outcome, side, parsed).value.yesBookPrice
    ensures Move(price, outcome, side, ticks, parsed)
         == MoveTo(parsed.value, k + Step(BookDirection(outcome, side), ticks), outcome, BookDirection(outcome, side))
  {
    var grid := parsed.value;
    var index := IndexOf(grid, grid[k]);
    assert grid[k] in grid;
    assert index == k by {
      assert grid[index] == grid[k];
    }
  }

  lemma GridPosition(price: Numeric, outcome: Outcome, side: Side, parsed: ParsedGrid) returns (k: nat)
    requires Normalize(price, outcome, side, parsed).Ok?
    ensures parsed.Ok?
    ensures 0 < k < |parsed.value| - 1
    ensures parsed.value[k] == Normalize(price, outcome, side, parsed).value.yesBookPrice
  {
    NormalizedIsOnGrid(price, outcome, side, parsed);
    var grid, yes := parsed.value, Normalize(price, outcome, side, parsed).value.yesBookPrice;
    k :| 0 <= k < |grid| && grid[k] == yes;
  }

  /** A second move starts where the first one ended. */
  lemma MoveOnwards(
    grid: seq<int>, target: int, outcome: Outcome, side: Side, again: Side, ticks: nat, parsed: ParsedGrid)
    requires parsed == Ok(grid) && IsSafeInteger(ticks)
    requires MoveTo(grid, target, outcome, BookDirection(outcome, side)).Ok?
    ensures Move(ToPrice(MoveTo(grid, target, outcome, BookDirection(outcome, side)).value.price), outcome, again,
                 ticks, parsed)
         == MoveTo(grid, target + Step(BookDirection(outcome, again), ticks), outcome, BookDirection(outcome, again))
  {
    var first := MoveTo(grid, target, outcome, BookDirection(outcome, side)).value;
    GridPriceStays(first.price, outcome, again, parsed);
    MoveOnGrid(ToPrice(first.price), outcome, again, ticks, parsed, target);
  }

  /** All points but the two ends can be traded at. */
  lemma InnerIsTradable(parsed: ParsedGrid)
    requires parsed.Ok?
    ensures var grid := parsed.value;
            forall i :: 0 <= i < |grid| ==> (IsTradable(grid[i]) <==> 0 < i < |grid| - 1)
  {
  }

  function MoveTwice(price: Numeric, outcome: Outcome, side: Side, a: int, b: int, parsed: ParsedGrid)
    : Result<Moved, GridError>
  {
    match Move(price, outcome, side, a, parsed)
    case Err(error) => Err(error)
    case Ok(first) => Move(ToPrice(first.price), outcome, side, b, parsed)
  }

  lemma TargetsAddUp(grid: seq<int>, k: int, a: nat, b: nat, outcome: Outcome, bookSide: BookSide)
    requires forall i :: 0 <= i < |grid| ==> (IsTradable(grid[i]) <==> 0 < i < |grid| - 1)
    requires 0 < k < |grid| - 1
    requires MoveTo(grid, k + Step(bookSide, a + b), outcome, bookSide).Ok?
    ensures MoveTo(grid, k + Step(bookSide, a), outcome, bookSide).Ok?
  {
  }

  lemma MoveTwiceOnGrid(price: Numeric, outcome: Outcome, side: Side, a: nat, b: nat, parsed: ParsedGrid, k: nat)
    requires IsSafeInteger(a + b) && Normalize(price, outcome, side, parsed).Ok?
    requires parsed.Ok? && k < |parsed.value|
    requires parsed.value[k] == Normalize(price, outcome, side, parsed).value.yesBookPrice
    ensures var dir := BookDirection(outcome, side);
            var first := MoveTo(parsed.value, k + Step(dir, a), outcome, dir);
            var whole := MoveTo(parsed.value, k + Step(dir, a + b), outcome, dir);
            MoveTwice(price, outcome, side, a, b, parsed) == if first.Err? then first else whole
  {
    var dir := BookDirection(outcome, side);
    MoveOnGrid(price, outcome, side, a, parsed, k);
    if MoveTo(parsed.value, k + Step(dir, a), outcome, dir).Ok? {
      MoveOnwards(parsed.value, k + Step(dir, a), outcome, side, side, b, parsed);
    }
  }

  /** Moving a + b ticks succeeds exactly when moving a and then b does, and ends at the same price. */
  lemma MovesAddUp(price: Numeric, outcome: Outcome, side: Side, a: nat, b: nat, parsed: ParsedGrid)
    requires IsSafeInteger(a + b)
    ensures Move(price, outcome, side, a + b, parsed).Ok? <==> MoveTwice(price, outcome, side, a, b, parsed).Ok?
    ensures Move(price, outcome, side, a + b, parsed).Ok? ==>
              Move(price, outcome, side, a + b, parsed) == MoveTwice(price, outcome, side, a, b, parsed)
  {
    if Normalize(price, outcome, side, parsed).Ok? {
      var k := GridPosition(price, outcome, side, parsed);
      MoveOnGrid(price, outcome, side, a + b, parsed, k);
      MoveTwiceOnGrid(price, outcome, side, a, b, parsed, k);
      InnerIsTradable(parsed);
      var dir := BookDirection(outcome, side);
      if MoveTo(parsed.value, k + Step(dir, a + b), outcome, dir).Ok? {
        TargetsAddUp(parsed.value, k, a, b, outcome, dir);
      }
    }
  }

  /** Moving for the other side undoes a move. */
  lemma MoveUndone(price: Numeric, outcome: Outcome, side: Side, ticks: nat, parsed: ParsedGrid)
    requires IsSafeInteger(ticks) && Move(price, outcome, side, ticks, parsed).Ok?
    ensures Normalize(price, outcome, side, parsed).Ok?
    ensures Move(ToPrice(Move(price, outcome, side, ticks, parsed).value.price), outcome, Opposite(side), ticks, parsed)
         == Ok(Moved(Normalize(price, outcome, side, parsed).value.price,
                     Normalize(price, outcome, side, parsed).value.yesBookPrice,
                     BookDirection(outcome, Opposite(side))))
  {
    var k := GridPosition(price, outcome, side, parsed);
    MoveOnGrid(price, outcome, side, ticks, parsed, k);
    InnerIsTradable(parsed);
    MoveOnwards(parsed.value, k + Step(BookDirection(outcome, side), ticks), outcome, side, Opposite(side), ticks,
                parsed);
    NormalizedIsOnGrid(price, outcome, side, parsed);
  }

  // ----- isKalshiOutcomePriceValid

  function ToPriceUnits(price: Numeric): Result<int, GridError> {
    if price.NotReal? || price.value < 0.0 || price.value > 1.0 then Err(InvalidPrice)
    else
      var scaled := price.value * 10_000.0;
      if Differs(Round(scaled), scaled) then Err(InvalidPrice) else Ok(Round(scaled))
  }

  predicate IsValidOutcomePrice(price: Numeric, outcome: Outcome, parsed: ParsedGrid) {
    match (ToPriceUnits(YesPrice(price, outcome)), parsed)
    case (Ok(yes), Ok(grid)) => IsTradable(yes) && yes in grid
    case _ => false
  }

  lemma RoundedIsNear(yes: real, units: int)
    ensures !Differs(units, yes) ==> Round(yes) == units
  {
  }

  /** Close to a grid price, that is the nearest one. */
  lemma CloseIsNearest(grid: seq<int>, outcome: Outcome, side: Side, price: real, units: int)
    requires OnOutcomeGrid(grid, outcome, units) && !Differs(units, price)
    ensures IsNearest(grid, outcome, side, price, units)
  {
  }

  lemma ValidIsClose(price: Numeric, outcome: Outcome, parsed: ParsedGrid) returns (units: int)
    requires IsValidOutcomePrice(price, outcome, parsed)
    ensures price.Real? && 0.0 <= price.value <= 1.0 && parsed.Ok?
    ensures OnOutcomeGrid(parsed.value, outcome, units) && IsTradable(units) && !Differs(units, price.value * 10_000.0)
  {
    units := OutcomeUnits(ToPriceUnits(YesPrice(price, outcome)).value, outcome);
  }

  lemma CloseIsValid(price: real, outcome: Outcome, parsed: ParsedGrid, units: int)
    requires 0.0 <= price <= 1.0 && parsed.Ok?
    requires OnOutcomeGrid(parsed.value, outcome, units) && IsTradable(units) && !Differs(units, price * 10_000.0)
    ensures IsValidOutcomePrice(Real(price), outcome, parsed)
  {
    RoundedIsNear(PriceIn(outcome, price * 10_000.0), OutcomeUnits(units, outcome));
  }

  /** A price is valid exactly when normalizing it for either side leaves it as it is. */
  lemma ValidIsUnadjusted(price: Numeric, outcome: Outcome, side: Side, parsed: ParsedGrid)
    ensures IsValidOutcomePrice(price, outcome, parsed)
       <==> Normalize(price, outcome, side, parsed).Ok? && !Normalize(price, outcome, side, parsed).value.adjusted
  {
    if IsValidOutcomePrice(price, outcome, parsed) {
      var units := ValidIsClose(price, outcome, parsed);
      CloseIsNearest(parsed.value, outcome, side, price.value * 10_000.0, units);
      NormalizesToNearest(price.value, outcome, side, parsed, units);
    } else if Normalize(price, outcome, side, parsed).Ok? && !Normalize(price, outcome, side, parsed).value.adjusted {
      NormalizedIsOnGrid(price, outcome, side, parsed);
      CloseIsValid(price.value, outcome, parsed, Normalize(price, outcome, side, parsed).value.price);
    }
  }
}

/** Quotes for one leg of a pair: a prepared book walked for a size, with the worst cost that a
    limit order at the last walked price can come to. */
module LegQuotes {
  import opened Prelude
  import opened Sequences
  import opened RealSums
  import opened BookWalk

  /** A fee by size and price. Polymarket's fee curve enters as such a function. */
  type Fee = (real, real) -> real

  datatype ConsumedLevel = ConsumedLevel(price: real, size: real, notionalUsd: real, feeUsd: real, costUsd: real)

  datatype LegQuote = LegQuote(
    size: real, displayedDepth: real, executableDepth: real, notionalUsd: real, feeUsd: real, costUsd: real,
    worstFillNotionalUsd: real, worstFillFeeUsd: real, worstFillCostUsd: real,
    vwapPrice: Option<real>, limitPrice: Option<real>, consumedLevels: seq<ConsumedLevel>)

  function FeeOf(fee: Fee): Level -> real {
    (level: Level) => fee(level.size, level.price)
  }

  /** The level fees of an execution. */
  function Fees(fee: Fee, levels: seq<Level>): real {
    Total(FeeOf(fee), levels)
  }

  function Consume(fee: Fee): Level -> ConsumedLevel {
    (level: Level) =>
      var notional, levelFee := NotionalOf(level), fee(level.size, level.price);
      ConsumedLevel(level.price, Round4(level.size), Round4(notional), Round5(levelFee), Round5(notional + levelFee))
  }

  // ----- the unrounded worst fill

  function LimitPrice(taken: seq<Level>): real
    requires taken != []
  {
    taken[|taken| - 1].price
  }

  /** What a walk came to, before rounding. */
  datatype Walk = Walk(size: real, notional: real, fees: real, limit: real)

  function WalkOf(fee: Fee, taken: seq<Level>, size: real): Walk
    requires taken != []
  {
    Walk(size, Notional(taken), Fees(fee, taken), LimitPrice(taken))
  }

  function WorstNotional(walk: Walk): real {
    Max(walk.notional, walk.size * walk.limit)
  }

  function WorstFee(walk: Walk, worst: Fee): real {
    Max(walk.fees, worst(walk.size, walk.limit))
  }

  function WorstCost(walk: Walk, worst: Fee): real {
    Max(walk.notional + walk.fees, WorstNotional(walk) + WorstFee(walk, worst))
  }

  // ----- quotePreparedBook

  /** The book can fill the size, up to the tolerance. */
  predicate CanFill(book: PreparedBook, size: Numeric) {
    && size.Real? && size.value > 0.0
    && size.value <= book.executableDepth + TOLERANCE
    && size.value - Depth(Take(book.levels, size.value)) <= TOLERANCE
    && Take(book.levels, size.value) != []
  }

  function QuoteWalk(book: PreparedBook, walk: Walk, worst: Fee, consumed: seq<ConsumedLevel>): LegQuote
    requires walk.size > 0.0
  {
    LegQuote(
      Round4(walk.size), Round4(book.displayedDepth), Round4(book.executableDepth),
      Round4(walk.notional), Round5(walk.fees), Round5(walk.notional + walk.fees),
      Round4(WorstNotional(walk)), Round5(WorstFee(walk, worst)), Round5(WorstCost(walk, worst)),
      Some(Round4(walk.notional / walk.size)), Some(walk.limit), consumed)
  }

  function QuoteOf(book: PreparedBook, size: Numeric, fee: Fee, worst: Fee): Option<LegQuote> {
    if CanFill(book, size) then
      var taken := Take(book.levels, size.value);
      Some(QuoteWalk(book, WalkOf(fee, taken, size.value), worst, Map(Consume(fee), taken)))
    else None
  }

  method QuotePreparedBook(book: PreparedBook, requested: Numeric, fee: Fee, worst: Fee)
    returns (quote: Option<LegQuote>)
    ensures quote == QuoteOf(book, requested, fee, worst)
  {
    if requested.NotReal? || requested.value <= 0.0 {
      return None;
    }
    var size := requested.value;
    if size > book.executableDepth + TOLERANCE {
      return None;
    }
    var consumed, notional, feeUsd, remaining := WalkBook(book.levels, size, fee);
    if remaining > TOLERANCE {
      return None;
    }
    if consumed == [] {
      return None;
    }
    var walk := Walk(size, notional, feeUsd, consumed[|consumed| - 1].price);
    return Some(QuoteWalk(book, walk, worst, consumed));
  }

  lemma WalkStep(fee: Fee, taken: seq<Level>, level: Level)
    ensures Depth(taken + [level]) == Depth(taken) + level.size
    ensures Notional(taken + [level]) == Notional(taken) + NotionalOf(level)
    ensures Fees(fee, taken + [level]) == Fees(fee, taken) + fee(level.size, level.price)
    ensures Map(Consume(fee), taken + [level]) == Map(Consume(fee), taken) + [Consume(fee)(level)]
  {
    TotalSnoc(SizeOf, taken, level);
    TotalSnoc(NotionalOf, taken, level);
    TotalSnoc(FeeOf(fee), taken, level);
    MapSnoc(Consume(fee), taken, level);
  }

  lemma TakeNext(levels: seq<Level>, i: nat, taken: seq<Level>, remaining: real)
    requires i < |levels| && remaining > TOLERANCE
    ensures var x := Min(levels[i].size, remaining);
            taken + [Level(levels[i].price, x)] + Take(levels[i + 1..], remaining - x)
            == taken + Take(levels[i..], remaining)
  {
    assert levels[i..][1..] == levels[i + 1..];
  }

  /** The loop over the levels, with its three running amounts. */
  method WalkBook(levels: seq<Level>, size: real, fee: Fee)
    returns (consumed: seq<ConsumedLevel>, notional: real, feeUsd: real, remaining: real)
    ensures consumed == Map(Consume(fee), Take(levels, size))
    ensures notional == Notional(Take(levels, size))
    ensures feeUsd == Fees(fee, Take(levels, size))
    ensures remaining == size - Depth(Take(levels, size))
  {
    consumed, notional, feeUsd, remaining := [], 0.0, 0.0, size;
    ghost var taken: seq<Level> := [];
    var i := 0;
    while i < |levels| && remaining > TOLERANCE
      invariant 0 <= i <= |levels|
      invariant taken + Take(levels[i..], remaining) == Take(levels, size)
      invariant consumed == Map(Consume(fee), taken)
      invariant notional == Notional(taken) && feeUsd == Fees(fee, taken) && remaining == size - Depth(taken)
    {
      var level := Level(levels[i].price, Min(levels[i].size, remaining));
      WalkStep(fee, taken, level);
      TakeNext(levels, i, taken, remaining);
      taken := taken + [level];
      consumed := consumed + [Consume(fee)(level)];
      notional := notional + NotionalOf(level);
      feeUsd := feeUsd + fee(level.size, level.price);
      remaining := remaining - level.size;
      i := i + 1;
    }
    assert Take(levels[i..], remaining) == [];
    assert taken + [] == taken;
  }

  // ----- the walk is optimal

  /** What a book must be for the walk: prepared books are. */
  predicate IsBook(book: PreparedBook) {
    && Ascending(book.levels) && HasPositiveSizes(book.levels) && book.executableDepth == Depth(book.levels)
    && forall level :: level in book.levels ==> 0.0 < level.price < 1.0
  }

  lemma PreparedIsBook(input: BookInput)
    ensures IsBook(Prepared(input))
  {
    PreparedIsCheapest(input);
    AdjustedIsSound(input);
    var book := Prepared(input);
    forall level | level in book.levels
      ensures level.size > 0.0 && 0.0 < level.price < 1.0
    {
      var k :| 0 <= k < |book.levels| && book.levels[k] == level;
      assert AdjustedLevels(input)[k] in AdjustedLevels(input);
    }
  }

  /** Every size within the book's depth is quotable, and no other. */
  lemma QuotableIsWithinDepth(book: PreparedBook, size: real)
    requires IsBook(book) && size >= 1.0
    ensures CanFill(book, Real(size)) <==> size <= book.executableDepth + TOLERANCE
  {
    TakenDepth(book.levels, size);
  }

  /** The walk fills the size up to the tolerance, at the least notional that any allocation of as
      much from the book has. */
  lemma WalkIsCheapest(book: PreparedBook, size: real, amounts: seq<real>)
    requires IsBook(book) && CanFill(book, Real(size))
    ensures size - TOLERANCE <= Depth(Take(book.levels, size)) <= size
    ensures IsAllocation(book.levels, amounts) && Allocated(amounts) >= Depth(Take(book.levels, size)) ==>
              Cost(book.levels, amounts) >= Notional(Take(book.levels, size))
  {
    TakenDepth(book.levels, size);
    if IsAllocation(book.levels, amounts) && Allocated(amounts) >= Depth(Take(book.levels, size)) {
      assert PricedFrom(book.levels, 0.0) by {
        assert forall i :: 0 <= i < |book.levels| ==> book.levels[i] in book.levels;
      }
      GreedyIsCheapest(book.levels, size, amounts);
    }
  }

  // ----- Kalshi fees

  /** Number.EPSILON */
  const EPSILON: real := 1.0 / 4503599627370496.0

  function RoundUpToCent(value: real): real {
    Ceiling((value - EPSILON) * 100.0) as real / 100.0
  }

  lemma RoundUpMonotone(x: real, y: real)
    requires x <= y
    ensures RoundUpToCent(x) <= RoundUpToCent(y)
  {
    CeilingMonotone((x - EPSILON) * 100.0, (y - EPSILON) * 100.0);
  }

  function KalshiCoefficient(maker: bool, multiplier: real): real {
    (if maker then 0.0175 else 0.07) * multiplier
  }

  function Curve(price: real): real {
    price * (1.0 - price)
  }

  function RawFee(coefficient: real, contracts: real, price: real): real {
    coefficient * contracts * Curve(price)
  }

  function KalshiFee(coefficient: real): Fee {
    (contracts: real, price: real) => RoundUpToCent(RawFee(coefficient, contracts, price))
  }

  /** The price up to the limit at which the fee curve peaks. */
  function PeakPrice(limit: real): real {
    Min(0.5, Max(0.0, limit))
  }

  function KalshiWorstFee(coefficient: real): Fee {
    (contracts: real, limit: real) => RoundUpToCent(RawFee(coefficient, contracts, PeakPrice(limit)))
  }

  lemma ProductNonNegative(x: real, y: real)
    requires x >= 0.0 && y >= 0.0
    ensures x * y >= 0.0
  {
  }

  lemma CurveRises(price: real, m: real)
    requires 0.0 <= price <= m <= 0.5
    ensures 0.0 <= Curve(price) <= Curve(m)
  {
    ProductNonNegative(price, 1.0 - price);
    ProductNonNegative(m - price, 1.0 - m - price);
    assert (m - price) * (1.0 - m - price) == m * (1.0 - m) - price * (1.0 - price);
  }

  lemma CurveTop(price: real)
    ensures Curve(price) <= 0.25 && Curve(0.5) == 0.25
  {
    assert (0.5 - price) * (0.5 - price) >= 0.0;
  }

  lemma CurvePeaks(price: real, limit: real)
    requires 0.0 <= price <= limit
    ensures 0.0 <= Curve(PeakPrice(limit))
    ensures Curve(price) <= Curve(PeakPrice(limit))
  {
    if limit < 0.5 {
      CurveRises(price, limit);
    } else {
      CurveTop(price);
    }
  }

  /** An execution of a limit order. */
  predicate IsExecution(fills: seq<Level>, size: real, limit: real) {
    (forall fill :: fill in fills ==> 0.0 <= fill.price <= limit && fill.size >= 0.0) && Depth(fills) <= size
  }

  /** A fee on each contract that depends on the price through p(1 - p) alone. */
  function CurvedFee(rate: real, g: real -> real): Level -> real {
    (fill: Level) => rate * fill.size * g(Curve(fill.price))
  }

  function CurvedWorstFee(rate: real, g: real -> real): Fee {
    (shares: real, limit: real) => rate * shares * g(Curve(PeakPrice(limit)))
  }

  /** Powers with a non-negative exponent are such functions. */
  ghost predicate IsMonotone(g: real -> real) {
    forall x, y {:trigger g(x), g(y)} :: 0.0 <= x <= y ==> 0.0 <= g(x) <= g(y)
  }

  function Identity(): real -> real {
    (x: real) => x
  }

  /** The fee of a whole order, rounded once. */
  function OrderFee(coefficient: real, fills: seq<Level>): real {
    RoundUpToCent(Total(CurvedFee(coefficient, Identity()), fills))
  }

  function Linear(k: real): Level -> real {
    (fill: Level) => k * fill.size
  }

  lemma LinearTotal(k: real, fills: seq<Level>, size: real)
    requires k >= 0.0 && Depth(fills) <= size
    ensures Total(Linear(k), fills) <= k * size
  {
    TotalScaled(k, SizeOf, Linear(k), fills);
    MulMonotone(k, Depth(fills), size);
  }

  lemma Commute(x: real, y: real)
    ensures x * y == y * x
  {
  }

  lemma NotionalBound(fills: seq<Level>, size: real, limit: real)
    requires IsExecution(fills, size, limit) && limit >= 0.0
    ensures Notional(fills) <= size * limit
  {
    forall fill | fill in fills
      ensures NotionalOf(fill) <= Linear(limit)(fill)
    {
      MulMonotone(fill.size, fill.price, limit);
      Commute(fill.size, limit);
    }
    TotalMonotone(NotionalOf, Linear(limit), fills);
    LinearTotal(limit, fills, size);
  }

  lemma CurvedFeeBelow(rate: real, g: real -> real, fill: Level, limit: real)
    requires 0.0 <= fill.price <= limit <= 1.0 && fill.size >= 0.0 && rate >= 0.0 && IsMonotone(g)
    ensures CurvedFee(rate, g)(fill) <= Linear(rate * g(Curve(PeakPrice(limit))))(fill)
  {
    ProductNonNegative(fill.price, 1.0 - fill.price);
    CurvePeaks(fill.price, limit);
    FeeBelow(rate, fill.size, g(Curve(fill.price)), g(Curve(PeakPrice(limit))));
  }

  lemma PeakIsNonNegative(g: real -> real, limit: real)
    requires IsMonotone(g) && limit >= 0.0
    ensures g(Curve(PeakPrice(limit))) >= 0.0
  {
    CurvePeaks(limit, limit);
    assert g(0.0) <= g(Curve(PeakPrice(limit)));
  }

  /** Polymarket's unrounded fee, whatever the exponent of its curve, and Kalshi's: no execution
      within the size and the limit is charged more than the size at the peak price. */
  lemma CurvedFeeBound(rate: real, g: real -> real, fills: seq<Level>, size: real, limit: real)
    requires IsExecution(fills, size, limit) && rate >= 0.0 && 0.0 <= limit <= 1.0 && IsMonotone(g)
    ensures Total(CurvedFee(rate, g), fills) <= CurvedWorstFee(rate, g)(size, limit)
  {
    var k := rate * g(Curve(PeakPrice(limit)));
    assert CurvedWorstFee(rate, g)(size, limit) == k * size && k >= 0.0 by {
      PeakIsNonNegative(g, limit);
      ProductNonNegative(rate, g(Curve(PeakPrice(limit))));
      Reassociate(rate, g(Curve(PeakPrice(limit))), size);
    }
    forall fill | fill in fills
      ensures CurvedFee(rate, g)(fill) <= Linear(k)(fill)
    {
      CurvedFeeBelow(rate, g, fill, limit);
    }
    TotalMonotone(CurvedFee(rate, g), Linear(k), fills);
    LinearTotal(k, fills, size);
  }

  lemma FeeBelow(coefficient: real, size: real, curve: real, peak: real)
    requires coefficient >= 0.0 && size >= 0.0 && curve <= peak
    ensures coefficient * size * curve <= coefficient * peak * size
  {
    MulMonotone(coefficient * size, curve, peak);
    Reassociate(coefficient, peak, size);
  }

  lemma Reassociate(x: real, y: real, z: real)
    ensures x * y * z == x * z * y
  {
  }

  lemma OrderFeeBound(coefficient: real, fills: seq<Level>, size: real, limit: real)
    requires IsExecution(fills, size, limit) && coefficient >= 0.0 && 0.0 <= limit <= 1.0
    ensures OrderFee(coefficient, fills) <= KalshiWorstFee(coefficient)(size, limit)
  {
    var peak := RawFee(coefficient, size, PeakPrice(limit));
    CurvedFeeBound(coefficient, Identity(), fills, size, limit);
    RoundUpMonotone(Total(CurvedFee(coefficient, Identity()), fills), peak);
    assert KalshiWorstFee(coefficient)(size, limit) == RoundUpToCent(peak);
  }

  lemma LimitIsPositive(book: PreparedBook, size: real)
    requires IsBook(book) && CanFill(book, Real(size))
    ensures 0.0 < LimitPrice(Take(book.levels, size)) < 1.0
  {
    var taken := Take(book.levels, size);
    TakeIsPrefix(book.levels, size);
    assert book.levels[|taken| - 1] in book.levels;
  }

  /** No cost with these parts is above the worst one. */
  lemma BelowWorst(walk: Walk, worst: Fee, notional: real, fee: real)
    requires notional <= walk.size * walk.limit && fee <= worst(walk.size, walk.limit)
    ensures notional <= WorstNotional(walk) && fee <= WorstFee(walk, worst)
    ensures notional + fee <= WorstCost(walk, worst)
  {
  }

  /** No execution within the walk's size and limit costs more than the walk's worst. */
  predicate IsWorst(walk: Walk, coefficient: real, fills: seq<Level>) {
    && Notional(fills) <= WorstNotional(walk)
    && OrderFee(coefficient, fills) <= WorstFee(walk, KalshiWorstFee(coefficient))
    && Notional(fills) + OrderFee(coefficient, fills) <= WorstCost(walk, KalshiWorstFee(coefficient))
  }

  lemma WalkIsWorst(walk: Walk, coefficient: real, fills: seq<Level>)
    requires coefficient >= 0.0 && 0.0 <= walk.limit <= 1.0 && IsExecution(fills, walk.size, walk.limit)
    ensures IsWorst(walk, coefficient, fills)
  {
    NotionalBound(fills, walk.size, walk.limit);
    OrderFeeBound(coefficient, fills, walk.size, walk.limit);
    BelowWorst(walk, KalshiWorstFee(coefficient), Notional(fills), OrderFee(coefficient, fills));
  }

  /** Whatever a limit order at the quoted price executes at, neither its notional nor its fee as
      Kalshi charges it, once rounded, is above the unrounded worst fill. */
  lemma WorstFillIsWorst(book: PreparedBook, size: real, coefficient: real, fills: seq<Level>)
    requires IsBook(book) && CanFill(book, Real(size)) && coefficient >= 0.0
    requires IsExecution(fills, size, LimitPrice(Take(book.levels, size)))
    ensures IsWorst(WalkOf(KalshiFee(coefficient), Take(book.levels, size), size), coefficient, fills)
  {
    LimitIsPositive(book, size);
    WalkIsWorst(WalkOf(KalshiFee(coefficient), Take(book.levels, size), size), coefficient, fills);
  }

  /** ... and the same for Polymarket before its rounding, whatever the exponent of its fee curve. */
  lemma CurvedWorstIsWorst(
    book: PreparedBook, size: real, limit: real, rate: real, g: real -> real, fills: seq<Level>)
    requires IsBook(book) && CanFill(book, Real(size)) && limit == LimitPrice(Take(book.levels, size))
    requires rate >= 0.0 && IsMonotone(g) && IsExecution(fills, size, limit)
    ensures Total(CurvedFee(rate, g), fills) <= CurvedWorstFee(rate, g)(size, limit)
    ensures Notional(fills) + Total(CurvedFee(rate, g), fills) <= size * limit + CurvedWorstFee(rate, g)(size, limit)
  {
    LimitIsPositive(book, size);
    NotionalBound(fills, size, limit);
    CurvedFeeBound(rate, g, fills, size, limit);
  }

  // ----- the rounded worst fill of whole contracts

  predicate IsWhole(x: real) {
    x.Floor as real == x
  }

  lemma IntegerIsWhole(n: int, x: real)
    requires x == n as real
    ensures IsWhole(x) && x.Floor == n
  {
  }

  lemma WholeSum(x: real, y: real)
    requires IsWhole(x) && IsWhole(y)
    ensures IsWhole(x + y)
  {
    IntegerIsWhole(x.Floor + y.Floor, x + y);
  }

  lemma WholeTimes(n: int, x: real, y: real)
    requires IsWhole(x) && y == n as real * x
    ensures IsWhole(y)
  {
    IntegerIsWhole(n * x.Floor, y);
  }

  lemma Round5Whole(x: real)
    requires IsWhole(x * 100_000.0)
    ensures Round5(x) == x
  {
    assert Round(x * 100_000.0) == (x * 100_000.0).Floor;
  }

  /** A multiple of 1e-5. */
  predicate IsStep(x: real) {
    IsWhole(x * 100_000.0)
  }

  /** Every fee is a multiple of 1e-5. */
  ghost predicate IsStepped(fee: Fee) {
    forall size, price {:trigger fee(size, price)} :: IsStep(fee(size, price))
  }

  lemma CentsAreSteps(x: real)
    ensures IsStep(RoundUpToCent(x))
  {
    var cents := Ceiling((x - EPSILON) * 100.0);
    IntegerIsWhole(1_000 * cents, RoundUpToCent(x) * 100_000.0);
  }

  lemma KalshiFeesAreStepped(coefficient: real)
    ensures IsStepped(KalshiFee(coefficient)) && IsStepped(KalshiWorstFee(coefficient))
  {
    forall size: real, price: real
      ensures IsStep(KalshiFee(coefficient)(size, price)) && IsStep(KalshiWorstFee(coefficient)(size, price))
    {
      CentsAreSteps(RawFee(coefficient, size, price));
      CentsAreSteps(RawFee(coefficient, size, PeakPrice(price)));
    }
  }

  lemma {:induction false} FeesAreSteps(fee: Fee, levels: seq<Level>)
    requires IsStepped(fee)
    ensures IsStep(Fees(fee, levels))
  {
    if levels != [] {
      FeesAreSteps(fee, levels[1..]);
      WholeSum(fee(levels[0].size, levels[0].price) * 100_000.0, Fees(fee, levels[1..]) * 100_000.0);
    }
  }

  lemma TakenIsExecution(book: PreparedBook, size: real)
    requires IsBook(book) && CanFill(book, Real(size))
    ensures IsExecution(Take(book.levels, size), size, LimitPrice(Take(book.levels, size)))
  {
    var taken := Take(book.levels, size);
    TakenDepth(book.levels, size);
    TakeIsPrefix(book.levels, size);
    forall fill | fill in taken
      ensures 0.0 <= fill.price <= LimitPrice(taken) && fill.size >= 0.0
    {
      var i :| 0 <= i < |taken| && taken[i] == fill;
      assert book.levels[i] in book.levels;
    }
  }

  /** The worst cost is the limit's notional and the worse of the two fees. */
  lemma WorstCostParts(walk: Walk, worst: Fee)
    requires walk.notional <= walk.size * walk.limit
    ensures WorstCost(walk, worst) == walk.size * walk.limit + WorstFee(walk, worst)
  {
  }

  lemma CostIsExact(size: int, limit: real, fee: real, cost: real)
    requires IsWhole(limit * 10_000.0) && IsStep(fee) && cost == size as real * limit + fee
    ensures Round5(cost) == cost
  {
    Rescale(size as real, limit);
    WholeTimes(10 * size, limit * 10_000.0, size as real * limit * 100_000.0);
    WholeSum(size as real * limit * 100_000.0, fee * 100_000.0);
    Round5Whole(cost);
  }

  lemma Rescale(size: real, limit: real)
    ensures 10.0 * size * (limit * 10_000.0) == size * limit * 100_000.0
  {
  }

  lemma WorstFeeIsStep(walk: Walk, fee: Fee, worst: Fee, taken: seq<Level>)
    requires walk.fees == Fees(fee, taken) && IsStepped(fee) && IsStepped(worst)
    ensures IsStep(WorstFee(walk, worst))
  {
    FeesAreSteps(fee, taken);
    assert IsStep(worst(walk.size, walk.limit));
  }

  /** For whole contracts at a limit in steps of 1e-4, rounding to 1e-5 leaves the worst cost as it is. */
  lemma WholeWorstIsExact(walk: Walk, size: int, worst: Fee)
    requires walk.notional <= walk.size * walk.limit && walk.size == size as real
    requires IsWhole(walk.limit * 10_000.0) && IsStep(WorstFee(walk, worst))
    ensures Round5(WorstCost(walk, worst)) == WorstCost(walk, worst)
  {
    WorstCostParts(walk, worst);
    CostIsExact(size, walk.limit, WorstFee(walk, worst), WorstCost(walk, worst));
  }

  lemma QuotedIsExact(book: PreparedBook, size: int, fee: Fee, worst: Fee, walk: Walk)
    requires IsBook(book) && CanFill(book, Real(size as real)) && IsStepped(fee) && IsStepped(worst)
    requires walk == WalkOf(fee, Take(book.levels, size as real), size as real)
    requires IsWhole(walk.limit * 10_000.0)
    ensures Round5(WorstCost(walk, worst)) == WorstCost(walk, worst)
  {
    var taken := Take(book.levels, size as real);
    TakenIsExecution(book, size as real);
    LimitIsPositive(book, size as real);
    NotionalBound(taken, walk.size, walk.limit);
    WorstFeeIsStep(walk, fee, worst, taken);
    WholeWorstIsExact(walk, size, worst);
  }

  /** So no Kalshi execution of whole contracts costs more than the quote says, fee included. */
  lemma QuotedWorstIsWorst(book: PreparedBook, size: int, coefficient: real, fills: seq<Level>)
    requires IsBook(book) && CanFill(book, Real(size as real)) && coefficient >= 0.0
    requires IsWhole(LimitPrice(Take(book.levels, size as real)) * 10_000.0)
    requires IsExecution(fills, size as real, LimitPrice(Take(book.levels, size as real)))
    ensures var q := QuoteOf(book, Real(size as real), KalshiFee(coefficient), KalshiWorstFee(coefficient)).value;
            Notional(fills) + OrderFee(coefficient, fills) <= q.worstFillCostUsd
  {
    WorstFillIsWorst(book, size as real, coefficient, fills);
    KalshiFeesAreStepped(coefficient);
    QuotedIsExact(book, size, KalshiFee(coefficient), KalshiWorstFee(coefficient),
                  WalkOf(KalshiFee(coefficient), Take(book.levels, size as real), size as real));
  }

  // ----- Polymarket fees, rounded on each fill

  /** A fee on each share: along a curve, or a flat share of the price. */
  datatype ShareFee = Curved(rate: real, g: real -> real) | Flat(rate: real)

  ghost predicate IsShareFee(s: ShareFee) {
    s.rate >= 0.0 && (s.Curved? ==> IsMonotone(s.g))
  }

  function PerShare(s: ShareFee, price: real): real {
    match s
    case Curved(rate, g) => rate * g(Curve(price))
    case Flat(rate) => rate * price
  }

  function WorstPerShare(s: ShareFee, limit: real): real {
    match s
    case Curved(rate, g) => rate * g(Curve(PeakPrice(limit)))
    case Flat(rate) => rate * limit
  }

  /** roundPolymarketFee of the fee on so many shares */
  function Charged(shares: real, perShare: real): real {
    Round5(shares * perShare + EPSILON)
  }

  /** calculatePolymarketLevelFee */
  function PolymarketFee(s: ShareFee): Fee {
    (shares: real, price: real) => Charged(shares, PerShare(s, price))
  }

  /** calculatePolymarketWorstFillFee */
  function PolymarketWorstFee(s: ShareFee): Fee {
    (shares: real, limit: real) => Charged(shares, WorstPerShare(s, limit))
  }

  /** How much rounding can add to a fee. */
  const HALF_STEP: real := 0.000005 + EPSILON

  /** What rounding can add to the fees of n fills, and take from the worst fee. */
  function RoundingSlack(n: nat): real {
    (n + 1) as real * HALF_STEP
  }

  lemma Round5IsStep(x: real)
    ensures IsStep(Round5(x)) && x - 0.000005 <= Round5(x) <= x + 0.000005
  {
    IntegerIsWhole(Round(x * 100_000.0), Round5(x) * 100_000.0);
  }

  lemma ChargedIsStep(shares: real, perShare: real)
    ensures IsStep(Charged(shares, perShare))
  {
    Round5IsStep(shares * perShare + EPSILON);
  }

  lemma PolymarketFeesAreStepped(s: ShareFee)
    ensures IsStepped(PolymarketFee(s)) && IsStepped(PolymarketWorstFee(s))
  {
    forall size: real, price: real
      ensures IsStep(PolymarketFee(s)(size, price)) && IsStep(PolymarketWorstFee(s)(size, price))
    {
      ChargedIsStep(size, PerShare(s, price));
      ChargedIsStep(size, WorstPerShare(s, price));
    }
  }

  /** What is charged is at most the worst fee on as many shares, and half a step. */
  lemma ChargedAtMost(shares: real, perShare: real, worst: real)
    requires shares >= 0.0 && perShare <= worst
    ensures Charged(shares, perShare) <= worst * shares + HALF_STEP
  {
    Round5IsStep(shares * perShare + EPSILON);
    MulMonotone(shares, perShare, worst);
    Commute(shares, worst);
  }

  lemma ChargedAtLeast(shares: real, perShare: real)
    ensures perShare * shares <= Charged(shares, perShare) + HALF_STEP
  {
    Round5IsStep(shares * perShare + EPSILON);
    Commute(shares, perShare);
  }

  lemma CurvedIsWorst(rate: real, g: real -> real, price: real, limit: real)
    requires rate >= 0.0 && IsMonotone(g) && 0.0 <= price <= limit <= 1.0
    ensures rate * g(Curve(price)) <= rate * g(Curve(PeakPrice(limit)))
    ensures rate * g(Curve(PeakPrice(limit))) >= 0.0
  {
    ProductNonNegative(price, 1.0 - price);
    CurvePeaks(price, limit);
    MulMonotone(rate, g(Curve(price)), g(Curve(PeakPrice(limit))));
    PeakIsNonNegative(g, limit);
    ProductNonNegative(rate, g(Curve(PeakPrice(limit))));
  }

  lemma FlatIsWorst(rate: real, price: real, limit: real)
    requires rate >= 0.0 && 0.0 <= price <= limit
    ensures rate * price <= rate * limit && rate * limit >= 0.0
  {
    MulMonotone(rate, price, limit);
    ProductNonNegative(rate, limit);
  }

  /** No price up to the limit has a higher fee on a share than the limit's worst. */
  lemma PerShareIsWorst(s: ShareFee, price: real, limit: real)
    requires IsShareFee(s) && 0.0 <= price <= limit <= 1.0
    ensures PerShare(s, price) <= WorstPerShare(s, limit) && WorstPerShare(s, limit) >= 0.0
  {
    match s
    case Curved(rate, g) => CurvedIsWorst(rate, g, price, limit);
    case Flat(rate) => FlatIsWorst(rate, price, limit);
  }

  lemma {:induction false} ChargedSum(s: ShareFee, fills: seq<Level>, limit: real)
    requires IsShareFee(s) && limit <= 1.0
    requires forall fill :: fill in fills ==> 0.0 <= fill.price <= limit && fill.size >= 0.0
    ensures Fees(PolymarketFee(s), fills)
         <= Total(Linear(WorstPerShare(s, limit)), fills) + |fills| as real * HALF_STEP
  {
    if fills != [] {
      assert fills[0] in fills;
      PerShareIsWorst(s, fills[0].price, limit);
      ChargedAtMost(fills[0].size, PerShare(s, fills[0].price), WorstPerShare(s, limit));
      ChargedSum(s, fills[1..], limit);
    }
  }

  /** What is charged for an execution, fill by fill, is at most the worst fee that is quoted and half a
      step for each rounding. */
  lemma ChargedIsWorst(s: ShareFee, fills: seq<Level>, size: real, limit: real)
    requires IsShareFee(s) && IsExecution(fills, size, limit) && 0.0 <= limit <= 1.0
    ensures Fees(PolymarketFee(s), fills) <= PolymarketWorstFee(s)(size, limit) + RoundingSlack(|fills|)
  {
    var k := WorstPerShare(s, limit);
    ChargedSum(s, fills, limit);
    PerShareIsWorst(s, 0.0, limit);
    LinearTotal(k, fills, size);
    ChargedAtLeast(size, k);
  }

  /** The worst cost with a slack on the fee. */
  lemma AboveQuote(walk: Walk, worst: Fee, notional: real, fee: real, slack: real)
    requires notional <= walk.size * walk.limit && fee <= worst(walk.size, walk.limit) + slack
    ensures notional + fee <= WorstCost(walk, worst) + slack
  {
  }

  lemma PolymarketWalkIsWorst(walk: Walk, s: ShareFee, fills: seq<Level>)
    requires IsShareFee(s) && 0.0 <= walk.limit <= 1.0 && IsExecution(fills, walk.size, walk.limit)
    ensures Notional(fills) + Fees(PolymarketFee(s), fills)
         <= WorstCost(walk, PolymarketWorstFee(s)) + RoundingSlack(|fills|)
  {
    NotionalBound(fills, walk.size, walk.limit);
    ChargedIsWorst(s, fills, walk.size, walk.limit);
    AboveQuote(walk, PolymarketWorstFee(s), Notional(fills), Fees(PolymarketFee(s), fills), RoundingSlack(|fills|));
  }

  /** No Polymarket execution of whole shares costs more than the quote says and half a step for each
      rounding, fees included. */
  lemma QuotedPolymarketIsWorst(book: PreparedBook, size: int, s: ShareFee, fills: seq<Level>)
    requires IsBook(book) && CanFill(book, Real(size as real)) && IsShareFee(s)
    requires IsWhole(LimitPrice(Take(book.levels, size as real)) * 10_000.0)
    requires IsExecution(fills, size as real, LimitPrice(Take(book.levels, size as real)))
    ensures var q := QuoteOf(book, Real(size as real), PolymarketFee(s), PolymarketWorstFee(s)).value;
            Notional(fills) + Fees(PolymarketFee(s), fills) <= q.worstFillCostUsd + RoundingSlack(|fills|)
  {
    var walk := WalkOf(PolymarketFee(s), Take(book.levels, size as real), size as real);
    LimitIsPositive(book, size as real);
    PolymarketWalkIsWorst(walk, s, fills);
    PolymarketFeesAreStepped(s);
    QuotedIsExact(book, size, PolymarketFee(s), PolymarketWorstFee(s), walk);
  }
}

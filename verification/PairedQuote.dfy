/** The search for the size of a pair: every whole size is quoted on both venues and held against
    all limits, and the best by conservative profit is taken. */
module PairedQuote {
  import opened Prelude
  import opened RealSums
  import opened BookWalk
  import opened LegQuotes

  datatype Reason =
    | InvalidInput | MinimumSize | PolymarketDepth | KalshiDepth | PairSizeCap | PairBudget | MaxLegCapital
    | PolymarketBalance | KalshiBalance | PolymarketCost | KalshiCost | AbsoluteFatalLoss
    | ProbabilityWeightedFatalLoss | FatalProbability | ProjectedProfit | ProjectedReturn
    | ConservativeProfit | ConservativeReturn

  datatype PairInput = PairInput(
    targetPairBudgetUsd: Numeric, maxLegCapitalShare: Option<Numeric>, pairSizeCap: Option<Numeric>,
    minPairSize: Option<Numeric>, minProjectedNetProfitUsd: Option<Numeric>, minProjectedNetReturn: Option<Numeric>,
    minConservativeNetProfitUsd: Option<Numeric>, minConservativeNetReturn: Option<Numeric>,
    fatalMismatchProbabilityUpper: Option<Numeric>, maxFatalProbabilityShareOfBreakEven: Option<Numeric>,
    maxProbabilityWeightedFatalLossUsd: Option<Numeric>, maxAbsoluteFatalLossUsd: Option<Numeric>,
    polymarket: BookInput, polymarketBalanceUsd: Option<Numeric>, polymarketMaxCostUsd: Option<Numeric>,
    polymarketFeeRateBps: Option<Numeric>, polymarketFeeRate: Option<Numeric>, polymarketFeeExponent: Option<Numeric>,
    kalshi: BookInput, kalshiBalanceUsd: Option<Numeric>, kalshiMaxCostUsd: Option<Numeric>,
    kalshiFeeMultiplier: Option<Numeric>, kalshiMaker: bool)

  /** Both prepared books with the fees that apply to them. */
  datatype Market = Market(
    polymarket: PreparedBook, kalshi: PreparedBook, polymarketFee: Fee, polymarketWorstFee: Fee,
    kalshiCoefficient: real)

  /** A limit of none is infinite. */
  datatype Limits = Limits(
    budget: real, maxLegCost: real, polymarketBalance: Option<real>, kalshiBalance: Option<real>,
    polymarketMaxCost: Option<real>, kalshiMaxCost: Option<real>, maxAbsoluteLoss: Option<real>,
    maxWeightedLoss: Option<real>, minProjectedProfit: real, minProjectedReturn: real,
    minConservativeProfit: real, minConservativeReturn: real, fatalProbability: real, maxShareOfBreakEven: real)

  datatype Raw = Raw(
    totalCost: real, worstFillCost: real, projectedProfit: real, projectedReturn: Option<real>,
    conservativeProfit: real, conservativeReturn: Option<real>, breakEven: real, weightedLoss: real)

  datatype PairQuote = PairQuote(
    commonSize: int, maxExecutableSize: int, polymarket: LegQuote, kalshi: LegQuote,
    totalCostUsd: real, worstFillCostUsd: real, projectedNetProfitUsd: real, projectedNetReturn: Option<real>,
    conservativeNetProfitUsd: real, conservativeNetReturn: Option<real>, breakEvenFatalProbability: real,
    fatalMismatchProbabilityUpper: real, probabilityWeightedFatalLossUsd: real, absoluteFatalLossUsd: real,
    limitingReason: Option<Reason>)

  datatype Candidate = Candidate(quote: PairQuote, raw: Raw, reason: Option<Reason>)

  // ----- reading the input

  function OrElse(n: Option<Numeric>, default: real): Numeric {
    if n.None? then Real(default) else n.value
  }

  /** normalizeOptionalLimit */
  function OptionalLimit(n: Option<Numeric>): (r: Option<real>)
    ensures r.Some? ==> r.value >= 0.0
  {
    match n
    case None => None
    case Some(NotReal) => Some(0.0)
    case Some(Real(v)) => Some(Max(0.0, v))
  }

  /** normalizeNonNegative */
  function NonNegative(n: Option<Numeric>): (r: real)
    ensures r >= 0.0
  {
    match n
    case None => 0.0
    case Some(NotReal) => 0.0
    case Some(Real(v)) => Max(0.0, v)
  }

  predicate IsInvalidFee(n: Option<Numeric>) {
    n.Some? && (n.value.NotReal? || n.value.value < 0.0)
  }

  predicate IsInvalid(input: PairInput) {
    var budget := input.targetPairBudgetUsd;
    var fatal := OrElse(input.fatalMismatchProbabilityUpper, 0.0);
    var share := OrElse(input.maxFatalProbabilityShareOfBreakEven, 1.0);
    var legShare := OrElse(input.maxLegCapitalShare, 1.0);
    || budget.NotReal? || fatal.NotReal? || share.NotReal? || legShare.NotReal?
    || budget.value <= 0.0 || fatal.value < 0.0 || fatal.value > 1.0 || share.value < 0.0
    || legShare.value < 0.0 || legShare.value > 1.0
    || IsInvalidFee(input.polymarketFeeRateBps) || IsInvalidFee(input.polymarketFeeRate)
    || IsInvalidFee(input.polymarketFeeExponent) || IsInvalidFee(input.kalshiFeeMultiplier)
  }

  function LimitsOf(input: PairInput): Limits
    requires !IsInvalid(input)
  {
    Limits(
      input.targetPairBudgetUsd.value,
      input.targetPairBudgetUsd.value * OrElse(input.maxLegCapitalShare, 1.0).value,
      OptionalLimit(input.polymarketBalanceUsd), OptionalLimit(input.kalshiBalanceUsd),
      OptionalLimit(input.polymarketMaxCostUsd), OptionalLimit(input.kalshiMaxCostUsd),
      OptionalLimit(input.maxAbsoluteFatalLossUsd), OptionalLimit(input.maxProbabilityWeightedFatalLossUsd),
      NonNegative(input.minProjectedNetProfitUsd), NonNegative(input.minProjectedNetReturn),
      NonNegative(input.minConservativeNetProfitUsd), NonNegative(input.minConservativeNetReturn),
      OrElse(input.fatalMismatchProbabilityUpper, 0.0).value,
      OrElse(input.maxFatalProbabilityShareOfBreakEven, 1.0).value)
  }

  function FeeMultiplier(input: PairInput): (r: real)
    ensures r >= 0.0
  {
    match input.kalshiFeeMultiplier
    case Some(Real(v)) => if v >= 0.0 then v else 1.0
    case _ => 1.0
  }

  function PolymarketInput(input: PairInput): BookInput {
    input.polymarket.(depthHeadroom := None)
  }

  function MarketOf(input: PairInput, fee: Fee, worst: Fee): Market {
    Market(Prepared(PolymarketInput(input)), Prepared(input.kalshi), fee, worst,
           KalshiCoefficient(input.kalshiMaker, FeeMultiplier(input)))
  }

  function DepthLimitedSize(market: Market): (r: int)
    ensures r >= 0
  {
    var depth := (Min(market.polymarket.executableDepth, market.kalshi.executableDepth) + TOLERANCE).Floor;
    if depth < 0 then 0 else depth
  }

  function MaxSize(market: Market, cap: Option<real>): (r: int)
    ensures 0 <= r <= DepthLimitedSize(market)
    ensures cap.Some? && cap.value >= 0.0 ==> r as real <= cap.value
  {
    var depth := DepthLimitedSize(market);
    if cap.None? || depth as real <= cap.value then depth
    else if cap.value < 0.0 then 0 else cap.value.Floor
  }

  function MinSize(input: PairInput): (r: int)
    ensures r >= 1
  {
    match input.minPairSize
    case Some(Real(v)) => if Ceiling(v) < 1 then 1 else Ceiling(v)
    case _ => 1
  }

  // ----- one size

  predicate Exceeds(value: real, limit: Option<real>) {
    limit.Some? && value > limit.value + TOLERANCE
  }

  /** failsPositiveMinimum */
  predicate FailsMinimum(value: real, minimum: real) {
    if minimum <= TOLERANCE then value <= TOLERANCE else value + TOLERANCE < minimum
  }

  predicate FailsReturn(value: Option<real>, minimum: real) {
    value.None? || FailsMinimum(value.value, minimum)
  }

  predicate FatalTooLikely(raw: Raw, limits: Limits) {
    limits.fatalProbability > limits.maxShareOfBreakEven * raw.breakEven + TOLERANCE
  }

  /** getMultiLevelCandidateRejectionReason */
  function RejectionReason(polymarket: real, kalshi: real, raw: Raw, limits: Limits): Option<Reason> {
    if raw.worstFillCost > limits.budget + TOLERANCE then Some(PairBudget)
    else if polymarket > limits.maxLegCost + TOLERANCE || kalshi > limits.maxLegCost + TOLERANCE
    then Some(MaxLegCapital)
    else if Exceeds(polymarket, limits.polymarketBalance) then Some(PolymarketBalance)
    else if Exceeds(kalshi, limits.kalshiBalance) then Some(KalshiBalance)
    else if Exceeds(polymarket, limits.polymarketMaxCost) then Some(PolymarketCost)
    else if Exceeds(kalshi, limits.kalshiMaxCost) then Some(KalshiCost)
    else if Exceeds(raw.worstFillCost, limits.maxAbsoluteLoss) then Some(AbsoluteFatalLoss)
    else if Exceeds(raw.weightedLoss, limits.maxWeightedLoss) then Some(ProbabilityWeightedFatalLoss)
    else if FailsMinimum(raw.projectedProfit, limits.minProjectedProfit) then Some(ProjectedProfit)
    else if FailsReturn(raw.projectedReturn, limits.minProjectedReturn) then Some(ProjectedReturn)
    else if FatalTooLikely(raw, limits) then Some(FatalProbability)
    else if FailsMinimum(raw.conservativeProfit, limits.minConservativeProfit) then Some(ConservativeProfit)
    else if FailsReturn(raw.conservativeReturn, limits.minConservativeReturn) then Some(ConservativeReturn)
    else None
  }

  /** Every limit at once. */
  predicate IsWithinLimits(polymarket: real, kalshi: real, raw: Raw, limits: Limits) {
    && raw.worstFillCost <= limits.budget + TOLERANCE
    && polymarket <= limits.maxLegCost + TOLERANCE && kalshi <= limits.maxLegCost + TOLERANCE
    && !Exceeds(polymarket, limits.polymarketBalance) && !Exceeds(kalshi, limits.kalshiBalance)
    && !Exceeds(polymarket, limits.polymarketMaxCost) && !Exceeds(kalshi, limits.kalshiMaxCost)
    && !Exceeds(raw.worstFillCost, limits.maxAbsoluteLoss) && !Exceeds(raw.weightedLoss, limits.maxWeightedLoss)
    && !FailsMinimum(raw.projectedProfit, limits.minProjectedProfit)
    && !FailsReturn(raw.projectedReturn, limits.minProjectedReturn)
    && !FatalTooLikely(raw, limits)
    && !FailsMinimum(raw.conservativeProfit, limits.minConservativeProfit)
    && !FailsReturn(raw.conservativeReturn, limits.minConservativeReturn)
  }

  function Ratio(value: real, cost: real): Option<real> {
    if cost > 0.0 then Some(value / cost) else None
  }

  function RawOf(size: int, polymarket: LegQuote, kalshi: LegQuote, fatal: real): Raw
    requires size > 0
  {
    var total := polymarket.costUsd + kalshi.costUsd;
    var worst := polymarket.worstFillCostUsd + kalshi.worstFillCostUsd;
    var projected := size as real - total;
    var conservative := size as real * (1.0 - fatal) - worst;
    Raw(total, worst, projected, Ratio(projected, total), conservative, Ratio(conservative, worst),
        Max(0.0, (size as real - worst) / size as real), fatal * worst)
  }

  function RoundOption(x: Option<real>): Option<real> {
    if x.None? then None else Some(Round4(x.value))
  }

  function PairOf(size: int, maxSize: int, polymarket: LegQuote, kalshi: LegQuote, raw: Raw, fatal: real): PairQuote {
    PairQuote(size, maxSize, polymarket, kalshi, Round4(raw.totalCost), Round4(raw.worstFillCost),
              Round4(raw.projectedProfit), RoundOption(raw.projectedReturn), Round4(raw.conservativeProfit),
              RoundOption(raw.conservativeReturn), Round4(raw.breakEven), fatal, Round4(raw.weightedLoss),
              Round4(raw.worstFillCost), None)
  }

  function CandidateOf(size: int, maxSize: int, polymarket: LegQuote, kalshi: LegQuote, limits: Limits): Candidate
    requires size > 0
  {
    var raw := RawOf(size, polymarket, kalshi, limits.fatalProbability);
    Candidate(PairOf(size, maxSize, polymarket, kalshi, raw, limits.fatalProbability), raw,
              RejectionReason(polymarket.worstFillCostUsd, kalshi.worstFillCostUsd, raw, limits))
  }

  function PolymarketQuote(market: Market, size: int): Option<LegQuote> {
    QuoteOf(market.polymarket, Real(size as real), market.polymarketFee, market.polymarketWorstFee)
  }

  function KalshiQuote(market: Market, size: int): Option<LegQuote> {
    QuoteOf(market.kalshi, Real(size as real), KalshiFee(market.kalshiCoefficient),
            KalshiWorstFee(market.kalshiCoefficient))
  }

  function CandidateAt(market: Market, limits: Limits, maxSize: int, size: int): Option<Candidate>
    requires size > 0
  {
    var polymarket, kalshi := PolymarketQuote(market, size), KalshiQuote(market, size);
    if polymarket.None? || kalshi.None? then None
    else Some(CandidateOf(size, maxSize, polymarket.value, kalshi.value, limits))
  }

  /** The candidate at each size. */
  function Candidates(market: Market, limits: Limits, maxSize: int): int -> Option<Candidate> {
    (size: int) => if size > 0 then CandidateAt(market, limits, maxSize, size) else None
  }

  method QuoteSize(market: Market, limits: Limits, maxSize: int, size: int) returns (c: Option<Candidate>)
    requires size > 0
    ensures c == Candidates(market, limits, maxSize)(size)
    ensures c.Some? ==> c.value.quote.commonSize == size
  {
    var polymarket := QuotePreparedBook(market.polymarket, Real(size as real), market.polymarketFee,
                                        market.polymarketWorstFee);
    var kalshi := QuotePreparedBook(market.kalshi, Real(size as real), KalshiFee(market.kalshiCoefficient),
                                    KalshiWorstFee(market.kalshiCoefficient));
    if polymarket.None? || kalshi.None? {
      return None;
    }
    return Some(CandidateOf(size, maxSize, polymarket.value, kalshi.value, limits));
  }

  // ----- the search

  /** A size that is quotable on both venues and within every limit. */
  predicate Passes(at: int -> Option<Candidate>, size: int) {
    at(size).Some? && at(size).value.reason.None?
  }

  /** The conservative profit of a quotable size, before rounding. */
  function ProfitAt(at: int -> Option<Candidate>, size: int): real {
    if at(size).Some? then at(size).value.raw.conservativeProfit else 0.0
  }

  predicate NonePasses(at: int -> Option<Candidate>, lo: int, hi: int) {
    forall size :: lo <= size <= hi ==> !Passes(at, size)
  }

  /** A passing size that no other one beats by more than the tolerance. */
  predicate IsBest(at: int -> Option<Candidate>, lo: int, hi: int, best: int) {
    && lo <= best <= hi && Passes(at, best)
    && forall size :: lo <= size <= hi && Passes(at, size) ==> ProfitAt(at, size) <= ProfitAt(at, best) + TOLERANCE
  }

  predicate BestSoFar(at: int -> Option<Candidate>, lo: int, hi: int, best: Option<PairQuote>, profit: Option<real>) {
    match best
    case None => profit.None? && NonePasses(at, lo, hi)
    case Some(quote) =>
      && IsBest(at, lo, hi, quote.commonSize) && at(quote.commonSize).value.quote == quote
      && profit == Some(ProfitAt(at, quote.commonSize))
  }

  predicate IsBetter(c: Option<Candidate>, profit: Option<real>) {
    && c.Some? && c.value.reason.None?
    && (profit.None? || c.value.raw.conservativeProfit > profit.value + TOLERANCE)
  }

  lemma BestStep(at: int -> Option<Candidate>, lo: int, size: int, best: Option<PairQuote>, profit: Option<real>)
    requires lo <= size && BestSoFar(at, lo, size - 1, best, profit)
    requires at(size).Some? ==> at(size).value.quote.commonSize == size
    ensures if IsBetter(at(size), profit)
            then BestSoFar(at, lo, size, Some(at(size).value.quote), Some(at(size).value.raw.conservativeProfit))
            else BestSoFar(at, lo, size, best, profit)
  {
  }

  ghost predicate AllResults(at: int -> Option<Candidate>, lo: int, hi: int, results: map<int, Candidate>) {
    && (forall size :: size in results <==> lo <= size <= hi && at(size).Some?)
    && (forall size :: size in results ==> at(size) == Some(results[size]))
  }

  lemma ResultsStep(at: int -> Option<Candidate>, lo: int, size: int, results: map<int, Candidate>)
    requires lo <= size && AllResults(at, lo, size - 1, results)
    ensures AllResults(at, lo, size, if at(size).Some? then results[size := at(size).value] else results)
  {
  }

  /** The loop over all sizes, with its map of results and its best so far. */
  method SearchSizes(market: Market, limits: Limits, minSize: int, maxSize: int)
    returns (results: map<int, Candidate>, best: Option<PairQuote>)
    requires 1 <= minSize <= maxSize
    ensures AllResults(Candidates(market, limits, maxSize), minSize, maxSize, results)
    ensures best.None? ==> NonePasses(Candidates(market, limits, maxSize), minSize, maxSize)
    ensures best.Some? ==>
              IsBest(Candidates(market, limits, maxSize), minSize, maxSize, best.value.commonSize)
              && Candidates(market, limits, maxSize)(best.value.commonSize).value.quote == best.value
  {
    ghost var at := Candidates(market, limits, maxSize);
    results, best := map[], None;
    var bestProfit: Option<real> := None;
    var size := minSize;
    while size <= maxSize
      invariant minSize <= size <= maxSize + 1
      invariant AllResults(at, minSize, size - 1, results)
      invariant BestSoFar(at, minSize, size - 1, best, bestProfit)
    {
      var c := QuoteSize(market, limits, maxSize, size);
      BestStep(at, minSize, size, best, bestProfit);
      ResultsStep(at, minSize, size, results);
      if c.Some? {
        results := results[size := c.value];
        if IsBetter(c, bestProfit) {
          best := Some(c.value.quote);
          bestProfit := Some(c.value.raw.conservativeProfit);
        }
      }
      size := size + 1;
    }
  }

  // ----- deriveMultiLevelPairedQuote

  function EmptyLeg(book: PreparedBook): LegQuote {
    LegQuote(0.0, Round4(book.displayedDepth), Round4(book.executableDepth), 0.0, 0.0, 0.0, 0.0, 0.0, 0.0,
             None, None, [])
  }

  function EmptyPair(market: Market, maxSize: int, fatal: real, reason: Reason): PairQuote {
    PairQuote(0, maxSize, EmptyLeg(market.polymarket), EmptyLeg(market.kalshi), 0.0, 0.0, 0.0, None, 0.0, None, 0.0,
              fatal, 0.0, 0.0, Some(reason))
  }

  predicate IsBelow(cap: Option<real>, size: int) {
    cap.Some? && cap.value < size as real
  }

  /** Why not even the least size fits. */
  function DepthReason(market: Market, cap: Option<real>, minSize: int): Reason {
    if DepthLimitedSize(market) >= minSize && IsBelow(cap, minSize) then PairSizeCap
    else if market.polymarket.executableDepth + TOLERANCE < minSize as real then PolymarketDepth
    else if market.kalshi.executableDepth + TOLERANCE < minSize as real then KalshiDepth
    else MinimumSize
  }

  /** What keeps the best size from being larger. */
  function LimitingReason(market: Market, cap: Option<real>, maxSize: int, best: int, next: Option<Candidate>): Reason {
    if next.Some? then (if next.value.reason.Some? then next.value.reason.value else ConservativeProfit)
    else if best >= maxSize then
      if cap.Some? && cap.value <= DepthLimitedSize(market) as real then PairSizeCap
      else if market.polymarket.executableDepth <= market.kalshi.executableDepth then PolymarketDepth
      else KalshiDepth
    else ConservativeProfit
  }

  function FirstReason(first: Option<Candidate>): Reason {
    if first.Some? && first.value.reason.Some? then first.value.reason.value else ConservativeProfit
  }

  function Within(at: int -> Option<Candidate>, size: int, hi: int): Option<Candidate> {
    if size <= hi then at(size) else None
  }

  /** The result of a search over lo..hi: the best passing size, or nothing if none passes. */
  ghost predicate IsSearchResult(market: Market, cap: Option<real>, limits: Limits, lo: int, hi: int, r: PairQuote) {
    var at := Candidates(market, limits, hi);
    if r.commonSize == 0 then
      NonePasses(at, lo, hi) && r == EmptyPair(market, hi, limits.fatalProbability, FirstReason(at(lo)))
    else
      && IsBest(at, lo, hi, r.commonSize)
      && r == at(r.commonSize).value.quote.(
           limitingReason := Some(LimitingReason(market, cap, hi, r.commonSize, Within(at, r.commonSize + 1, hi))))
  }

  ghost predicate IsAnswer(input: PairInput, market: Market, r: PairQuote) {
    var cap, lo := OptionalLimit(input.pairSizeCap), MinSize(input);
    var hi := MaxSize(market, cap);
    if IsInvalid(input) then r == EmptyPair(market, hi, 0.0, InvalidInput)
    else if hi < lo then
      r == EmptyPair(market, hi, LimitsOf(input).fatalProbability, DepthReason(market, cap, lo))
    else IsSearchResult(market, cap, LimitsOf(input), lo, hi, r)
  }

  method DerivePairedQuote(input: PairInput, fee: Fee, worst: Fee) returns (r: PairQuote)
    ensures IsAnswer(input, MarketOf(input, fee, worst), r)
  {
    var polymarket := PrepareBook(PolymarketInput(input));
    var kalshi := PrepareBook(input.kalshi);
    var market := Market(polymarket, kalshi, fee, worst, KalshiCoefficient(input.kalshiMaker, FeeMultiplier(input)));
    var cap := OptionalLimit(input.pairSizeCap);
    var maxSize, minSize := MaxSize(market, cap), MinSize(input);
    if IsInvalid(input) {
      return EmptyPair(market, maxSize, 0.0, InvalidInput);
    }
    var limits := LimitsOf(input);
    if maxSize < minSize {
      return EmptyPair(market, maxSize, limits.fatalProbability, DepthReason(market, cap, minSize));
    }
    r := ChooseSize(market, cap, limits, minSize, maxSize);
  }

  lemma ResultAt(at: int -> Option<Candidate>, lo: int, hi: int, results: map<int, Candidate>, size: int)
    requires AllResults(at, lo, hi, results) && lo <= size
    ensures Within(at, size, hi) == if size in results then Some(results[size]) else None
  {
  }

  method ChooseSize(market: Market, cap: Option<real>, limits: Limits, minSize: int, maxSize: int)
    returns (r: PairQuote)
    requires 1 <= minSize <= maxSize
    ensures IsSearchResult(market, cap, limits, minSize, maxSize, r)
  {
    var results, best := SearchSizes(market, limits, minSize, maxSize);
    ghost var at := Candidates(market, limits, maxSize);
    if best.None? {
      var first := if minSize in results then Some(results[minSize]) else None;
      ResultAt(at, minSize, maxSize, results, minSize);
      return EmptyPair(market, maxSize, limits.fatalProbability, FirstReason(first));
    }
    var size := best.value.commonSize;
    var next := if size + 1 in results then Some(results[size + 1]) else None;
    ResultAt(at, minSize, maxSize, results, size + 1);
    return best.value.(limitingReason := Some(LimitingReason(market, cap, maxSize, size, next)));
  }

  // ----- what a result means

  /** The chain of refusals lets through exactly what is within every limit. */
  lemma AcceptedIsWithinLimits(polymarket: real, kalshi: real, raw: Raw, limits: Limits)
    ensures RejectionReason(polymarket, kalshi, raw, limits).None? <==> IsWithinLimits(polymarket, kalshi, raw, limits)
  {
  }

  /** Every size that the search looks at can be quoted on both venues. */
  lemma EverySizeIsQuotable(input: PairInput, fee: Fee, worst: Fee, limits: Limits, size: int)
    requires MinSize(input) <= size <= MaxSize(MarketOf(input, fee, worst), OptionalLimit(input.pairSizeCap))
    ensures Candidates(MarketOf(input, fee, worst), limits,
                       MaxSize(MarketOf(input, fee, worst), OptionalLimit(input.pairSizeCap)))(size).Some?
  {
    PreparedIsBook(PolymarketInput(input));
    PreparedIsBook(input.kalshi);
    QuotableIsWithinDepth(Prepared(PolymarketInput(input)), size as real);
    QuotableIsWithinDepth(Prepared(input.kalshi), size as real);
  }

  /** Both legs of the size can be bought, and the pair keeps every limit. */
  predicate Fits(market: Market, limits: Limits, size: int)
    requires size > 0
  {
    var polymarket, kalshi := PolymarketQuote(market, size), KalshiQuote(market, size);
    && polymarket.Some? && kalshi.Some?
    && IsWithinLimits(polymarket.value.worstFillCostUsd, kalshi.value.worstFillCostUsd,
                      RawOf(size, polymarket.value, kalshi.value, limits.fatalProbability), limits)
  }

  lemma PassingFits(market: Market, limits: Limits, maxSize: int, size: int)
    requires size > 0
    ensures Passes(Candidates(market, limits, maxSize), size) <==> Fits(market, limits, size)
  {
    var polymarket, kalshi := PolymarketQuote(market, size), KalshiQuote(market, size);
    if polymarket.Some? && kalshi.Some? {
      AcceptedIsWithinLimits(polymarket.value.worstFillCostUsd, kalshi.value.worstFillCostUsd,
                             RawOf(size, polymarket.value, kalshi.value, limits.fatalProbability), limits);
    }
  }

  /** Past the guards, the answer is empty exactly when no size in the range fits; otherwise its
      size is in the range and fits. */
  lemma AnswerIsSound(input: PairInput, market: Market, r: PairQuote)
    requires IsAnswer(input, market, r) && !IsInvalid(input)
    requires MinSize(input) <= MaxSize(market, OptionalLimit(input.pairSizeCap))
    ensures var lo, hi := MinSize(input), MaxSize(market, OptionalLimit(input.pairSizeCap));
            && (r.commonSize == 0 <==> forall size :: lo <= size <= hi ==> !Fits(market, LimitsOf(input), size))
            && (r.commonSize != 0 ==> lo <= r.commonSize <= hi && Fits(market, LimitsOf(input), r.commonSize))
  {
    var lo, hi := MinSize(input), MaxSize(market, OptionalLimit(input.pairSizeCap));
    var at := Candidates(market, LimitsOf(input), hi);
    forall size | lo <= size <= hi
      ensures Passes(at, size) <==> Fits(market, LimitsOf(input), size)
    {
      PassingFits(market, LimitsOf(input), hi, size);
    }
  }

  /** A passing size makes money even at its worst fill and its upper bound of a fatal outcome. */
  lemma PassingIsProfitable(market: Market, limits: Limits, maxSize: int, size: int)
    requires size > 0 && Passes(Candidates(market, limits, maxSize), size)
    ensures ProfitAt(Candidates(market, limits, maxSize), size) > 0.0
  {
  }
}

/** From executions to the ledger: what Kalshi fills on a quoted leg costs, in the ledger's units, no
    more than the quote says.

    The ledger rounds each fill to a unit of 1e-8 and the quote rounds its worst cost to 1e-5. For
    whole contracts at prices in steps of 1e-4 neither loses anything, so that the bound on every
    execution of the order becomes a bound on the leg's cost and fees in the ledger.

    Polymarket rounds its fee on each fill; what its leg cost is therefore taken from the ledger. */
module PairExecution {
  import opened Prelude
  import opened Sequences
  import opened FixedPoint
  import opened Ledger
  import opened LedgerOrder
  import opened LedgerLaws
  import opened PairedQuote
  import opened QuoteToLedger
  import BookWalk
  import LegQuotes
  import RealSums

  // ----- fills as executions of an order

  /** The ledger rounds a fill's gross amount to its units. */
  predicate IsMultiplied(f: FixedFill) {
    f.gross == RoundedQuotient(f.price * f.size, SCALE)
  }

  /** Price and size in steps of 1e-4. */
  predicate IsOnSteps(f: FixedFill) {
    f.price % 10_000 == 0 && f.size % 10_000 == 0
  }

  predicate IsBought(f: FixedFill, legId: Text) {
    f.evidence.place.legId == legId && f.evidence.side.BUY?
  }

  function Dollars(units: int): real {
    units as real / SCALE as real
  }

  function AsLevel(f: FixedFill): BookWalk.Level {
    BookWalk.Level(Dollars(f.price), Dollars(f.size))
  }

  /** What was bought on a leg. */
  function Executions(legId: Text, fills: seq<FixedFill>): seq<BookWalk.Level> {
    if fills == [] then []
    else (if IsBought(fills[0], legId) then [AsLevel(fills[0])] else []) + Executions(legId, fills[1..])
  }

  /** On these steps nothing is rounded. */
  lemma StepsAreExact(f: FixedFill)
    requires IsMultiplied(f) && IsOnSteps(f)
    ensures f.gross * SCALE == f.price * f.size
  {
    var p, s := f.price / 10_000, f.size / 10_000;
    assert f.price * f.size == p * s * SCALE by {
      assert f.price == p * 10_000 && f.size == s * 10_000;
      Reorder(p, s);
    }
    ExactQuotient(p * s);
  }

  lemma Reorder(p: int, s: int)
    ensures (p * 10_000) * (s * 10_000) == p * s * SCALE
  {
  }

  lemma ExactQuotient(n: nat)
    ensures RoundedQuotient(n * SCALE, SCALE) == n
  {
  }

  lemma GrossIsNotional(f: FixedFill)
    requires IsMultiplied(f) && IsOnSteps(f)
    ensures BookWalk.NotionalOf(AsLevel(f)) == Dollars(f.gross)
  {
    StepsAreExact(f);
    DollarProduct(f.size, f.price, f.gross);
  }

  lemma DollarProduct(x: int, y: int, z: int)
    requires z * SCALE == y * x
    ensures Dollars(x) * Dollars(y) == Dollars(z)
  {
    assert (x as real / 100_000_000.0) * (y as real / 100_000_000.0) == (y * x) as real / 10_000_000_000_000_000.0;
  }

  predicate AllOnSteps(legId: Text, fills: seq<FixedFill>) {
    forall f :: f in fills && IsBought(f, legId) ==> IsOnSteps(f)
  }

  /** The leg's sums in dollars are depth and notional of its executions. */
  lemma {:induction false} SumsAreExecutions(legId: Text, fills: seq<FixedFill>)
    requires (forall f :: f in fills ==> IsMultiplied(f)) && AllOnSteps(legId, fills)
    ensures BookWalk.Depth(Executions(legId, fills)) == Dollars(Sum(SizeOn(legId, BUY), fills))
    ensures BookWalk.Notional(Executions(legId, fills)) == Dollars(Sum(GrossOn(legId, BUY), fills))
  {
    if fills != [] {
      var f, rest := fills[0], Executions(legId, fills[1..]);
      assert f in fills;
      SumsAreExecutions(legId, fills[1..]);
      if IsBought(f, legId) {
        GrossIsNotional(f);
        RealSums.TotalConcat(BookWalk.SizeOf, [AsLevel(f)], rest);
        RealSums.TotalConcat(BookWalk.NotionalOf, [AsLevel(f)], rest);
      } else {
        assert [] + rest == rest;
      }
    }
  }

  lemma {:induction false} ExecutionsKeepLimit(legId: Text, fills: seq<FixedFill>, limit: real)
    requires forall f :: f in fills && IsBought(f, legId) ==> Dollars(f.price) <= limit
    ensures forall e :: e in Executions(legId, fills) ==> 0.0 <= e.price <= limit && e.size >= 0.0
  {
    if fills != [] {
      assert fills[0] in fills;
      ExecutionsKeepLimit(legId, fills[1..], limit);
    }
  }

  lemma StandingFillIsMultiplied(ctx: Context, fill: Fill)
    requires FillTest(ctx)(fill)
    ensures IsMultiplied(FixedOf(ctx)(fill))
  {
  }

  lemma ValidFillsAreMultiplied(ctx: Context, fills: seq<Fill>)
    requires ValidFills(ctx, fills).Ok?
    ensures forall f :: f in ValidFills(ctx, fills).value ==> IsMultiplied(f)
  {
    forall fill | fill in fills && FillTest(ctx)(fill)
      ensures IsMultiplied(FixedOf(ctx)(fill))
    {
      StandingFillIsMultiplied(ctx, fill);
    }
    ValidFillsKeep(ctx, fills, IsMultiplied);
  }

  // ----- one leg

  /** The venue kept to the order: no fill above the limit, and no more charged than so much. */
  predicate KeepsOrder(t: LegTotals, fills: seq<FixedFill>, limit: real, charge: real) {
    && AllOnSteps(t.leg.id, fills)
    && (forall f :: f in fills && IsBought(f, t.leg.id) ==> Dollars(f.price) <= limit)
    && Dollars(t.fees) <= charge
  }

  /** The book can fill the size, at a limit in steps of 1e-4. */
  predicate IsQuotedBook(book: BookWalk.PreparedBook, size: int) {
    && size > 0 && LegQuotes.IsBook(book) && LegQuotes.CanFill(book, Real(size as real))
    && LegQuotes.IsWhole(LimitOf(book, size) * 10_000.0)
  }

  function LimitOf(book: BookWalk.PreparedBook, size: int): real
    requires LegQuotes.CanFill(book, Real(size as real))
  {
    LegQuotes.LimitPrice(BookWalk.Take(book.levels, size as real))
  }

  /** A leg of the ledger whose fills kept to the order. */
  predicate IsOrderedLeg(
    t: LegTotals, leg: Leg, fills: seq<FixedFill>, settlements: seq<FixedSettlement>, status: Status,
    size: int, limit: real, charge: real)
  {
    && CalculateLeg(leg, fills, settlements, status) == Ok(t) && t.boughtSize == size * SCALE
    && (forall f :: f in fills ==> IsMultiplied(f)) && KeepsOrder(t, fills, limit, charge)
  }

  lemma {:induction false} LegIsExecution(
    t: LegTotals, leg: Leg, fills: seq<FixedFill>, settlements: seq<FixedSettlement>, status: Status,
    size: int, limit: real, charge: real)
    requires IsOrderedLeg(t, leg, fills, settlements, status, size, limit, charge)
    ensures t.leg == leg && LegQuotes.IsExecution(Executions(leg.id, fills), size as real, limit)
    ensures Dollars(t.costBasis + t.fees) <= BookWalk.Notional(Executions(leg.id, fills)) + charge
  {
    SumsAreExecutions(leg.id, fills);
    ExecutionsKeepLimit(leg.id, fills, limit);
    assert Dollars(size * SCALE) == size as real;
  }

  /** What such a leg cost on Kalshi is at most what its quote calls the worst. */
  lemma {:induction false} LegWithinQuote(
    t: LegTotals, leg: Leg, fills: seq<FixedFill>, settlements: seq<FixedSettlement>, status: Status,
    book: BookWalk.PreparedBook, size: int, coefficient: real)
    requires IsQuotedBook(book, size) && coefficient >= 0.0
    requires IsOrderedLeg(t, leg, fills, settlements, status, size, LimitOf(book, size),
                          LegQuotes.OrderFee(coefficient, Executions(leg.id, fills)))
    ensures Dollars(t.costBasis + t.fees)
         <= LegQuotes.QuoteOf(book, Real(size as real), LegQuotes.KalshiFee(coefficient),
                              LegQuotes.KalshiWorstFee(coefficient)).value.worstFillCostUsd
  {
    LegIsExecution(t, leg, fills, settlements, status, size, LimitOf(book, size),
                   LegQuotes.OrderFee(coefficient, Executions(leg.id, fills)));
    LegQuotes.QuotedWorstIsWorst(book, size, coefficient, Executions(leg.id, fills));
  }

  /** ... and on Polymarket, where each fill's fee is rounded, that and half a step for each rounding. */
  lemma {:induction false} PolymarketLegWithinQuote(
    t: LegTotals, leg: Leg, fills: seq<FixedFill>, settlements: seq<FixedSettlement>, status: Status,
    book: BookWalk.PreparedBook, size: int, s: LegQuotes.ShareFee)
    requires IsQuotedBook(book, size) && LegQuotes.IsShareFee(s)
    requires IsOrderedLeg(t, leg, fills, settlements, status, size, LimitOf(book, size),
                          LegQuotes.Fees(LegQuotes.PolymarketFee(s), Executions(leg.id, fills)))
    ensures Dollars(t.costBasis + t.fees)
         <= LegQuotes.QuoteOf(book, Real(size as real), LegQuotes.PolymarketFee(s),
                              LegQuotes.PolymarketWorstFee(s)).value.worstFillCostUsd
            + LegQuotes.RoundingSlack(|fills|)
  {
    LegIsExecution(t, leg, fills, settlements, status, size, LimitOf(book, size),
                   LegQuotes.Fees(LegQuotes.PolymarketFee(s), Executions(leg.id, fills)));
    LegQuotes.QuotedPolymarketIsWorst(book, size, s, Executions(leg.id, fills));
    ExecutionsAreFew(leg.id, fills);
    SlackGrows(|Executions(leg.id, fills)|, |fills|);
  }

  lemma {:induction false} ExecutionsAreFew(legId: Text, fills: seq<FixedFill>)
    ensures |Executions(legId, fills)| <= |fills|
  {
    if fills != [] {
      ExecutionsAreFew(legId, fills[1..]);
    }
  }

  lemma SlackGrows(m: nat, n: nat)
    requires m <= n
    ensures LegQuotes.RoundingSlack(m) <= LegQuotes.RoundingSlack(n)
  {
  }

  // ----- the pair

  /** The chosen size's own quotes, and their worst costs together. */
  lemma ChosenQuotes(pair: PairInput, market: Market, q: PairQuote)
    requires IsAnswer(pair, market, q) && q.commonSize != 0
    ensures !IsInvalid(pair) && q.commonSize > 0 && ChosenRaw(pair, market, q).Some?
    ensures KalshiQuote(market, q.commonSize) == Some(q.kalshi)
    ensures PolymarketQuote(market, q.commonSize) == Some(q.polymarket)
    ensures ChosenRaw(pair, market, q).value.worstFillCost == q.polymarket.worstFillCostUsd + q.kalshi.worstFillCostUsd
  {
    ChosenIsPositive(pair, market, q);
  }

  /** Kalshi filled its order and kept to it; Polymarket's leg cost at most its worst fill and a slack. */
  predicate KeepsPair(
    p: Projection, fills: seq<FixedFill>, q: PairQuote, limit: real, coefficient: real, slack: real)
  {
    forall t :: t in p.legs ==>
      if t.leg.venue.Kalshi?
      then KeepsOrder(t, fills, limit, LegQuotes.OrderFee(coefficient, Executions(t.leg.id, fills)))
      else Dollars(t.costBasis + t.fees) <= q.polymarket.worstFillCostUsd + slack
  }

  predicate IsOnPriceSteps(quote: LegQuotes.LegQuote) {
    quote.limitPrice.Some? && LegQuotes.IsWhole(quote.limitPrice.value * 10_000.0)
  }

  lemma KalshiIsQuoted(pair: PairInput, market: Market, q: PairQuote)
    requires IsAnswer(pair, market, q) && q.commonSize != 0 && IsOnPriceSteps(q.kalshi)
    requires market.kalshi == BookWalk.Prepared(pair.kalshi)
    ensures IsQuotedBook(market.kalshi, q.commonSize)
    ensures q.kalshi.limitPrice == Some(LimitOf(market.kalshi, q.commonSize))
  {
    ChosenQuotes(pair, market, q);
    LegQuotes.PreparedIsBook(pair.kalshi);
  }

  lemma PolymarketIsQuoted(pair: PairInput, market: Market, q: PairQuote)
    requires IsAnswer(pair, market, q) && q.commonSize != 0 && IsOnPriceSteps(q.polymarket)
    requires market.polymarket == BookWalk.Prepared(PolymarketInput(pair))
    ensures IsQuotedBook(market.polymarket, q.commonSize)
    ensures q.polymarket.limitPrice == Some(LimitOf(market.polymarket, q.commonSize))
  {
    ChosenQuotes(pair, market, q);
    LegQuotes.PreparedIsBook(PolymarketInput(pair));
  }

  /** Each leg's totals come from the valid fills and settlements. */
  lemma LedgerLeg(input: LedgerInput, t: LegTotals) returns (leg: Leg, valid: ValidEvidence)
    requires CalculateLedger(input).Ok? && t in CalculateLedger(input).value.legs
    ensures Validate(input) == Ok(valid)
    ensures CalculateLeg(leg, valid.fills, valid.settlements, valid.ctx.intent.status) == Ok(t)
  {
    valid := Validate(input).value;
    var legs := CalculateLedger(input).value.legs;
    var i :| 0 <= i < |legs| && legs[i] == t;
    leg := valid.ctx.legs[i];
  }

  lemma TotalsKeepLeg(
    t: LegTotals, leg: Leg, fills: seq<FixedFill>, settlements: seq<FixedSettlement>, status: Status)
    requires CalculateLeg(leg, fills, settlements, status) == Ok(t)
    ensures t.leg == leg
  {
  }

  lemma LedgerFills(input: LedgerInput)
    requires Validate(input).Ok?
    ensures forall f :: f in Validate(input).value.fills ==> IsMultiplied(f)
    ensures |Validate(input).value.fills| == |input.fills|
  {
    var ctx := ValidateContext(input).value;
    ValidFillsAreMultiplied(ctx, input.fills);
    ValidFillsAreSound(ctx, input.fills);
    PermutedLength(Validate(input).value.fills, Map(FixedOf(ctx), input.fills));
  }

  lemma PermutedLength<T>(s: seq<T>, t: seq<T>)
    requires multiset(s) == multiset(t)
    ensures |s| == |t|
  {
    assert |multiset(s)| == |s| && |multiset(t)| == |t|;
  }

  lemma KalshiLegCosts(input: LedgerInput, market: Market, q: PairQuote, t: LegTotals)
    requires CalculateLedger(input).Ok? && t in CalculateLedger(input).value.legs
    requires t.boughtSize == q.commonSize * SCALE
    requires IsQuotedBook(market.kalshi, q.commonSize) && market.kalshiCoefficient >= 0.0
    requires KalshiQuote(market, q.commonSize) == Some(q.kalshi) && Validate(input).Ok?
    requires KeepsOrder(t, Validate(input).value.fills, LimitOf(market.kalshi, q.commonSize),
                        LegQuotes.OrderFee(market.kalshiCoefficient, Executions(t.leg.id, Validate(input).value.fills)))
    ensures Dollars(t.costBasis + t.fees) <= q.kalshi.worstFillCostUsd
  {
    var leg, valid := LedgerLeg(input, t);
    TotalsKeepLeg(t, leg, valid.fills, valid.settlements, valid.ctx.intent.status);
    LedgerFills(input);
    LegWithinQuote(t, leg, valid.fills, valid.settlements, valid.ctx.intent.status, market.kalshi, q.commonSize,
                   market.kalshiCoefficient);
  }

  lemma PairCosts(p: Projection, q: PairQuote, slack: real)
    requires IsTwoLegged(p) && p.legs[0].leg.venue != p.legs[1].leg.venue
    requires forall t :: t in p.legs ==>
               Dollars(t.costBasis + t.fees)
               <= if t.leg.venue.Kalshi? then q.kalshi.worstFillCostUsd else q.polymarket.worstFillCostUsd + slack
    ensures Dollars(p.costBasis + p.fees) <= q.polymarket.worstFillCostUsd + q.kalshi.worstFillCostUsd + slack
  {
    assert p.legs[0] in p.legs && p.legs[1] in p.legs;
  }

  /** From the executions on: a chosen pair whose Kalshi order was filled in steps of 1e-4 at prices up
      to its limit, and charged no more than its fee, and whose Polymarket leg cost at most its worst
      fill and a slack, keeps its promise up to the slack once it is held to the end. */
  lemma ExecutedPairHolds(
    pair: PairInput, fee: LegQuotes.Fee, worst: LegQuotes.Fee, q: PairQuote, input: LedgerInput, r: Resolved,
    slack: real)
    requires IsAnswer(pair, MarketOf(pair, fee, worst), q) && q.commonSize != 0 && IsOnPriceSteps(q.kalshi)
    requires CalculateLedger(input).Ok? && ResolvesAs(input.settlements, r)
    requires OnlyBought(CalculateLedger(input).value, q.commonSize * SCALE)
    requires KeepsPair(CalculateLedger(input).value, Validate(input).value.fills, q, q.kalshi.limitPrice.value,
                       MarketOf(pair, fee, worst).kalshiCoefficient, slack)
    ensures !IsInvalid(pair) && ChosenRaw(pair, MarketOf(pair, fee, worst), q).Some?
    ensures KeepsPromise(CalculateLedger(input).value, r, input.intent.combination,
                         ChosenRaw(pair, MarketOf(pair, fee, worst), q).value, LimitsOf(pair), slack)
  {
    var market := MarketOf(pair, fee, worst);
    ChosenQuotes(pair, market, q);
    KalshiIsQuoted(pair, market, q);
    forall t | t in CalculateLedger(input).value.legs
      ensures Dollars(t.costBasis + t.fees)
           <= if t.leg.venue.Kalshi? then q.kalshi.worstFillCostUsd else q.polymarket.worstFillCostUsd + slack
    {
      if t.leg.venue.Kalshi? {
        KalshiLegCosts(input, market, q, t);
      }
    }
    LedgerPays(input, r, q.commonSize * SCALE);
    LedgerIsTwoLegged(input);
    PairCosts(CalculateLedger(input).value, q, slack);
    QuoteHoldsInLedger(pair, market, q, input, r, slack);
  }

  // ----- Polymarket's own fee

  /** Math.pow on non-negative numbers. */
  ghost predicate IsPower(power: (real, real) -> real) {
    forall x, y, e {:trigger power(x, e), power(y, e)} ::
      0.0 <= x <= y && 0.0 <= e ==> 0.0 <= power(x, e) <= power(y, e)
  }

  function AtLeastZero(n: Option<Numeric>): (r: real)
    ensures r >= 0.0
  {
    match n
    case Some(Real(value)) => RealSums.Max(0.0, value)
    case _ => 0.0
  }

  /** The fee that the input asks for: along a curve if it has a rate, and in basis points otherwise. */
  function ShareFeeOf(pair: PairInput, power: (real, real) -> real): LegQuotes.ShareFee {
    var rate, exponent := AtLeastZero(pair.polymarketFeeRate), AtLeastZero(pair.polymarketFeeExponent);
    if rate > 0.0 then LegQuotes.Curved(rate, (x: real) => power(x, exponent))
    else LegQuotes.Flat(AtLeastZero(pair.polymarketFeeRateBps) / 10_000.0)
  }

  lemma AsksForShareFee(pair: PairInput, power: (real, real) -> real)
    requires IsPower(power)
    ensures LegQuotes.IsShareFee(ShareFeeOf(pair, power))
  {
  }

  /** The market with the fees that the input asks for. */
  function FeeMarketOf(pair: PairInput, power: (real, real) -> real): Market {
    var s := ShareFeeOf(pair, power);
    MarketOf(pair, LegQuotes.PolymarketFee(s), LegQuotes.PolymarketWorstFee(s))
  }

  /** Both venues filled their orders and kept to them. */
  predicate KeepsOrders(p: Projection, fills: seq<FixedFill>, q: PairQuote, s: LegQuotes.ShareFee, coefficient: real)
    requires q.kalshi.limitPrice.Some? && q.polymarket.limitPrice.Some?
  {
    forall t :: t in p.legs ==>
      if t.leg.venue.Kalshi?
      then KeepsOrder(t, fills, q.kalshi.limitPrice.value,
                      LegQuotes.OrderFee(coefficient, Executions(t.leg.id, fills)))
      else KeepsOrder(t, fills, q.polymarket.limitPrice.value,
                      LegQuotes.Fees(LegQuotes.PolymarketFee(s), Executions(t.leg.id, fills)))
  }

  lemma PolymarketLegCosts(input: LedgerInput, market: Market, q: PairQuote, s: LegQuotes.ShareFee, t: LegTotals)
    requires CalculateLedger(input).Ok? && t in CalculateLedger(input).value.legs
    requires t.boughtSize == q.commonSize * SCALE
    requires IsQuotedBook(market.polymarket, q.commonSize) && LegQuotes.IsShareFee(s)
    requires market.polymarketFee == LegQuotes.PolymarketFee(s)
    requires market.polymarketWorstFee == LegQuotes.PolymarketWorstFee(s)
    requires PolymarketQuote(market, q.commonSize) == Some(q.polymarket) && Validate(input).Ok?
    requires KeepsOrder(t, Validate(input).value.fills, LimitOf(market.polymarket, q.commonSize),
                        LegQuotes.Fees(LegQuotes.PolymarketFee(s), Executions(t.leg.id, Validate(input).value.fills)))
    ensures Dollars(t.costBasis + t.fees) <= q.polymarket.worstFillCostUsd + LegQuotes.RoundingSlack(|input.fills|)
  {
    var leg, valid := LedgerLeg(input, t);
    TotalsKeepLeg(t, leg, valid.fills, valid.settlements, valid.ctx.intent.status);
    LedgerFills(input);
    PolymarketLegWithinQuote(t, leg, valid.fills, valid.settlements, valid.ctx.intent.status, market.polymarket,
                             q.commonSize, s);
  }

  /** From both venues' executions on, with nothing assumed of the costs: the promise is kept up to half
      a step of 1e-5 for each fill and for the quote's own rounding. */
  lemma FilledPairHolds(
    pair: PairInput, power: (real, real) -> real, q: PairQuote, input: LedgerInput, r: Resolved)
    requires IsPower(power) && IsAnswer(pair, FeeMarketOf(pair, power), q) && q.commonSize != 0
    requires IsOnPriceSteps(q.kalshi) && IsOnPriceSteps(q.polymarket)
    requires CalculateLedger(input).Ok? && ResolvesAs(input.settlements, r)
    requires OnlyBought(CalculateLedger(input).value, q.commonSize * SCALE)
    requires KeepsOrders(CalculateLedger(input).value, Validate(input).value.fills, q, ShareFeeOf(pair, power),
                         FeeMarketOf(pair, power).kalshiCoefficient)
    ensures !IsInvalid(pair) && ChosenRaw(pair, FeeMarketOf(pair, power), q).Some?
    ensures KeepsPromise(CalculateLedger(input).value, r, input.intent.combination,
                         ChosenRaw(pair, FeeMarketOf(pair, power), q).value, LimitsOf(pair),
                         LegQuotes.RoundingSlack(|input.fills|))
  {
    var market, s := FeeMarketOf(pair, power), ShareFeeOf(pair, power);
    AsksForShareFee(pair, power);
    ChosenQuotes(pair, market, q);
    PolymarketIsQuoted(pair, market, q);
    forall t | t in CalculateLedger(input).value.legs && t.leg.venue.Polymarket?
      ensures Dollars(t.costBasis + t.fees) <= q.polymarket.worstFillCostUsd + LegQuotes.RoundingSlack(|input.fills|)
    {
      PolymarketLegCosts(input, market, q, s, t);
    }
    ExecutedPairHolds(pair, LegQuotes.PolymarketFee(s), LegQuotes.PolymarketWorstFee(s), q, input, r,
                      LegQuotes.RoundingSlack(|input.fills|));
  }
}

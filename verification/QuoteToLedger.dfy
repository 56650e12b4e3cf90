/** From quote to ledger: what an accepted pair promises is what its accounts show once both legs
    have settled.

    Both legs are bought at the common size for at most the worst-fill cost and nothing is sold.

    If the markets resolve alike, one leg pays one dollar for each contract and the profit is at
    least the conservative one. If the resolution is fatal, neither leg pays and the loss is exactly
    the cost. */
module QuoteToLedger {
  import opened Prelude
  import opened Sequences
  import opened FixedPoint
  import opened Ledger
  import opened LedgerOrder
  import opened LedgerLaws
  import opened PairedQuote
  import BookWalk
  import LegQuotes
  import RealSums

  /** How the two venues resolved. */
  datatype Resolved = Resolved(polymarket: Resolution, kalshi: Resolution)

  function ResolutionOn(r: Resolved, venue: Venue): Resolution {
    if venue.Polymarket? then r.polymarket else r.kalshi
  }

  predicate ResolvesAs(settlements: seq<Settlement>, r: Resolved) {
    forall s :: s in settlements ==> s.resolvedOutcome == Some(ResolutionOn(r, s.place.venue))
  }

  /** Both venues saw the price move the same way. */
  predicate IsAlike(r: Resolved) {
    r == Resolved(UP, YES) || r == Resolved(DOWN, NO)
  }

  predicate Wins(r: Resolved, combination: Combination, venue: Venue) {
    ResolutionOn(r, venue) == ExpectedOutcome(combination, venue)
  }

  /** The venues disagree, and both bought legs lose. */
  predicate IsFatal(r: Resolved, combination: Combination) {
    !Wins(r, combination, Polymarket) && !Wins(r, combination, Kalshi)
  }

  // ----- what the context and the settlements say

  predicate IsPairOfLegs(legs: seq<Leg>, combination: Combination) {
    && |legs| == 2
    && NoDuplicates(Map(LegId, legs)) && NoDuplicates(Map(LegVenue, legs))
    && forall leg :: leg in legs ==> leg.outcome == ExpectedOutcome(combination, leg.venue)
  }

  /** The legs of an accepted context: those of the input, sorted. */
  lemma ContextLegs(input: LedgerInput)
    requires ValidateContext(input).Ok?
    ensures multiset(ValidateContext(input).value.legs) == multiset(input.legs)
    ensures NoDuplicates(Map(LegId, input.legs)) && NoDuplicates(Map(LegVenue, input.legs))
  {
    LegCheckSeparates(input.intent);
    CheckAllMeans(LegCheck(input.intent), LegTest(input.intent), SameLeg, LegId, LegVenue, input.legs);
    assert Map(SameLeg, input.legs) == input.legs;
  }

  lemma PermutedKeysDiffer<K>(f: Leg -> K, legs: seq<Leg>, others: seq<Leg>)
    requires multiset(legs) == multiset(others) && NoDuplicates(Map(f, others))
    ensures NoDuplicates(Map(f, legs))
  {
    MapPermutation(f, legs, others);
    NoDuplicatesPermutation(Map(f, legs), Map(f, others));
  }

  lemma ContextOutcomes(input: LedgerInput)
    requires ValidateContext(input).Ok?
    ensures forall leg :: leg in ValidateContext(input).value.legs ==>
                            leg.outcome == ExpectedOutcome(input.intent.combination, leg.venue)
  {
    var checked := CheckAll(LegCheck(input.intent), input.legs).value;
    SameElements(SortBy(LegLeq, checked), checked);
  }

  lemma ContextHasPair(input: LedgerInput)
    requires ValidateContext(input).Ok?
    ensures IsPairOfLegs(ValidateContext(input).value.legs, input.intent.combination)
    ensures ValidateContext(input).value.intent == input.intent
  {
    LegsAreTwo(input);
    ContextLegs(input);
    ContextOutcomes(input);
    PermutedKeysDiffer(LegId, ValidateContext(input).value.legs, input.legs);
    PermutedKeysDiffer(LegVenue, ValidateContext(input).value.legs, input.legs);
  }

  lemma FindsItself(legs: seq<Leg>, leg: Leg)
    requires NoDuplicates(Map(LegId, legs)) && leg in legs
    ensures FindLeg(legs, leg.id) == Some(leg)
  {
    var found := FindLeg(legs, leg.id);
    assert found.Some?;
    DistinctImages(LegId, legs, leg, found.value);
  }

  /** A settlement that belongs to its leg, sound and resolved as the venue was. */
  predicate SettlesAs(legs: seq<Leg>, r: Resolved, s: FixedSettlement) {
    && IsSoundSettlement(s)
    && FindLeg(legs, s.evidence.place.legId).Some?
    && s.evidence.place.outcome == FindLeg(legs, s.evidence.place.legId).value.outcome
    && s.evidence.resolvedOutcome == Some(ResolutionOn(r, FindLeg(legs, s.evidence.place.legId).value.venue))
  }

  lemma FixedSettles(ctx: Context, r: Resolved, settlement: Settlement)
    requires SettlementTest(ctx)(settlement)
    requires settlement.resolvedOutcome == Some(ResolutionOn(r, settlement.place.venue))
    ensures SettlesAs(ctx.legs, r, FixedSettlementOf(ctx)(settlement))
  {
    StandingSettlementIsSound(ctx, settlement);
  }

  lemma ValidSettlementsSettle(ctx: Context, r: Resolved, settlements: seq<Settlement>)
    requires ValidSettlements(ctx, settlements).Ok? && ResolvesAs(settlements, r)
    ensures forall s :: s in ValidSettlements(ctx, settlements).value ==> SettlesAs(ctx.legs, r, s)
  {
    SettlementCheckSeparates(ctx);
    CheckAllMeans(SettlementCheck(ctx), SettlementTest(ctx), FixedSettlementOf(ctx), SettlementId, SettlementLeg,
                  settlements);
    var settles := (s: FixedSettlement) => SettlesAs(ctx.legs, r, s);
    forall s | s in settlements
      ensures settles(FixedSettlementOf(ctx)(s))
    {
      FixedSettles(ctx, r, s);
    }
    AllOfMap(FixedSettlementOf(ctx), settles, settlements);
    AllOfPermutation(settles, Map(FixedSettlementOf(ctx), settlements), ValidSettlements(ctx, settlements).value);
  }

  // ----- a leg that was only bought

  /** One per contract if the leg won, nothing if it lost. */
  lemma BoughtLegPays(
    legs: seq<Leg>, leg: Leg, fills: seq<FixedFill>, settlements: seq<FixedSettlement>, status: Status, r: Resolved)
    requires CalculateLeg(leg, fills, settlements, status).Ok?
    requires forall f :: f in fills ==> IsSoundFill(f)
    requires forall s :: s in settlements ==> SettlesAs(legs, r, s)
    requires FindLeg(legs, leg.id) == Some(leg)
    requires CalculateLeg(leg, fills, settlements, status).value.soldSize == 0
    ensures var t := CalculateLeg(leg, fills, settlements, status).value;
            t.leg == leg && t.payout == if ResolutionOn(r, leg.venue) == leg.outcome then t.boughtSize else 0
  {
    LegSums(leg.id, fills);
    var settlement := FindSettlement(settlements, leg.id);
    if settlement.Some? {
      assert SettlesAs(legs, r, settlement.value);
    }
  }

  predicate OnlyBought(p: Projection, units: int) {
    forall t :: t in p.legs ==> t.boughtSize == units && t.soldSize == 0
  }

  function Payout(r: Resolved, combination: Combination, venue: Venue, units: int): int {
    if Wins(r, combination, venue) then units else 0
  }

  predicate PaysOut(legs: seq<LegTotals>, r: Resolved, combination: Combination, units: int) {
    && |legs| == 2 && legs[0].leg.venue != legs[1].leg.venue
    && forall t :: t in legs ==> t.payout == Payout(r, combination, t.leg.venue, units)
  }

  lemma LegsPay(
    legs: seq<Leg>, fills: seq<FixedFill>, settlements: seq<FixedSettlement>, status: Status, r: Resolved,
    combination: Combination, units: int)
    requires IsPairOfLegs(legs, combination)
    requires CalculateLegs(legs, fills, settlements, status).Ok?
    requires forall f :: f in fills ==> IsSoundFill(f)
    requires forall s :: s in settlements ==> SettlesAs(legs, r, s)
    requires forall t :: t in CalculateLegs(legs, fills, settlements, status).value ==>
                           t.boughtSize == units && t.soldSize == 0
    ensures PaysOut(CalculateLegs(legs, fills, settlements, status).value, r, combination, units)
  {
    var totals := CalculateLegs(legs, fills, settlements, status).value;
    forall i | 0 <= i < |totals|
      ensures totals[i].leg == legs[i]
      ensures totals[i].payout == Payout(r, combination, totals[i].leg.venue, units)
    {
      assert totals[i] in totals && legs[i] in legs;
      FindsItself(legs, legs[i]);
      BoughtLegPays(legs, legs[i], fills, settlements, status, r);
    }
    assert Map(LegVenue, legs)[0] != Map(LegVenue, legs)[1];
  }

  lemma LedgerPays(input: LedgerInput, r: Resolved, units: int)
    requires CalculateLedger(input).Ok? && ResolvesAs(input.settlements, r)
    requires OnlyBought(CalculateLedger(input).value, units)
    ensures PaysOut(CalculateLedger(input).value.legs, r, input.intent.combination, units)
  {
    var ctx := ValidateContext(input).value;
    var valid := ValidateEvidence(ctx, input).value;
    ContextHasPair(input);
    ValidFillsAreSound(ctx, input.fills);
    ValidSettlementsSettle(ctx, r, input.settlements);
    LegsPay(ctx.legs, valid.fills, valid.settlements, ctx.intent.status, r, input.intent.combination, units);
  }

  /** The pair as a whole: what it paid out, and the profit that leaves. */
  lemma PairPays(input: LedgerInput, r: Resolved, units: int)
    requires CalculateLedger(input).Ok? && ResolvesAs(input.settlements, r)
    requires OnlyBought(CalculateLedger(input).value, units)
    ensures var p, combination := CalculateLedger(input).value, input.intent.combination;
            && p.payout == Payout(r, combination, Polymarket, units) + Payout(r, combination, Kalshi, units)
            && p.realizedPnl == p.payout - p.costBasis - p.fees
  {
    LedgerPays(input, r, units);
    LedgerConserves(input);
    LedgerIsTwoLegged(input);
  }

  /** The totals are those of the two legs. */
  predicate IsTwoLegged(p: Projection) {
    && |p.legs| == 2
    && p.costBasis == p.legs[0].costBasis + p.legs[1].costBasis
    && p.payout == p.legs[0].payout + p.legs[1].payout
    && p.fees == p.legs[0].fees + p.legs[1].fees
  }

  lemma ReductionIsTwoLegged(version: int, ctx: Context, fills: seq<FixedFill>, settlements: seq<FixedSettlement>)
    requires Reduce(version, ctx, fills, settlements).Ok? && |ctx.legs| == 2
    ensures IsTwoLegged(Reduce(version, ctx, fills, settlements).value)
  {
    TwoLegSums(CalculateLegs(ctx.legs, fills, settlements, ctx.intent.status).value);
  }

  lemma LedgerIsTwoLegged(input: LedgerInput)
    requires CalculateLedger(input).Ok?
    ensures IsTwoLegged(CalculateLedger(input).value)
  {
    LegsAreTwo(input);
    var valid := Validate(input).value;
    ReductionIsTwoLegged(input.version, valid.ctx, valid.fills, valid.settlements);
  }

  // ----- the promise of a quote

  /** The unrounded figures of the chosen size. */
  function ChosenRaw(pair: PairInput, market: Market, q: PairQuote): Option<Raw> {
    var cap := OptionalLimit(pair.pairSizeCap);
    if IsInvalid(pair) then None
    else
      match Candidates(market, LimitsOf(pair), MaxSize(market, cap))(q.commonSize)
      case None => None
      case Some(c) => Some(c.raw)
  }

  predicate IsPositiveQuote(raw: Raw, size: int, limits: Limits) {
    && raw.conservativeProfit > 0.0
    && raw.conservativeProfit <= size as real - raw.worstFillCost
    && !Exceeds(raw.worstFillCost, limits.maxAbsoluteLoss)
  }

  lemma AcceptedIsPositive(size: int, c: Candidate, limits: Limits, maxSize: int, market: Market)
    requires size > 0 && CandidateAt(market, limits, maxSize, size) == Some(c) && c.reason.None?
    requires limits.fatalProbability >= 0.0
    ensures IsPositiveQuote(c.raw, size, limits)
  {
    var polymarket, kalshi := PolymarketQuote(market, size).value, KalshiQuote(market, size).value;
    AcceptedIsWithinLimits(polymarket.worstFillCostUsd, kalshi.worstFillCostUsd, c.raw, limits);
    ConservativeIsLess(size, polymarket, kalshi, limits.fatalProbability);
  }

  lemma ConservativeIsLess(size: int, polymarket: LegQuotes.LegQuote, kalshi: LegQuotes.LegQuote, fatal: real)
    requires size > 0 && fatal >= 0.0
    ensures var raw := RawOf(size, polymarket, kalshi, fatal);
            raw.conservativeProfit <= size as real - raw.worstFillCost
  {
    RealSums.MulMonotone(size as real, 1.0 - fatal, 1.0);
  }

  lemma ChosenIsPositive(pair: PairInput, market: Market, q: PairQuote)
    requires IsAnswer(pair, market, q) && q.commonSize != 0
    ensures !IsInvalid(pair) && q.commonSize > 0 && ChosenRaw(pair, market, q).Some?
    ensures IsPositiveQuote(ChosenRaw(pair, market, q).value, q.commonSize, LimitsOf(pair))
  {
    var limits, hi := LimitsOf(pair), MaxSize(market, OptionalLimit(pair.pairSizeCap));
    AcceptedIsPositive(q.commonSize, Candidates(market, limits, hi)(q.commonSize).value, limits, hi, market);
  }

  /** What a quote promises when at most a slack more than its worst fill cost was paid: if the venues
      resolve alike, at least the conservative profit, which is above zero, less the slack; if the
      outcome is fatal, exactly the loss of what was paid, within the absolute limit up to the
      tolerance and the slack. */
  predicate KeepsPromise(
    p: Projection, r: Resolved, combination: Combination, raw: Raw, limits: Limits, slack: real)
  {
    && raw.conservativeProfit > 0.0
    && (IsAlike(r) ==> p.realizedPnl as real >= (raw.conservativeProfit - slack) * SCALE as real)
    && (IsFatal(r, combination) ==>
          && p.realizedPnl == -(p.costBasis + p.fees)
          && (limits.maxAbsoluteLoss.Some? ==>
                -p.realizedPnl as real
                <= (limits.maxAbsoluteLoss.value + BookWalk.TOLERANCE + slack) * SCALE as real))
  }

  lemma PromiseKept(
    p: Projection, r: Resolved, combination: Combination, raw: Raw, limits: Limits, slack: real, size: int)
    requires p.realizedPnl == p.payout - p.costBasis - p.fees
    requires p.payout == Payout(r, combination, Polymarket, size * SCALE) + Payout(r, combination, Kalshi, size * SCALE)
    requires IsPositiveQuote(raw, size, limits)
    requires (p.costBasis + p.fees) as real <= (raw.worstFillCost + slack) * SCALE as real
    ensures KeepsPromise(p, r, combination, raw, limits, slack)
  {
  }

  /** A chosen pair that is bought at no more than its worst fill cost and a slack, and held, keeps its
      promise in the ledger; without slack, alike resolution shows the whole conservative profit. */
  lemma QuoteHoldsInLedger(
    pair: PairInput, market: Market, q: PairQuote, input: LedgerInput, r: Resolved, slack: real)
    requires IsAnswer(pair, market, q) && q.commonSize != 0
    requires CalculateLedger(input).Ok? && ResolvesAs(input.settlements, r)
    requires OnlyBought(CalculateLedger(input).value, q.commonSize * SCALE)
    requires ChosenRaw(pair, market, q).Some? &&
             (CalculateLedger(input).value.costBasis + CalculateLedger(input).value.fees) as real
             <= (ChosenRaw(pair, market, q).value.worstFillCost + slack) * SCALE as real
    ensures !IsInvalid(pair)
    ensures KeepsPromise(CalculateLedger(input).value, r, input.intent.combination,
                         ChosenRaw(pair, market, q).value, LimitsOf(pair), slack)
  {
    ChosenIsPositive(pair, market, q);
    PairPays(input, r, q.commonSize * SCALE);
    PromiseKept(CalculateLedger(input).value, r, input.intent.combination, ChosenRaw(pair, market, q).value,
                LimitsOf(pair), slack, q.commonSize);
  }
}

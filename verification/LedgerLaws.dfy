/** What holds of every accepted ledger.

    Conservation: each leg has sold or settled exactly what it bought and pays out at most that, the
    totals are the sums over the legs, and no return is below minus one.

    Differences: the totals are read back exactly from the text of a proof, so the differences
    between versions add up. */
module LedgerLaws {
  import opened Prelude
  import opened Sequences
  import opened FixedPoint
  import opened Ledger
  import opened LedgerOrder

  // ----- validated evidence is sound

  predicate IsSoundFill(f: FixedFill) {
    f.size > 0 && 0 <= f.gross <= f.size
  }

  predicate IsSoundSettlement(s: FixedSettlement) {
    && s.settledSize > 0
    && s.evidence.resolvedOutcome.Some?
    && s.payout == if s.evidence.place.outcome == s.evidence.resolvedOutcome.value then s.settledSize else 0
  }

  lemma StandingFillIsSound(ctx: Context, fill: Fill)
    requires FillTest(ctx)(fill)
    ensures FixFill(fill, ctx).Ok? && IsSoundFill(FixedOf(ctx)(fill))
  {
    var f := FixFill(fill, ctx).value;
    MultiplyIsNearest(f.price, f.size);
  }

  lemma StandingSettlementIsSound(ctx: Context, settlement: Settlement)
    requires SettlementTest(ctx)(settlement)
    ensures FixSettlement(settlement, ctx).Ok? && IsSoundSettlement(FixedSettlementOf(ctx)(settlement))
  {
  }

  /** What holds of every fill that stands on its own holds of the valid ones. */
  lemma ValidFillsKeep(ctx: Context, fills: seq<Fill>, p: FixedFill -> bool)
    requires ValidFills(ctx, fills).Ok?
    requires forall fill :: fill in fills && FillTest(ctx)(fill) ==> p(FixedOf(ctx)(fill))
    ensures forall f :: f in ValidFills(ctx, fills).value ==> p(f)
    ensures multiset(ValidFills(ctx, fills).value) == multiset(Map(FixedOf(ctx), fills))
  {
    FillCheckSeparates(ctx);
    CheckAllMeans(FillCheck(ctx), FillTest(ctx), FixedOf(ctx), FillId, TradeKey, fills);
    AllOfMap(FixedOf(ctx), p, fills);
    AllOfPermutation(p, Map(FixedOf(ctx), fills), ValidFills(ctx, fills).value);
  }

  lemma ValidFillsAreSound(ctx: Context, fills: seq<Fill>)
    requires ValidFills(ctx, fills).Ok?
    ensures forall f :: f in ValidFills(ctx, fills).value ==> IsSoundFill(f)
    ensures multiset(ValidFills(ctx, fills).value) == multiset(Map(FixedOf(ctx), fills))
  {
    forall fill | fill in fills && FillTest(ctx)(fill)
      ensures IsSoundFill(FixedOf(ctx)(fill))
    {
      StandingFillIsSound(ctx, fill);
    }
    ValidFillsKeep(ctx, fills, IsSoundFill);
  }

  lemma ValidSettlementsAreSound(ctx: Context, settlements: seq<Settlement>)
    requires ValidSettlements(ctx, settlements).Ok?
    ensures forall s :: s in ValidSettlements(ctx, settlements).value ==> IsSoundSettlement(s)
    ensures multiset(ValidSettlements(ctx, settlements).value) == multiset(Map(FixedSettlementOf(ctx), settlements))
  {
    SettlementCheckSeparates(ctx);
    CheckAllMeans(SettlementCheck(ctx), SettlementTest(ctx), FixedSettlementOf(ctx), SettlementId, SettlementLeg,
                  settlements);
    forall s | s in settlements
      ensures IsSoundSettlement(FixedSettlementOf(ctx)(s))
    {
      StandingSettlementIsSound(ctx, s);
    }
    AllOfMap(FixedSettlementOf(ctx), IsSoundSettlement, settlements);
    AllOfPermutation(IsSoundSettlement, Map(FixedSettlementOf(ctx), settlements),
                     ValidSettlements(ctx, settlements).value);
  }

  // ----- conservation

  /** Nothing is lost on a leg: what was bought was sold or settled, it pays between nothing and
      one per share, and the loss is at most what was paid. */
  predicate IsBalanced(t: LegTotals) {
    && t.boughtSize == t.soldSize + t.settledSize
    && 0 <= t.soldSize && 0 <= t.settledSize
    && 0 <= t.payout <= t.boughtSize
    && 0 <= t.costBasis && 0 <= t.fees
    && t.realizedPnl == t.payout - t.costBasis - t.fees
    && (t.roi.Some? ==> t.roi.value >= -SCALE)
  }

  lemma {:induction false} SumNonNegative<T>(f: T -> int, s: seq<T>)
    requires forall x :: x in s ==> 0 <= f(x)
    ensures 0 <= Sum(f, s)
  {
    if s != [] {
      assert s[0] in s;
      SumNonNegative(f, s[1..]);
    }
  }

  lemma LegSums(legId: Text, fills: seq<FixedFill>)
    requires forall f :: f in fills ==> IsSoundFill(f)
    ensures forall side :: 0 <= Sum(GrossOn(legId, side), fills) <= Sum(SizeOn(legId, side), fills)
    ensures 0 <= Sum(FeeOn(legId), fills)
  {
    forall side
      ensures 0 <= Sum(GrossOn(legId, side), fills) <= Sum(SizeOn(legId, side), fills)
    {
      SumNonNegative(GrossOn(legId, side), fills);
      SumMonotone(GrossOn(legId, side), SizeOn(legId, side), fills);
    }
    SumNonNegative(FeeOn(legId), fills);
  }

  lemma RoiIsAtLeastMinusOne(realizedPnl: int, basis: int)
    requires Roi(realizedPnl, basis).Ok? && realizedPnl >= -basis
    ensures Roi(realizedPnl, basis).value.Some? ==> Roi(realizedPnl, basis).value.value >= -SCALE
  {
    if basis > 0 {
      DivideIsNearest(realizedPnl, basis);
    }
  }

  lemma LegIsBalanced(leg: Leg, fills: seq<FixedFill>, settlements: seq<FixedSettlement>, status: Status)
    requires CalculateLeg(leg, fills, settlements, status).Ok?
    requires forall f :: f in fills ==> IsSoundFill(f)
    requires forall s :: s in settlements ==> IsSoundSettlement(s)
    ensures IsBalanced(CalculateLeg(leg, fills, settlements, status).value)
  {
    LegSums(leg.id, fills);
    var t := CalculateLeg(leg, fills, settlements, status).value;
    RoiIsAtLeastMinusOne(t.realizedPnl, t.costBasis + t.fees);
  }

  /** Each leg balances, the total P&L is the sum of the legs' and no return is below -100%. */
  predicate IsConservative(p: Projection) {
    && |p.legs| == 2
    && (forall t :: t in p.legs ==> IsBalanced(t))
    && p.realizedPnl == Sum(PnlOf, p.legs) == p.payout - p.costBasis - p.fees
    && 0 <= p.costBasis && 0 <= p.payout && 0 <= p.fees
    && (p.roi.Some? ==> p.roi.value >= -SCALE)
  }

  lemma LedgerConserves(input: LedgerInput)
    requires CalculateLedger(input).Ok?
    ensures IsConservative(CalculateLedger(input).value)
  {
    var ctx := ValidateContext(input).value;
    var valid := ValidateEvidence(ctx, input).value;
    LegsAreTwo(input);
    ValidFillsAreSound(ctx, input.fills);
    ValidSettlementsAreSound(ctx, input.settlements);
    ReductionConserves(input.version, ctx, valid.fills, valid.settlements);
  }

  lemma LegsAreBalanced(legs: seq<Leg>, fills: seq<FixedFill>, settlements: seq<FixedSettlement>, status: Status)
    requires CalculateLegs(legs, fills, settlements, status).Ok?
    requires forall f :: f in fills ==> IsSoundFill(f)
    requires forall s :: s in settlements ==> IsSoundSettlement(s)
    ensures forall t :: t in CalculateLegs(legs, fills, settlements, status).value ==> IsBalanced(t)
  {
    var totals := CalculateLegs(legs, fills, settlements, status).value;
    forall i | 0 <= i < |totals|
      ensures IsBalanced(totals[i])
    {
      LegIsBalanced(legs[i], fills, settlements, status);
    }
  }

  lemma TotalsConserve(legs: seq<LegTotals>)
    requires |legs| == 2 && (forall t :: t in legs ==> IsBalanced(t)) && Total(legs).Ok?
    ensures var t := Total(legs).value;
            && t.realizedPnl == Sum(PnlOf, legs) == t.payout - t.costBasis - t.fees
            && 0 <= t.costBasis && 0 <= t.payout && 0 <= t.fees
            && (t.roi.Some? ==> t.roi.value >= -SCALE)
  {
    TwoLegSums(legs);
    assert IsBalanced(legs[0]) && IsBalanced(legs[1]);
    var t := Total(legs).value;
    RoiIsAtLeastMinusOne(t.realizedPnl, t.costBasis + t.fees);
  }

  lemma ReductionConserves(version: int, ctx: Context, fills: seq<FixedFill>, settlements: seq<FixedSettlement>)
    requires Reduce(version, ctx, fills, settlements).Ok? && |ctx.legs| == 2
    requires forall f :: f in fills ==> IsSoundFill(f)
    requires forall s :: s in settlements ==> IsSoundSettlement(s)
    ensures IsConservative(Reduce(version, ctx, fills, settlements).value)
  {
    LegsAreBalanced(ctx.legs, fills, settlements, ctx.intent.status);
    TotalsConserve(CalculateLegs(ctx.legs, fills, settlements, ctx.intent.status).value);
  }

  lemma LegsAreTwo(input: LedgerInput)
    requires ValidateContext(input).Ok?
    ensures |ValidateContext(input).value.legs| == 2
  {
    var checked := CheckAll(LegCheck(input.intent), input.legs).value;
    assert |multiset(SortBy(LegLeq, checked))| == |multiset(checked)|;
  }

  lemma TwoLegSums(legs: seq<LegTotals>)
    requires |legs| == 2
    ensures Sum(CostOf, legs) == legs[0].costBasis + legs[1].costBasis
    ensures Sum(PayoutOf, legs) == legs[0].payout + legs[1].payout
    ensures Sum(FeesOf, legs) == legs[0].fees + legs[1].fees
    ensures Sum(PnlOf, legs) == legs[0].realizedPnl + legs[1].realizedPnl
  {
    assert legs == [legs[0]] + [legs[1]];
    SumSnoc(CostOf, [legs[0]], legs[1]);
    SumSnoc(PayoutOf, [legs[0]], legs[1]);
    SumSnoc(FeesOf, [legs[0]], legs[1]);
    SumSnoc(PnlOf, [legs[0]], legs[1]);
  }

  // ----- versions

  datatype Delta = Delta(intentId: Text, fromVersion: int, toVersion: int, amounts: Totals)

  predicate IsConsistent(p: Projection) {
    && p.evidence == EvidenceOf(p.proof)
    && p.proof.version == p.version && p.proof.intent.id == p.intentId
  }

  function FixedRoi(roi: Option<Text>): Checked<Option<int>> {
    if roi.None? then Ok(None)
    else
      match ParseCanonicalFixed(roi.value)
      case Err(error) => Err(error)
      case Ok(fixed) => Ok(Some(fixed))
  }

  function FixedTotals(amounts: ExactAmounts): Checked<Totals> {
    var costBasis, payout := ParseCanonicalFixed(amounts.costBasisUsd), ParseCanonicalFixed(amounts.payoutUsd);
    var fees, realizedPnl := ParseCanonicalFixed(amounts.feesUsd), ParseCanonicalFixed(amounts.realizedPnlUsd);
    var roi := FixedRoi(amounts.roi);
    if costBasis.Err? then Err(costBasis.error)
    else if payout.Err? then Err(payout.error)
    else if fees.Err? then Err(fees.error)
    else if realizedPnl.Err? then Err(realizedPnl.error)
    else if roi.Err? then Err(roi.error)
    else Ok(Totals(costBasis.value, payout.value, fees.value, realizedPnl.value, roi.value))
  }

  function RoiDifference(previous: Option<int>, next: Option<int>): Option<int> {
    if previous.None? || next.None? then None else Some(next.value - previous.value)
  }

  function Difference(previous: Totals, next: Totals): Checked<Totals> {
    var d := Totals(next.costBasis - previous.costBasis, next.payout - previous.payout, next.fees - previous.fees,
                    next.realizedPnl - previous.realizedPnl, RoiDifference(previous.roi, next.roi));
    if !IsFixed(d.costBasis) || !IsFixed(d.payout) || !IsFixed(d.fees) || !IsFixed(d.realizedPnl) then Err(Overflow)
    else if d.roi.Some? && !IsFixed(d.roi.value) then Err(Overflow)
    else Ok(d)
  }

  /** calculateAccountingLedgerDelta, which reads both totals back from the proofs' text. */
  function CalculateDelta(previous: Projection, next: Projection): Checked<Delta> {
    if !IsConsistent(previous) || !IsConsistent(next) then Err(InvalidDelta)
    else if previous.intentId != next.intentId then Err(InvalidDelta)
    else if next.version <= previous.version then Err(InvalidDelta)
    else if previous.proof.intent != next.proof.intent || previous.proof.legs != next.proof.legs then Err(InvalidDelta)
    else
      var before, after := FixedTotals(previous.proof.totals), FixedTotals(next.proof.totals);
      if before.Err? then Err(before.error)
      else if after.Err? then Err(after.error)
      else
        match Difference(before.value, after.value)
        case Err(error) => Err(error)
        case Ok(amounts) => Ok(Delta(previous.intentId, previous.version, next.version, amounts))
  }

  function TotalsOf(p: Projection): Totals {
    Totals(p.costBasis, p.payout, p.fees, p.realizedPnl, p.roi)
  }

  predicate IsLedgerOf(p: Projection, input: LedgerInput) {
    CalculateLedger(input) == Ok(p)
  }

  lemma TotalsReadBack(t: Totals)
    requires IsFixed(t.costBasis) && IsFixed(t.payout) && IsFixed(t.fees) && IsFixed(t.realizedPnl)
    requires t.roi.Some? ==> IsFixed(t.roi.value)
    ensures FixedTotals(Exact(t.costBasis, t.payout, t.fees, t.realizedPnl, t.roi)) == Ok(t)
  {
    FixedRoundTrip(t.costBasis);
    FixedRoundTrip(t.payout);
    FixedRoundTrip(t.fees);
    FixedRoundTrip(t.realizedPnl);
    if t.roi.Some? {
      FixedRoundTrip(t.roi.value);
    }
  }

  lemma ReductionIsFixed(version: int, ctx: Context, fills: seq<FixedFill>, settlements: seq<FixedSettlement>)
    requires Reduce(version, ctx, fills, settlements).Ok?
    ensures var p := Reduce(version, ctx, fills, settlements).value;
            && IsConsistent(p)
            && IsFixed(p.costBasis) && IsFixed(p.payout) && IsFixed(p.fees) && IsFixed(p.realizedPnl)
            && (p.roi.Some? ==> IsFixed(p.roi.value))
            && p.proof.totals == Exact(p.costBasis, p.payout, p.fees, p.realizedPnl, p.roi)
  {
  }

  predicate IsLedgerTotals(t: Totals) {
    0 <= t.costBasis <= MAX_FIXED_UNITS && 0 <= t.payout <= MAX_FIXED_UNITS && 0 <= t.fees <= MAX_FIXED_UNITS
  }

  /** What its own proof text says about a projection is what it is. */
  predicate IsWritten(p: Projection) {
    && IsConsistent(p)
    && FixedTotals(p.proof.totals) == Ok(TotalsOf(p))
    && IsLedgerTotals(TotalsOf(p))
  }

  lemma LedgerIsWritten(p: Projection, input: LedgerInput)
    requires IsLedgerOf(p, input)
    ensures IsWritten(p)
  {
    var valid := Validate(input).value;
    ReductionIsFixed(input.version, valid.ctx, valid.fills, valid.settlements);
    TotalsReadBack(TotalsOf(p));
    LedgerConserves(input);
  }

  predicate IsNextVersion(previous: Projection, next: Projection) {
    && previous.intentId == next.intentId && previous.version < next.version
    && previous.proof.intent == next.proof.intent && previous.proof.legs == next.proof.legs
  }

  function DeltaAmounts(previous: Projection, next: Projection): Checked<Totals> {
    match CalculateDelta(previous, next)
    case Err(error) => Err(error)
    case Ok(delta) => Ok(delta.amounts)
  }

  /** Between two ledgers the delta exists exactly for a newer version of the same identity with
      representable differences, and it is the difference of the ledgers' own amounts: the round
      trip through text changes nothing. */
  lemma DeltaIsDifference(p: Projection, q: Projection, a: LedgerInput, b: LedgerInput)
    requires IsLedgerOf(p, a) && IsLedgerOf(q, b)
    ensures CalculateDelta(p, q).Ok? <==> IsNextVersion(p, q) && Difference(TotalsOf(p), TotalsOf(q)).Ok?
    ensures CalculateDelta(p, q).Ok? ==> DeltaAmounts(p, q) == Difference(TotalsOf(p), TotalsOf(q))
  {
    LedgerIsWritten(p, a);
    LedgerIsWritten(q, b);
    WrittenDifference(p, q);
  }

  lemma WrittenDifference(p: Projection, q: Projection)
    requires IsWritten(p) && IsWritten(q)
    ensures DeltaAmounts(p, q).Ok? <==> CalculateDelta(p, q).Ok?
    ensures DeltaAmounts(p, q).Ok? <==> IsNextVersion(p, q) && Difference(TotalsOf(p), TotalsOf(q)).Ok?
    ensures DeltaAmounts(p, q).Ok? ==> DeltaAmounts(p, q) == Difference(TotalsOf(p), TotalsOf(q))
  {
  }

  /** f is the sum of d and e, unless a sum leaves the domain. */
  predicate Telescopes(d: Totals, e: Totals, f: Checked<Totals>, first: Option<int>, last: Option<int>) {
    && (f.Ok? <==>
          && IsFixed(d.realizedPnl + e.realizedPnl)
          && (first.Some? && last.Some? ==> IsFixed(last.value - first.value)))
    && (f.Ok? ==>
          && f.value.costBasis == d.costBasis + e.costBasis
          && f.value.payout == d.payout + e.payout
          && f.value.fees == d.fees + e.fees
          && f.value.realizedPnl == d.realizedPnl + e.realizedPnl
          && (d.roi.Some? && e.roi.Some? ==> f.value.roi == Some(d.roi.value + e.roi.value)))
  }

  /** Deltas over three versions add up; the long one can only fail because a P&L or return sum
      overflows, never on cost, payout or fees. */
  lemma DeltasTelescope(p: Projection, q: Projection, r: Projection, a: LedgerInput, b: LedgerInput, c: LedgerInput)
    requires IsLedgerOf(p, a) && IsLedgerOf(q, b) && IsLedgerOf(r, c)
    requires CalculateDelta(p, q).Ok? && CalculateDelta(q, r).Ok?
    ensures DeltaAmounts(p, q).Ok? && DeltaAmounts(q, r).Ok?
    ensures Telescopes(DeltaAmounts(p, q).value, DeltaAmounts(q, r).value, DeltaAmounts(p, r), p.roi, r.roi)
  {
    LedgerIsWritten(p, a);
    LedgerIsWritten(q, b);
    LedgerIsWritten(r, c);
    WrittenTelescopes(p, q, r);
  }

  lemma WrittenTelescopes(p: Projection, q: Projection, r: Projection)
    requires IsWritten(p) && IsWritten(q) && IsWritten(r)
    requires CalculateDelta(p, q).Ok? && CalculateDelta(q, r).Ok?
    ensures DeltaAmounts(p, q).Ok? && DeltaAmounts(q, r).Ok?
    ensures Telescopes(DeltaAmounts(p, q).value, DeltaAmounts(q, r).value, DeltaAmounts(p, r), p.roi, r.roi)
  {
    WrittenDifference(p, q);
    WrittenDifference(q, r);
    WrittenDifference(p, r);
    DifferencesTelescope(TotalsOf(p), TotalsOf(q), TotalsOf(r));
  }

  lemma DifferencesTelescope(x: Totals, y: Totals, z: Totals)
    requires Difference(x, y).Ok? && Difference(y, z).Ok?
    requires IsLedgerTotals(x) && IsLedgerTotals(z)
    ensures Telescopes(Difference(x, y).value, Difference(y, z).value, Difference(x, z), x.roi, z.roi)
  {
  }
}

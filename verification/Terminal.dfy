/** The producer of ledger input: the settlements of a terminal intent are derived from what its
    fills leave on each leg, and the ledger accepts them.

    The producer multiplies a size by 1e8 as a double, where the ledger reads the digits of its text,
    and it divides a residual by 1e8 as a double, whose text the ledger reads. The two agree exactly
    on the conditions that are proved here; on sizes such as 319.4 they do not, and nothing is built. */
module Terminal {
  import opened Prelude
  import opened Sequences
  import opened FixedPoint
  import opened Ledger
  import opened LedgerOrder
  import opened LedgerLaws
  import Doubles
  import SizeUnits

  datatype TerminalLeg = TerminalLeg(leg: Leg, resolvedOutcome: Option<Resolution>)

  datatype TerminalInput = TerminalInput(
    intent: Intent, legs: seq<TerminalLeg>, fills: seq<Fill>, version: int, capturedAt: int,
    settlementObservedAt: int)

  datatype TerminalError =
    | NotFinalizable | UnresolvedIntent | InexactSize | SoldMoreThanBought | MissingSettlementProof
    | LedgerRejects(error: LedgerError)

  // ----- the producer

  /** toFixedUnits */
  function ToFixedUnits(n: Number): Option<int> {
    if n.NotFinite? || DecimalValue(n) <= 0.0 then None else SizeUnits.ScaledUnits(DecimalValue(n))
  }

  /** Bought less sold on a leg, with sizes as read; none when one cannot be read. */
  function ResidualAs(read: Number -> Option<int>, fills: seq<Fill>, legId: Text): Option<int> {
    if fills == [] then Some(0)
    else
      var last := fills[|fills| - 1];
      var before := ResidualAs(read, fills[..|fills| - 1], legId);
      if before.None? || last.place.legId != legId then before
      else
        match read(last.size)
        case None => None
        case Some(units) => Some(before.value + if last.side.BUY? then units else -units)
  }

  function ResidualUnits(fills: seq<Fill>, legId: Text): Option<int> {
    ResidualAs(ToFixedUnits, fills, legId)
  }

  /** What the producer settles on a leg, as the ledger reads it; none where the fills make it throw. */
  function SettledUnits(fills: seq<Fill>, legId: Text): Option<nat> {
    match ResidualUnits(fills, legId)
    case None => None
    case Some(residual) =>
      if residual < 0 then None
      else if residual == 0 then Some(0)
      else Some(SizeUnits.PrintedUnits(residual))
  }

  function NatDigits(n: nat): (ds: seq<Digit>)
    ensures ds != [] && ValueOf(ds) == n
  {
    if n < 10 then
      assert [n][..0] == [];
      [n]
    else
      var ds := NatDigits(n / 10) + [n % 10];
      assert ds[..|ds| - 1] == NatDigits(n / 10);
      ds
  }

  /** The number units / 1e8. */
  function FromUnits(units: nat): (n: Number)
    ensures n.Decimal? && FixedUnits(n) == Ok(units)
  {
    var ds := NatDigits(units);
    assert ds + [] == ds;
    Decimal(false, ds, [], -8)
  }

  /** ":accounting:v" */
  const ACCOUNTING: Text := [58, 97, 99, 99, 111, 117, 110, 116, 105, 110, 103, 58, 118]

  /** ":settlement:" */
  const SETTLEMENT: Text := [58, 115, 101, 116, 116, 108, 101, 109, 101, 110, 116, 58]

  function SettlementIdOf(intent: Intent, version: int, legId: Text): Text {
    intent.id + (ACCOUNTING + NatText(if version < 0 then 0 else version) + SETTLEMENT) + legId
  }

  /** The settlement of so many units, as the ledger reads them. */
  function SettlementOf(input: TerminalInput, leg: TerminalLeg, settled: nat): Settlement {
    var l := leg.leg;
    Settlement(
      SettlementIdOf(input.intent, input.version, l.id),
      Place(input.intent.asset, input.intent.shadow, input.intent.id, l.id, l.venue, l.marketRef, l.tokenId, l.outcome),
      leg.resolvedOutcome, input.settlementObservedAt, Final,
      FromUnits(settled), FromUnits(if leg.resolvedOutcome == Some(l.outcome) then settled else 0), FromUnits(0))
  }

  /** The settlements one leg contributes: none, or one for what is left on it. */
  function LegSettlements(input: TerminalInput, leg: TerminalLeg): Result<seq<Settlement>, TerminalError> {
    match ResidualUnits(input.fills, leg.leg.id)
    case None => Err(InexactSize)
    case Some(residual) =>
      if residual < 0 then Err(SoldMoreThanBought)
      else if residual == 0 then Ok([])
      else if leg.resolvedOutcome.None? then Err(MissingSettlementProof)
      else Ok([SettlementOf(input, leg, SizeUnits.PrintedUnits(residual))])
  }

  function AllSettlements(input: TerminalInput, legs: seq<TerminalLeg>): Result<seq<Settlement>, TerminalError> {
    if legs == [] then Ok([])
    else
      match LegSettlements(input, legs[0])
      case Err(error) => Err(error)
      case Ok(head) =>
        match AllSettlements(input, legs[1..])
        case Err(error) => Err(error)
        case Ok(tail) => Ok(head + tail)
  }

  function LegOf(leg: TerminalLeg): Leg { leg.leg }

  function LedgerInputOf(input: TerminalInput, settlements: seq<Settlement>): LedgerInput {
    LedgerInput(input.version, input.capturedAt, Complete, input.intent, Map(LegOf, input.legs), input.fills,
                settlements)
  }

  /** buildTerminalAccountingProjection */
  function BuildTerminal(input: TerminalInput): Result<Projection, TerminalError> {
    if input.intent.status.NotTerminal? then Err(NotFinalizable)
    else if input.intent.resolvedAt.None? then Err(UnresolvedIntent)
    else
      match AllSettlements(input, input.legs)
      case Err(error) => Err(error)
      case Ok(settlements) =>
        match CalculateLedger(LedgerInputOf(input, settlements))
        case Err(error) => Err(LedgerRejects(error))
        case Ok(projection) => Ok(projection)
  }

  // ----- what the input must satisfy, read off the fills

  function Bought(f: seq<FixedFill>, legId: Text): int { Sum(SizeOn(legId, BUY), f) }
  function Sold(f: seq<FixedFill>, legId: Text): int { Sum(SizeOn(legId, SELL), f) }
  function Net(f: seq<FixedFill>, legId: Text): int { Bought(f, legId) - Sold(f, legId) }
  function Cost(f: seq<FixedFill>, legId: Text): int { Sum(GrossOn(legId, BUY), f) }
  function Proceeds(f: seq<FixedFill>, legId: Text): int { Sum(GrossOn(legId, SELL), f) }
  function Fees(f: seq<FixedFill>, legId: Text): int { Sum(FeeOn(legId), f) }

  function PayoutOn(f: seq<FixedFill>, leg: TerminalLeg): int {
    Proceeds(f, leg.leg.id)
    + if leg.resolvedOutcome == Some(leg.leg.outcome) then Bought(f, leg.leg.id) - Sold(f, leg.leg.id) else 0
  }

  predicate SettlementIsDue(input: TerminalInput, leg: TerminalLeg) {
    && leg.resolvedOutcome.Some? && IsVenueOutcome(leg.leg.venue, leg.resolvedOutcome.value)
    && IsTimestamp(input.settlementObservedAt, 0) && input.settlementObservedAt <= input.capturedAt
  }

  /** Residuals are not negative, required BUYs and resolutions exist, times are ordered and the
      amounts of the leg are representable. */
  predicate LegIsReady(input: TerminalInput, f: seq<FixedFill>, leg: TerminalLeg) {
    var id := leg.leg.id;
    && Sold(f, id) <= Bought(f, id) <= MAX_FIXED_UNITS
    && (input.intent.status.Settled? ==> Bought(f, id) > 0)
    && (Sold(f, id) < Bought(f, id) ==>
          && SettlementIsDue(input, leg)
          && forall x :: x in f && x.evidence.place.legId == id ==> x.evidence.filledAt <= input.settlementObservedAt)
    && AmountsFit(PayoutOn(f, leg), Cost(f, id), Fees(f, id))
  }

  /** Cost with fees and the return on it are representable. */
  predicate AmountsFit(payout: int, cost: int, fees: int) {
    cost + fees <= MAX_FIXED_UNITS && Roi(payout - cost - fees, cost + fees).Ok?
  }

  predicate TotalsFit(f: seq<FixedFill>, a: TerminalLeg, b: TerminalLeg) {
    var payout := PayoutOn(f, a) + PayoutOn(f, b);
    && payout <= MAX_FIXED_UNITS
    && AmountsFit(payout, Cost(f, a.leg.id) + Cost(f, b.leg.id), Fees(f, a.leg.id) + Fees(f, b.leg.id))
  }

  /** Intent, legs and each fill are valid on their own. */
  predicate IsSound(input: TerminalInput) {
    var bare := LedgerInputOf(input, []);
    && |input.legs| == 2
    && ValidateContext(bare).Ok?
    && ValidFills(ValidateContext(bare).value, input.fills).Ok?
  }

  function ContextOf(input: TerminalInput): Context
    requires IsSound(input)
  {
    ValidateContext(LedgerInputOf(input, [])).value
  }

  function FixedFillsOf(input: TerminalInput): seq<FixedFill>
    requires IsSound(input)
  {
    ValidFills(ContextOf(input), input.fills).value
  }

  predicate IsReady(input: TerminalInput)
    requires IsSound(input)
  {
    var f := FixedFillsOf(input);
    && LegIsReady(input, f, input.legs[0]) && LegIsReady(input, f, input.legs[1])
    && TotalsFit(f, input.legs[0], input.legs[1])
  }

  /** What the producer settles on the leg is what the ledger finds left on it. */
  predicate SettlesNet(fills: seq<Fill>, f: seq<FixedFill>, legId: Text) {
    SettledUnits(fills, legId).Some? && SettledUnits(fills, legId).value == Net(f, legId)
  }

  predicate SettlesExactly(input: TerminalInput)
    requires IsSound(input)
  {
    AllSettleNet(input, FixedFillsOf(input))
  }

  predicate AllSettleNet(input: TerminalInput, f: seq<FixedFill>) {
    forall leg :: leg in input.legs ==> SettlesNet(input.fills, f, leg.leg.id)
  }

  // ----- when the producer's units are the ledger's

  /** A size of the ledger is scaled by the producer as the decimal of its units. */
  lemma UnitsScale(n: Number, units: int)
    requires n.Decimal? && FixedUnits(n) == Ok(units) && units >= 1
    ensures ToFixedUnits(n) == SizeUnits.ScaledUnits(SizeUnits.SizeOf(units))
    ensures ToFixedUnits(n) == Some(units) <==> SizeUnits.IsReadBack(units)
  {
    ParseIsExact(n, units);
    assert DecimalValue(n) == SizeUnits.SizeOf(units);
  }

  /** Producer and ledger read a size as the same number of units. */
  predicate ReadAlike(n: Number, units: int) {
    n.Decimal? && FixedUnits(n) == Ok(units) ==> ToFixedUnits(n) == Some(units)
  }

  /** They read every size up to a bound alike if and only if the bound is at most 128.00000001. */
  lemma UnitsAgreeUpToIff(bound: int)
    ensures (forall n, units :: 1 <= units <= bound ==> ReadAlike(n, units)) <==> bound <= 12_800_000_001
  {
    if bound <= 12_800_000_001 {
      forall n, units | 1 <= units <= bound
        ensures ReadAlike(n, units)
      {
        if n.Decimal? && FixedUnits(n) == Ok(units) {
          UnitsScale(n, units);
          SizeUnits.UpToIsReadBack(units);
        }
      }
    } else {
      var n := FromUnits(12_800_000_002);
      UnitsScale(n, 12_800_000_002);
      SizeUnits.FirstIsRefused();
      assert !ReadAlike(n, 12_800_000_002);
    }
  }

  /** Every whole number of contracts is read alike. */
  lemma WholeContractsAgree(n: Number, contracts: nat)
    requires 0 < contracts && contracts * SCALE <= MAX_FIXED_UNITS
    ensures ReadAlike(n, contracts * SCALE)
  {
    if n.Decimal? && FixedUnits(n) == Ok(contracts * SCALE) {
      UnitsScale(n, contracts * SCALE);
      SizeUnits.WholeIsReadBack(contracts);
    }
  }

  /** fix keeps the fill, and its size is read alike. */
  predicate ReadsSize(read: Number -> Option<int>, fix: Fill -> FixedFill, fill: Fill) {
    fix(fill).evidence == fill && read(fill.size) == Some(fix(fill).size)
  }

  /** What is found left on the leg is what the ledger finds. */
  predicate LeavesResidual(read: Number -> Option<int>, fills: seq<Fill>, f: seq<FixedFill>, legId: Text) {
    ResidualAs(read, fills, legId) == Some(Net(f, legId))
  }

  lemma {:induction false} ResidualAgrees(
    read: Number -> Option<int>, fix: Fill -> FixedFill, fills: seq<Fill>, legId: Text)
    requires forall fill :: fill in fills ==> ReadsSize(read, fix, fill)
    ensures LeavesResidual(read, fills, Map(fix, fills), legId)
  {
    if fills != [] {
      var init, last := fills[..|fills| - 1], fills[|fills| - 1];
      assert last in fills && fills == init + [last];
      ResidualAgrees(read, fix, init, legId);
      assert ReadsSize(read, fix, last);
      MapSnoc(fix, init, last);
      SumSnoc(SizeOn(legId, BUY), Map(fix, init), fix(last));
      SumSnoc(SizeOn(legId, SELL), Map(fix, init), fix(last));
    }
  }

  /** A size that is read back: up to 128.00000001, or a double exactly, as whole numbers are. */
  predicate IsOrdinary(units: int) {
    units <= 12_800_000_001 || (units > 0 && Doubles.Nearest(SizeUnits.SizeOf(units)) == SizeUnits.SizeOf(units))
  }

  predicate SizeIsOrdinary(f: FixedFill) {
    IsOrdinary(f.size)
  }

  lemma FillReads(ctx: Context, fill: Fill)
    requires FillTest(ctx)(fill) && SizeIsOrdinary(FixedOf(ctx)(fill))
    ensures ReadsSize(ToFixedUnits, FixedOf(ctx), fill)
  {
    var units := FixedOf(ctx)(fill).size;
    UnitsScale(fill.size, units);
    if units <= 12_800_000_001 {
      SizeUnits.UpToIsReadBack(units);
    } else {
      SizeUnits.ExactIsReadBack(units);
    }
  }

  lemma FillsRead(ctx: Context, fills: seq<Fill>)
    requires ValidFills(ctx, fills).Ok?
    requires forall f :: f in ValidFills(ctx, fills).value ==> SizeIsOrdinary(f)
    ensures forall fill :: fill in fills ==> ReadsSize(ToFixedUnits, FixedOf(ctx), fill)
    ensures multiset(ValidFills(ctx, fills).value) == multiset(Map(FixedOf(ctx), fills))
  {
    FillCheckSeparates(ctx);
    CheckAllMeans(FillCheck(ctx), FillTest(ctx), FixedOf(ctx), FillId, TradeKey, fills);
    SameElements(ValidFills(ctx, fills).value, Map(FixedOf(ctx), fills));
    forall fill | fill in fills
      ensures ReadsSize(ToFixedUnits, FixedOf(ctx), fill)
    {
      Mapped(FixedOf(ctx), fills, fill);
      FillReads(ctx, fill);
    }
  }

  lemma ResidualOf(ctx: Context, fills: seq<Fill>, legId: Text)
    requires ValidFills(ctx, fills).Ok?
    requires forall f :: f in ValidFills(ctx, fills).value ==> SizeIsOrdinary(f)
    ensures LeavesResidual(ToFixedUnits, fills, ValidFills(ctx, fills).value, legId)
  {
    FillsRead(ctx, fills);
    ResidualAgrees(ToFixedUnits, FixedOf(ctx), fills, legId);
    NetPermutes(ValidFills(ctx, fills).value, Map(FixedOf(ctx), fills), legId);
  }

  /** Ordinary fills that leave at most 67108864.00000001 contracts are settled exactly. */
  lemma OrdinarySettlesNet(ctx: Context, fills: seq<Fill>, legId: Text)
    requires ValidFills(ctx, fills).Ok?
    requires forall f :: f in ValidFills(ctx, fills).value ==> SizeIsOrdinary(f)
    requires 0 <= Net(ValidFills(ctx, fills).value, legId) <= SizeUnits.FINE + 1
    ensures SettlesNet(fills, ValidFills(ctx, fills).value, legId)
  {
    ResidualOf(ctx, fills, legId);
    var net := Net(ValidFills(ctx, fills).value, legId);
    if net > 0 {
      SizeUnits.PrintedUpToIff(SizeUnits.FINE + 1);
      assert SizeUnits.IsPrintedExactly(net);
    }
  }

  lemma NetPermutes(f: seq<FixedFill>, g: seq<FixedFill>, legId: Text)
    requires multiset(f) == multiset(g)
    ensures Net(f, legId) == Net(g, legId)
  {
    SumPermutation(SizeOn(legId, BUY), f, g);
    SumPermutation(SizeOn(legId, SELL), f, g);
  }

  // ----- one leg: ready exactly when the ledger accepts it

  /** What the ledger will find for the leg: nothing, or its residual paid by the resolution. */
  predicate Settles(found: Option<FixedSettlement>, input: TerminalInput, leg: TerminalLeg, residual: nat) {
    if residual == 0 then found.None?
    else
      && found.Some?
      && found.value.settledSize == residual && found.value.fee == 0
      && found.value.payout == (if leg.resolvedOutcome == Some(leg.leg.outcome) then residual else 0)
      && found.value.evidence.settledAt == input.settlementObservedAt
  }

  /** The conditions on a leg that do not concern its settlement's own validity. */
  predicate LegAdds(input: TerminalInput, f: seq<FixedFill>, leg: TerminalLeg) {
    && Bought(f, leg.leg.id) <= MAX_FIXED_UNITS
    && (input.intent.status.Settled? ==> Bought(f, leg.leg.id) > 0)
    && (Net(f, leg.leg.id) > 0 ==> LastFillAt(leg.leg.id, f) <= input.settlementObservedAt)
    && AmountsFit(PayoutOn(f, leg), Cost(f, leg.leg.id), Fees(f, leg.leg.id))
  }

  lemma LegBounds(f: seq<FixedFill>, leg: TerminalLeg)
    requires forall x :: x in f ==> IsSoundFill(x)
    ensures var id := leg.leg.id;
            && 0 <= Cost(f, id) <= Bought(f, id) && 0 <= Proceeds(f, id) <= Sold(f, id) && 0 <= Fees(f, id)
            && (Net(f, id) >= 0 ==> 0 <= PayoutOn(f, leg) <= Bought(f, id))
  {
    LegSums(leg.leg.id, f);
  }

  lemma LegAccepted(
    input: TerminalInput, leg: TerminalLeg, f: seq<FixedFill>, settlements: seq<FixedSettlement>)
    requires forall x :: x in f ==> IsSoundFill(x)
    requires Net(f, leg.leg.id) >= 0
    requires Settles(FindSettlement(settlements, leg.leg.id), input, leg, Net(f, leg.leg.id))
    ensures var t := CalculateLeg(leg.leg, f, settlements, input.intent.status);
            && (t.Ok? <==> LegAdds(input, f, leg))
            && (t.Ok? ==> t.value.costBasis == Cost(f, leg.leg.id) && t.value.fees == Fees(f, leg.leg.id)
                          && t.value.payout == PayoutOn(f, leg))
  {
    LegBounds(f, leg);
  }

  lemma LastFillBefore(legId: Text, f: seq<FixedFill>, t: int)
    requires t >= 0
    ensures LastFillAt(legId, f) <= t <==>
            forall x :: x in f && x.evidence.place.legId == legId ==> x.evidence.filledAt <= t
  {
    if f != [] && (forall x :: x in f && x.evidence.place.legId == legId ==> x.evidence.filledAt <= t) {
      assert f[0] in f;
      LastFillBefore(legId, f[1..], t);
    }
  }

  // ----- the settlements: valid exactly when the resolutions and times are

  lemma WrappedIsCanonical(a: Text, m: Text, b: Text)
    requires IsCanonicalText(a) && IsCanonicalText(b)
    ensures IsCanonicalText(a + m + b)
  {
  }

  lemma WrappedDiffers(a: Text, m: Text, b: Text, c: Text)
    requires a + m + b == a + m + c
    ensures b == c
  {
    assert b == (a + m + b)[|a + m|..];
    assert c == (a + m + c)[|a + m|..];
  }

  lemma SettlementIdsDiffer(intent: Intent, version: int, a: Text, b: Text)
    requires SettlementIdOf(intent, version, a) == SettlementIdOf(intent, version, b)
    ensures a == b
  {
    WrappedDiffers(intent.id, ACCOUNTING + NatText(if version < 0 then 0 else version) + SETTLEMENT, a, b);
  }

  lemma SettlementIdIsCanonical(intent: Intent, version: int, legId: Text)
    requires IsCanonicalText(intent.id) && IsCanonicalText(legId)
    ensures IsCanonicalText(SettlementIdOf(intent, version, legId))
  {
    WrappedIsCanonical(intent.id, ACCOUNTING + NatText(if version < 0 then 0 else version) + SETTLEMENT, legId);
  }

  /** What the checks look at in a settlement of the producer. */
  lemma SettlementParts(input: TerminalInput, ctx: Context, leg: TerminalLeg, residual: nat)
    requires ctx.intent == input.intent && FindLeg(ctx.legs, leg.leg.id) == Some(leg.leg)
    requires IsOptionalId(leg.leg.tokenId)
    requires 0 < residual <= MAX_FIXED_UNITS
    ensures var s := SettlementOf(input, leg, residual);
            && CheckPlace(s.place, ctx).Ok?
            && ToFixed(s.settledSize, 1, MAX_FIXED_UNITS, Overflow) == Ok(residual)
            && ToFixed(s.payoutUsd, 0, MAX_FIXED_UNITS, Overflow)
               == Ok(if leg.resolvedOutcome == Some(leg.leg.outcome) then residual else 0)
            && ToFixed(s.feeUsd, 0, MAX_FIXED_UNITS, Overflow) == Ok(0)
            && s.resolvedOutcome == leg.resolvedOutcome && s.settledAt == input.settlementObservedAt
            && s.finality.Final? && s.place.outcome == leg.leg.outcome && s.place.venue == leg.leg.venue
            && s.place.legId == leg.leg.id && s.id == SettlementIdOf(input.intent, input.version, leg.leg.id)
  {
  }

  lemma SettlementStandsIff(input: TerminalInput, ctx: Context, leg: TerminalLeg, residual: nat)
    requires ctx.intent == input.intent && ctx.capturedAt == input.capturedAt
    requires FindLeg(ctx.legs, leg.leg.id) == Some(leg.leg)
    requires IsCanonicalText(input.intent.id) && IsCanonicalText(leg.leg.id) && IsOptionalId(leg.leg.tokenId)
    requires 0 < residual <= MAX_FIXED_UNITS && leg.resolvedOutcome.Some?
    ensures var s := SettlementOf(input, leg, residual);
            && (SettlementTest(ctx)(s) <==> SettlementIsDue(input, leg))
            && (SettlementTest(ctx)(s) ==> Settles(Some(FixedSettlementOf(ctx)(s)), input, leg, residual))
  {
    SettlementParts(input, ctx, leg, residual);
    SettlementIdIsCanonical(input.intent, input.version, leg.leg.id);
    var s := SettlementOf(input, leg, residual);
    StandsByParts(s, ctx);
  }

  lemma StandsByParts(s: Settlement, ctx: Context)
    requires IsCanonicalText(s.id) && s.finality.Final?
    ensures SettlementTest(ctx)(s) <==> FixSettlement(s, ctx).Ok?
    ensures SettlementTest(ctx)(s) ==> FixedSettlementOf(ctx)(s) == FixSettlement(s, ctx).value
  {
  }

  // ----- both legs

  predicate LegIsKnown(ctx: Context, leg: TerminalLeg) {
    && FindLeg(ctx.legs, leg.leg.id) == Some(leg.leg)
    && IsCanonicalText(leg.leg.id) && IsOptionalId(leg.leg.tokenId)
  }

  lemma HeadFacts(input: TerminalInput)
    requires IsSound(input)
    ensures var ctx := ContextOf(input);
            && ctx.intent == input.intent && ctx.capturedAt == input.capturedAt
            && IsCanonicalText(input.intent.id)
            && !input.intent.status.NotTerminal? && input.intent.resolvedAt.Some?
            && ValidLegs(input.intent, Map(LegOf, input.legs)) == Ok(ctx.legs)
  {
  }

  lemma LegFacts(intent: Intent, a: Leg, b: Leg)
    requires ValidLegs(intent, [a, b]).Ok?
    ensures var legs := ValidLegs(intent, [a, b]).value;
            && (legs == [a, b] || legs == [b, a])
            && a.id != b.id
            && FindLeg(legs, a.id) == Some(a) && IsCanonicalText(a.id) && IsOptionalId(a.tokenId)
            && FindLeg(legs, b.id) == Some(b) && IsCanonicalText(b.id) && IsOptionalId(b.tokenId)
  {
    LegCheckSeparates(intent);
    CheckAllMeans(LegCheck(intent), LegTest(intent), SameLeg, LegId, LegVenue, [a, b]);
    assert Map(SameLeg, [a, b]) == [a, b];
    assert Map(LegId, [a, b])[0] != Map(LegId, [a, b])[1];
    assert a in [a, b] && b in [a, b];
    TwoArranged(ValidLegs(intent, [a, b]).value, a, b);
    FindAmongTwo(a, b);
    FindAmongTwo(b, a);
  }

  lemma FindAmongTwo(a: Leg, b: Leg)
    requires a.id != b.id
    ensures FindLeg([a, b], a.id) == Some(a) && FindLeg([a, b], b.id) == Some(b)
  {
    assert [a, b][1..] == [b];
  }

  lemma TwoArranged<T>(s: seq<T>, a: T, b: T)
    requires multiset(s) == multiset([a, b])
    ensures s == [a, b] || s == [b, a]
  {
    assert |s| == |multiset(s)| == 2;
    assert s == [s[0], s[1]];
    assert multiset(s) == multiset{s[0], s[1]} == multiset{a, b};
    assert s[0] in multiset{a, b};
    if s[0] == a {
      assert multiset{s[1]} == multiset(s) - multiset{a} == multiset{b};
      assert s[1] in multiset{b};
    } else {
      assert multiset{s[1]} == multiset(s) - multiset{b} == multiset{a};
      assert s[1] in multiset{a};
    }
  }

  function Part(input: TerminalInput, leg: TerminalLeg, residual: nat): seq<Settlement> {
    if residual == 0 then [] else [SettlementOf(input, leg, residual)]
  }

  lemma PartsValid(input: TerminalInput, ctx: Context, a: TerminalLeg, b: TerminalLeg, m: nat, n: nat)
    requires ctx.intent == input.intent && ctx.capturedAt == input.capturedAt && IsCanonicalText(input.intent.id)
    requires LegIsKnown(ctx, a) && LegIsKnown(ctx, b) && a.leg.id != b.leg.id
    requires m <= MAX_FIXED_UNITS && n <= MAX_FIXED_UNITS
    requires (m > 0 ==> a.resolvedOutcome.Some?) && (n > 0 ==> b.resolvedOutcome.Some?)
    ensures var valid := ValidSettlements(ctx, Part(input, a, m) + Part(input, b, n));
            && (valid.Ok? <==> (m > 0 ==> SettlementIsDue(input, a)) && (n > 0 ==> SettlementIsDue(input, b)))
            && (valid.Ok? ==>
                  && Settles(FindSettlement(valid.value, a.leg.id), input, a, m)
                  && Settles(FindSettlement(valid.value, b.leg.id), input, b, n))
  {
    var x, y := SettlementOf(input, a, m), SettlementOf(input, b, n);
    if m > 0 {
      SettlementStandsIff(input, ctx, a, m);
    }
    if n > 0 {
      SettlementStandsIff(input, ctx, b, n);
    }
    if x.id == y.id {
      SettlementIdsDiffer(input.intent, input.version, a.leg.id, b.leg.id);
    }
    assert Part(input, a, m) + Part(input, b, n) == UpToTwo(x, y, m > 0, n > 0);
    TwoValid(ctx, x, y, m > 0, n > 0);
  }

  function UpToTwo<T>(x: T, y: T, hasX: bool, hasY: bool): seq<T> {
    (if hasX then [x] else []) + (if hasY then [y] else [])
  }

  lemma MembersOfTwo<T>(x: T, y: T, hasX: bool, hasY: bool)
    ensures forall z :: z in UpToTwo(x, y, hasX, hasY) <==> (hasX && z == x) || (hasY && z == y)
  {
  }

  lemma TwoChecked<S(!new), T(!new), K, L>(
    check: (S, seq<S>) -> Checked<T>, stands: S -> bool, fix: S -> T, k: S -> K, l: S -> L,
    x: S, y: S, hasX: bool, hasY: bool)
    requires Separates(check, stands, fix, k, l) && k(x) != k(y) && l(x) != l(y)
    ensures CheckAll(check, UpToTwo(x, y, hasX, hasY)).Ok? <==> (hasX ==> stands(x)) && (hasY ==> stands(y))
    ensures CheckAll(check, UpToTwo(x, y, hasX, hasY)).Ok? ==>
              CheckAll(check, UpToTwo(x, y, hasX, hasY)).value == UpToTwo(fix(x), fix(y), hasX, hasY)
  {
    var s := UpToTwo(x, y, hasX, hasY);
    CheckAllMeans(check, stands, fix, k, l, s);
    MembersOfTwo(x, y, hasX, hasY);
    assert Map(k, s) == UpToTwo(k(x), k(y), hasX, hasY);
    assert Map(l, s) == UpToTwo(l(x), l(y), hasX, hasY);
    assert Map(fix, s) == UpToTwo(fix(x), fix(y), hasX, hasY);
  }

  /** A list of up to two settlements with different keys is valid when each is, and each is
      found under its leg. */
  lemma TwoValid(ctx: Context, x: Settlement, y: Settlement, hasX: bool, hasY: bool)
    requires x.id != y.id && x.place.legId != y.place.legId
    ensures var valid := ValidSettlements(ctx, UpToTwo(x, y, hasX, hasY));
            && (valid.Ok? <==> (hasX ==> SettlementTest(ctx)(x)) && (hasY ==> SettlementTest(ctx)(y)))
            && (valid.Ok? ==>
                  && FindSettlement(valid.value, x.place.legId)
                     == (if hasX then Some(FixedSettlementOf(ctx)(x)) else None)
                  && FindSettlement(valid.value, y.place.legId)
                     == (if hasY then Some(FixedSettlementOf(ctx)(y)) else None))
  {
    SettlementCheckSeparates(ctx);
    TwoChecked(SettlementCheck(ctx), SettlementTest(ctx), FixedSettlementOf(ctx), SettlementId, SettlementLeg,
               x, y, hasX, hasY);
    var valid := ValidSettlements(ctx, UpToTwo(x, y, hasX, hasY));
    if valid.Ok? {
      FoundAmongTwo(valid.value, FixedSettlementOf(ctx)(x), FixedSettlementOf(ctx)(y), hasX, hasY);
    }
  }

  lemma FoundAmongTwo(
    sorted: seq<FixedSettlement>, x: FixedSettlement, y: FixedSettlement, hasX: bool, hasY: bool)
    requires x.evidence.place.legId != y.evidence.place.legId
    requires multiset(sorted) == multiset(UpToTwo(x, y, hasX, hasY))
    ensures FindSettlement(sorted, x.evidence.place.legId) == (if hasX then Some(x) else None)
    ensures FindSettlement(sorted, y.evidence.place.legId) == (if hasY then Some(y) else None)
  {
    SameElements(sorted, UpToTwo(x, y, hasX, hasY));
    MembersOfTwo(x, y, hasX, hasY);
  }

  /** Settled, or nothing left to settle. */
  predicate IsSettleable(input: TerminalInput, leg: TerminalLeg) {
    var settled := SettledUnits(input.fills, leg.leg.id);
    settled.Some? && (settled.value > 0 ==> leg.resolvedOutcome.Some?)
  }

  lemma SettlementsOf(input: TerminalInput, leg: TerminalLeg)
    ensures LegSettlements(input, leg).Ok? <==> IsSettleable(input, leg)
    ensures LegSettlements(input, leg).Ok? ==>
              LegSettlements(input, leg).value == Part(input, leg, SettledUnits(input.fills, leg.leg.id).value)
  {
  }

  lemma CalculateTwo(
    x: Leg, y: Leg, f: seq<FixedFill>, settlements: seq<FixedSettlement>, status: Status)
    ensures var r := CalculateLegs([x, y], f, settlements, status);
            var tx, ty := CalculateLeg(x, f, settlements, status), CalculateLeg(y, f, settlements, status);
            && (r.Ok? <==> tx.Ok? && ty.Ok?)
            && (r.Ok? ==> r.value == [tx.value, ty.value])
  {
    assert [x, y][1..] == [y] && [y][1..] == [];
    var one := CalculateLegs([y], f, settlements, status);
    assert CalculateLegs([], f, settlements, status) == Ok([]);
    assert one.Ok? <==> CalculateLeg(y, f, settlements, status).Ok?;
    var two := CalculateLegs([x, y], f, settlements, status);
    assert two.Ok? <==> CalculateLeg(x, f, settlements, status).Ok? && one.Ok?;
    if two.Ok? {
      assert two.value[0] == CalculateLeg([x, y][0], f, settlements, status).value;
      assert two.value[1] == CalculateLeg([x, y][1], f, settlements, status).value;
    }
  }

  lemma TotalOfTwo(x: LegTotals, y: LegTotals)
    requires 0 <= x.costBasis && 0 <= x.fees && 0 <= x.payout && 0 <= y.costBasis && 0 <= y.fees && 0 <= y.payout
    ensures Total([x, y]).Ok? <==>
              && x.payout + y.payout <= MAX_FIXED_UNITS
              && AmountsFit(x.payout + y.payout, x.costBasis + y.costBasis, x.fees + y.fees)
  {
    TwoLegSums([x, y]);
  }

  /** With valid evidence, the reduction succeeds exactly when both legs add up and the totals fit. */
  lemma ReductionReady(
    input: TerminalInput, ctx: Context, f: seq<FixedFill>, settlements: seq<FixedSettlement>,
    a: TerminalLeg, b: TerminalLeg)
    requires forall x :: x in f ==> IsSoundFill(x)
    requires ctx.intent == input.intent && (ctx.legs == [a.leg, b.leg] || ctx.legs == [b.leg, a.leg])
    requires Net(f, a.leg.id) >= 0 && Net(f, b.leg.id) >= 0
    requires Settles(FindSettlement(settlements, a.leg.id), input, a, Net(f, a.leg.id))
    requires Settles(FindSettlement(settlements, b.leg.id), input, b, Net(f, b.leg.id))
    ensures Reduce(input.version, ctx, f, settlements).Ok? <==>
              LegAdds(input, f, a) && LegAdds(input, f, b) && TotalsFit(f, a, b)
  {
    if ctx.legs == [a.leg, b.leg] {
      ReductionInOrder(input, f, settlements, a, b);
    } else {
      ReductionInOrder(input, f, settlements, b, a);
    }
  }

  lemma ReductionInOrder(
    input: TerminalInput, f: seq<FixedFill>, settlements: seq<FixedSettlement>, a: TerminalLeg, b: TerminalLeg)
    requires forall x :: x in f ==> IsSoundFill(x)
    requires Net(f, a.leg.id) >= 0 && Net(f, b.leg.id) >= 0
    requires Settles(FindSettlement(settlements, a.leg.id), input, a, Net(f, a.leg.id))
    requires Settles(FindSettlement(settlements, b.leg.id), input, b, Net(f, b.leg.id))
    ensures var legs := CalculateLegs([a.leg, b.leg], f, settlements, input.intent.status);
            legs.Ok? && Total(legs.value).Ok? <==> LegAdds(input, f, a) && LegAdds(input, f, b) && TotalsFit(f, a, b)
  {
    LegAccepted(input, a, f, settlements);
    LegAccepted(input, b, f, settlements);
    CalculateTwo(a.leg, b.leg, f, settlements, input.intent.status);
    LegBounds(f, a);
    LegBounds(f, b);
    if LegAdds(input, f, a) && LegAdds(input, f, b) {
      TotalOfTwo(CalculateLeg(a.leg, f, settlements, input.intent.status).value,
                 CalculateLeg(b.leg, f, settlements, input.intent.status).value);
    }
  }

  lemma ReadyParts(input: TerminalInput, f: seq<FixedFill>, leg: TerminalLeg)
    ensures LegIsReady(input, f, leg) <==>
              && Net(f, leg.leg.id) >= 0
              && (Net(f, leg.leg.id) > 0 ==> SettlementIsDue(input, leg))
              && LegAdds(input, f, leg)
  {
    if IsTimestamp(input.settlementObservedAt, 0) {
      LastFillBefore(leg.leg.id, f, input.settlementObservedAt);
    }
  }

  /** A leg that bought more than is representable is rejected by the ledger. */
  lemma TooMuchBought(
    input: TerminalInput, ctx: Context, f: seq<FixedFill>, settlements: seq<FixedSettlement>, leg: Leg)
    requires leg in ctx.legs && |ctx.legs| == 2 && Bought(f, leg.id) > MAX_FIXED_UNITS
    ensures Reduce(input.version, ctx, f, settlements).Err?
  {
    CalculateTwo(ctx.legs[0], ctx.legs[1], f, settlements, ctx.intent.status);
    assert ctx.legs == [ctx.legs[0], ctx.legs[1]];
  }

  lemma ContextIgnoresSettlements(input: TerminalInput, s: seq<Settlement>)
    ensures ValidateContext(LedgerInputOf(input, s)) == ValidateContext(LedgerInputOf(input, []))
  {
  }

  lemma BuildsMeansSound(input: TerminalInput)
    requires BuildTerminal(input).Ok?
    ensures IsSound(input)
  {
    var s := AllSettlements(input, input.legs).value;
    ContextIgnoresSettlements(input, s);
  }

  lemma BuildsAsLedger(input: TerminalInput)
    requires IsSound(input)
    ensures var s := AllSettlements(input, input.legs);
            var ctx, f := ContextOf(input), FixedFillsOf(input);
            BuildTerminal(input).Ok? <==>
              && s.Ok? && ValidSettlements(ctx, s.value).Ok?
              && Reduce(input.version, ctx, f, ValidSettlements(ctx, s.value).value).Ok?
  {
    HeadFacts(input);
    var s := AllSettlements(input, input.legs);
    if s.Ok? {
      ContextIgnoresSettlements(input, s.value);
    }
  }

  /** What is known of the two legs once intent and legs are valid. */
  predicate LegsAreKnown(input: TerminalInput, ctx: Context, a: TerminalLeg, b: TerminalLeg) {
    && input.legs == [a, b]
    && ctx.intent == input.intent && ctx.capturedAt == input.capturedAt && IsCanonicalText(input.intent.id)
    && (ctx.legs == [a.leg, b.leg] || ctx.legs == [b.leg, a.leg])
    && LegIsKnown(ctx, a) && LegIsKnown(ctx, b) && a.leg.id != b.leg.id
  }

  lemma SoundLegs(input: TerminalInput)
    requires IsSound(input)
    ensures LegsAreKnown(input, ContextOf(input), input.legs[0], input.legs[1])
  {
    HeadFacts(input);
    ContextKnowsLegs(input, ContextOf(input));
  }

  lemma ContextKnowsLegs(input: TerminalInput, ctx: Context)
    requires |input.legs| == 2 && IsCanonicalText(input.intent.id)
    requires ctx.intent == input.intent && ctx.capturedAt == input.capturedAt
    requires ValidLegs(input.intent, Map(LegOf, input.legs)) == Ok(ctx.legs)
    ensures LegsAreKnown(input, ctx, input.legs[0], input.legs[1])
  {
    var a, b := input.legs[0], input.legs[1];
    assert Map(LegOf, input.legs) == [a.leg, b.leg];
    assert input.legs == [a, b];
    LegFacts(input.intent, a.leg, b.leg);
  }

  lemma BothSettleNet(input: TerminalInput, f: seq<FixedFill>, a: TerminalLeg, b: TerminalLeg)
    requires input.legs == [a, b]
    ensures AllSettleNet(input, f) <==>
              SettlesNet(input.fills, f, a.leg.id) && SettlesNet(input.fills, f, b.leg.id)
  {
    assert a in input.legs && b in input.legs;
  }

  lemma SoundBuilds(input: TerminalInput)
    requires IsSound(input)
    ensures BuildTerminal(input).Ok? <==> IsReady(input) && SettlesExactly(input)
  {
    SoundLegs(input);
    ValidFillsAreSound(ContextOf(input), input.fills);
    BuildsAsLedger(input);
    SettledCase(input, ContextOf(input), FixedFillsOf(input), input.legs[0], input.legs[1]);
  }

  lemma SettledCase(input: TerminalInput, ctx: Context, f: seq<FixedFill>, a: TerminalLeg, b: TerminalLeg)
    requires LegsAreKnown(input, ctx, a, b) && forall x :: x in f ==> IsSoundFill(x)
    ensures var s := AllSettlements(input, input.legs);
            (&& s.Ok? && ValidSettlements(ctx, s.value).Ok?
             && Reduce(input.version, ctx, f, ValidSettlements(ctx, s.value).value).Ok?)
            <==> && LegIsReady(input, f, a) && LegIsReady(input, f, b) && TotalsFit(f, a, b)
                 && AllSettleNet(input, f)
  {
    BothSettleNet(input, f, a, b);
    AllSettlementsOf(input, a, b);
    ReadyParts(input, f, a);
    ReadyParts(input, f, b);
    if IsSettleable(input, a) && IsSettleable(input, b) {
      var m, n := SettledUnits(input.fills, a.leg.id).value, SettledUnits(input.fills, b.leg.id).value;
      if m == Net(f, a.leg.id) && n == Net(f, b.leg.id) {
        SoundBuildsCase(input, ctx, f, a, b);
      } else {
        OffIsRefused(input, ctx, f, a, b, m, n);
      }
    }
  }

  lemma AllSettlementsOf(input: TerminalInput, a: TerminalLeg, b: TerminalLeg)
    requires input.legs == [a, b]
    ensures var s := AllSettlements(input, input.legs);
            && (s.Ok? <==> IsSettleable(input, a) && IsSettleable(input, b))
            && (s.Ok? ==> s.value == Part(input, a, SettledUnits(input.fills, a.leg.id).value)
                                     + Part(input, b, SettledUnits(input.fills, b.leg.id).value))
  {
    SettlementsOf(input, a);
    SettlementsOf(input, b);
    assert input.legs[1..] == [b] && [b][1..] == [];
    assert AllSettlements(input, []) == Ok([]);
    assert AllSettlements(input, [b]).Ok? <==> IsSettleable(input, b);
  }

  /** The ledger accepts a leg only if what is settled is what is left. */
  lemma AcceptedIsNet(
    input: TerminalInput, leg: TerminalLeg, f: seq<FixedFill>, settlements: seq<FixedSettlement>, settled: nat)
    requires CalculateLeg(leg.leg, f, settlements, input.intent.status).Ok?
    requires Settles(FindSettlement(settlements, leg.leg.id), input, leg, settled)
    ensures settled == Net(f, leg.leg.id)
  {
  }

  lemma BothLegsAccepted(
    ctx: Context, f: seq<FixedFill>, settlements: seq<FixedSettlement>, version: int, x: Leg, y: Leg)
    requires ctx.legs == [x, y] || ctx.legs == [y, x]
    requires Reduce(version, ctx, f, settlements).Ok?
    ensures CalculateLeg(x, f, settlements, ctx.intent.status).Ok?
    ensures CalculateLeg(y, f, settlements, ctx.intent.status).Ok?
  {
    CalculateTwo(x, y, f, settlements, ctx.intent.status);
    CalculateTwo(y, x, f, settlements, ctx.intent.status);
  }

  lemma TooMuchSettled(ctx: Context, input: TerminalInput, leg: TerminalLeg, settled: nat)
    requires settled > MAX_FIXED_UNITS
    ensures !SettlementTest(ctx)(SettlementOf(input, leg, settled))
  {
  }

  lemma PartsAreBounded(input: TerminalInput, ctx: Context, a: TerminalLeg, b: TerminalLeg, m: nat, n: nat)
    requires ctx.intent == input.intent && a.leg.id != b.leg.id
    requires ValidSettlements(ctx, Part(input, a, m) + Part(input, b, n)).Ok?
    ensures m <= MAX_FIXED_UNITS && n <= MAX_FIXED_UNITS
  {
    var x, y := SettlementOf(input, a, m), SettlementOf(input, b, n);
    if x.id == y.id {
      SettlementIdsDiffer(input.intent, input.version, a.leg.id, b.leg.id);
    }
    assert Part(input, a, m) + Part(input, b, n) == UpToTwo(x, y, m > 0, n > 0);
    TwoValid(ctx, x, y, m > 0, n > 0);
    if m > MAX_FIXED_UNITS {
      TooMuchSettled(ctx, input, a, m);
    }
    if n > MAX_FIXED_UNITS {
      TooMuchSettled(ctx, input, b, n);
    }
  }

  /** Settling anything else than what is left is refused by the ledger. */
  lemma OffIsRefused(
    input: TerminalInput, ctx: Context, f: seq<FixedFill>, a: TerminalLeg, b: TerminalLeg, m: nat, n: nat)
    requires LegsAreKnown(input, ctx, a, b)
    requires (m > 0 ==> a.resolvedOutcome.Some?) && (n > 0 ==> b.resolvedOutcome.Some?)
    requires m != Net(f, a.leg.id) || n != Net(f, b.leg.id)
    ensures var valid := ValidSettlements(ctx, Part(input, a, m) + Part(input, b, n));
            valid.Ok? ==> Reduce(input.version, ctx, f, valid.value).Err?
  {
    var valid := ValidSettlements(ctx, Part(input, a, m) + Part(input, b, n));
    if valid.Ok? && Reduce(input.version, ctx, f, valid.value).Ok? {
      PartsAreBounded(input, ctx, a, b, m, n);
      PartsValid(input, ctx, a, b, m, n);
      BothLegsAccepted(ctx, f, valid.value, input.version, a.leg, b.leg);
      AcceptedIsNet(input, a, f, valid.value, m);
      AcceptedIsNet(input, b, f, valid.value, n);
      assert false;
    }
  }

  predicate IsPayable(f: seq<FixedFill>, leg: TerminalLeg) {
    Net(f, leg.leg.id) >= 0 && (Net(f, leg.leg.id) > 0 ==> leg.resolvedOutcome.Some?)
  }

  lemma SoundBuildsCase(input: TerminalInput, ctx: Context, f: seq<FixedFill>, a: TerminalLeg, b: TerminalLeg)
    requires forall x :: x in f ==> IsSoundFill(x)
    requires ctx.intent == input.intent && ctx.capturedAt == input.capturedAt && IsCanonicalText(input.intent.id)
    requires ctx.legs == [a.leg, b.leg] || ctx.legs == [b.leg, a.leg]
    requires LegIsKnown(ctx, a) && LegIsKnown(ctx, b) && a.leg.id != b.leg.id
    requires IsPayable(f, a) && IsPayable(f, b)
    ensures var valid := ValidSettlements(ctx, Part(input, a, Net(f, a.leg.id)) + Part(input, b, Net(f, b.leg.id)));
            valid.Ok? && Reduce(input.version, ctx, f, valid.value).Ok? <==>
              && (Net(f, a.leg.id) > 0 ==> SettlementIsDue(input, a)) && LegAdds(input, f, a)
              && (Net(f, b.leg.id) > 0 ==> SettlementIsDue(input, b)) && LegAdds(input, f, b)
              && TotalsFit(f, a, b)
  {
    var m, n := Net(f, a.leg.id), Net(f, b.leg.id);
    var valid := ValidSettlements(ctx, Part(input, a, m) + Part(input, b, n));
    LegBounds(f, a);
    LegBounds(f, b);
    if Bought(f, a.leg.id) > MAX_FIXED_UNITS {
      if valid.Ok? {
        TooMuchBought(input, ctx, f, valid.value, a.leg);
      }
    } else if Bought(f, b.leg.id) > MAX_FIXED_UNITS {
      if valid.Ok? {
        TooMuchBought(input, ctx, f, valid.value, b.leg);
      }
    } else {
      PartsValid(input, ctx, a, b, m, n);
      if valid.Ok? {
        ReductionReady(input, ctx, f, valid.value, a, b);
      }
    }
  }

  /** The producer meets its consumer: a projection is built exactly when intent, legs and fills are
      valid on their own, no residual is negative, required BUYs and resolutions exist, times are
      ordered, the amounts are representable, and what is settled on each leg, after scaling each size
      and printing the residual, is what the ledger finds left on it. */
  lemma ProducerMeetsConsumer(input: TerminalInput)
    ensures BuildTerminal(input).Ok? <==> IsSound(input) && IsReady(input) && SettlesExactly(input)
    ensures BuildTerminal(input).Ok? ==> IsConservative(BuildTerminal(input).value)
  {
    if BuildTerminal(input).Ok? {
      BuildsMeansSound(input);
      LedgerConserves(LedgerInputOf(input, AllSettlements(input, input.legs).value));
    }
    if IsSound(input) {
      SoundBuilds(input);
    }
  }

  /** The sizes are up to 128.00000001 contracts or doubles exactly, as whole numbers are, and no more
      than 67108864.00000001 contracts are left on a leg. */
  predicate HasOrdinarySizes(input: TerminalInput)
    requires IsSound(input)
  {
    var f := FixedFillsOf(input);
    && (forall x :: x in f ==> SizeIsOrdinary(x))
    && forall leg :: leg in input.legs ==> Net(f, leg.leg.id) <= SizeUnits.FINE + 1
  }

  /** On ordinary sizes the last condition falls away. */
  lemma OrdinaryProducerMeetsConsumer(input: TerminalInput)
    requires IsSound(input) && HasOrdinarySizes(input)
    ensures BuildTerminal(input).Ok? <==> IsReady(input)
  {
    ProducerMeetsConsumer(input);
    if IsReady(input) {
      OrdinarySettlesNet(ContextOf(input), input.fills, input.legs[0].leg.id);
      OrdinarySettlesNet(ContextOf(input), input.fills, input.legs[1].leg.id);
      BothSettleNet(input, FixedFillsOf(input), input.legs[0], input.legs[1]);
    }
  }

  // ----- an ordinary size on which the producer throws

  /** 319.4 */
  const ORDINARY: Number := Decimal(false, [3, 1, 9], [4], 0)

  lemma OrdinarySizeIsRefused()
    ensures FixedUnits(ORDINARY) == Ok(31_940_000_000)
    ensures ToFixedUnits(ORDINARY) == None
  {
    var ds: seq<Digit> := [3, 1, 9, 4];
    assert [3, 1, 9] + [4] == ds;
    assert ds[..3] == [3, 1, 9] && ds[..3][..2] == [3, 1] && ds[..3][..2][..1] == [3] && ds[..3][..2][..1][..0] == [];
    assert ValueOf([]) == 0 && ValueOf([3]) == 3 && ValueOf([3, 1]) == 31 && ValueOf([3, 1, 9]) == 319;
    assert ValueOf(ds) == 3194;
    UnitsScale(ORDINARY, 31_940_000_000);
    SizeUnits.OrdinaryIsRefused();
  }

  lemma {:induction false} UnreadFill(fills: seq<Fill>, fill: Fill)
    requires fill in fills && ToFixedUnits(fill.size).None?
    ensures ResidualUnits(fills, fill.place.legId).None?
  {
    if fills[|fills| - 1] != fill {
      var i :| 0 <= i < |fills| && fills[i] == fill;
      assert fills[..|fills| - 1][i] == fill;
      UnreadFill(fills[..|fills| - 1], fill);
    }
  }

  lemma {:induction false} UnsettledLeg(input: TerminalInput, legs: seq<TerminalLeg>, leg: TerminalLeg)
    requires leg in legs && LegSettlements(input, leg).Err?
    ensures AllSettlements(input, legs).Err?
  {
    if legs[0] != leg {
      UnsettledLeg(input, legs[1..], leg);
    }
  }

  /** So with one fill of 319.4 on a leg nothing is built, however valid and ready the input is. */
  lemma OrdinaryFillIsRefused(input: TerminalInput, leg: TerminalLeg, fill: Fill)
    requires leg in input.legs && fill in input.fills && fill.place.legId == leg.leg.id && fill.size == ORDINARY
    ensures BuildTerminal(input).Err?
  {
    OrdinarySizeIsRefused();
    UnreadFill(input.fills, fill);
    UnsettledLeg(input, input.legs, leg);
  }

  lemma CoarseIsSettledOff(ctx: Context, fills: seq<Fill>, legId: Text)
    requires ValidFills(ctx, fills).Ok?
    requires forall f :: f in ValidFills(ctx, fills).value ==> SizeIsOrdinary(f)
    requires Net(ValidFills(ctx, fills).value, legId) == SizeUnits.FINE + 2
    ensures SettledUnits(fills, legId) == Some(SizeUnits.FINE + 1)
  {
    ResidualOf(ctx, fills, legId);
    SizeUnits.CoarseIsPrintedOff();
  }

  lemma UnsettledIsRefused(input: TerminalInput, leg: TerminalLeg)
    requires IsSound(input) && leg in input.legs && !SettlesNet(input.fills, FixedFillsOf(input), leg.leg.id)
    ensures BuildTerminal(input).Err?
  {
    assert !AllSettleNet(input, FixedFillsOf(input));
    ProducerMeetsConsumer(input);
  }

  /** A residual of 67108864.00000002, as fills of 67108864 and 0.00000002 leave it, is settled one unit
      short, and the ledger refuses it. */
  lemma CoarseResidualIsRefused(input: TerminalInput, leg: TerminalLeg)
    requires IsSound(input) && leg in input.legs && Net(FixedFillsOf(input), leg.leg.id) == SizeUnits.FINE + 2
    requires forall x :: x in FixedFillsOf(input) ==> SizeIsOrdinary(x)
    ensures SettledUnits(input.fills, leg.leg.id) == Some(SizeUnits.FINE + 1)
    ensures BuildTerminal(input).Err?
  {
    CoarseIsSettledOff(ContextOf(input), input.fills, leg.leg.id);
    UnsettledIsRefused(input, leg);
  }
}

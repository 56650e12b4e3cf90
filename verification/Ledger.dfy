/** The accounting ledger: final fills and settlements of one intent reduced to a canonical
    proof. Amounts are in units of 1e-8. */
module Ledger {
  import opened Prelude
  import opened Sequences
  import opened FixedPoint

  // ----- evidence

  datatype Resolution = UP | DOWN | YES | NO
  datatype Combination = PolyUpKalshiNo | PolyDownKalshiYes
  datatype Status = Settled | Unwound | NotTerminal
  datatype Finality = Final | NonFinal | AmbiguousFinality
  datatype Completeness = Complete | Partial | AmbiguousEvidence

  datatype Intent = Intent(
    id: Text, asset: Asset, shadow: bool, slotKey: Text, slotStartTs: int, slotEndTs: int,
    combination: Combination, status: Status, primaryVenue: Venue, hedgeVenue: Venue,
    resolvedAt: Option<int>)

  datatype Leg = Leg(
    id: Text, intentId: Text, venue: Venue, outcome: Resolution, marketRef: Text, tokenId: Option<Text>)

  /** What a fill or a settlement says about where it belongs. */
  datatype Place = Place(
    asset: Asset, shadow: bool, intentId: Text, legId: Text, venue: Venue, marketRef: Text,
    tokenId: Option<Text>, outcome: Resolution)

  datatype Fill = Fill(
    id: Text, place: Place, venueOrderId: Text, tradeId: Text, side: Side, filledAt: int,
    finality: Finality, price: Number, size: Number, feeUsd: Number)

  datatype Settlement = Settlement(
    id: Text, place: Place, resolvedOutcome: Option<Resolution>, settledAt: int,
    finality: Finality, settledSize: Number, payoutUsd: Number, feeUsd: Number)

  datatype LedgerInput = LedgerInput(
    version: int, capturedAt: int, completeness: Completeness, intent: Intent,
    legs: seq<Leg>, fills: seq<Fill>, settlements: seq<Settlement>)

  datatype FixedFill = FixedFill(evidence: Fill, price: nat, size: nat, gross: int, fee: nat)
  datatype FixedSettlement = FixedSettlement(evidence: Settlement, settledSize: nat, payout: nat, fee: nat)

  // ----- what it is reduced to

  datatype LegTotals = LegTotals(
    leg: Leg, boughtSize: int, soldSize: int, settledSize: int, costBasis: int, payout: int,
    fees: int, realizedPnl: int, roi: Option<int>)

  datatype ExactAmounts = ExactAmounts(
    costBasisUsd: Text, payoutUsd: Text, feesUsd: Text, realizedPnlUsd: Text, roi: Option<Text>)

  datatype CanonicalFill = CanonicalFill(
    id: Text, place: Place, venueOrderId: Text, tradeId: Text, side: Side, price: Text, size: Text,
    grossUsd: Text, feeUsd: Text, filledAt: int)

  datatype CanonicalSettlement = CanonicalSettlement(
    id: Text, place: Place, resolvedOutcome: Option<Resolution>, settledSize: Text, payoutUsd: Text,
    feeUsd: Text, settledAt: int)

  datatype CanonicalLegTotals = CanonicalLegTotals(
    legId: Text, venue: Venue, outcome: Resolution, boughtSize: Text, soldSize: Text,
    settledSize: Text, amounts: ExactAmounts)

  datatype Proof = Proof(
    version: int, capturedAt: int, intent: Intent, legs: seq<Leg>, fills: seq<CanonicalFill>,
    settlements: seq<CanonicalSettlement>, legTotals: seq<CanonicalLegTotals>, totals: ExactAmounts)

  /** The part of a proof that outlives its version and capture time. */
  datatype Evidence = Evidence(
    intent: Intent, legs: seq<Leg>, fills: seq<CanonicalFill>, settlements: seq<CanonicalSettlement>,
    legTotals: seq<CanonicalLegTotals>, totals: ExactAmounts)

  datatype Projection = Projection(
    version: int, intentId: Text, capturedAt: int, costBasis: int, payout: int, fees: int,
    realizedPnl: int, roi: Option<int>, legs: seq<LegTotals>, evidence: Evidence, proof: Proof)

  // ----- checks of single records

  predicate IsOptionalId(id: Option<Text>) {
    id.None? || IsCanonicalText(id.value)
  }

  predicate IsTimestamp(t: int, least: int) {
    IsSafeInteger(t) && t >= least
  }

  function ToFixed(n: Number, least: nat, most: int, tooMuch: LedgerError): (r: Checked<nat>)
    ensures r.Ok? ==> n.Decimal? && FixedUnits(n) == Ok(r.value) && least <= r.value <= most
  {
    if n.NotFinite? then Err(InvalidNumber)
    else
      match FixedUnits(n)
      case Err(error) => Err(error)
      case Ok(fixed) =>
        if fixed < least then Err(OutOfDomain) else if fixed > most then Err(tooMuch) else Ok(fixed)
  }

  function ExpectedOutcome(combination: Combination, venue: Venue): Resolution {
    match (combination, venue)
    case (PolyUpKalshiNo, Polymarket) => UP
    case (PolyUpKalshiNo, Kalshi) => NO
    case (PolyDownKalshiYes, Polymarket) => DOWN
    case (PolyDownKalshiYes, Kalshi) => YES
  }

  predicate IsVenueOutcome(venue: Venue, outcome: Resolution) {
    if venue.Polymarket? then outcome.UP? || outcome.DOWN? else outcome.YES? || outcome.NO?
  }

  function ValidateIntent(intent: Intent, capturedAt: int): Checked<Intent> {
    if !IsCanonicalText(intent.id) || !IsCanonicalText(intent.slotKey) then Err(InvalidIntent)
    else if !IsTimestamp(intent.slotStartTs, 0) || !IsTimestamp(intent.slotEndTs, 1) then Err(InvalidIntent)
    else if intent.slotEndTs <= intent.slotStartTs then Err(InvalidIntent)
    else if intent.status.NotTerminal? then Err(InvalidIntent)
    else if intent.resolvedAt.None? || !IsTimestamp(intent.resolvedAt.value, 0) then Err(InvalidIntent)
    else if !(intent.slotStartTs <= intent.resolvedAt.value <= capturedAt) then Err(InvalidIntent)
    else if intent.primaryVenue == intent.hedgeVenue then Err(InvalidIntent)
    else Ok(intent)
  }

  function LegId(leg: Leg): Text { leg.id }
  function LegVenue(leg: Leg): Venue { leg.venue }

  function CheckLeg(leg: Leg, earlier: seq<Leg>, intent: Intent): Checked<Leg> {
    if !IsCanonicalText(leg.id) then Err(InvalidLeg)
    else if leg.id in Map(LegId, earlier) then Err(InvalidLeg)
    else if leg.intentId != intent.id then Err(IncoherentIdentity)
    else if leg.venue in Map(LegVenue, earlier) then Err(InvalidLeg)
    else if !IsCanonicalText(leg.marketRef) || !IsOptionalId(leg.tokenId) then Err(InvalidLeg)
    else if leg.venue.Polymarket? && leg.tokenId.None? then Err(InvalidLeg)
    else if !IsVenueOutcome(leg.venue, leg.outcome) then Err(IncoherentIdentity)
    else Ok(leg)
  }

  datatype Context = Context(intent: Intent, legs: seq<Leg>, capturedAt: int)

  function FindLeg(legs: seq<Leg>, id: Text): (r: Option<Leg>)
    ensures r.Some? ==> r.value in legs && r.value.id == id
    ensures r.None? ==> forall leg :: leg in legs ==> leg.id != id
  {
    if legs == [] then None else if legs[0].id == id then Some(legs[0]) else FindLeg(legs[1..], id)
  }

  predicate BelongsTo(place: Place, leg: Leg, intent: Intent) {
    && place.asset == intent.asset && place.shadow == intent.shadow && place.intentId == intent.id
    && place.legId == leg.id && place.venue == leg.venue && place.marketRef == leg.marketRef
    && place.tokenId == leg.tokenId && place.outcome == leg.outcome
  }

  function CheckPlace(place: Place, ctx: Context): Checked<Leg> {
    match FindLeg(ctx.legs, place.legId)
    case None => Err(IncoherentIdentity)
    case Some(leg) =>
      if !IsOptionalId(place.tokenId) then Err(IncoherentIdentity)
      else if !IsOptionalId(leg.tokenId) then Err(InvalidLeg)
      else if !BelongsTo(place, leg, ctx.intent) then Err(IncoherentIdentity)
      else Ok(leg)
  }

  function FillId(fill: Fill): Text { fill.id }

  const NUL: Text := [0]

  function TradeKey(fill: Fill): Text {
    VenueName(fill.place.venue) + NUL + fill.venueOrderId + NUL + fill.tradeId
  }

  /** The checks of one fill that do not look at the others. */
  function FixFill(fill: Fill, ctx: Context): Checked<FixedFill> {
    var place := CheckPlace(fill.place, ctx);
    var price := ToFixed(fill.price, 1, SCALE, OutOfDomain);
    var size := ToFixed(fill.size, 1, MAX_FIXED_UNITS, Overflow);
    var fee := ToFixed(fill.feeUsd, 0, MAX_FIXED_UNITS, Overflow);
    if place.Err? then Err(place.error)
    else if !IsTimestamp(fill.filledAt, 0) then Err(InvalidNumber)
    else if fill.filledAt > ctx.capturedAt then Err(IncoherentIdentity)
    else if price.Err? then Err(price.error)
    else if size.Err? then Err(size.error)
    else if fee.Err? then Err(fee.error)
    else
      match MultiplyFixed(price.value, size.value)
      case Err(error) => Err(error)
      case Ok(gross) => Ok(FixedFill(fill, price.value, size.value, gross, fee.value))
  }

  function CheckFill(fill: Fill, earlier: seq<Fill>, ctx: Context): Checked<FixedFill> {
    if !IsCanonicalText(fill.id) then Err(IncoherentIdentity)
    else if !fill.finality.Final? then Err(NonFinalEvidence)
    else if fill.id in Map(FillId, earlier) then Err(DuplicateEvidence)
    else if !IsCanonicalText(fill.venueOrderId) || !IsCanonicalText(fill.tradeId) then Err(IncoherentIdentity)
    else if TradeKey(fill) in Map(TradeKey, earlier) then Err(DuplicateEvidence)
    else FixFill(fill, ctx)
  }

  function SettlementId(settlement: Settlement): Text { settlement.id }
  function SettlementLeg(settlement: Settlement): Text { settlement.place.legId }

  function FixSettlement(settlement: Settlement, ctx: Context): Checked<FixedSettlement> {
    var place := CheckPlace(settlement.place, ctx);
    var settledSize := ToFixed(settlement.settledSize, 1, MAX_FIXED_UNITS, Overflow);
    var payout := ToFixed(settlement.payoutUsd, 0, MAX_FIXED_UNITS, Overflow);
    var fee := ToFixed(settlement.feeUsd, 0, MAX_FIXED_UNITS, Overflow);
    if place.Err? then Err(place.error)
    else if settlement.resolvedOutcome.None? then Err(NonFinalEvidence)
    else if !IsVenueOutcome(settlement.place.venue, settlement.resolvedOutcome.value) then Err(IncoherentIdentity)
    else if !IsTimestamp(settlement.settledAt, 0) then Err(InvalidNumber)
    else if settlement.settledAt > ctx.capturedAt then Err(IncoherentIdentity)
    else if settledSize.Err? then Err(settledSize.error)
    else if payout.Err? then Err(payout.error)
    else if fee.Err? then Err(fee.error)
    else
      var won := settlement.place.outcome == settlement.resolvedOutcome.value;
      if payout.value != (if won then settledSize.value else 0) then Err(SettlementMismatch)
      else Ok(FixedSettlement(settlement, settledSize.value, payout.value, fee.value))
  }

  function CheckSettlement(settlement: Settlement, earlier: seq<Settlement>, ctx: Context): Checked<FixedSettlement> {
    if !IsCanonicalText(settlement.id) then Err(IncoherentIdentity)
    else if !settlement.finality.Final? then Err(NonFinalEvidence)
    else if settlement.id in Map(SettlementId, earlier) then Err(DuplicateEvidence)
    else if settlement.place.legId in Map(SettlementLeg, earlier) then Err(DuplicateEvidence)
    else FixSettlement(settlement, ctx)
  }

  // ----- checking a list, each record against those before it

  function CheckAll<S, T>(check: (S, seq<S>) -> Checked<T>, items: seq<S>): (r: Checked<seq<T>>)
    ensures r.Ok? ==> |r.value| == |items|
  {
    if items == [] then Ok([])
    else
      var init := items[..|items| - 1];
      match CheckAll(check, init)
      case Err(error) => Err(error)
      case Ok(fixed) =>
        match check(items[|items| - 1], init)
        case Err(error) => Err(error)
        case Ok(last) => Ok(fixed + [last])
  }

  lemma {:induction false} CheckAllFails<S, T>(check: (S, seq<S>) -> Checked<T>, items: seq<S>, n: nat)
    requires n <= |items| && CheckAll(check, items[..n]).Err?
    ensures CheckAll(check, items) == Err(CheckAll(check, items[..n]).error)
  {
    if n == |items| {
      assert items[..n] == items;
    } else {
      assert items[..|items| - 1][..n] == items[..n];
      CheckAllFails(check, items[..|items| - 1], n);
    }
  }

  // ----- canonical orders; venue and outcome ranks follow their names' alphabetical order

  function VenueRank(venue: Venue): int {
    if venue.Kalshi? then 0 else 1
  }

  function OutcomeRank(outcome: Resolution): int {
    match outcome case DOWN => 0 case NO => 1 case UP => 2 case YES => 3
  }

  function LegKey(leg: Leg): seq<KeyPart> {
    [Rank(VenueRank(leg.venue)), Name(leg.id)]
  }

  predicate LegLeq(a: Leg, b: Leg) {
    KeyLeq(LegKey(a), LegKey(b))
  }

  function FillKey(fill: FixedFill): seq<KeyPart> {
    var e := fill.evidence;
    [Rank(VenueRank(e.place.venue)), Name(e.place.marketRef), Rank(OutcomeRank(e.place.outcome)),
     Rank(e.filledAt), Name(e.venueOrderId), Name(e.tradeId), Name(e.id)]
  }

  predicate FillLeq(a: FixedFill, b: FixedFill) {
    KeyLeq(FillKey(a), FillKey(b))
  }

  function SettlementKey(settlement: FixedSettlement): seq<KeyPart> {
    var e := settlement.evidence;
    [Rank(VenueRank(e.place.venue)), Name(e.place.marketRef), Rank(OutcomeRank(e.place.outcome)),
     Rank(e.settledAt), Name(e.id)]
  }

  predicate SettlementLeq(a: FixedSettlement, b: FixedSettlement) {
    KeyLeq(SettlementKey(a), SettlementKey(b))
  }

  // ----- the three validations

  function LegCheck(intent: Intent): (Leg, seq<Leg>) -> Checked<Leg> {
    (leg, earlier) => CheckLeg(leg, earlier, intent)
  }

  function FillCheck(ctx: Context): (Fill, seq<Fill>) -> Checked<FixedFill> {
    (fill, earlier) => CheckFill(fill, earlier, ctx)
  }

  function SettlementCheck(ctx: Context): (Settlement, seq<Settlement>) -> Checked<FixedSettlement> {
    (settlement, earlier) => CheckSettlement(settlement, earlier, ctx)
  }

  function ValidLegs(intent: Intent, legs: seq<Leg>): Checked<seq<Leg>> {
    if |legs| != 2 then Err(MissingLeg)
    else
      match CheckAll(LegCheck(intent), legs)
      case Err(error) => Err(error)
      case Ok(checked) =>
        if exists leg :: leg in checked && leg.outcome != ExpectedOutcome(intent.combination, leg.venue)
        then Err(IncoherentIdentity)
        else Ok(SortBy(LegLeq, checked))
  }

  function ValidFills(ctx: Context, fills: seq<Fill>): Checked<seq<FixedFill>> {
    match CheckAll(FillCheck(ctx), fills)
    case Err(error) => Err(error)
    case Ok(fixed) => Ok(SortBy(FillLeq, fixed))
  }

  function ValidSettlements(ctx: Context, settlements: seq<Settlement>): Checked<seq<FixedSettlement>> {
    match CheckAll(SettlementCheck(ctx), settlements)
    case Err(error) => Err(error)
    case Ok(fixed) => Ok(SortBy(SettlementLeq, fixed))
  }

  // ----- one leg

  function SizeOn(legId: Text, side: Side): FixedFill -> int {
    (f: FixedFill) => if f.evidence.place.legId == legId && f.evidence.side == side then f.size else 0
  }

  function GrossOn(legId: Text, side: Side): FixedFill -> int {
    (f: FixedFill) => if f.evidence.place.legId == legId && f.evidence.side == side then f.gross else 0
  }

  function FeeOn(legId: Text): FixedFill -> int {
    (f: FixedFill) => if f.evidence.place.legId == legId then f.fee else 0
  }

  function FindSettlement(settlements: seq<FixedSettlement>, legId: Text): (r: Option<FixedSettlement>)
    ensures r.Some? ==> r.value in settlements && r.value.evidence.place.legId == legId
    ensures r.None? ==> forall s :: s in settlements ==> s.evidence.place.legId != legId
  {
    if settlements == [] then None
    else if settlements[0].evidence.place.legId == legId then Some(settlements[0])
    else FindSettlement(settlements[1..], legId)
  }

  function LastFillAt(legId: Text, fills: seq<FixedFill>): (latest: int)
    ensures latest >= 0
    ensures forall f :: f in fills && f.evidence.place.legId == legId ==> f.evidence.filledAt <= latest
  {
    if fills == [] then 0
    else
      var rest := LastFillAt(legId, fills[1..]);
      var head := fills[0].evidence;
      if head.place.legId == legId && head.filledAt > rest then head.filledAt else rest
  }

  function CalculateLeg(
    leg: Leg, fills: seq<FixedFill>, settlements: seq<FixedSettlement>, status: Status): Checked<LegTotals>
  {
    var boughtSize, soldSize := Sum(SizeOn(leg.id, BUY), fills), Sum(SizeOn(leg.id, SELL), fills);
    var settlement := FindSettlement(settlements, leg.id);
    var remainingSize := boughtSize - soldSize;
    if !IsFixed(boughtSize) || !IsFixed(soldSize) then Err(Overflow)
    else if status.Settled? && boughtSize == 0 then Err(IncompleteEvidence)
    else if soldSize > boughtSize then Err(NegativePosition)
    else if remainingSize > 0 && settlement.None? then Err(MissingSettlement)
    else if remainingSize == 0 && settlement.Some? then Err(UnexpectedSettlement)
    else if settlement.Some? && settlement.value.settledSize != remainingSize then Err(SettlementMismatch)
    else if settlement.Some? && settlement.value.evidence.settledAt < LastFillAt(leg.id, fills)
    then Err(SettlementMismatch)
    else
      var costBasis, saleProceeds := Sum(GrossOn(leg.id, BUY), fills), Sum(GrossOn(leg.id, SELL), fills);
      var payout := saleProceeds + if settlement.Some? then settlement.value.payout else 0;
      var fillFees := Sum(FeeOn(leg.id), fills);
      var fees := fillFees + if settlement.Some? then settlement.value.fee else 0;
      var realizedPnl := payout - costBasis - fees;
      if !IsFixed(costBasis) || !IsFixed(saleProceeds) || !IsFixed(payout) then Err(Overflow)
      else if !IsFixed(fillFees) || !IsFixed(fees) then Err(Overflow)
      else if !IsFixed(realizedPnl) || !IsFixed(costBasis + fees) then Err(Overflow)
      else
        match Roi(realizedPnl, costBasis + fees)
        case Err(error) => Err(error)
        case Ok(roi) =>
          Ok(LegTotals(leg, boughtSize, soldSize, if settlement.Some? then settlement.value.settledSize else 0,
                       costBasis, payout, fees, realizedPnl, roi))
  }

  function Roi(realizedPnl: int, basis: int): Checked<Option<int>> {
    if basis <= 0 then Ok(None)
    else
      match DivideFixed(realizedPnl, basis)
      case Err(error) => Err(error)
      case Ok(roi) => Ok(Some(roi))
  }

  function CalculateLegs(
    legs: seq<Leg>, fills: seq<FixedFill>, settlements: seq<FixedSettlement>, status: Status)
    : (r: Checked<seq<LegTotals>>)
    ensures r.Ok? ==> |r.value| == |legs|
    ensures r.Ok? ==>
              forall i :: 0 <= i < |legs| ==> CalculateLeg(legs[i], fills, settlements, status) == Ok(r.value[i])
  {
    if legs == [] then Ok([])
    else
      match CalculateLeg(legs[0], fills, settlements, status)
      case Err(error) => Err(error)
      case Ok(head) =>
        match CalculateLegs(legs[1..], fills, settlements, status)
        case Err(error) => Err(error)
        case Ok(tail) => Ok([head] + tail)
  }

  // ----- the ledger

  function CostOf(t: LegTotals): int { t.costBasis }
  function PayoutOf(t: LegTotals): int { t.payout }
  function FeesOf(t: LegTotals): int { t.fees }
  function PnlOf(t: LegTotals): int { t.realizedPnl }

  function Exact(costBasis: int, payout: int, fees: int, realizedPnl: int, roi: Option<int>): ExactAmounts {
    ExactAmounts(FormatFixed(costBasis), FormatFixed(payout), FormatFixed(fees), FormatFixed(realizedPnl),
                 if roi.Some? then Some(FormatFixed(roi.value)) else None)
  }

  function ToCanonicalFill(f: FixedFill): CanonicalFill {
    CanonicalFill(f.evidence.id, f.evidence.place, f.evidence.venueOrderId, f.evidence.tradeId, f.evidence.side,
                  FormatFixed(f.price), FormatFixed(f.size), FormatFixed(f.gross), FormatFixed(f.fee),
                  f.evidence.filledAt)
  }

  function ToCanonicalSettlement(s: FixedSettlement): CanonicalSettlement {
    CanonicalSettlement(s.evidence.id, s.evidence.place, s.evidence.resolvedOutcome, FormatFixed(s.settledSize),
                        FormatFixed(s.payout), FormatFixed(s.fee), s.evidence.settledAt)
  }

  function ToCanonicalTotals(t: LegTotals): CanonicalLegTotals {
    CanonicalLegTotals(t.leg.id, t.leg.venue, t.leg.outcome, FormatFixed(t.boughtSize), FormatFixed(t.soldSize),
                       FormatFixed(t.settledSize), Exact(t.costBasis, t.payout, t.fees, t.realizedPnl, t.roi))
  }

  function EvidenceOf(proof: Proof): Evidence {
    Evidence(proof.intent.(status := NotTerminal, resolvedAt := None), proof.legs, proof.fills,
             proof.settlements, proof.legTotals, proof.totals)
  }

  datatype ValidEvidence = ValidEvidence(
    ctx: Context, fills: seq<FixedFill>, settlements: seq<FixedSettlement>)

  function ValidateHead(version: int, capturedAt: int, completeness: Completeness, intent: Intent): Checked<Intent> {
    if !IsTimestamp(version, 1) then Err(InvalidVersion)
    else if !IsTimestamp(capturedAt, 0) then Err(InvalidIntent)
    else if !completeness.Complete? then Err(IncompleteEvidence)
    else ValidateIntent(intent, capturedAt)
  }

  function ValidateContext(input: LedgerInput): Checked<Context> {
    match ValidateHead(input.version, input.capturedAt, input.completeness, input.intent)
    case Err(error) => Err(error)
    case Ok(intent) =>
      match ValidLegs(intent, input.legs)
      case Err(error) => Err(error)
      case Ok(legs) =>
        if input.fills == [] then Err(IncompleteEvidence) else Ok(Context(intent, legs, input.capturedAt))
  }

  function ValidateEvidence(ctx: Context, input: LedgerInput): Checked<ValidEvidence> {
    match ValidFills(ctx, input.fills)
    case Err(error) => Err(error)
    case Ok(fills) =>
      match ValidSettlements(ctx, input.settlements)
      case Err(error) => Err(error)
      case Ok(settlements) => Ok(ValidEvidence(ctx, fills, settlements))
  }

  /** Everything that calculateAccountingLedger checks before it adds up. */
  function Validate(input: LedgerInput): Checked<ValidEvidence> {
    match ValidateContext(input)
    case Err(error) => Err(error)
    case Ok(ctx) => ValidateEvidence(ctx, input)
  }

  /** calculateAccountingLedger */
  function CalculateLedger(input: LedgerInput): Checked<Projection> {
    match Validate(input)
    case Err(error) => Err(error)
    case Ok(valid) => Reduce(input.version, valid.ctx, valid.fills, valid.settlements)
  }

  datatype Totals = Totals(costBasis: int, payout: int, fees: int, realizedPnl: int, roi: Option<int>)

  function Total(legs: seq<LegTotals>): Checked<Totals> {
    var costBasis, payout, fees := Sum(CostOf, legs), Sum(PayoutOf, legs), Sum(FeesOf, legs);
    var realizedPnl := payout - costBasis - fees;
    if !IsFixed(costBasis) || !IsFixed(payout) || !IsFixed(fees) then Err(Overflow)
    else if !IsFixed(realizedPnl) || !IsFixed(costBasis + fees) then Err(Overflow)
    else
      match Roi(realizedPnl, costBasis + fees)
      case Err(error) => Err(error)
      case Ok(roi) => Ok(Totals(costBasis, payout, fees, realizedPnl, roi))
  }

  function Project(
    version: int, ctx: Context, fills: seq<FixedFill>, settlements: seq<FixedSettlement>, legs: seq<LegTotals>,
    t: Totals): Projection
  {
    var proof := Proof(version, ctx.capturedAt, ctx.intent, ctx.legs, Map(ToCanonicalFill, fills),
                       Map(ToCanonicalSettlement, settlements), Map(ToCanonicalTotals, legs),
                       Exact(t.costBasis, t.payout, t.fees, t.realizedPnl, t.roi));
    Projection(version, ctx.intent.id, ctx.capturedAt, t.costBasis, t.payout, t.fees, t.realizedPnl, t.roi, legs,
               EvidenceOf(proof), proof)
  }

  /** The reduction of validated evidence. */
  function Reduce(
    version: int, ctx: Context, fills: seq<FixedFill>, settlements: seq<FixedSettlement>): Checked<Projection>
  {
    match CalculateLegs(ctx.legs, fills, settlements, ctx.intent.status)
    case Err(error) => Err(error)
    case Ok(legs) =>
      match Total(legs)
      case Err(error) => Err(error)
      case Ok(totals) => Ok(Project(version, ctx, fills, settlements, legs, totals))
  }

  // ----- the source's loops, which remember what they have seen in sets

  lemma CheckAllStep<S, T>(check: (S, seq<S>) -> Checked<T>, items: seq<S>, i: nat)
    requires i < |items| && CheckAll(check, items[..i]).Ok?
    ensures var verdict := check(items[i], items[..i]);
            if verdict.Ok?
            then CheckAll(check, items[..i + 1]) == Ok(CheckAll(check, items[..i]).value + [verdict.value])
            else CheckAll(check, items) == Err(verdict.error)
  {
    assert items[..i + 1][..i] == items[..i];
    if check(items[i], items[..i]).Err? {
      CheckAllFails(check, items, i + 1);
    }
  }

  /** The set holds the images of the records seen so far. */
  ghost predicate Remembers<S, T(!new)>(seen: set<T>, f: S -> T, earlier: seq<S>) {
    forall t :: t in seen <==> t in Map(f, earlier)
  }

  lemma RemembersNext<S, T(!new)>(seen: set<T>, f: S -> T, items: seq<S>, i: nat)
    requires i < |items| && Remembers(seen, f, items[..i])
    ensures Remembers(seen + {f(items[i])}, f, items[..i + 1])
  {
    assert items[..i + 1] == items[..i] + [items[i]];
    assert Map(f, items[..i + 1]) == Map(f, items[..i]) + [f(items[i])];
  }

  method CheckNextLeg(leg: Leg, intent: Intent, ids: set<Text>, venues: set<Venue>, ghost earlier: seq<Leg>)
    returns (r: Checked<Leg>)
    requires Remembers(ids, LegId, earlier) && Remembers(venues, LegVenue, earlier)
    ensures r == CheckLeg(leg, earlier, intent)
  {
    if !IsCanonicalText(leg.id) || leg.id in ids {
      return Err(InvalidLeg);
    }
    if leg.intentId != intent.id {
      return Err(IncoherentIdentity);
    }
    if leg.venue in venues || !IsCanonicalText(leg.marketRef) || !IsOptionalId(leg.tokenId)
       || (leg.venue.Polymarket? && leg.tokenId.None?) {
      return Err(InvalidLeg);
    }
    if !IsVenueOutcome(leg.venue, leg.outcome) {
      return Err(IncoherentIdentity);
    }
    return Ok(leg);
  }

  method CollectLegs(intent: Intent, input: seq<Leg>) returns (r: Checked<seq<Leg>>)
    ensures r == CheckAll(LegCheck(intent), input)
  {
    var ids: set<Text>, venues: set<Venue> := {}, {};
    var legs: seq<Leg> := [];
    for i := 0 to |input|
      invariant CheckAll(LegCheck(intent), input[..i]) == Ok(legs)
      invariant Remembers(ids, LegId, input[..i]) && Remembers(venues, LegVenue, input[..i])
    {
      CheckAllStep(LegCheck(intent), input, i);
      RemembersNext(ids, LegId, input, i);
      RemembersNext(venues, LegVenue, input, i);
      var leg := CheckNextLeg(input[i], intent, ids, venues, input[..i]);
      if leg.Err? {
        return Err(leg.error);
      }
      ids, venues := ids + {input[i].id}, venues + {input[i].venue};
      legs := legs + [leg.value];
    }
    assert input[..|input|] == input;
    return Ok(legs);
  }

  method ValidateLegs(intent: Intent, input: seq<Leg>) returns (r: Checked<seq<Leg>>)
    ensures r == ValidLegs(intent, input)
  {
    if |input| != 2 {
      return Err(MissingLeg);
    }
    var legs := CollectLegs(intent, input);
    if legs.Err? {
      return legs;
    }
    var coherent := OutcomesMatch(intent.combination, legs.value);
    return if coherent then Ok(SortBy(LegLeq, legs.value)) else Err(IncoherentIdentity);
  }

  method OutcomesMatch(combination: Combination, legs: seq<Leg>) returns (r: bool)
    ensures r <==> forall leg :: leg in legs ==> leg.outcome == ExpectedOutcome(combination, leg.venue)
  {
    for i := 0 to |legs|
      invariant forall k :: 0 <= k < i ==> legs[k].outcome == ExpectedOutcome(combination, legs[k].venue)
    {
      if legs[i].outcome != ExpectedOutcome(combination, legs[i].venue) {
        return false;
      }
    }
    return true;
  }

  method CheckNextFill(fill: Fill, ctx: Context, ids: set<Text>, tradeKeys: set<Text>, ghost earlier: seq<Fill>)
    returns (r: Checked<FixedFill>)
    requires Remembers(ids, FillId, earlier) && Remembers(tradeKeys, TradeKey, earlier)
    ensures r == CheckFill(fill, earlier, ctx)
  {
    if !IsCanonicalText(fill.id) {
      return Err(IncoherentIdentity);
    }
    if !fill.finality.Final? {
      return Err(NonFinalEvidence);
    }
    if fill.id in ids {
      return Err(DuplicateEvidence);
    }
    if !IsCanonicalText(fill.venueOrderId) || !IsCanonicalText(fill.tradeId) {
      return Err(IncoherentIdentity);
    }
    if TradeKey(fill) in tradeKeys {
      return Err(DuplicateEvidence);
    }
    return FixFill(fill, ctx);
  }

  method ValidateFills(ctx: Context, input: seq<Fill>) returns (r: Checked<seq<FixedFill>>)
    ensures r == ValidFills(ctx, input)
  {
    var ids: set<Text>, tradeKeys: set<Text> := {}, {};
    var fills: seq<FixedFill> := [];
    for i := 0 to |input|
      invariant CheckAll(FillCheck(ctx), input[..i]) == Ok(fills)
      invariant Remembers(ids, FillId, input[..i]) && Remembers(tradeKeys, TradeKey, input[..i])
    {
      CheckAllStep(FillCheck(ctx), input, i);
      RemembersNext(ids, FillId, input, i);
      RemembersNext(tradeKeys, TradeKey, input, i);
      var fixed := CheckNextFill(input[i], ctx, ids, tradeKeys, input[..i]);
      if fixed.Err? {
        return Err(fixed.error);
      }
      ids, tradeKeys := ids + {input[i].id}, tradeKeys + {TradeKey(input[i])};
      fills := fills + [fixed.value];
    }
    assert input[..|input|] == input;
    return Ok(SortBy(FillLeq, fills));
  }

  method CheckNextSettlement(
    settlement: Settlement, ctx: Context, ids: set<Text>, legIds: set<Text>, ghost earlier: seq<Settlement>)
    returns (r: Checked<FixedSettlement>)
    requires Remembers(ids, SettlementId, earlier) && Remembers(legIds, SettlementLeg, earlier)
    ensures r == CheckSettlement(settlement, earlier, ctx)
  {
    if !IsCanonicalText(settlement.id) {
      return Err(IncoherentIdentity);
    }
    if !settlement.finality.Final? {
      return Err(NonFinalEvidence);
    }
    if settlement.id in ids || settlement.place.legId in legIds {
      return Err(DuplicateEvidence);
    }
    return FixSettlement(settlement, ctx);
  }

  method ValidateSettlements(ctx: Context, input: seq<Settlement>) returns (r: Checked<seq<FixedSettlement>>)
    ensures r == ValidSettlements(ctx, input)
  {
    var ids: set<Text>, legIds: set<Text> := {}, {};
    var settlements: seq<FixedSettlement> := [];
    for i := 0 to |input|
      invariant CheckAll(SettlementCheck(ctx), input[..i]) == Ok(settlements)
      invariant Remembers(ids, SettlementId, input[..i]) && Remembers(legIds, SettlementLeg, input[..i])
    {
      CheckAllStep(SettlementCheck(ctx), input, i);
      RemembersNext(ids, SettlementId, input, i);
      RemembersNext(legIds, SettlementLeg, input, i);
      var fixed := CheckNextSettlement(input[i], ctx, ids, legIds, input[..i]);
      if fixed.Err? {
        return Err(fixed.error);
      }
      ids, legIds := ids + {input[i].id}, legIds + {input[i].place.legId};
      settlements := settlements + [fixed.value];
    }
    assert input[..|input|] == input;
    return Ok(SortBy(SettlementLeq, settlements));
  }
}

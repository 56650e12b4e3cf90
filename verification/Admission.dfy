/** Admission of an initial pair entry: one decision over quotes, feeds and books, and the deadline
    that it returns with an approval. Times are milliseconds, and null stands
    beside the numbers that are not real: no check tells them apart. */
module Admission {
  import opened Prelude
  import opened Sequences
  import PriceGrid
  import opened RealSums

  datatype FailureCode =
    | InvalidInput | IntentSlotMismatch | SlotNotStarted | SlotEnded | EntryWindowClosed | InvalidLegs
    | CombinationMismatch | MarketUnaligned | MarketUnavailable | MarketNotTradable | MarketResolved
    | PolymarketIdentityMismatch | KalshiIdentityMismatch | InvalidMarketTick | FeeScheduleUnavailable
    | FeedIdentityMismatch | FeedNotReady | FeedNotWs | FeedStale | BookNotWs | BookStale
    | BookUnavailable | PairBookSkew | EvidenceWindowClosed

  datatype Leg = Leg(venue: Venue, outcomeAsExpected: bool, isBuy: bool)

  /** What the decision reads of one venue. The identity comparisons, and the tick and fee metadata
      checks of a single quote, enter by their outcome. */
  datatype Quote = Quote(
    slotAligned: bool, available: bool, open: bool, resolved: bool, identityMatches: bool, tickValid: bool,
    lastMessageAt: Numeric, stalenessMs: Numeric, overWebSocket: bool,
    feedMatches: bool, feedReady: bool, feedOverWebSocket: bool,
    feedLastMessageAt: Numeric, feedStalenessMs: Numeric,
    bookOverWebSocket: bool, bookUpdatedAt: Numeric, levels: seq<(Numeric, Numeric)>)

  datatype Evidence = Evidence(
    intentMatchesSlot: bool, startTs: Numeric, endTs: Numeric, legs: seq<Leg>, combinationKnown: bool,
    polymarket: Quote, kalshi: Quote, feeScheduleValid: bool,
    kalshiRanges: Option<seq<PriceGrid.RangeText>>, kalshiPrice: Numeric, kalshiOutcome: PriceGrid.Outcome,
    entryCutoffSeconds: Numeric, submissionBudgetMs: Numeric, maxFeedAgeMs: Numeric,
    maxPolymarketBookAgeMs: Numeric, maxKalshiBookAgeMs: Numeric, maxPairBookSkewMs: Numeric)

  datatype Decision =
    | Rejected(code: FailureCode)
    | Allowed(cutoffAt: real, latestSubmissionStartAt: real, marketEvidenceValidUntil: real,
              polymarketBookUpdatedAt: real, kalshiBookUpdatedAt: real, pairBookSkewMs: real)

  // ----- numbers

  predicate IsSafe(x: real) {
    x == x.Floor as real && IsSafeInteger(x.Floor)
  }

  predicate IsTimestamp(n: Numeric) {
    n.Real? && IsSafe(n.value) && n.value >= 0.0
  }

  predicate IsNonNegative(n: Numeric) {
    n.Real? && n.value >= 0.0
  }

  predicate IsFresh(observedAt: Numeric, now: real, maxAge: real) {
    IsTimestamp(observedAt) && observedAt.value <= now && now - observedAt.value <= maxAge
  }

  predicate HasValidNumbers(e: Evidence, now: Numeric) {
    && IsTimestamp(now) && IsTimestamp(e.startTs) && IsTimestamp(e.endTs) && e.endTs.value > e.startTs.value
    && IsNonNegative(e.entryCutoffSeconds) && IsNonNegative(e.submissionBudgetMs) && IsNonNegative(e.maxFeedAgeMs)
    && IsNonNegative(e.maxPolymarketBookAgeMs) && IsNonNegative(e.maxKalshiBookAgeMs)
    && IsNonNegative(e.maxPairBookSkewMs)
  }

  // ----- the evidence deadline

  datatype Observation = Observation(observedAt: Numeric, maxAge: real)

  /** The last safe integer, as a number. */
  function Forever(): real {
    MAX_SAFE_INTEGER as real
  }

  predicate HasDeadline(o: Observation) {
    IsTimestamp(o.observedAt) && IsSafe(o.observedAt.value + o.maxAge)
  }

  /** The first moment at which an observation turns stale; none if one of them has no such moment. */
  function EvidenceDeadline(observations: seq<Observation>): Option<real> {
    if observations == [] then Some(Forever())
    else if !HasDeadline(observations[0]) then None
    else
      match EvidenceDeadline(observations[1..])
      case None => None
      case Some(later) => Some(Min(observations[0].observedAt.value + observations[0].maxAge, later))
  }

  /** The deadline is the exact boundary of being within every age limit. */
  lemma {:induction false} DeadlineBounds(observations: seq<Observation>, t: real)
    requires EvidenceDeadline(observations).Some?
    ensures t < EvidenceDeadline(observations).value
       <==> t < Forever() && forall o :: o in observations ==> HasDeadline(o) && t < o.observedAt.value + o.maxAge
    ensures forall o :: o in observations ==> HasDeadline(o)
  {
    if observations != [] {
      DeadlineBounds(observations[1..], t);
      assert forall o :: o in observations <==> o == observations[0] || o in observations[1..];
    }
  }

  lemma {:induction false} NoDeadline(observations: seq<Observation>)
    ensures EvidenceDeadline(observations).None? <==> exists o :: o in observations && !HasDeadline(o)
  {
    if observations != [] {
      NoDeadline(observations[1..]);
      assert forall o :: o in observations <==> o == observations[0] || o in observations[1..];
    }
  }

  lemma {:induction false} DeadlineSnoc(observations: seq<Observation>, o: Observation)
    ensures EvidenceDeadline(observations + [o])
         == if EvidenceDeadline(observations).None? || !HasDeadline(o) then None
            else Some(Min(EvidenceDeadline(observations).value, o.observedAt.value + o.maxAge))
  {
    if observations == [] {
      assert observations + [o] == [o];
      if HasDeadline(o) {
        assert (o.observedAt.value + o.maxAge).Floor <= MAX_SAFE_INTEGER;
      }
    } else {
      DeadlineSnoc(observations[1..], o);
      assert (observations + [o])[1..] == observations[1..] + [o];
    }
  }

  /** deriveMarketEvidenceValidUntil */
  method DeriveValidUntil(observations: seq<Observation>) returns (r: Option<real>)
    ensures r == EvidenceDeadline(observations)
  {
    var validUntil := Forever();
    var i := 0;
    while i < |observations|
      invariant 0 <= i <= |observations|
      invariant EvidenceDeadline(observations[..i]) == Some(validUntil)
    {
      var o := observations[i];
      assert observations[..i + 1] == observations[..i] + [o];
      DeadlineSnoc(observations[..i], o);
      if !IsTimestamp(o.observedAt) {
        NoDeadline(observations);
        return None;
      }
      var deadline := o.observedAt.value + o.maxAge;
      if !IsSafe(deadline) {
        NoDeadline(observations);
        return None;
      }
      validUntil := Min(validUntil, deadline);
      i := i + 1;
    }
    assert observations[..i] == observations;
    return Some(validUntil);
  }

  // ----- the decision

  function FeedFailure(e: Evidence, quote: Quote, now: real): Option<FailureCode>
    requires e.maxFeedAgeMs.Real?
  {
    var maxAge := e.maxFeedAgeMs.value;
    if !quote.feedMatches then Some(FeedIdentityMismatch)
    else if !quote.feedReady then Some(FeedNotReady)
    else if !quote.overWebSocket || !quote.feedOverWebSocket then Some(FeedNotWs)
    else if !IsNonNegative(quote.stalenessMs) || quote.stalenessMs.value > maxAge
            || !IsNonNegative(quote.feedStalenessMs) || quote.feedStalenessMs.value > maxAge
            || !IsFresh(quote.lastMessageAt, now, maxAge) || !IsFresh(quote.feedLastMessageAt, now, maxAge)
    then Some(FeedStale)
    else None
  }

  function BookFailure(quote: Quote, now: real, maxAge: real): Option<FailureCode> {
    if !quote.bookOverWebSocket then Some(BookNotWs)
    else if !IsFresh(quote.bookUpdatedAt, now, maxAge) then Some(BookStale)
    else None
  }

  predicate HasExecutableLevel(levels: seq<(Numeric, Numeric)>) {
    exists level :: level in levels && level.0.Real? && 0.0 < level.0.value < 1.0
                    && level.1.Real? && level.1.value > 0.0
  }

  predicate IsBuyPair(legs: seq<Leg>) {
    && |legs| == 2
    && |Filter((leg: Leg) => leg.venue.Polymarket?, legs)| == 1
    && |Filter((leg: Leg) => leg.venue.Kalshi?, legs)| == 1
    && forall leg :: leg in legs ==> leg.isBuy
  }

  predicate OutcomesAsExpected(legs: seq<Leg>) {
    forall leg :: leg in legs ==> leg.outcomeAsExpected
  }

  predicate HasValidGrid(e: Evidence) {
    && e.kalshiRanges.Some?
    && PriceGrid.IsValidOutcomePrice(e.kalshiPrice, e.kalshiOutcome, PriceGrid.Grid(e.kalshiRanges.value))
  }

  /** The market checks between the entry window and the feeds. */
  function MarketFailure(e: Evidence): Option<FailureCode> {
    if !IsBuyPair(e.legs) then Some(InvalidLegs)
    else if !e.combinationKnown || !OutcomesAsExpected(e.legs) then Some(CombinationMismatch)
    else if !e.polymarket.slotAligned || !e.kalshi.slotAligned then Some(MarketUnaligned)
    else if !e.polymarket.available || !e.kalshi.available then Some(MarketUnavailable)
    else if !e.polymarket.open || !e.kalshi.open then Some(MarketNotTradable)
    else if e.polymarket.resolved || e.kalshi.resolved then Some(MarketResolved)
    else if !e.polymarket.identityMatches then Some(PolymarketIdentityMismatch)
    else if !e.kalshi.identityMatches then Some(KalshiIdentityMismatch)
    else if !e.polymarket.tickValid || !e.kalshi.tickValid then Some(InvalidMarketTick)
    else if !e.feeScheduleValid then Some(FeeScheduleUnavailable)
    else if !HasValidGrid(e) then Some(InvalidMarketTick)
    else None
  }

  function Observations(e: Evidence): seq<Observation>
    requires e.maxFeedAgeMs.Real? && e.maxPolymarketBookAgeMs.Real? && e.maxKalshiBookAgeMs.Real?
  {
    [Observation(e.polymarket.lastMessageAt, e.maxFeedAgeMs.value),
     Observation(e.polymarket.feedLastMessageAt, e.maxFeedAgeMs.value),
     Observation(e.kalshi.lastMessageAt, e.maxFeedAgeMs.value),
     Observation(e.kalshi.feedLastMessageAt, e.maxFeedAgeMs.value),
     Observation(e.polymarket.bookUpdatedAt, e.maxPolymarketBookAgeMs.value),
     Observation(e.kalshi.bookUpdatedAt, e.maxKalshiBookAgeMs.value)]
  }

  function Cutoff(e: Evidence): real
    requires e.endTs.Real? && e.entryCutoffSeconds.Real?
  {
    e.endTs.value - e.entryCutoffSeconds.value * 1000.0
  }

  function WindowEnd(e: Evidence): real
    requires e.endTs.Real? && e.entryCutoffSeconds.Real? && e.submissionBudgetMs.Real?
  {
    Cutoff(e) - e.submissionBudgetMs.value
  }

  function Skew(x: real, y: real): real {
    if x <= y then y - x else x - y
  }

  /** validateInitialEntryAdmission */
  function Admit(e: Evidence, now: Numeric): Decision {
    if !HasValidNumbers(e, now) then Rejected(InvalidInput)
    else if !e.intentMatchesSlot then Rejected(IntentSlotMismatch)
    else if now.value < e.startTs.value then Rejected(SlotNotStarted)
    else if now.value >= e.endTs.value then Rejected(SlotEnded)
    else if !IsSafe(Cutoff(e)) || !IsSafe(WindowEnd(e)) then Rejected(InvalidInput)
    else if now.value >= WindowEnd(e) then Rejected(EntryWindowClosed)
    else if MarketFailure(e).Some? then Rejected(MarketFailure(e).value)
    else AdmitByEvidence(e, now.value)
  }

  function AdmitByEvidence(e: Evidence, now: real): Decision
    requires HasValidNumbers(e, Real(now))
  {
    var polymarketFeed, kalshiFeed := FeedFailure(e, e.polymarket, now), FeedFailure(e, e.kalshi, now);
    var polymarketBook := BookFailure(e.polymarket, now, e.maxPolymarketBookAgeMs.value);
    var kalshiBook := BookFailure(e.kalshi, now, e.maxKalshiBookAgeMs.value);
    if polymarketFeed.Some? then Rejected(polymarketFeed.value)
    else if kalshiFeed.Some? then Rejected(kalshiFeed.value)
    else if polymarketBook.Some? then Rejected(polymarketBook.value)
    else if kalshiBook.Some? then Rejected(kalshiBook.value)
    else if !HasExecutableLevel(e.polymarket.levels) || !HasExecutableLevel(e.kalshi.levels)
    then Rejected(BookUnavailable)
    else
      var polymarketAt, kalshiAt := e.polymarket.bookUpdatedAt.value, e.kalshi.bookUpdatedAt.value;
      if Skew(polymarketAt, kalshiAt) > e.maxPairBookSkewMs.value then Rejected(PairBookSkew)
      else
        match EvidenceDeadline(Observations(e))
        case None => Rejected(InvalidInput)
        case Some(validUntil) =>
          if now >= validUntil then Rejected(EvidenceWindowClosed)
          else
            Allowed(Cutoff(e), Min(WindowEnd(e), validUntil), validUntil, polymarketAt, kalshiAt,
                    Skew(polymarketAt, kalshiAt))
  }

  // ----- the deadline is exact

  /** Whole milliseconds as a number. */
  function At(t: int): Numeric {
    Real(t as real)
  }

  /** An approval stays fresh until the evidence deadline. */
  lemma StaysFresh(e: Evidence, now: real, later: real)
    requires HasValidNumbers(e, Real(now)) && AdmitByEvidence(e, now).Allowed? && now <= later
    ensures var deadline := AdmitByEvidence(e, now).marketEvidenceValidUntil;
            && EvidenceDeadline(Observations(e)) == Some(deadline)
            && (later < deadline ==>
                  forall o :: o in Observations(e) ==> IsFresh(o.observedAt, later, o.maxAge))
  {
    DeadlineBounds(Observations(e), later);
    assert forall o :: o in Observations(e) ==> IsFresh(o.observedAt, now, o.maxAge);
  }

  lemma EvidenceBoundary(e: Evidence, now: real, later: real)
    requires HasValidNumbers(e, Real(now)) && HasValidNumbers(e, Real(later))
    requires AdmitByEvidence(e, now).Allowed? && now <= later
    ensures var r := AdmitByEvidence(e, now);
            || AdmitByEvidence(e, later) == r
            || (AdmitByEvidence(e, later).Rejected? && later >= r.marketEvidenceValidUntil)
    ensures AdmitByEvidence(e, later).Allowed? <==> later < AdmitByEvidence(e, now).marketEvidenceValidUntil
    ensures AdmitByEvidence(e, later).Rejected? ==>
              AdmitByEvidence(e, later).code in {FeedStale, BookStale, EvidenceWindowClosed}
  {
    StaysFresh(e, now, later);
    var all := Observations(e);
    assert all[0] in all && all[1] in all && all[2] in all && all[3] in all && all[4] in all && all[5] in all;
  }

  /** Once entry is allowed, at every later millisecond it is still allowed, with the same answer,
      exactly until the returned deadline; from then on it is refused for reasons of time alone. */
  lemma DeadlineIsExact(e: Evidence, now: int, later: int)
    requires Admit(e, At(now)).Allowed? && now <= later
    ensures Admit(e, At(later)).Allowed? <==> later as real < Admit(e, At(now)).latestSubmissionStartAt
    ensures Admit(e, At(later)).Allowed? ==> Admit(e, At(later)) == Admit(e, At(now))
    ensures later <= MAX_SAFE_INTEGER && Admit(e, At(later)).Rejected? ==>
              Admit(e, At(later)).code in {SlotEnded, EntryWindowClosed, FeedStale, BookStale, EvidenceWindowClosed}
  {
    StaysFresh(e, now as real, later as real);
    DeadlineBounds(Observations(e), later as real);
    if later <= MAX_SAFE_INTEGER {
      assert (later as real).Floor == later;
      EvidenceBoundary(e, now as real, later as real);
    }
  }

  /** An approval always leaves room: its deadline is ahead, within the slot and within the budget. */
  lemma DeadlineIsAhead(e: Evidence, now: int)
    requires Admit(e, At(now)).Allowed?
    ensures var d := Admit(e, At(now));
            now as real < d.latestSubmissionStartAt <= d.cutoffAt - e.submissionBudgetMs.value
            && d.cutoffAt <= e.endTs.value && IsSafe(d.latestSubmissionStartAt)
  {
    DeadlineIsSafe(Observations(e));
  }

  lemma {:induction false} DeadlineIsSafe(observations: seq<Observation>)
    requires EvidenceDeadline(observations).Some?
    ensures IsSafe(EvidenceDeadline(observations).value)
  {
    if observations != [] {
      DeadlineIsSafe(observations[1..]);
    }
  }
}

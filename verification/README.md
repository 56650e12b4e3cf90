# Warbitrer: proofs about its core

Warbitrer buys a binary contract on Polymarket and the opposite one on Kalshi, so that whichever way
the market resolves one leg pays, and it lives off the difference. This project models the parts that
must be exact or safe on every run and proves properties of them for all inputs, runs and reachable
states. `dafny verify dfyconfig.toml` checks everything.

| file | what it covers |
|---|---|
| `Prelude.dfy`, `Sequences.dfy`, `RealSums.dfy` | numbers, text, comparators; filters, permutations, stable sorting, grouping; real sums and rounding |
| `FixedPoint.dfy` | decimal numbers and canonical text as integers in units of 1e-8 |
| `Ledger.dfy`, `LedgerOrder.dfy`, `LedgerLaws.dfy` | the accounting ledger, its independence of order, conservation and deltas |
| `Terminal.dfy` | the settlements derived for a terminal intent, and the ledger's acceptance of them |
| `Doubles.dfy`, `SizeUnits.dfy` | rounding to 53 bits; a size scaled to units and a quotient printed, as doubles |
| `JsonText.dfy`, `CanonicalJson.dfy` | JSON text, its unique readability, and the canonical printer of request identities |
| `RankSum.dfy` | the area under the ROC curve of a calibration report |
| `BookWalk.dfy`, `LegQuotes.dfy`, `PairedQuote.dfy`, `ClipPlan.dfy` | book preparation, the greedy walk and its worst fill, the search for the pair size, clips |
| `QuoteToLedger.dfy`, `PairExecution.dfy` | what a quote promises is what the ledger shows, from the venue's fills on |
| `PriceGrid.dfy` | Kalshi's price lattice in the terms of both outcomes |
| `Admission.dfy` | the admission of an entry and its deadline |
| `FillTracker.dfy` | the private fill buffer, its index and its waiters |
| `KalshiBook.dfy` | the realtime order book and the venue's own |
| `Migrations.dfy` | schema status, one migrator, and any number of them at once |
| `Activation.dfy` | the trigger procedures of a calibration's activation, and the audit of a deployment |
| `Breakers.dfy` | circuit-breaker incidents, their aggregation and their resolution |

Code that updates variables, maps or objects step by step is modelled by methods and classes, each
proved against a specification function; the theorems are about those functions. Thrown errors are
result values. Clocks are arguments. Numbers of JavaScript are exact, a real or not a real at all,
but for the sizes of a terminal intent, where rounding decides: those are doubles.

## What was found

Five promises hold only under a condition. Each condition is proved to be exact, and for each there is
an input that breaks it:

- The audit accepts what the triggers let through exactly when revision and time are safe integers;
  the columns are wider (`Activation.AuditAcceptsIff`, `Activation.LateEventFailsAudit`).
- Different request identities never share a canonical text, whatever the collation behind
  `localeCompare` (`CanonicalJson.EqualTextsAreEquivalent`). That one identity has one text, whatever the
  order of its members, holds exactly when no object within it has two keys that the collation cannot
  tell apart (`CanonicalJson.CanonicalForm`); keys that are canonically equivalent strings are such a pair
  (`CanonicalJson.TiedKeysShow`).
- After a snapshot numbered in its envelope, deltas from beyond a gap are refused exactly when its levels
  are not nested or the nested place repeats the number (`KalshiBook.GapIsCaughtIff`,
  `KalshiBook.NestedSnapshotMissesGap`).
- The local book is the venue's on every run exactly when every change leaves nothing or a multiple of
  1e-4, because the feed rounds to that grid (`KalshiBook.RunsTrackIff`, `KalshiBook.SmallChangeDiverges`).
- The producer of settlements reads a size as the ledger does for all sizes up to a bound exactly when the
  bound is at most 128.00000001, because it multiplies doubles (`Terminal.UnitsAgreeUpToIff`). With a fill
  of 319.4 it throws, although the ledger reads that size (`Terminal.OrdinarySizeIsRefused`,
  `Terminal.OrdinaryFillIsRefused`). A residual is passed on exactly, for all residuals up to a bound, when
  the bound is at most 67108864.00000001 (`SizeUnits.PrintedUpToIff`, `Terminal.CoarseResidualIsRefused`).

## Model

| member | source | states |
|---|---|---|
| RankSum.CalculateAuc | scripts/calibrate-mismatch-risk.ts:804-828 | Nothing exactly when a class is missing; otherwise the area times the number of (fatal, non-fatal) pairs is the count of correctly ranked pairs plus half the tied ones, and the area lies in [0, 1] |
| RankSum.RankSumIsPairScore | scripts/calibrate-mismatch-risk.ts:813-827 | Twice the average-rank sum of the fatal observations is the quadratic pair count plus P * (P + 1), whatever the sequence |
| RankSum.TiedBlockRank | scripts/calibrate-mismatch-risk.ts:816-820 | Every member of a block of ties has the block's average rank |
| RankSum.AucIgnoresOrder | scripts/calibrate-mismatch-risk.ts:804-828 | Two areas of the same observations in any order are equal |
| FixedPoint.ParseNumberToFixed | src/lib/accounting-ledger.ts:1001-1031 | The digit surgery on sign, whole, fraction and exponent computes the arithmetic number of units, with the same error on each refusal |
| FixedPoint.CutDigits | src/lib/accounting-ledger.ts:1016-1023 | Cutting digits off the right is division by a power of ten, and loses nothing exactly when they are all zero |
| FixedPoint.ParseIsExact | src/lib/accounting-ledger.ts:1001-1031 | Within the exponent bounds the parse yields u exactly when the decimal is u * 1e-8, so it refuses exactly what is no multiple of 1e-8 |
| FixedPoint.FixedRoundTrip | src/lib/accounting-ledger.ts:1071-1086 | Canonical text reads back as the amount written, over the whole bounded domain |
| FixedPoint.FormatIsInjective | src/lib/accounting-ledger.ts:1071-1077 | No two amounts of the domain have the same canonical text |
| FixedPoint.MultiplyIsNearest | src/lib/accounting-ledger.ts:1033-1038 | A product is the nearest unit, halves upwards, and a price of at most 1 never raises a size |
| FixedPoint.DivideIsNearest | src/lib/accounting-ledger.ts:1040-1050 | A quotient is the nearest unit, halves away from zero, and keeps the bounds of its ratio |
| Ledger.ValidateLegs | src/lib/accounting-ledger.ts:466-516 | The loop with its two sets accepts and orders exactly what comparing each leg with all earlier ones does |
| Ledger.ValidateFills | src/lib/accounting-ledger.ts:518-575 | The same for fills, by id and by trade key |
| Ledger.ValidateSettlements | src/lib/accounting-ledger.ts:577-637 | The same for settlements, by id and by leg |
| LedgerOrder.LegsIgnoreOrder | src/lib/accounting-ledger.ts:466-516 | Permuted legs are accepted alike and yield the same canonical sequence |
| LedgerOrder.FillsIgnoreOrder | src/lib/accounting-ledger.ts:518-575 | Permuted fills are accepted alike and yield the same canonical sequence, since the comparator is a total order on accepted fills |
| LedgerOrder.SettlementsIgnoreOrder | src/lib/accounting-ledger.ts:577-637 | Permuted settlements are accepted alike and yield the same canonical sequence |
| LedgerOrder.LedgerIgnoresOrder | src/lib/accounting-ledger.ts:296-371 | Permuting legs, fills and settlements never changes whether the ledger accepts, nor anything in the projection, proof and evidence that it yields |
| LedgerLaws.LegIsBalanced | src/lib/accounting-ledger.ts:639-712 | On an accepted leg bought = sold + settled, 0 <= payout <= bought, P&L = payout - cost - fees, and the return is at least -1 |
| LedgerLaws.RoiIsAtLeastMinusOne | src/lib/accounting-ledger.ts:1040-1050 | A loss of at most the basis rounds to a return of at least -1 |
| LedgerLaws.LedgerConserves | src/lib/accounting-ledger.ts:296-371 | Every accepted ledger has two balanced legs, total P&L equal to the sum of theirs, and a return of at least -1 |
| LedgerLaws.TotalsReadBack | src/lib/accounting-ledger.ts:853-861 | Totals written into a proof read back unchanged |
| LedgerLaws.DeltaIsDifference | src/lib/accounting-ledger.ts:374-415 | Between two ledgers a delta exists exactly for a newer version of the same identity with representable differences, and it is the difference of the ledgers' own amounts |
| LedgerLaws.DeltasTelescope | src/lib/accounting-ledger.ts:374-415 | Deltas over versions v1 < v2 < v3 add up on cost, payout, fees, P&L and return; the long one fails exactly when a P&L or return sum overflows |
| SizeUnits.ReadBackUpToIff | src/lib/accounting-runtime.ts:281-290 | Scaling the double of a decimal yields its units for every number of units up to a bound if and only if the bound is at most 12800000001 |
| SizeUnits.WholeIsReadBack | src/lib/accounting-runtime.ts:281-290 | Every whole number of contracts is scaled to its units |
| SizeUnits.OrdinaryIsRefused | src/lib/accounting-runtime.ts:285-286 | 319.4 times 1e8 is 2^-18 short of 31940000000 as a double, more than the tolerance |
| SizeUnits.PrintedUpToIff | src/lib/accounting-runtime.ts:223-223 | Dividing units by 1e8 and printing the double yields the exact decimal for every number of units up to a bound if and only if the bound is at most 2^26 contracts and one unit |
| Terminal.UnitsAgreeUpToIff | src/lib/accounting-runtime.ts:281-290 | Producer and ledger read every size up to a bound as the same number of units if and only if the bound is at most 128.00000001 |
| Terminal.WholeContractsAgree | src/lib/accounting-runtime.ts:281-290 | They read every whole number of contracts alike |
| Terminal.OrdinarySizeIsRefused | src/lib/accounting-runtime.ts:285-286 | The ledger reads 319.4 as 31940000000 units, and the producer throws on it |
| Terminal.OrdinaryFillIsRefused | src/lib/accounting-runtime.ts:206-213 | No projection is built from any input with a fill of 319.4 on one of its legs |
| Terminal.CoarseResidualIsRefused | src/lib/accounting-runtime.ts:223-223 | A residual of 67108864.00000002 is settled one unit short, so that the ledger refuses an otherwise sound input |
| Terminal.ResidualAgrees | src/lib/accounting-runtime.ts:206-213 | Where each fill's size is read alike, the residual of a leg is what the ledger computes as bought minus sold |
| Terminal.SettlementIdsDiffer | src/lib/accounting-runtime.ts:226 | Settlements of different legs have different ids |
| Terminal.ProducerMeetsConsumer | src/lib/accounting-runtime.ts:187-275 | A terminal projection is built if and only if intent, legs and fills are valid on their own, no residual is negative, required BUYs and resolutions exist, times are ordered, amounts are representable, and scaling and printing leave each residual what the ledger finds; and what is built conserves |
| Terminal.OrdinaryProducerMeetsConsumer | src/lib/accounting-runtime.ts:187-275 | That last condition falls away if every size is at most 128.00000001 or a double exactly, and no residual is above 67108864.00000001 |
| JsonText.StringReads | src/lib/accounting-runtime.ts:294-294 | An escaped string reads back as itself, lone surrogates and control characters included (section 7 of RFC 8259) |
| JsonText.ValueReads | src/lib/accounting-runtime.ts:293-310 | A printed value followed by anything that may follow a value is read back as that value, and the rest is left |
| JsonText.PrintIsInjective | src/lib/accounting-runtime.ts:293-310 | No two clean values print alike |
| CanonicalJson.CanonicalIsNormal | src/lib/accounting-runtime.ts:292-312 | The canonical text is the plain text of the value's normal form, and the printer throws exactly on values with an unprintable part |
| CanonicalJson.EqualTextsAreEquivalent | src/lib/accounting-runtime.ts:292-312 | Under any collation at all, two values with one canonical text are equal up to member order and undefined members at every depth |
| CanonicalJson.CanonicalForm | src/lib/accounting-runtime.ts:292-312 | For any collation that is a total preorder, ties allowed: the values that print as a given one are exactly those equal to it up to member order and undefined members, if and only if no object within it, at any depth, has two kept keys that tie |
| CanonicalJson.TiedKeysShow | src/lib/accounting-runtime.ts:306-308 | A collation that compares canonically equivalent strings as equal is a total preorder, and under it one object with two such keys has two texts |
| BookWalk.CollectByPrice | src/lib/fees.ts:968-980 | The map holds each quoted price once, with all that usable levels hold there |
| BookWalk.AggregateLevels | src/lib/fees.ts:968-984 | Collecting into the map and sorting yields the merged book |
| BookWalk.AggregateIsAggregated | src/lib/fees.ts:968-984 | The merged book ascends strictly, lists exactly the quoted prices, and has at each the sum of what is held there |
| BookWalk.PrepareBook | src/lib/fees.ts:967-1026 | The imperative preparation computes the specified prepared book |
| BookWalk.TakeLevels | src/lib/fees.ts:1009-1019 | The loop takes the greedy front of the levels |
| BookWalk.TakenDepth | src/lib/fees.ts:1009-1019 | What is taken is the amount or the whole book, whichever is less, up to the tolerance |
| BookWalk.GreedyIsCheapest | src/lib/fees.ts:1012-1019 | No allocation of at least as much from an ascending book costs less than the greedy one |
| BookWalk.PreparedIsCheapest | src/lib/fees.ts:967-1026 | A prepared book ascends strictly, is the front of the adjusted book, whole but for its last level, as deep as depth minus headroom up to the tolerance, and nothing as deep can be had from the adjusted book for less |
| LegQuotes.QuotePreparedBook | src/lib/fees.ts:1028-1111 | The imperative walk computes the specified quote, and refuses exactly what it refuses |
| LegQuotes.WalkBook | src/lib/fees.ts:1043-1064 | The running notional, fee and remainder are those of the greedy walk |
| LegQuotes.QuotableIsWithinDepth | src/lib/fees.ts:1036-1068 | A size of at least one is quotable on a prepared book if and only if it is within the depth up to the tolerance |
| LegQuotes.WalkIsCheapest | src/lib/fees.ts:1043-1064 | The walk fills the size up to the tolerance at the least notional of all allocations of as much |
| LegQuotes.CurvePeaks | src/lib/fees.ts:211-217 | No price up to the limit has a higher fee curve than the clamped limit |
| LegQuotes.WorstFillIsWorst | src/lib/fees.ts:1091-1094 | For Kalshi: no execution of at most the size at prices up to the limit has a notional, an order fee rounded once, or a cost above the unrounded worst fill |
| LegQuotes.CurvedWorstIsWorst | src/lib/fees.ts:190-202 | For Polymarket before rounding, whatever the exponent of its fee curve: no execution of at most the size at prices up to the limit has a fee, or cost, above the worst fill |
| LegQuotes.QuotedWorstIsWorst | src/lib/fees.ts:1091-1111 | For whole contracts and a limit in steps of 1e-4, no Kalshi execution costs more, with its fee, than the rounded worst cost of the quote |
| LegQuotes.ChargedIsWorst | src/lib/fees.ts:162-209 | For Polymarket, with its fee curve or a flat rate in basis points: what is charged for an execution, rounded fill by fill, is at most the quoted worst fee and half a step of 1e-5 for each rounding |
| LegQuotes.QuotedPolymarketIsWorst | src/lib/fees.ts:1091-1111 | So, for whole shares and a limit in steps of 1e-4, no Polymarket execution costs more, with its charged fees, than the rounded worst cost of the quote and that slack |
| PairedQuote.QuoteSize | src/lib/fees.ts:371-469 | Quoting one size on both venues and judging it computes the specified candidate |
| PairedQuote.SearchSizes | src/lib/fees.ts:364-475 | The loop records every quotable size and ends with a passing size that none in the range beats by more than the tolerance, or with none if none passes |
| PairedQuote.DerivePairedQuote | src/lib/fees.ts:276-497 | The whole search: invalid input, the depth guards, the best size with its limiting reason, or the empty answer with the first size's reason |
| PairedQuote.AcceptedIsWithinLimits | src/lib/fees.ts:1150-1229 | The chain of refusals lets through exactly what is within all limits |
| PairedQuote.EverySizeIsQuotable | src/lib/fees.ts:309-318 | Every size from the least to the greatest executable one can be quoted on both venues |
| PairedQuote.AnswerIsSound | src/lib/fees.ts:340-497 | Past the guards, the answer is empty if and only if no size in the range fits; otherwise its size is in the range and fits |
| PairedQuote.PassingIsProfitable | src/lib/fees.ts:1219-1233 | A passing size has a conservative profit above zero |
| QuoteToLedger.BoughtLegPays | src/lib/accounting-ledger.ts:639-712 | A leg that was only bought and held pays one per contract if its outcome resolved, and nothing otherwise |
| QuoteToLedger.PairPays | src/lib/accounting-ledger.ts:905-913 | The payout of an accepted pair of equal legs follows from the two resolutions and the combination, and the P&L from it |
| QuoteToLedger.QuoteHoldsInLedger | src/lib/fees.ts:371-475 | A chosen pair bought as quoted at no more than its worst fill cost and a slack: alike resolution shows at least the unrounded conservative profit, above zero, less the slack, in the ledger; fatal resolution loses exactly what was paid, within the absolute limit up to the tolerance and the slack |
| PairExecution.SumsAreExecutions | src/lib/accounting-ledger.ts:1033-1038 | On fills in steps of 1e-4 the ledger's sums for a leg are, in dollars, exactly the depth and notional of its executions |
| PairExecution.LegWithinQuote | src/lib/fees.ts:1091-1111 | A Kalshi leg filled at prices up to its limit and charged at most the order's fee costs, in the ledger, no more than its quote's worst cost |
| PairExecution.PolymarketLegWithinQuote | src/lib/fees.ts:1091-1111 | A Polymarket leg filled at prices up to its limit and charged fill by fill costs, in the ledger, no more than its quote's worst cost and half a step of 1e-5 for each rounding |
| PairExecution.ExecutedPairHolds | src/lib/fees.ts:371-475 | A chosen pair whose Kalshi fills keep to the order, and whose Polymarket leg cost at most its worst fill and a slack, shows the promised profit or the bounded loss in the ledger up to the slack |
| PairExecution.FilledPairHolds | src/lib/fees.ts:371-475 | The same with both costs derived: if both venues filled in steps of 1e-4 at prices up to the limits and charged their fees, the ledger shows the promised profit or the bounded loss up to half a step of 1e-5 for each rounding |
| ClipPlan.EvenSplits | src/lib/fees.ts:632-637 | An even split adds up, is within the clip size, has no empty clip, and its clips differ by at most one |
| ClipPlan.FirstFits | src/lib/fees.ts:600-607 | The probe clip is within the clip size and leaves no more than the other clips can hold |
| ClipPlan.PlanIsSound | src/lib/fees.ts:583-638 | For every request of at least one contract, any caps and any optional probe: the clips add up to the lesser of request and capacity, number at most the allowed count, lie in 1..clip size, and the even ones differ by at most one |
| PriceGrid.PriceTextParses | src/lib/kalshi-price-grid.ts:163-180 | Every price from 0 to 1 in steps of 1e-4 has a text that parses to it |
| PriceGrid.AddRange | src/lib/kalshi-price-grid.ts:45-49 | The inner loop adds exactly the points of the range's lattice |
| PriceGrid.PointsBelow | src/lib/kalshi-price-grid.ts:44-51 | The reference grid: strictly ascending, and holding exactly the points on some range's lattice |
| PriceGrid.ParsePriceGrid | src/lib/kalshi-price-grid.ts:17-56 | Set and sort compute the reference grid, with the source's errors in its order; the incomplete-grid error never occurs |
| PriceGrid.FindGridPrice | src/lib/kalshi-price-grid.ts:144-161 | The two scans find the first entry at or above, and the last at or below, up to the tolerance |
| PriceGrid.FoundIsNearest | src/lib/kalshi-price-grid.ts:144-161 | On a grid from 0 to 1 the search in YES prices finds the nearest price in the outcome's own terms |
| PriceGrid.NormalizesToNearest | src/lib/kalshi-price-grid.ts:62-81 | BUY normalizes to the nearest grid price at or above and SELL to the nearest at or below, for YES and NO alike; a price in range fails exactly when that is 0 or 1 |
| PriceGrid.NormalizeIdempotent | src/lib/kalshi-price-grid.ts:62-81 | Normalizing again, even for the other side, changes nothing |
| PriceGrid.MirroredOrder | src/lib/kalshi-price-grid.ts:58-60 | Trading one outcome at p and the other, on the opposite side, at 1 - p is the same book order |
| PriceGrid.MovesAddUp | src/lib/kalshi-price-grid.ts:83-115 | Moving a + b ticks succeeds if and only if moving a and then b does, and ends at the same price |
| PriceGrid.MoveUndone | src/lib/kalshi-price-grid.ts:83-115 | Moving as many ticks for the other side returns to the normalized price |
| PriceGrid.ValidIsUnadjusted | src/lib/kalshi-price-grid.ts:131-142 | A price is valid if and only if normalizing it for either side succeeds without adjusting it |
| Admission.DeriveValidUntil | src/lib/entry-admission-policy.ts:365-390 | The loop computes the evidence deadline, and none exactly when an observation has no safe one |
| Admission.DeadlineBounds | src/lib/entry-admission-policy.ts:378-388 | A moment is before the deadline if and only if it is before the moment each observation turns stale |
| Admission.EvidenceBoundary | src/lib/entry-admission-policy.ts:266-319 | From an approval on, the evidence part of the decision holds exactly until the evidence deadline, and fails only for age afterwards |
| Admission.DeadlineIsExact | src/lib/entry-admission-policy.ts:135-331 | Once entry is allowed, at every later millisecond it is allowed, with the same answer, if and only if that is before latestSubmissionStartAt; afterwards it is refused for reasons of time alone |
| Admission.DeadlineIsAhead | src/lib/entry-admission-policy.ts:160-167 | An approval's deadline lies ahead, within the submission budget and the slot, and is a safe integer |
| FillTracker.RealtimeOrderFillTracker.PruneFills | src/lib/market-data.ts:772-781 | Old fills leave the buffer and their keys the index; the index still matches the buffer |
| FillTracker.RealtimeOrderFillTracker.IngestFill | src/lib/market-data.ts:653-675 | One new fill: pruned, refused if known, buffered within the limit, and handed to exactly the waiters that wait for it; the index still matches |
| FillTracker.RealtimeOrderFillTracker.ReadFills | src/lib/market-data.ts:677-681 | The newest matching fills up to the clamped limit, and nothing changes but for pruning |
| FillTracker.RealtimeOrderFillTracker.WaitForFill | src/lib/market-data.ts:683-720 | An existing match or a zero timeout answers at once; otherwise a waiter is registered, in place of the oldest if there are too many |
| FillTracker.RealtimeOrderFillTracker.SettleWaiter | src/lib/market-data.ts:741-747 | A pending waiter is removed and resolved; one that is gone is not resolved again |
| FillTracker.RealtimeOrderFillTracker.SettleMatching | src/lib/market-data.ts:669-673 | The loop over a snapshot resolves exactly the waiters meant, oldest first |
| FillTracker.RealtimeOrderFillTracker.ClearWaiters | src/lib/market-data.ts:722-733 | Resolves with nothing the waiters that a disconnect of the market leaves hanging |
| FillTracker.RealtimeOrderFillTracker.ClearAllWaiters | src/lib/market-data.ts:735-739 | Resolves all waiters with nothing |
| FillTracker.RealtimeOrderFillTracker.OnTimeout | src/lib/market-data.ts:706-711 | Resolves the waiter with nothing if it is still pending |
| FillTracker.KeepIndexed | src/lib/market-data.ts:774-780 | Filtering while deleting keys keeps index and buffer in step |
| FillTracker.LimitIndexed | src/lib/market-data.ts:662-667 | Popping while deleting keys keeps index and buffer in step |
| FillTracker.RunKeeps | src/lib/market-data.ts:647-786 | Over every sequence of ingests, reads, waits, clears and timeouts: distinct keys, at most 512 fills and 256 waiters, each waiter resolved at most once and only with a fill that it waits for, and no pending waiter waits for a buffered fill |
| FillTracker.IngestResolves | src/lib/market-data.ts:669-673 | A new fill resolves exactly the waiters that wait for it, with itself |
| FillTracker.StepExtends | src/lib/market-data.ts:741-747 | Who is resolved stays resolved with the same fill, and ids are never reused |
| KalshiBook.KalshiRealtimeFeed.ReplaceLevelMap | src/lib/market-data.ts:260-268 | The loop keeps the last positive size of each price |
| KalshiBook.KalshiRealtimeFeed.OnSnapshot | src/lib/market-data.ts:2549-2578 | A snapshot with levels replaces the book and makes the feed ready and in sync; one without changes nothing |
| KalshiBook.KalshiRealtimeFeed.OnDelta | src/lib/market-data.ts:2618-2664 | A delta is applied only to a ready book, without a gap and well formed; a refused one only clears the in-sync flag |
| KalshiBook.KalshiRealtimeFeed.OnClose | src/lib/market-data.ts:2325-2335 | A closed socket makes the feed unready and keeps the book |
| KalshiBook.ListedBook | src/lib/market-data.ts:260-268 | A list that names each level of a book once or more, all alike, reproduces the book |
| KalshiBook.SizesStayPositive | src/lib/market-data.ts:3245-3256 | Whatever the messages, every stored size is above zero |
| KalshiBook.DeltasAreUnbroken | src/lib/market-data.ts:2618-2664 | Over every run of numbered messages the book is the last snapshot's with the deltas numbered from the next one on, none left out, none twice, in order |
| KalshiBook.DeltaTracksIff | src/lib/market-data.ts:3245-3256 | A delta in sequence keeps the local book equal to the venue's if and only if the size it leaves is nothing or a multiple of 1e-4 |
| KalshiBook.RunTracks | src/lib/market-data.ts:2549-2664 | Over every run of genuine messages through any number of sessions, each with its own book and numbering, and however messages are lost, repeated or reordered, a ready feed has the current session's book as of the local number |
| KalshiBook.RunsTrackIff | src/lib/market-data.ts:2549-2664 | That holds on every run if and only if every change of every session leaves nothing or a multiple of 1e-4 |
| KalshiBook.SmallChangeDiverges | src/lib/market-data.ts:3245-3256 | A run of one snapshot and one genuine change of 0.00005 after which the books differ |
| KalshiBook.GapIsCaughtIff | src/lib/market-data.ts:2629-2638 | After a snapshot with envelope number n, the feed takes of all numbered deltas exactly those numbered n + 1, if and only if the snapshot's levels are not nested or the nested place repeats n |
| KalshiBook.NestedSnapshotMissesGap | src/lib/market-data.ts:3104-3131 | A nested snapshot numbered in its envelope only leaves a book without a number, and a delta from beyond a gap is taken |
| Migrations.ValidateRegistry | src/lib/db-migrations.ts:189-206 | The loop accepts exactly the registries with strictly increasing positive safe versions, unique non-empty names and well-formed checksums |
| Migrations.BuildStatus | src/lib/db-migrations.ts:128-187 | The loops over maps and sets compute the specified status, problems in order |
| Migrations.ReadyMeansEqual | src/lib/db-migrations.ts:128-187 | Ready if and only if the table exists and its rows are the registry's entries by version, name and checksum |
| Migrations.HistoryBlocksIff | src/lib/db-migrations.ts:92-97 | A committed prefix of the registry blocks a migrator if and only if it is longer than what the migrator knows |
| Migrations.Database.RunMigrations | src/lib/db-migrations.ts:71-126 | One run: refused, failed with the table unchanged, or committed with every pending row inserted and the status of the result |
| Migrations.RunOnceIsAllOrNothing | src/lib/db-migrations.ts:71-126 | Against a committed prefix a run either leaves the table alone or brings it to exactly what the migrator knows and ends ready, and does the latter if everything pending succeeds |
| Migrations.ActKeeps | src/lib/db-migrations.ts:78-125 | Each step of each migrator, crashes included, keeps history a prefix, one holder of the lock, and each transaction at a prefix |
| Migrations.RunKeeps | src/lib/db-migrations.ts:71-126 | Over every interleaving of migrators that know different prefixes of one registry: committed history is a prefix of it, and whoever finishes has found its schema ready |
| Migrations.VersionsRecordedOnce | src/lib/db-migrations.ts:84-89 | So no version is recorded twice |
| Migrations.HistoryGrows | src/lib/db-migrations.ts:115-119 | Committed history only grows, and a step that fails leaves it unchanged |
| Activation.InsertKeeps | src/lib/deployment-preflight.ts:486-505 | An insert past the trigger leaves the transaction's chain one event ahead of the activation row, and a second one is refused |
| Activation.UpdateKeeps | src/lib/deployment-preflight.ts:508-529 | An update past the trigger joins the row to the pending event, and no other event can match |
| Activation.CommitKeeps | src/lib/deployment-preflight.ts:532-551 | The deferred trigger refuses to commit an event that the row does not reflect |
| Activation.RunKeeps | src/lib/deployment-preflight.ts:468-553 | Every committed state of any statements from any sessions is a chain of events 1..n with linked artifacts, strictly rising times, and the activation row as its tail |
| Activation.AuditChain | src/lib/deployment-preflight.ts:1454-1530 | The loop accepts exactly the chains that pass event by event and end in the activation row |
| Activation.Audit | src/lib/deployment-preflight.ts:1671-1687 | The structural audit of both tables |
| Activation.AuditAcceptsIff | src/lib/deployment-preflight.ts:1454-1530 | The audit accepts a committed state that the triggers let through if and only if its revision and its time are safe integers |
| Activation.LateEventFailsAudit | src/lib/deployment-preflight.ts:1679-1682 | A concrete transaction, recorded after the last safe integer, that every trigger passes and the audit refuses |
| Activation.ActivationTables.InsertEvent | src/lib/deployment-preflight.ts:486-505 | Inserts past the checks, the trigger and the unique revision, or rolls back |
| Activation.ActivationTables.UpdateActivation | src/lib/deployment-preflight.ts:508-529 | Updates past the checks and the trigger, or rolls back |
| Activation.ActivationTables.Commit | src/lib/deployment-preflight.ts:532-551 | Commits if every inserted event is reflected, or rolls back |
| Breakers.ScopeIdentityIsInjective | src/lib/circuit-breaker-policy.ts:534-542 | Two scopes have the same grouping text if and only if they are the same scope |
| Breakers.GetWorst | src/lib/circuit-breaker-policy.ts:245-255 | The loop computes the worst impact |
| Breakers.WorstIsWorst | src/lib/circuit-breaker-policy.ts:245-255 | It is one of the impacts and none is worse |
| Breakers.GroupByScope | src/lib/circuit-breaker-policy.ts:265-277 | The map holds for each scope its active incidents with their effective impacts, in order of arrival |
| Breakers.AggregateIncidents | src/lib/circuit-breaker-policy.ts:261-280 | Grouping, aggregating and sorting compute the specified aggregates |
| Breakers.AggregationIgnoresOrder | src/lib/circuit-breaker-policy.ts:261-280 | With distinct incident ids the aggregates do not depend on the order of the incidents |
| Breakers.OneGroupEach | src/lib/circuit-breaker-policy.ts:267-277 | Every active incident is in exactly one group, that of its scope |
| Breakers.DominantIsWorst | src/lib/circuit-breaker-policy.ts:500-518 | The dominant incident has the worst impact of its scope, and is a manual kill if there is one |
| Breakers.ListsPartition | src/lib/circuit-breaker-policy.ts:487-498 | The three id lists together hold each active incident of the scope once |
| Breakers.WorstRelevantIsDirect | src/lib/circuit-breaker-policy.ts:292-300 | The worst impact among the relevant aggregates is the worst effective impact among the relevant incidents themselves |
| Breakers.OwnerResolvesOnlyRecovered | src/lib/circuit-breaker-policy.ts:302-336 | An owner may resolve only an open incident of its own that is no manual kill and has no open exposure or running cooldown left |

## Left out

- LegQuotes.QuotePreparedBook: the optional allocation of an expected Kalshi order fee over the levels is not modelled, because the size search does not use it.
- LegQuotes.WorstFillIsWorst: speaks of the unrounded worst fill; that rounding changes nothing is proved for whole contracts at a limit in steps of 1e-4 only, and sizes or prices off these steps can be rounded down.
- LegQuotes.CurvedWorstIsWorst: speaks of the unrounded fee; LegQuotes.ChargedIsWorst speaks of the rounded one.
- LegQuotes.QuotedPolymarketIsWorst: of the power in the fee curve only monotony is used, and the steps asked of the limit are as for Kalshi.
- PairedQuote.DerivePairedQuote: works in exact real arithmetic, so the tolerance of 1e-6 is a constant of the search and not a guard against floating-point noise.
- QuoteToLedger.QuoteHoldsInLedger: takes as given what the fills cost; PairExecution.FilledPairHolds derives it.
- PairExecution.ExecutedPairHolds: takes the cost of the Polymarket leg as given; PairExecution.FilledPairHolds derives it.
- PairExecution.FilledPairHolds: asks for fills in steps of 1e-4; the ledger also takes finer ones, whose gross amounts it rounds.
- ClipPlan.PlanIsSound: clip size, clip count and probe are finite numbers; infinite ones and NaN are not modelled.
- PriceGrid.MovesAddUp: a tick count is an integer; the source also refuses fractional ones.
- Admission.DeadlineIsExact: the identity comparisons, the tick and fee metadata of a single quote and the combination's expected outcomes enter as facts of the evidence, and sums of times are exact.
- FillTracker.RunKeeps: identifiers are lower-cased in ASCII only, capture times are integers, and the fields of a fill that the tracker never looks at are left out.
- FillTracker.RealtimeOrderFillTracker.ReadFills: a limit is a finite number.
- KalshiBook.RunTracks: a run contains no resynchronisation over REST, which replaces the book from another source, and sequence numbers are integers. Levels are keyed by the text of their price, as in the source, and so is the venue's book: a venue that wrote one price in two ways, such as 0.5 and 0.50, would be taken to have two levels.
- Migrations.RunKeeps: a migration's own effect on the schema is left out; only whether it succeeds counts, and a transaction is all or nothing.
- Activation.RunKeeps: the request that an event records, its hash, its unique id and the foreign keys to artifacts are left out, and a session waits for the row lock at the default isolation level.
- Breakers.AggregateIncidents: the display key of a scope and the legacy projection for the user interface are left out.
- LedgerOrder.LedgerIgnoresOrder: which error is reported for unacceptable evidence does depend on the order; only acceptance and the result are claimed.
- LedgerLaws.DeltaIsDifference: the hashes and JSON texts that a projection carries beside its proof are left out, as is the conversion of amounts to JavaScript numbers.
- SizeUnits.ReadBackUpToIff: doubles are rounded to 53 bits at any exponent; subnormal and infinite ones, far outside the sizes that the ledger reads, are not modelled.
- Terminal.OrdinaryProducerMeetsConsumer: for a size above 128.00000001 that is no double, only Terminal.ProducerMeetsConsumer says whether it is read, through the scaling itself.
- CanonicalJson.CanonicalIsNormal: a finite number is known by the text JavaScript gives it; which of several errors is thrown, sparse arrays and cyclic values are left out.
- Enumerations, environment and command-line parsing, fee classification, incident constructors, report scripts and the other sizing helpers of `fees.ts` would only add easy members.
- Network connections, SQL text, catalog inspection, cryptography and the user interface are outside the model.

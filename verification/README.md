# Prediction-market arbitrage scanner: verified model

A Dafny model of the parts of the scanner that hold real algorithms or protocols, with proofs of what they
keep over every input, every run and every interleaving. `dafny verify dfyconfig.toml` checks the whole project.

The system watches several prediction markets, finds sets of contracts that cost less than they must pay, and
executes them under limits. The model covers:

- **The treasury ledger** (`TransferLedger`, `Numerals`). Transfers between venues are claimed in a shared
  SQLite table under a rolling 24-hour cap and a unique idempotency key. Any number of connections run the
  claim as separate steps: cutoff, lock, key lookup, sum, insert, commit or abort, with other transfers being
  updated in between. The cap query compares epoch seconds as text.
- **WebSocket-triggered execution** (`WsExecution`, `TriggerDeduper`). Permits and per-market locks shared by the
  price-update handler's fallback and the priority consumer; the cooldown deduper with its eviction.
- **The inverted indexes** (`KeyedIndex`, `OpportunityIndex`, `CrossPairs`). Which opportunities or matched pairs
  a price tick concerns, which tokens to subscribe to, and the cache-driven evaluation of a matched pair.
- **Settlement accounting** (`LegPricing`, `Settlement`, `LegPayouts`). Venue-aware pricing of trade legs, which legs
  a resolution pays, and the fail-closed realized profit and loss.
- **Fees and claimed profits** (`Fees`, `KalshiFee`, `WorstCase`, `FeePath`). The fee functions, Kalshi's rounding
  on the cent grid, what each net-profit claim is worth over the outcomes, and the choice of a two-venue path.
- **The backtest and its tuning sweep** (`Backtest`, `Bookings`, `Solvency`, `Sweep`). The replay loop, its one-pass
  drawdown tracker, what every booked trade is, the per-type and per-layer books, when a run stays solvent, and what
  raising a threshold can do.
- **The correlation tracker** (`Pearson`, `Buckets`, `Sorting`, `PairScan`, `Correlation`). Bucketed averages, the
  correlation coefficient compared through its square, and the scan over all pairs of markets.
- **Smaller machines**: rate-limited alerting and loss streaks (`Alerting`), the credit-capped evidence job
  (`EvidenceJob`), the calibration weight cache and consensus (`Calibration`), and the trade database with its
  purge and per-strategy totals (`TradeStore`). `Basics` holds shared vocabulary.

Money, prices and times are exact numbers. The clock, the provider's replies, the matcher's output and the
layer table are parameters. Where a claim of the code's own documentation fails, the model keeps the code, a
lemma exhibits the failing input, and another lemma says exactly when the claim holds.

## Findings

- The settlement comment says that the halt can only over-trigger. For one record, in whatever state, it does so
  exactly when the leg is robust (`Settlement.FailClosedExactlyWhenRobust`): a usable fill is at most the order price,
  where there is one, and at most what the worst case charges (a dollar a share; the size, for a dollar order smaller
  than one contract); and an unusable fill does not hide an order price that would do better than the worst case. A
  30-cent Kalshi order at 60 cents is a case outside it.
- A lost *size* makes the leg unpriceable. The forced loss is then safe, for every settlement, if and only if the
  true cost is at most the larger of the other legs' cost and the stored expectation
  (`Settlement.LostSizeIsSafeExactlyWhen`, with an example in `Settlement.LostSizeHidesALoss`).
- The cap query compares epoch seconds as text. It sees the whole day, and the atomic claim keeps every capped table
  capped, if and only if the second a day before the cutoff instant and the new row's have equally many digits
  (`TransferLedger.QuerySeesTheDayExactlyWhen`, `TransferLedger.ClaimKeepsCapExactlyWhen`). The next day on which
  they do not follows the rollover to eleven digits, in 2286 (`TransferLedger.RolloverBreaksTheCap`).
- `update_transfer` accepts any status. An update keeps every capped table capped if and only if it does not move a
  row that was not counted to a status that is (`TransferLedger.UpdateKeepsCapExactlyWhen`).
- A Kalshi set just above break-even pays no fees. Lowering one ask does not lower the claimed profit if and only if
  the set was profitable before, or still is not, or the cut pays for the fees that start
  (`KalshiFee.LowerAskNeverHurtsExactlyWhen`, with an example in `KalshiFee.BreakEvenLineIsAStep`).
- The daily limit alert shares its rate limit with the 80% warning, and its once-a-day flag is set even when
  the alert is dropped: a limit reached within the rate limit of the warning is never reported that day
  (`Alerting.WarningSwallowsTheLimitAlert`).
- The weight cache's key for "no category" is also the key of a category named `all`. For platform names without a
  colon that is the only way two questions with different answers share an entry
  (`Calibration.SharedButDifferentExactlyWhen`, `Calibration.AllCanBeServedAWrongWeight`). A colon in a platform name
  would be another (`Calibration.ColonCanBeServedAWrongWeight`), though no caller in the repository passes one.
- The cache key omits the base weight, so within the hour a question is answered with the first one's base, which is
  right if and only if the two agree (`Calibration.FirstBaseIsServed`); every caller uses the default.
- A triangular opportunity's market title is filed under its platforms as if it were a token, so the Polymarket feed
  can subscribe to a title (`OpportunityIndex.MarketLabelIsSubscribed`).
- Foreign keys are declared but never enabled. Every reference holds throughout a history if and only if each logging
  call names rows that are there and no purge removes a trade that a partial fill it leaves still names
  (`TradeStore.IntegrityExactlyWhenCareful`, `TradeStore.PurgeKeepsIntegrityExactlyWhen`). Purging a type between
  logging an opportunity and its trade leaves a dangling trade (`TradeStore.PurgeBetweenLogsDangles`); a fill logged for
  one opportunity and another's trade can lose that trade (`TradeStore.PurgeStrandsAFill`), and no fill does that is
  logged for a trade of its own opportunity (`TradeStore.PurgingIsNeverToBlame`). The market maker's inventory hedge
  logs its fill for trade 0 and opportunity -1, which never exist (`TradeStore.MakerHedgeAlwaysDangles`).
- `find_lowest_fee_path` maximises net profit, although its documentation says that it minimises fees. What it
  returns has the lowest fees if and only if some admissible pair has both the least fees and, first in visiting
  order, the least cost plus fees (`FeePath.LowestFeesExactlyWhen`, with an example in
  `FeePath.CheapestPathIsNotChosen`).
- In expected-value mode, the default, a cross-venue claim is paid by both outcomes if and only if the two venues' win
  fees agree, for a price strictly between zero and one (`WorstCase.ExpectedValueBindsExactlyWhen`, with an example in
  `WorstCase.ExpectedValueCanOverpromise`).
- The backtest stakes a tenth of the balance. From every positive initial balance it keeps a positive balance if and
  only if no eligible snapshot's unit loses ten times its cost or more (`Solvency.SolventExactlyWhenSurvivable`).
- Raising a threshold can add trades: skipping the snapshot that would have ruined the run leaves money for those after
  it. Over any class of recorded snapshots that holds the signals, no sweep ever gains a trade that way if and only if
  every snapshot of the class that could be traded loses less than ten times its cost
  (`Solvency.RaisingNeverAddsExactlyWhen`, and over the cells of the grid `Sweep.SweepNeverGainsExactlyWhen`). On
  recorded prices that are prices modest rates meet the condition; gas configured at a dollar fails it on one-cent quotes
  (`Sweep.RatesDecideTheSweep`, with an example in `Solvency.DearGasBreaksTheSweep`).
- With a non-positive poll interval the evidence job's loop can run for ever: it does if and only if every reply is that
  the job is processing and the requests together never use up the time allowed (`EvidenceJob.RunsForEverExactlyWhen`).
- The snapshot filter drops only prices of exactly zero and one; its comment speaks of everything outside (0, 1). The
  two agree on a price if and only if it is not below zero or above one (`Buckets.KeptPriceIsInRangeExactlyWhen`).

## Model

| member | source | states |
|---|---|---|
| Numerals.NumeralsReadBack | db.py:1180-1186 | a numeral reads back as its number, and only negative ones carry a sign |
| Numerals.TextOrderIsNumericOrder | db.py:1180-1186 | for any two numerals of equal length, text comparison and numeric comparison agree |
| Numerals.ShorterNumeral | db.py:1180-1186 | when one numeral is a digit shorter, the text comparison is decided by the longer one's leading digits |
| TransferLedger.QueryCoversTheDay | db.py:1168-1186 | while epoch seconds keep one number of digits the query selects exactly the rows not older, in whole seconds, than a day before the cutoff instant, so it misses no row of that day |
| TransferLedger.AppendKeepsCap | db.py:1180-1206 | where the query sees every row that shares a window with the new one, a row that fits what it reported keeps every 24-hour window, wherever it starts, within the limit |
| TransferLedger.StepKeepsInv | db.py:1153-1209 | every step of the claim protocol, by any connection, keeps the ledger invariant |
| TransferLedger.CapHoldsInEveryRun | db.py:1153-1209 | in every state of every interleaving the rows of any 24 hours that are pending, succeeded or dry runs sum to no more than the cap, each key owns at most one row, and the callers told "created" are exactly the rows |
| TransferLedger.ClaimIsDecidedByTheDay | db.py:1153-1209 | a known key is answered with its row; any other claim is refused, with the day's pending, succeeded and dry-run amounts reported, if and only if they and the new amount exceed the cap; otherwise one pending row is added |
| TransferLedger.SuccessFreesNothing | db.py:1106-1121 | a pending transfer that succeeds, or turns out a dry run, goes on using up the cap |
| TransferLedger.PlainClaimIsUncapped | db.py:1123-1151 | the claim without a cap does what a capped one does whose cap is not reached |
| TransferLedger.TransactionsGoOn | db.py:1169-1209 | the holder of the writer lock always has a step that brings its transaction closer to its end |
| TransferLedger.TransactionsAreAtomic | db.py:1153-1209 | each completed transaction, however interleaved, equals one atomic capped claim on the table it committed to |
| TransferLedger.RowsPersist | db.py:1106-1121 | a committed row keeps its id, key, amount and time for the rest of the run |
| TransferLedger.OneKeyOneTransfer | db.py:1153-1209 | in every run two answers that name a row for one key name the same row, and at most one of them says that it was created |
| TransferLedger.ReplayReturnsTheOriginal | db.py:1171-1178 | repeating a key with any amount, cap or time returns the first id and leaves the table unchanged |
| TransferLedger.SplitFormBreaksTheCap | db.py:1220-1230 | reading the day's transfers and then claiming without a cap lets two connections exceed it |
| TransferLedger.LongerNumeralIsOverlooked | db.py:1180-1186 | a second at most two days later whose numeral is longer than the cutoff's is not selected |
| TransferLedger.QuerySeesTheDayExactlyWhen | db.py:1168-1186 | the query sees every row stamped in the day up to the new row if and only if the seconds at the two ends have equally many digits |
| TransferLedger.ClaimKeepsCapExactlyWhen | db.py:1153-1209 | an uninterrupted claim keeps every capped table capped under the same condition, and only under it |
| TransferLedger.RolloverBreaksTheCap | db.py:1153-1209 | for a day after the epoch second gains an eleventh digit the atomic claim can exceed the cap |
| TransferLedger.UpdateKeepsCapExactlyWhen | db.py:1106-1121 | an update from one status to another keeps every capped table capped if and only if the old status was pending, succeeded or a dry run, or the new one is none of these |
| TransferLedger.TransferStore.Lookup | db.py:1171-1178 | the id of the row that owns a key, or none |
| TransferLedger.TransferStore.SumRecent | db.py:1180-1187 | the summation loop computes the amount the cap query reports |
| TransferLedger.TransferStore.ClaimWithDailyLimit | db.py:1153-1209 | an uninterrupted capped claim: replay, rejection with the amount used, or one new pending row |
| TransferLedger.TransferStore.Claim | db.py:1123-1151 | the uncapped claim: one new pending row, or the existing id and an unchanged table |
| TransferLedger.TransferStore.Log | db.py:1062-1104 | one new row with the given status, or the id of the row that already has the key and an unchanged table |
| TransferLedger.TransferStore.UpdateStatus | db.py:1106-1121 | only the status of the named row changes |
| WsExecution.StepKeepsInv | continuous.py:1917-1934 | every step of an execution attempt keeps permits, locks, registry and running executions consistent |
| WsExecution.SafeInEveryRun | continuous.py:2112-2146 | in every interleaving free permits plus holders equal the maximum, and no two executions under way are for one requested market |
| WsExecution.AttemptsNameTheirRequest | continuous.py:1917-1934 | in every run an attempt under way, at whatever point, is about the market its agent asked for last |
| WsExecution.RefusedExactlyWhen | continuous.py:1920-1934 | an attempt is turned away for want of a permit if and only if the maximum are under way, and at its lock if and only if another attempt executes for the same market; attempts for different markets never exclude each other |
| WsExecution.NothingLeaksWhenIdle | continuous.py:2112-2146 | whatever way attempts end, by refusal, busy lock, return or exception, all permits and locks have been given back |
| WsExecution.LocksNeverChange | continuous.py:966-971 | the registry returns the same lock for a market for ever and shares it with no other market |
| WsExecution.AttemptsNeverBlock | continuous.py:1920-1934 | an attempt under way always has an enabled step that brings it closer to its end |
| WsExecution.MarketLocks.Get | continuous.py:966-971 | one entry per market, created on first use |
| TriggerDeduper.EvictionIsInvisible | continuous.py:289-304 | over every history with non-decreasing times the evicting deduper answers as one that never evicts |
| TriggerDeduper.KeptExactlyWhen | continuous.py:297-303 | a table of more than ten thousand entries keeps those of the last minute and of the last two cooldowns, a smaller one all |
| TriggerDeduper.RefusedExactlyWithinCooldown | continuous.py:289-309 | a call is refused if and only if an earlier admission of its key, not forgotten since, is less than the cooldown old |
| TriggerDeduper.AdmissionsAreSpaced | continuous.py:289-309 | two admissions of one key with no forget between them are at least the cooldown apart |
| TriggerDeduper.Deduper.Admit | continuous.py:289-304 | claim or refusal and the new table, eviction included |
| TriggerDeduper.Deduper.Forget | continuous.py:306-309 | the claim is released |
| KeyedIndex.FileOne | continuous.py:326-327 | filing an item under one key extends that key's list and no other |
| KeyedIndex.FoundExactlyUnderItsKeys | continuous.py:331-334 | an item is found under exactly the keys it names |
| KeyedIndex.ScanIsTheFilteredList | continuous.py:331-334 | without repeated keys a lookup is the plain filtered list in order |
| OpportunityIndex.SideBetHearsOnlyItsToken | continuous.py:365-371 | a one-sided crypto bet is keyed by a Polymarket token if and only if it buys that token |
| OpportunityIndex.PolymarketKeysExactly | continuous.py:359-433 | which Polymarket texts key an opportunity of any kind: its own tokens or the one it buys, and the free texts of the divergence and triangular kinds |
| OpportunityIndex.KeysExactly | continuous.py:359-433 | every key of an opportunity and no other, at every venue: its tokens, the market each venue's own field names, and the free texts of the divergence and triangular kinds |
| OpportunityIndex.MarketLabelIsSubscribed | continuous.py:336-433 | a triangular opportunity between Polymarket and another venue makes the feed subscribe to its market label |
| OpportunityIndex.Index.Rebuild | continuous.py:319-329 | after a rebuild every lookup equals a linear scan of the eligible opportunities, once per matching key, and no list is empty |
| OpportunityIndex.Index.Affected | continuous.py:331-334 | a lookup returns that scan |
| OpportunityIndex.CollectScores | continuous.py:345-348 | one entry per key with the best profit of its opportunities |
| OpportunityIndex.ChooseTokens | continuous.py:351-356 | one pass down the ranking takes earlier tokens before later ones, up to the limit, for both platforms |
| OpportunityIndex.Index.SubscriptionTokens | continuous.py:336-356 | the subscription of each platform is a best set of as many tokens as fit |
| OpportunityIndex.TopSetFacts | continuous.py:336-356 | its size is the smaller of limit and supply, and nothing left out is strictly more profitable, or equally profitable and later in text order |
| OpportunityIndex.TopSetIsUnique | continuous.py:345-356 | ties are broken by key, so the set is determined |
| CrossPairs.PairIndex.Rebuild | cross_pair_index.py:153-237 | the index holds exactly the matches that survive every filter, each under both tokens and the ticker |
| CrossPairs.PairIndex.Touching | cross_pair_index.py:239-246 | a lookup equals a linear scan of the pairs, once per matching key |
| CrossPairs.PairsComeFromMatches | cross_pair_index.py:153-237 | the index's pairs are those of the matches with both sides, inside their window, with two tokens and a ticker; the first token is bought for yes and the second for no |
| CrossPairs.PolyAskExactly | cross_pair_index.py:77-93 | a Polymarket token is paid for at the best ask of a current price, or else the ask, or else the price, whichever is the first to read as a probability |
| CrossPairs.KalshiNoExactly | cross_pair_index.py:95-119 | Kalshi's no is paid for at its ask, or else at its price under either name |
| CrossPairs.KalshiYesExactly | cross_pair_index.py:95-119 | and its yes likewise, or last of all at the bare price |
| CrossPairs.FoundProfitIsPaidEitherWay | cross_pair_index.py:248-305 | for aligned and inverted pairs alike, the direction reported earns the same however the question resolves: the reported profit whenever the pair costs less than a dollar |
| CrossPairs.FoundExactlyWhenADirectionClears | cross_pair_index.py:256-278 | a pair is reported exactly when all four asks are known and a direction reaches the minimum; the better one is reported |
| CrossPairs.FoundPricesAreFresh | cross_pair_index.py:66-75 | every price a reported opportunity rests on is cached and no older than the limit |
| LegPricing.PricedIsNonNegative | continuous.py:488-578 | a leg is priced exactly when its size is usable, and then cost and contracts are not negative |
| LegPricing.LostPriceIsNoBetter | continuous.py:532-578 | losing the price or fill of a robust leg, whatever state they are in, never lowers its cost and never makes it worth more, won or lost |
| LegPricing.FragileLegGains | continuous.py:546-567 | a leg that is not robust gains from losing its fill, one way or another |
| LegPayouts.PricedByVenue | continuous.py:467-578 | a leg with usable numbers holds its shares, or the whole contracts its dollars buy and one at least, or its stake over its price, by its venue, and has cost its fill times what it holds |
| LegPayouts.VenueByName | continuous.py:467-486 | which venues trade in shares, dollars and stakes |
| LegPayouts.WorstByVenue | continuous.py:532-578 | a leg without a price it needs holds nothing and has cost the most its venue allows; one without a size has no price at all |
| LegPayouts.RoundsToTheNearestCent | continuous.py:620-677 | a report is the nearest whole cent, and of two equally near the even one |
| LegPayouts.AliasesOfTheWinner | continuous.py:435-454 | a winner yes, or no, is matched by its aliases and any other by its own name, whatever the case |
| LegPayouts.NeverBothWays | continuous.py:435-454 | so no side wins for both |
| LegPayouts.SettlesOn | continuous.py:655-677 | a Polymarket leg settles on the outcome bought, whatever its execution side, and any other venue's on its side |
| LegPayouts.HedgedPairPaysOnce | continuous.py:655-677 | of a yes leg and a no leg, at any venues, exactly the one the question resolved for pays, and both are paid for |
| LegPayouts.BothOutcomesPayOnce | continuous.py:655-677 | in particular of Polymarket shares of both outcomes, logged with whatever sides |
| LegPayouts.ExpectationExactlyWhenNothingFilled | continuous.py:609-618 | without a confirmed fill the stored expectation is reported |
| Settlement.CalcRealizedPnl | continuous.py:581-677 | the routine returns the stored expectation without fills, and otherwise the settled result |
| Settlement.UnpriceableLegForcesALoss | continuous.py:620-653 | one unpriceable leg forces a loss of at least the known cost and the size of the expectation |
| Settlement.UnfilledRowsNeverMatter | continuous.py:612-618 | rows that are not confirmed fills change nothing, wherever they stand |
| Settlement.UnsidedReportIsALowerBound | continuous.py:655-677 | without a winning side the report is at most the true result of every outcome in which some leg wins, and is attained |
| Settlement.DamageNeverRaisesPnl | continuous.py:532-578 | whatever state the other legs are in, losing prices and fills of robust legs never raises the reported result |
| Settlement.DamagedReportIsNeverOptimistic | continuous.py:616-677 | a report from damaged records without a winning side never exceeds what the intact records pay on any single leg |
| Settlement.FailClosedExactlyWhenRobust | continuous.py:532-578 | for every record, in whatever state, the fail-closed claim holds if and only if its leg is robust |
| Settlement.SmallDollarOrderUnderTriggers | continuous.py:546-567 | a dollar-venue order smaller than one contract under-triggers |
| Settlement.LostSizeIsSafeExactlyWhen | continuous.py:620-653 | once records can no longer be priced the report is at most the true result, for every settlement, if and only if the true cost is at most the larger of the known cost and the stored expectation |
| Settlement.LostSizeHidesALoss | continuous.py:620-653 | for example, with the size lost a real loss is reported as nothing |
| KalshiFee.FeeIsExactCeiling | fees.py:195-201 | on cent prices the floating form with its epsilon is the exact integer ceiling, for every contract count |
| KalshiFee.CapNeverBinds | fees.py:195-201 | the per-contract cap never lowers the fee |
| KalshiFee.FeeIsSymmetric | fees.py:177-201 | buying at a price and at its complement costs the same fee |
| KalshiFee.BatchingNeverCostsMore | fees.py:177-201 | one order never pays more than the same contracts split in two |
| KalshiFee.PricePlusFeeIsMonotone | fees.py:177-201 | price plus fee does not fall when the price rises |
| KalshiFee.LowerAskNeverHurts | fees.py:345-362 | in a profitable Kalshi set of any size, lowering one ask never lowers net profit |
| KalshiFee.BinaryIsATwoLegSet | fees.py:325-342 | the binary form is the two-leg set |
| KalshiFee.LowerAskNeverHurtsExactlyWhen | fees.py:345-362 | for a set of any size, profitable or not, lowering one ask does not lower net profit if and only if the set was profitable, or still is not, or the cut pays the fees |
| KalshiFee.BreakEvenLineIsAStep | fees.py:345-362 | for example, 49 and 50 cents claims less than 50 and 50 |
| WorstCase.MultiCrossIsTheWorstOutcome | fees.py:1059-1114 | the claim is exactly the minimum over the winning leg, for any number of legs |
| WorstCase.BackAllIsTheWorstOutcome | fees.py:480-501 | commission on the cheapest runner is exactly the worst outcome |
| WorstCase.NoSidePaysTheSameWhoeverWins | fees.py:293-322 | NO on every outcome pays the same whichever outcome wins, and the claim is that amount |
| WorstCase.FullSetPaysTheSameWhoeverWins | fees.py:233-290 | a YES share of every outcome pays the same whichever wins, the claim is that amount after entry fees, and YES plus NO is the two-outcome set |
| WorstCase.BackLayPaysTheSameEitherWay | fees.py:504-526 | a crossed back and lay earns the same whether the runner wins or loses, commission taken once; an uncrossed book claims nothing |
| WorstCase.FrechetIsTheWorstReachableState | fees.py:1595-1651 | the lock's claim is the minimum over the states the implication allows, and only the forbidden state undercuts it |
| WorstCase.CrossClaimsTheWorstOrBetween | fees.py:970-1023 | worst-case mode reports the worse outcome exactly; expected-value mode lies between the outcomes |
| WorstCase.ExpectedClaimIsTheMean | fees.py:21-36 | in expected-value mode the claim is the mean of the two outcomes weighted by the first leg's price, kept between zero and one |
| Fees.VenuesChargeOnce | fees.py:938-967 | each venue charges on entry or on a win and never both, at its own rate |
| Fees.GeminiRoundsUp | fees.py:729-748 | Gemini's fee is the next whole cent above its exact share |
| WorstCase.SelectedFeesCoverBoth | fees.py:21-36 | the probability-weighted fee covers the dearer outcome if and only if the outcomes' fees agree, or the price is at the end that charges the dearer one |
| WorstCase.ExpectedValueBindsExactlyWhen | fees.py:970-1023 | an expected-value claim is paid by both outcomes under the same condition on the venues' win fees, and only under it |
| WorstCase.ExpectedValueCanOverpromise | fees.py:970-1023 | for example, a claimed profit that the cheaper leg's win does not pay |
| FeePath.FindLowestFeePath | fees.py:1175-1231 | the first most profitable admissible path in visiting order, and none exactly when no pair is strictly profitable |
| FeePath.OfferedExactlyWhen | fees.py:1137-1172 | a path between two quotes inside the dollar is on offer if and only if something is left after both prices, and after everything both venues charge |
| FeePath.PathProfitIsPaidEitherWay | fees.py:1137-1172 | the promised profit is at most what either leg's win pays |
| FeePath.LowestFeesExactlyWhen | fees.py:1175-1231 | the path chosen has the lowest fees if and only if some admissible pair has both the least fees and, first in visiting order, the least cost plus fees |
| FeePath.SearchFindsLowestFeesExactlyWhen | fees.py:1175-1231 | so stated of whatever path the search returns from its quotes |
| FeePath.CheapestPathIsNotChosen | fees.py:1210-1229 | for example, whatever path the search returns from certain quotes, it is a dearer one than a free one on offer |
| Backtest.Run | backtest.py:132-265 | the loop computes the replay of the snapshots |
| Bookings.EligibleExactlyWhenWorthwhile | backtest.py:188-213 | a snapshot may be bought if and only if its layer, profit and profit over cost meet the thresholds and both are positive |
| Bookings.EveryTradeIsAccountedFor | backtest.py:177-265 | in any run every booked trade bought a recorded snapshot that meets both thresholds and the layer, staked what the sizing rule says, and moved the balance by the unit's profit times the units bought |
| Bookings.SolventRunBooksTheWorthwhile | backtest.py:177-265 | a solvent run books exactly the snapshots that meet them, one trade each, in order |
| Bookings.VenueUnits | backtest.py:300-369 | two legs of one venue keep what is left of the dollar after both prices and that venue's charges |
| Bookings.BookUnits | backtest.py:334-343 | two backed runners keep it less commission on the cheaper one's winnings |
| Bookings.BackLayUnits | backtest.py:336-345 | a runner backed and laid keeps the difference less commission, and an uncrossed pair nothing |
| Bookings.TypesInB | backtest.py:318-349 | Polymarket's binaries are priced as such, Betfair's books at five percent |
| Bookings.TypesInN | backtest.py:320-321 | and parameterised types by the name they begin with, whatever follows it |
| Bookings.TypesInK | backtest.py:322-325 | Kalshi's binaries and sets |
| Bookings.TypesInGIC | backtest.py:346-355 | Gemini, IBKR and cross-venue pairs |
| Bookings.TriangularIsTwoVenues | backtest.py:326-329 | a triangle is a pair at two venues |
| Bookings.TypesInM | backtest.py:330-345 | sets across venues, and Matchbook without commission |
| Bookings.TypesInS | backtest.py:336-345 | Smarkets at two percent and SX Bet without commission |
| Bookings.EstimatedTypes | backtest.py:356-366 | signals and directional trades keep their estimate |
| Bookings.LayerOfAType | config.py:318-329 | a type's layer is that of its own name, or of the first listed name it begins with, or none |
| Backtest.DrawdownIsExact | backtest.py:230-238 | the one-pass tracker equals the largest fall over all ordered pairs of the equity curve |
| Backtest.PnlIsConserved | backtest.py:230-298 | final minus initial balance, the logged profits and the per-type totals agree, with counts and wins |
| Backtest.LayerSummaryIsExact | backtest.py:88-95 | regrouping by layer conserves counts, wins and profit, and each layer's row is exactly its trades |
| Solvency.ChargedBoundExactlyWhen | backtest.py:300-369 | a unit that pays a dollar loses no more than it cost if and only if it is charged nothing or its fees are at most a dollar |
| Solvency.UnitNeverLosesMoreThanItCost | backtest.py:300-369 | with modest configured rates every dispatched fee function returns at least minus the cost of the unit |
| Solvency.TradeLeavesSomethingExactlyWhen | backtest.py:215-231 | a trade leaves a positive balance if its unit loses less than ten times its cost; otherwise a full-sized one takes everything |
| Solvency.TradeLosesAtMostATenth | backtest.py:215-231 | one trade loses at most a tenth of the balance |
| Solvency.SolventAndFiltered | backtest.py:177-265 | where eligible snapshots are survivable the balance stays positive and the log books exactly the eligible snapshots, in order |
| Solvency.SolventExactlyWhenSurvivable | backtest.py:177-265 | from every positive initial balance the run keeps a positive balance if and only if no eligible snapshot's unit loses ten times its cost or more |
| Solvency.ModestRatesSurvive | backtest.py:300-369 | with modest configured rates every recorded price list is survivable, whatever the thresholds |
| Solvency.TighterSelectsAmong | backtest.py:188-213 | tighter thresholds select among what looser ones select |
| Solvency.TradeCountIsMonotone | backtest.py:177-265 | where the looser run's eligible snapshots are survivable, raising either threshold never adds a trade, although later sizes change |
| Solvency.SkippingWinsTrades | backtest.py:177-265 | any unsurvivable snapshot followed by two better ones: the run that skips it books two trades, the other one |
| Solvency.RaisingNeverAddsExactlyWhen | backtest.py:177-265 | for every configuration and class of recorded snapshots, raising thresholds never adds a trade, whatever is recorded, if and only if every tradable snapshot of the class is survivable |
| Sweep.RunTuningSweep | backtest.py:592-631 | the cells are the sorted, deduplicated grid in order, each equal to a direct run |
| Sweep.SweepIsMonotone | backtest.py:592-631 | along both axes of the grid trade counts never rise, wherever the looser cell's trades are survivable |
| Sweep.SweepNeverGainsExactlyWhen | backtest.py:592-631 | over every grid and recording, no later row or column has more trades, under the same condition and only under it |
| Sweep.ModestSweepIsMonotone | backtest.py:592-631 | in particular everywhere with modest configured rates |
| Sweep.RatesDecideTheSweep | backtest.py:592-631 | on recorded prices that are prices modest rates never gain a trade along an axis and gas of a dollar can |
| Solvency.DearGasBreaksTheSweep | backtest.py:177-265 | with gas at a dollar ordinary quotes end the run, and a tighter threshold books more trades |
| Pearson.CauchySchwarz | correlation_tracker.py:53-57 | the square of the cross sum is at most the product of the two sums of squares |
| Pearson.CoefficientIsBounded | correlation_tracker.py:46-61 | wherever r is defined its square is at most one |
| Pearson.CoefficientIsSymmetric | correlation_tracker.py:39-61 | r does not depend on the order of the series |
| Pearson.PerfectExactlyWhenAffine | correlation_tracker.py:39-61 | r is plus or minus one if and only if one series is an affine function of the other |
| Pearson.UndefinedExactlyWhen | correlation_tracker.py:46-60 | r is undefined if and only if the series differ in length, have fewer than two points, or one of them does not vary |
| Pearson.CrossMomentIsTextbook | correlation_tracker.py:53-57 | its cross moment is the sum of the products less the first mean times the second sum |
| Pearson.VariancesAreTextbook | correlation_tracker.py:53-57 | and its variances likewise |
| Buckets.BuildBucketedSeries | correlation_tracker.py:88-121 | each market's series holds, for exactly the buckets with a usable row, the average of their prices |
| Buckets.FallsInItsWindow | correlation_tracker.py:100-116 | a row counts in the bucket whose window holds its time and nowhere else, and only labelled, timed and with a price that is neither zero nor one |
| Buckets.AveragedIsUnique | correlation_tracker.py:88-121 | that determines the series |
| Buckets.BucketingIgnoresOrder | correlation_tracker.py:88-121 | the same rows in any order give the same series |
| Buckets.KeptPriceIsInRangeExactlyWhen | correlation_tracker.py:107-111 | that a kept price lies strictly between zero and one holds if and only if the price is not outside that range |
| PairScan.PairIsNew | correlation_tracker.py:172-188 | the nested loop never meets a pair it has recorded |
| PairScan.ScanPairs | correlation_tracker.py:170-194 | the loop with its guard set collects every match of the list once |
| PairScan.SortIsStable | correlation_tracker.py:195-196 | equally strong relations stay in the order in which they were found |
| Correlation.RSquaredIsBounded | correlation_tracker.py:53-61 | r squared lies in [0, 1] and reaches one only on the Cauchy-Schwarz equality |
| Correlation.AlignedAtTheCommonBuckets | correlation_tracker.py:64-73 | the two series compared are their values at the buckets they share, in time order |
| Correlation.CandidateExactlyWhenRelated | correlation_tracker.py:172-182 | two markets qualify if and only if they share enough buckets, r is defined, and the square of its cross moment is at least the squared threshold times the product of its variances |
| Correlation.StrengthIsTheSquare | correlation_tracker.py:58-61 | and their strength times that product is the square |
| Correlation.ThresholdOneKeepsOnlyAffine | correlation_tracker.py:176-181 | at threshold one only exact affine relations survive |
| Correlation.CandidateIsSymmetric | correlation_tracker.py:173-181 | whether and how strongly two markets qualify does not depend on their order |
| Correlation.ComputeCorrelatedPairs | correlation_tracker.py:143-197 | exactly the pairs related in that sense, named in text order, each once with its sample count and r, strongest first; an error exactly when the threshold is outside [0, 1] |
| Correlation.EachRelationOnce | correlation_tracker.py:161-197 | two markets are related in that sense if and only if exactly one entry reports them |
| Alerting.WindowedStreak | alerting.py:161-167 | a bounded window sees the true losing streak, capped at its length |
| Alerting.CountTrailingLosses | alerting.py:161-167 | the backward loop counts the losses since the last win |
| Alerting.AlertsAreSpaced | alerting.py:113-121 | in every history two accepted alerts of one type are at least the rate limit apart |
| Alerting.DroppedExactlyWhenRecent | alerting.py:113-121 | over every history an alert asked for is dropped if and only if one of its type was accepted less than the rate limit before, or none was and the clock is below the limit |
| Alerting.ResultsAreATail | alerting.py:158-159 | the result window is the tail of everything since the daily reset |
| Alerting.RecentIsATail | alerting.py:123-132 | the ring of recent alerts is the tail of everything accepted |
| Alerting.GlobalStreakIsTrueExactlyUpToTheWindow | alerting.py:149-175 | the streak test agrees with unbounded history, for every history, if and only if the threshold is at most 100 |
| Alerting.OneTriggerPerLongRun | alerting.py:309-334 | one strategy's results ask for an alert once per maximal losing run of three or more |
| Alerting.StrategyAsksOncePerLongRun | alerting.py:297-338 | so does every strategy, over any interleaving of all calls |
| Alerting.LimitAlertExactlyWhen | alerting.py:177-210 | the limit alert goes out if and only if this is the day's first call at the limit and no daily alert was accepted within the rate limit |
| Alerting.WarningExactlyWhen | alerting.py:177-210 | and the warning if and only if this is the day's first call at eighty percent of the limit, it is below the limit, and no daily alert was accepted within the rate limit |
| Alerting.OneChanceADay | alerting.py:177-210 | once a call has reached the limit no later call before the reset sends a daily alert |
| Alerting.WarningSwallowsTheLimitAlert | alerting.py:193-210 | a limit hit soon after the 80% warning is never reported that day |
| Alerting.AlertManager.Raise | alerting.py:92-147 | claim of the type's slot and record of the alert, or refusal and no change |
| Alerting.AlertManager.CheckLossStreak | alerting.py:149-175 | one result recorded, and an alert asked for at the threshold |
| Alerting.AlertManager.CheckDailyLoss | alerting.py:177-210 | the flags and the alert for the share of the limit reached |
| Alerting.AlertManager.CheckStrategyLossStreak | alerting.py:297-338 | one result recorded for its strategy, and an alert asked for at exactly three losses |
| Alerting.AlertManager.Reset | alerting.py:394-398 | flags and results cleared, everything else kept |
| EvidenceJob.NormalizeEvidence | firecrawl_evidence.py:187-241 | the entries kept are the complete ones that come first with their address, in order; more than eight are refused |
| EvidenceJob.CompleteEntriesAreKept | firecrawl_evidence.py:187-230 | no complete entry is lost but for one with the same address before it |
| EvidenceJob.FreshnessExactly | firecrawl_evidence.py:272-279 | an item is current if and only if it was published within the age limit and at most five minutes ahead |
| EvidenceJob.UrlsAreDistinct | firecrawl_evidence.py:204-230 | addresses are pairwise distinct, and no field is empty |
| EvidenceJob.PollUntilDone | firecrawl_evidence.py:119-179 | the polling loop ends, with the outcome and requests of the specification |
| EvidenceJob.DecidedByTheLastReply | firecrawl_evidence.py:119-179 | the first reply that is not a wait decides, or the last of all; an artifact is returned if and only if it is a completed job within the credit cap and the item ceiling |
| EvidenceJob.AskedAgainExactlyWhen | firecrawl_evidence.py:119-179 | another request follows if and only if one sent in time found the job processing, or timed out at or after the deadline |
| EvidenceJob.Discover | firecrawl_evidence.py:82-184 | validation, creation, polling and clean-up together |
| EvidenceJob.NothingSentExactlyWhen | firecrawl_evidence.py:82-118 | no status request is sent if and only if the question is blank, the age limit out of range, the time used up, or no job was created |
| EvidenceJob.CreatedJobIsSettledOnce | firecrawl_evidence.py:97-184 | on every exit a created job was seen to end or was cancelled, exactly once and never both |
| EvidenceJob.LatePollsAreBounded | firecrawl_evidence.py:119-179 | at most one status request is decided on at or after the deadline, and at most one decided on before it goes out after it |
| EvidenceJob.PollCountIsBounded | firecrawl_evidence.py:119-179 | polls are at least the interval apart, which bounds their number |
| EvidenceJob.RunsForEverExactlyWhen | firecrawl_evidence.py:119-179 | the loop never ends if and only if it does not pause, the job is always processing, and the requests never use up the time allowed |
| EvidenceJob.ArtifactsRespectTheLimits | firecrawl_evidence.py:142-166 | a returned artifact respects the credit cap where usage is a number, and the item ceiling |
| Calibration.BetterScoreNeverWeighsLess | calibration_tracker.py:236-247 | a lower Brier score never gets a smaller multiplier |
| Calibration.ScoredExactlyWhen | calibration_tracker.py:108-153 | a platform has a score if and only if ten of its records of the last 365 days fall under the question |
| Calibration.ScoreIsTheMeanSquaredError | calibration_tracker.py:108-153 | its score times their number is the sum of their squared errors |
| Calibration.MultiplierOfTheTotal | calibration_tracker.py:232-247 | and its multiplier is the step that sum falls in |
| Calibration.TableHoldsTheLastWord | calibration_tracker.py:76-101 | over every run a row is in the table if and only if it was the last resolution of its market on its platform |
| Calibration.TableHoldsEachMarketOnce | calibration_tracker.py:61-69 | and no market of a platform stands there twice |
| Calibration.DroppedExactly | calibration_tracker.py:103-105 | a resolution drops the remembered weights of its own platform and no others, for platform names without a colon |
| Calibration.KeysAgreeExactly | calibration_tracker.py:226 | for platform names without a colon cache keys agree if and only if platform and category text do |
| Calibration.SharedButDifferentExactlyWhen | calibration_tracker.py:205-232 | two such questions share an entry and yet want different rows if and only if they ask one platform, once without a category and once for the category `all` |
| Calibration.ServedWeightIsFresh | calibration_tracker.py:205-257 | over every run that never asks one platform both ways a served weight answers, from the platform's present records, a question under its key put in the last hour |
| Calibration.OneBaseIsServedFresh | calibration_tracker.py:205-257 | where that key was always asked with one base weight it is the weight recomputed with that base as of some moment in the last hour |
| Calibration.FirstBaseIsServed | calibration_tracker.py:205-257 | within the hour a question is answered with the first one's base weight, which is its own answer if and only if the two agree |
| Calibration.ServedWeightIsBounded | calibration_tracker.py:236-257 | in any run a served weight lies between half the least and twice the greatest base weight put under its key |
| Calibration.AllCollides | calibration_tracker.py:226-230 | a question without a category fixes the answer for the category named `all` for an hour |
| Calibration.SharedKeyServesTheWrongWeight | calibration_tracker.py:205-257 | whenever two questions share a key and want different rows, a reachable state serves one of them the other's weight |
| Calibration.AllCanBeServedAWrongWeight | calibration_tracker.py:205-257 | for example, a category named `all` without records is served weight two |
| Calibration.ColonCanBeServedAWrongWeight | calibration_tracker.py:205-257 | and so is a platform whose name holds a colon |
| Calibration.WeightsSumToOne | calibration_tracker.py:309-318 | adjusted weights of a non-empty set sum to one |
| Calibration.ShareOfTotal | calibration_tracker.py:309-318 | each adjusted weight times the total is the raw weight |
| Calibration.ConsensusIsTheWeightedMean | calibration_tracker.py:320-341 | the consensus times the total weight is the sum of the probabilities times their raw weights |
| Calibration.EqualSharesGiveTheMean | calibration_tracker.py:302-317 | with no weight, or weighting switched off, it is the plain mean |
| Calibration.AskedInTurn | calibration_tracker.py:305-307 | each raw weight is the answer for its platform from base weight one, after those before it |
| Calibration.ConsensusIsBetween | calibration_tracker.py:320-341 | the consensus lies between the extremes of the input probabilities |
| Calibration.CalibrationTracker.RecordResolution | calibration_tracker.py:76-106 | the row is stored or replaced and the platform's cache entries are dropped |
| Calibration.CalibrationTracker.GetWeightMultiplier | calibration_tracker.py:205-257 | a live entry as it is, or a recomputation remembered for an hour |
| Calibration.CalibrationTracker.CalculateWeightedConsensus | calibration_tracker.py:320-341 | the weighted sum with the weights asked for in turn |
| TradeStore.PurgeKeepsIntegrityExactlyWhen | db.py:858-905 | a purge keeps every reference, of trades, positions and fills, if and only if no fill it leaves names a trade it removes |
| TradeStore.IntegrityExactlyWhenCareful | db.py:41-81 | a history keeps every declared reference in every state if and only if each logging call names rows present at the time and no purge strands a fill |
| TradeStore.PurgingIsNeverToBlame | db.py:858-905 | where fills are logged for trades of their own opportunity no purge, of any type at any time, leaves a dangling reference |
| TradeStore.PurgeStrandsAFill | db.py:858-905 | for example, a fill logged for another opportunity's trade outlives that trade |
| TradeStore.MakerHedgeAlwaysDangles | hedger.py:628-645 | after any history the inventory hedge's fill refers to rows that are not there |
| TradeStore.PurgeBetweenLogsDangles | db.py:858-905 | a purge between the two logs leaves a dangling trade |
| TradeStore.PurgeLeavesOtherKindsAlone | db.py:858-905 | legs, wins and profit of every other type are exactly as before |
| TradeStore.PurgeRemovesTheKind | db.py:858-905 | no opportunity and no strategy row of the purged type remains |
| TradeStore.SurvivesExactlyWhen | db.py:858-905 | a purge takes the type's opportunities and the trades, positions and fills that name one of them, and nothing else |
| TradeStore.JoinDropsNothing | db.py:674-698 | a type has a row exactly when it has a traded opportunity, so the final join loses none |
| TradeStore.ReportedExactly | db.py:674-698 | the report holds each type's legs, wins and profit, and leaves out only types where all are zero |
| TradeStore.FirstLegBooksTheProfit | db.py:674-698 | the first leg of an opportunity adds its profit, and a win if that is positive, to its own type and nothing elsewhere |
| TradeStore.UntradedIsNotReported | db.py:674-698 | an opportunity without a trade changes no type's line |
| TradeStore.AnotherLegOnlyCountsALeg | db.py:674-698 | a further leg of a traded opportunity changes the leg count and neither profit nor wins |
| TradeStore.LegsAddUp | db.py:682-688 | with references intact the leg counts over all types add up to the number of trades |
| TradeStore.Store.LogOpportunity | db.py:240-270 | one new row with a fresh id |
| TradeStore.Store.LogTrade | db.py:272-308 | one new leg with a fresh id |
| TradeStore.Store.LogPartialFill | db.py:550-585 | one new fill with a fresh id |
| TradeStore.Store.PurgeOpportunitiesByType | db.py:858-905 | the type's opportunities and everything that refers to them are deleted, and the counts returned are the rows removed |

## Left out

- TransferLedger.CapHoldsInEveryRun: assumes non-negative amounts, callers that pass caps no larger than the stated limit, updates that never return a failed transfer to a counted status, and one number of digits of the epoch second from a day before the run to its end; the last two are shown to be exact conditions.
- TransferLedger.ClaimKeepsCapExactlyWhen: from the third day of the epoch on, and for a claim that waits at most a day for the lock.
- TransferLedger.QuerySeesTheDayExactlyWhen: likewise.
- KalshiFee.LowerAskNeverHurtsExactlyWhen: the changed ask is in whole cents and the fee cap is at least two cents a contract; the default is 175.
- TransferLedger.TransferStore.Log: the transaction hash, error text and platform names of a row are not modelled, nor the retry on an integrity error.
- Settlement.DamageNeverRaisesPnl: a leg that is damaged was robust before, a condition shown to be exact for one record; the other legs may be in any state.
- Solvency.UnitNeverLosesMoreThanItCost: assumes recorded prices of at least zero and configured rates that are not extravagant (gas at most ten cents, fee rates at most one); what solvency needs of other rates is stated exactly.
- Calibration.ServedWeightIsFresh: assumes platform names without a colon, and no platform asked both without a category and for the category `all`; the failing cases are given.
- EvidenceJob.PollUntilDone: assumes a positive poll interval or requests that take time, with which the loop ends; exactly when the loop never ends is stated separately.
- EvidenceJob.ArtifactsRespectTheLimits: usage reported as NaN or as text passes the cap check, as in the code.
- WsExecution.SafeInEveryRun: covers the WebSocket paths only; the scan loop's own execution pass (continuous.py:3093-3113) takes neither permit nor lock. Queue bookkeeping and failures inside the lock registry are not modelled.
- Correlation.ComputeCorrelatedPairs: compares r squared with the threshold squared instead of taking a square root.
- Floating point: real arithmetic is exact; only the explicit epsilon of the Kalshi fee is kept.
- Text: lower-casing is ASCII-only, and timestamps arrive parsed.
- The title matcher, token extraction and resolution windows behind the pair index are inputs.
- `execute`, hedging and the market-making pilot are arbitrary steps; platform clients, HTTP, signing and sockets are left out.
- `get_transfers_today` as an operation: it only lists the rows that the cap query sums.
- Sharpe ratios, `_best_cell`, calibration error bins, the loss-spike and zero-opportunity alerts, and reports: each is settled by reading one branch or needs square roots.
- Maker fees, fee rates per series or category, and the net-profit functions the backtest does not dispatch to and no theorem needs.
- URL cleaning and date parsing of evidence items, whose results are inputs.
- SQL parsing, durability and parameter limits: tables are sequences of rows, and every locked method but the capped claim is one transaction.

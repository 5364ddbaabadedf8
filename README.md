# spreaddog core, modelled in Dafny

This project models the verifiable core of the spreaddog trading bot and proves properties about it. It covers five parts.

- **FIFO lot inventory** (`StockDistribution`, pkg/accounting/cost_distribution.go).
  - Buys become priced lots, appended in arrival order.
  - A sell is matched in two passes, both newest lot first. The first pass uses only lots priced below the sell price. The second pass is open to any lot.
  - An unmatched positive remainder is queued as a pending sell. The queue is replayed whenever a new lot arrives.
  - Fees are folded into quantities.
  - Fee trades of other markets become synthetic sells.
  - Zero lots are squashed out after each batch.
  - Quantities and prices are integers in units of 1e-8. The model takes every input to be on that grid. `round` maps the grid to itself, so it is the identity here, and "zero" means `== 0`. The fee folds of `toStock` (cost_distribution.go:241, 243) and the fee-as-quantity assignment of `AddTrades` (cost_distribution.go:205) are not rounded in the source; on grid inputs they stay on the grid.
  - Files: `lots.dfy`, `fifo_match.dfy`, `fifo.dfy` (pure specification and lemmas) and `cost_distribution.dfy` (the class, whose methods are proved against that specification).
- **Weighted-average-cost position** (`position.dfy`). This is the `Position` that the `TestPosition` table of pkg/bbgo/position_test.go pins down.
  - State: a signed base, a cumulative quote cash flow and one average cost.
  - A trade extends, reduces (realizing profit) or flips the position.
  - Modelled as a class with per-trade and batch methods, plus the six table scenarios as lemmas over exact reals.
- **Spread monitor rules** (pkg/strategy/spreadmonitor/strategy.go).
  - `durations.dfy`: the `duration` parser, the leftmost `(\d+)([smh])` read as int64 nanoseconds.
  - `alerts.dfy`:
    - the `lessEqual`/`greaterThan` thresholds;
    - the `compare` observation window;
    - the `throttledNotifier` quiet period;
    - the non-blocking send into the 512-slot message channel.
  - Stateful closures are classes, and the clock is an explicit `now` in nanoseconds.
- **MAX API conversions** (`maxapi.dfy`): `ParseInterval` (resolution name to minutes, case-insensitive) and `KLine.KLine()` (exchange candle to global candle).
- **Session credentials to environment variables** (`envvars.dfy`): `collectSessionEnvVars`, which fills the map and wipes each session's key and secret in place.

`wrappers.dfy` holds `Option`/`Result`. `text.dfy` holds the ASCII case mapping and `HasPrefix` standing in for the Go `strings` functions.

Two behaviours of the source that are easy to misread:

- cost_distribution.go:239-246: `toStock` zeros the fee only when the trade's symbol starts with the fee currency. Otherwise the trade is left exactly as it was, fee included (`Fifo.ToStock`).
- cost_distribution.go:214-217: `AddTrades` can report at most one checkpoint per call. Lots are appended during the call and squashed only at its end (line 233), so once a buy arrives the inventory is never empty again within that call (`Fifo.AtMostOneCheckpoint`).

## Model

| member | source | states |
|---|---|---|
| Lots.Consume | pkg/accounting/cost_distribution.go:28-32 | the amount taken is the smaller of the lot and the request; the lot drops by exactly that and stays non-negative; either the lot is emptied or the whole request is met |
| Lots.QuantityBelowPrice | pkg/accounting/cost_distribution.go:36-44 | the loop returns the sum of the quantities of lots priced strictly below the price, which lies between 0 and the total for non-negative lots |
| Lots.Quantity | pkg/accounting/cost_distribution.go:46-52 | the loop returns the sum of all lot quantities, non-negative for non-negative lots |
| Lots.BelowPlusAboveIsTotal | pkg/accounting/cost_distribution.go:36-52 | quantity below a price plus quantity at or above it is the total quantity |
| Lots.BelowAtMostTotal | pkg/accounting/cost_distribution.go:36-52 | for non-negative lots, the quantity below any price is between 0 and the total |
| Lots.SumNonNegative | pkg/accounting/cost_distribution.go:46-52 | the total of non-negative lots is non-negative |
| Lots.AboveNonNegative | pkg/accounting/cost_distribution.go:36-44 | both partial sums of non-negative lots are non-negative |
| Lots.SumAppend | pkg/accounting/cost_distribution.go:46-52 | the total of a concatenation is the sum of the totals |
| Lots.SumUpdate | pkg/accounting/cost_distribution.go:163-165 | writing one lot back changes the total by exactly that lot's change |
| FifoMatch.Drain | pkg/accounting/cost_distribution.go:150-187 | one matching pass never adds or removes lots |
| FifoMatch.MatchSell | pkg/accounting/cost_distribution.go:150-187 | the two passes together never add or remove lots |
| FifoMatch.DrainShape | pkg/accounting/cost_distribution.go:150-170 | a pass changes only quantities: prices, order and count are kept; lots it did not reach, lots excluded by the price filter and zero lots are untouched |
| FifoMatch.DrainConserves | pkg/accounting/cost_distribution.go:163-165 | what a pass takes from the lots is exactly what it takes off the sell |
| FifoMatch.DrainExhausts | pkg/accounting/cost_distribution.go:159-169 | a pass ends early only with the sell fully matched; otherwise every eligible lot it scanned is empty |
| FifoMatch.DrainNewestFirst | pkg/accounting/cost_distribution.go:150-170 | within a pass, an older eligible lot is touched only if every newer eligible lot was emptied |
| FifoMatch.DrainBounds | pkg/accounting/cost_distribution.go:163-165 | for non-negative inputs a pass only lowers lot quantities, keeps them non-negative, and leaves a sell between 0 and its original quantity |
| FifoMatch.DrainRemainderNonNegative | pkg/accounting/cost_distribution.go:163-164 | a non-negative sell never goes negative |
| FifoMatch.MatchSellShape | pkg/accounting/cost_distribution.go:141-187 | matching keeps lot prices, order and count, and changes only the sell's quantity |
| FifoMatch.MatchSellConserves | pkg/accounting/cost_distribution.go:141-187 | the quantity taken from the lots plus the remainder equals the sell's original quantity |
| FifoMatch.MatchSellLeavesRemainderOnlyWhenEmpty | pkg/accounting/cost_distribution.go:172-189 | a remainder is left only when every lot has been emptied |
| FifoMatch.MatchSellRemainderNonNegative | pkg/accounting/cost_distribution.go:163-189 | the remainder of a non-negative sell is non-negative |
| FifoMatch.MatchSellBounds | pkg/accounting/cost_distribution.go:141-187 | for non-negative inputs, every lot ends between 0 and its old quantity, and so does the sell |
| FifoMatch.MatchSellProfitFirst | pkg/accounting/cost_distribution.go:150-187 | a lot priced at or above the sell price is touched only after every lot priced below it is empty |
| FifoMatch.MatchSellNewestFirst | pkg/accounting/cost_distribution.go:150-187 | within each price class, newer lots are drained before older ones |
| Fifo.ToStock | pkg/accounting/cost_distribution.go:238-248 | when the symbol starts with the fee currency the fee is zeroed, a buy loses the fee from its quantity and a sell gains it; otherwise the trade is unchanged; other fields are always kept |
| Fifo.AfterConsume | pkg/accounting/cost_distribution.go:141-194 | consume keeps the number of lots and keeps the pending queue as a prefix, growing it by at most one sell |
| Fifo.ConsumeEach | pkg/accounting/cost_distribution.go:132-136 | consuming a list of sells keeps the number of lots and the old queue as a prefix, growing it by at most one entry per sell |
| Fifo.AfterFlush | pkg/accounting/cost_distribution.go:124-139 | the flush keeps the number of lots and never lengthens the pending queue |
| Fifo.AfterStock | pkg/accounting/cost_distribution.go:104-109 | stocking adds exactly one lot and never lengthens the pending queue |
| Fifo.Squashed | pkg/accounting/cost_distribution.go:111-122 | squash never adds lots and leaves no lot of quantity zero |
| Fifo.FeeTradeAsSell | pkg/accounting/cost_distribution.go:199-208 | trades of the symbol are untouched; a trade of another market becomes one of the symbol iff the symbol starts with the fee currency and the fee was paid in it, and it is then a sell of the fee with fee zero at the same price; otherwise it is untouched |
| Fifo.ApplyTrade | pkg/accounting/cost_distribution.go:198-228 | one trade adds a lot iff it is an own buy, and a trade that is not of the symbol after fee conversion changes nothing |
| Fifo.Replay | pkg/accounting/cost_distribution.go:198-229 | the loop never removes a lot |
| Fifo.Checkpoints | pkg/accounting/cost_distribution.go:214-217 | every checkpoint is an index strictly between 0 and the batch length |
| Fifo.AfterAddTrades | pkg/accounting/cost_distribution.go:196-236 | after the batch no lot of quantity zero remains, and the final flush never lengthens the queue the loop left |
| Fifo.ConsumeWithoutLots | pkg/accounting/cost_distribution.go:145-148 | with no lots, the sell is queued unchanged at the end of the pending sells |
| Fifo.ConsumeQueuesOnlyAPositiveRest | pkg/accounting/cost_distribution.go:141-194 | consume keeps the lots' shape, and at most appends to the pending sells; an appended rest is the sell with a positive quantity, and it is appended only when every lot is empty |
| Fifo.ConsumeConservesNet | pkg/accounting/cost_distribution.go:141-194 | lots minus pending sells drops by exactly the sell's quantity |
| Fifo.ConsumeKeepsPendingNonNegative | pkg/accounting/cost_distribution.go:189-191 | the pending queue only ever holds non-negative sells |
| Fifo.ConsumeAgainstEmptyLots | pkg/accounting/cost_distribution.go:159-187 | lots that are all zero are left exactly as they were |
| Fifo.ConsumeKeepsSettled | pkg/accounting/cost_distribution.go:141-194 | consume keeps the invariant that pending sells exist only when every lot is empty |
| Fifo.ConsumeEachKeepsLotCount | pkg/accounting/cost_distribution.go:132-136 | replaying sells never adds or removes lots |
| Fifo.ConsumeEachConservesNet | pkg/accounting/cost_distribution.go:132-136 | replaying non-negative sells lowers the net by their sum and keeps the queue non-negative |
| Fifo.ConsumeEachSettles | pkg/accounting/cost_distribution.go:132-136 | replaying sells keeps the pending-only-when-empty invariant |
| Fifo.FlushNoop | pkg/accounting/cost_distribution.go:125-127 | with no lots or no pending sells, the flush changes nothing |
| Fifo.FlushConservesAndSettles | pkg/accounting/cost_distribution.go:124-139 | the flush keeps the lot count and the net, and leaves pending sells only against empty lots |
| Fifo.StockAddsLot | pkg/accounting/cost_distribution.go:104-109 | a new lot adds one lot and its quantity to the net, and leaves the inventory settled |
| Fifo.SquashedKeepsNonEmpty | pkg/accounting/cost_distribution.go:111-122 | squash keeps exactly the lots whose quantity is nonzero |
| Fifo.SquashedAppend | pkg/accounting/cost_distribution.go:116-120 | squash distributes over concatenation, so the lots kept stay in their original relative order |
| Fifo.SquashedIdempotent | pkg/accounting/cost_distribution.go:111-122 | squashing twice equals squashing once |
| Fifo.SquashedKeepsSum | pkg/accounting/cost_distribution.go:111-122 | squash does not change the total quantity |
| Fifo.OwnBuyIsBuyOfSymbol | pkg/accounting/cost_distribution.go:201-214 | a trade adds a lot iff, after fee conversion, it is a buy of the market's symbol |
| Fifo.ApplyTradeLotCount | pkg/accounting/cost_distribution.go:198-229 | one trade adds exactly one lot if it is an own buy, else none |
| Fifo.ReplayNeverEmptiesLots | pkg/accounting/cost_distribution.go:198-229 | the lot list never shrinks during a batch |
| Fifo.CheckpointsInRange | pkg/accounting/cost_distribution.go:215-217 | every checkpoint is an index strictly between 0 and the batch length |
| Fifo.CheckpointsIncreasing | pkg/accounting/cost_distribution.go:198-217 | checkpoints are strictly increasing |
| Fifo.CheckpointsExact | pkg/accounting/cost_distribution.go:214-217 | c is a checkpoint iff 0 < c, trade c is an own buy, and the lots were empty just before it |
| Fifo.CheckpointMeansLots | pkg/accounting/cost_distribution.go:214-220 | a batch with a checkpoint ends with lots |
| Fifo.AtMostOneCheckpoint | pkg/accounting/cost_distribution.go:198-233 | one batch reports at most one checkpoint |
| Fifo.SellQuantityNonNegative | pkg/accounting/cost_distribution.go:202-207 | a fee trade converted to a sell has a non-negative quantity |
| Fifo.ReplayConservesNet | pkg/accounting/cost_distribution.go:198-229 | over a batch, the net changes by the signed sum of the trades' folded quantities |
| Fifo.ReplayKeepsSettled | pkg/accounting/cost_distribution.go:198-229 | a batch keeps the pending-only-when-empty invariant |
| Fifo.AddTradesConservesNet | pkg/accounting/cost_distribution.go:196-236 | after AddTrades: the net moved by the batch's signed quantity; no zero lot remains; the inventory is settled |
| CostDistribution.StockDistribution.constructor | pkg/accounting/cost_distribution.go:54-60 | a fresh distribution has no lots and no pending sells |
| CostDistribution.StockDistribution.Consume | pkg/accounting/cost_distribution.go:141-194 | the two descending in-place loops leave the state the matching specification gives |
| CostDistribution.StockDistribution.FlushPendingSells | pkg/accounting/cost_distribution.go:124-139 | the flush clears the queue and consumes each old entry in FIFO order, as specified |
| CostDistribution.StockDistribution.StockLot | pkg/accounting/cost_distribution.go:104-109 | appends the lot, then flushes |
| CostDistribution.StockDistribution.Squash | pkg/accounting/cost_distribution.go:111-122 | rebuilds the lots without zero lots and leaves the pending sells alone |
| CostDistribution.StockDistribution.AddTrades | pkg/accounting/cost_distribution.go:196-236 | the loop yields the specified state and checkpoints; the checkpoints are strictly increasing, at most one, in range, and name buys of the symbol |
| Positions.NetQuantity | pkg/bbgo/position_test.go:22-38 | the base moved is the trade quantity unless the fee is paid in the base currency, and a non-negative fee never increases it |
| Positions.Notional | pkg/bbgo/position_test.go:39-55 | the cash moved is the quote quantity unless the fee is paid in the quote currency; a non-negative quote fee makes a buy cost at least and a sell bring in at most the quote quantity |
| Positions.Apply | pkg/bbgo/position_test.go:56-156 | one trade moves base and quote by its signed quantity and cash, realizes a profit iff it reduces or flips, and reports zero profit otherwise |
| Positions.ApplyAll | pkg/bbgo/position_test.go:166-173 | a batch that realizes nothing reports zero profit |
| Positions.Classify | pkg/bbgo/position_test.go:56-156 | a trade extends a flat or same-side position, reduces an opposite one it does not exceed, and flips one it exceeds |
| Positions.Position.constructor | pkg/bbgo/position_test.go:161-165 | a new position is flat |
| Positions.Position.AddTrade | pkg/bbgo/position_test.go:166-170 | one trade updates Base, Quote and AverageCost and reports the profit, as the per-trade rule gives |
| Positions.Position.AddTrades | pkg/bbgo/position_test.go:166-173 | the loop gives the batch rule: the final state, the summed realized profit, and whether any profit was realized |
| Positions.ExtendBlendsCost | pkg/bbgo/position_test.go:56-76 | extending makes the average cost the quantity-weighted mean of the old cost and the new notional, and realizes nothing |
| Positions.ReduceKeepsCost | pkg/bbgo/position_test.go:78-104 | reducing keeps the average cost, realizes (price − cost)·quantity for a sell (mirrored for a buy), and moves the base toward zero |
| Positions.FlipResetsCost | pkg/bbgo/position_test.go:106-133 | flipping sets the cost to the trade price, realizes profit on the closed part only, and changes the sign of the base |
| Positions.ExactCloseFlattens | pkg/bbgo/position_test.go:78-104 | selling exactly the long leaves base 0 and realizes the whole position's profit |
| Positions.ExactCoverFlattens | pkg/bbgo/position_test.go:135-156 | buying back exactly the short leaves base 0 and realizes (cost − price) on the whole short |
| Positions.OpenFromFlatAtPrice | pkg/bbgo/position_test.go:56-76 | the first fill from flat sets the cost to its price |
| Positions.BalancesAreSums | pkg/bbgo/position_test.go:168-169 | Base is the start plus the signed folded quantities, and Quote is the start plus the signed cash flows |
| Positions.OpeningOnlyNeverRealizes | pkg/bbgo/position_test.go:56-76 | buys from a flat or long position never report profit |
| PositionScenarios.ScenarioBaseFee | pkg/bbgo/position_test.go:22-38 | the "base fee" row: cost, base and quote as tabled |
| PositionScenarios.ScenarioQuoteFee | pkg/bbgo/position_test.go:39-55 | the "quote fee" row: cost, base and quote as tabled |
| PositionScenarios.ScenarioLong | pkg/bbgo/position_test.go:56-76 | the "long" row: weighted cost, summed base, minus summed notionals |
| PositionScenarios.ScenarioLongAndSell | pkg/bbgo/position_test.go:78-104 | the "long and sell" row, with profit (3000 − 1750)·0.01 |
| PositionScenarios.ScenarioLongToShort | pkg/bbgo/position_test.go:106-133 | the "long and sell to short" row: cost 3000, base −0.06, profit (3000 − 1750)·0.04 |
| PositionScenarios.AfterLong | pkg/bbgo/position_test.go:56-76 | a third trade after the two buys of the "long" row acts on a 0.04 long at cost 1750, and its profit is the batch's profit |
| PositionScenarios.SellFlipsLong | pkg/bbgo/position_test.go:121-132 | the flipping trade of that row, on its own |
| PositionScenarios.ScenarioShort | pkg/bbgo/position_test.go:135-156 | the "short" row: weighted cost, minus summed base, plus summed notionals |
| Durations.Wrap64 | pkg/strategy/spreadmonitor/strategy.go:50 | int64 wrap-around: in range, congruent modulo 2^64, identity on int64 values |
| Durations.UnitOf | pkg/strategy/spreadmonitor/strategy.go:38-46 | `s`, `m`, `h` give one second, one minute or one hour in nanoseconds |
| Durations.DigitRunEnd | pkg/strategy/spreadmonitor/strategy.go:25 | the greedy end of a digit run: every character before it is a digit and the one at it is not |
| Durations.MatchesAtIsThePattern | pkg/strategy/spreadmonitor/strategy.go:25 | the match test equals the literal reading of `(\d+)([smh])`: some non-empty digits followed by a unit letter |
| Durations.CapturedRunIsFull | pkg/strategy/spreadmonitor/strategy.go:25 | the captured digits are the whole run, because a unit letter is not a digit |
| Durations.FindMatch | pkg/strategy/spreadmonitor/strategy.go:28-31 | the search returns the leftmost match, or reports that none exists |
| Durations.ParseInt64 | pkg/strategy/spreadmonitor/strategy.go:33-36 | digits parse iff their value fits in int64, and then to that value |
| Durations.DurationAsWritten | pkg/strategy/spreadmonitor/strategy.go:27-51 | the function as written: error NoMatch iff nothing matches, and any result is an int64 |
| Durations.Duration | pkg/strategy/spreadmonitor/strategy.go:27-51 | the corrected function: error NoMatch iff nothing matches; success is a non-negative whole number of seconds within int64 |
| Durations.DurationOnMatch | pkg/strategy/spreadmonitor/strategy.go:28-50 | given the leftmost match with digits d and unit u: d > 2^63 − 1 is InvalidNumber for both versions; otherwise the written one returns Ok(wrap(d·u)); the corrected one returns Ok(d·u) when it fits and Overflow when it does not |
| Durations.DurationOk | pkg/strategy/spreadmonitor/strategy.go:28-50 | success means the leftmost match's number times its unit |
| Durations.DurationAgreesWhenItFits | pkg/strategy/spreadmonitor/strategy.go:50 | wherever the corrected version succeeds, the written one returns the same |
| Durations.OverflowIsWhereTheWrittenOneWraps | pkg/strategy/spreadmonitor/strategy.go:50 | the corrected version's overflow error is exactly where the product leaves the int64 range and the written one still returns a value |
| Durations.DigitsValueAppend | pkg/strategy/spreadmonitor/strategy.go:33 | appending a digit shifts the number one decimal place |
| Durations.DurationIgnoresPrefix | pkg/strategy/spreadmonitor/strategy.go:28 | text without digits before the number does not change the result of either version |
| Durations.ParsesOneSecond | pkg/strategy/spreadmonitor/strategy.go:41-42 | "1s" is one second |
| Durations.ParsesMinutesAmidText | pkg/strategy/spreadmonitor/strategy.go:28-44 | "every 15m!" is fifteen minutes |
| Durations.UpperCaseUnitIsNoMatch | pkg/strategy/spreadmonitor/strategy.go:25-31 | "1H" is no match, since the pattern is case-sensitive |
| Durations.OverflowHoursDigits | pkg/strategy/spreadmonitor/strategy.go:33 | "2562048" spells 2562048 |
| Durations.HoursOverflowWrapsNegative | pkg/strategy/spreadmonitor/strategy.go:50 | as written, "2562048h" yields the negative duration −9223371273709551616 ns |
| Durations.HoursOverflowCheckedVersion | pkg/strategy/spreadmonitor/strategy.go:50 | corrected, "2562048h" is an overflow error |
| Alerts.Holds | pkg/strategy/spreadmonitor/strategy.go:246-258 | `lessEqual(t)` holds iff bps ≤ t; `greaterThan(t)` holds iff bps > t |
| Alerts.ThresholdsAreComplementary | pkg/strategy/spreadmonitor/strategy.go:248-258 | against one threshold exactly one of the two checks holds, and the threshold itself counts as "less or equal" |
| Alerts.ThresholdsAreMonotone | pkg/strategy/spreadmonitor/strategy.go:248-258 | a check that holds keeps holding further past the threshold |
| Alerts.Sub | pkg/strategy/spreadmonitor/strategy.go:269 | time difference, saturating at the int64 ends |
| Alerts.Since | pkg/strategy/spreadmonitor/strategy.go:229-232 | the time since the zero instant is the largest duration |
| Alerts.CompareStep | pkg/strategy/spreadmonitor/strategy.go:262-275 | the window is open iff the spread passes; a passing spread keeps an existing start or records now; the callback fires iff the spread passes and now − start exceeds the window |
| Alerts.CompareResets | pkg/strategy/spreadmonitor/strategy.go:272-274 | a failing spread resets the window start and never calls back |
| Alerts.CompareOpensWindow | pkg/strategy/spreadmonitor/strategy.go:264-271 | the first passing spread records now as the start, and with a non-negative window it does not call back |
| Alerts.CompareKeepsWindow | pkg/strategy/spreadmonitor/strategy.go:264-271 | later passing spreads keep the start, and call back iff now − start exceeds the window |
| Alerts.WindowClosed | pkg/strategy/spreadmonitor/strategy.go:260-276 | after a run of observations there is no start iff nothing was observed or the last spread failed |
| Alerts.WindowStartsAtTheRun | pkg/strategy/spreadmonitor/strategy.go:260-276 | the start is the time of the first observation of the latest unbroken run of passing spreads |
| Alerts.AlertMeansTheRunHasAged | pkg/strategy/spreadmonitor/strategy.go:260-276 | the last observation calls back iff the run has lasted longer than the window |
| Alerts.NoAlertAfterFailure | pkg/strategy/spreadmonitor/strategy.go:272-274 | a failing last observation never calls back |
| Alerts.Comparator.constructor | pkg/strategy/spreadmonitor/strategy.go:260-261 | a new check starts with the zero start time |
| Alerts.Comparator.Observe | pkg/strategy/spreadmonitor/strategy.go:262-275 | one call of the closure updates the start and calls back as the step rule says |
| Alerts.Offer | pkg/strategy/spreadmonitor/strategy.go:166-173 | a send succeeds iff the channel holds fewer than 512 messages; success appends the message, failure leaves the channel unchanged |
| Alerts.OfferAllKeepsThePrefix | pkg/strategy/spreadmonitor/strategy.go:166-176 | a series of sends keeps the oldest ones that fit, in order, up to 512, and drops the rest |
| Alerts.MessageQueue.constructor | pkg/strategy/spreadmonitor/strategy.go:176 | the channel starts empty |
| Alerts.MessageQueue.Enqueue | pkg/strategy/spreadmonitor/strategy.go:166-173 | the send never blocks, and does what the non-blocking send rule says |
| Alerts.MessageQueue.Receive | pkg/strategy/spreadmonitor/strategy.go:160-161 | the receiver takes the oldest message |
| Alerts.NotifyStep | pkg/strategy/spreadmonitor/strategy.go:230-239 | the state either stays as it was or gets the message appended with now recorded; it changes iff the quiet period has passed and the channel has room; the channel stays within 512 |
| Alerts.NotifyIsQuiet | pkg/strategy/spreadmonitor/strategy.go:232 | within the quiet period nothing is sent and nothing changes |
| Alerts.NotifyAdvancesOnlyOnSend | pkg/strategy/spreadmonitor/strategy.go:232-237 | any state change is the message appended with now recorded; that happens iff the quiet period has passed and the channel has room |
| Alerts.FullChannelKeepsClock | pkg/strategy/spreadmonitor/strategy.go:233-236 | a full channel drops the alert without starting the quiet period |
| Alerts.FirstAlertIsSent | pkg/strategy/spreadmonitor/strategy.go:229-237 | a fresh notifier sends its first alert when there is room, unless the quiet period is the maximum duration |
| Alerts.SentAlertsAreSpaced | pkg/strategy/spreadmonitor/strategy.go:232-237 | two alerts sent one after the other are more than the quiet period apart |
| Alerts.ThrottledNotifier.constructor | pkg/strategy/spreadmonitor/strategy.go:228-229 | a new notifier has never sent |
| Alerts.ThrottledNotifier.Notify | pkg/strategy/spreadmonitor/strategy.go:230-239 | one call of the closure enqueues and records now as the throttle step says, and keeps the channel within capacity |
| Text.HasPrefix | pkg/accounting/cost_distribution.go:239 | a string has a prefix iff it is at least as long and agrees with it character by character |
| Text.ToLower | pkg/exchange/max/maxapi/public.go:156 | lower-cases letter by letter and keeps the length |
| Text.ToUpper | pkg/exchange/max/maxapi/public.go:217 | upper-cases letter by letter and keeps the length |
| MaxApi.Lookup | pkg/exchange/max/maxapi/public.go:156-200 | a table lookup finds a value iff some entry has the key, and then that entry's value |
| MaxApi.ParseInterval | pkg/exchange/max/maxapi/public.go:155-203 | an unknown resolution is an error that carries the input |
| MaxApi.ParseIntervalIsTheTable | pkg/exchange/max/maxapi/public.go:155-203 | a string parses iff its lower-cased form is one of the 14 listed names, and then to the listed minutes; anything else is an error |
| MaxApi.ParseIntervalIgnoresCase | pkg/exchange/max/maxapi/public.go:156 | upper-casing the input does not change the outcome |
| MaxApi.ResolutionsAreOrdered | pkg/exchange/max/maxapi/public.go:158-198 | the 14 names are distinct and their minutes strictly increase |
| MaxApi.ParseIntervalRoundTrip | pkg/exchange/max/maxapi/public.go:155-203 | every accepted resolution is a positive number of minutes from which its lower-cased name is recovered |
| MaxApi.ParseIntervalInjective | pkg/exchange/max/maxapi/public.go:155-203 | two resolutions with the same minutes are the same name up to case |
| MaxApi.ParsesWeek | pkg/exchange/max/maxapi/public.go:188-202 | "1W" is 10080 minutes, "12h" is 720, and "1s" is an error |
| MaxApi.ToGlobal | pkg/exchange/max/maxapi/public.go:214-231 | the exchange is "max" and the symbol is upper-cased; interval, times, prices, volume and the closed flag are copied |
| MaxApi.ToGlobalIgnoresSymbolCase | pkg/exchange/max/maxapi/public.go:217 | the global candle is the same however the symbol is cased |
| MaxApi.ToGlobalLosesOnlyCase | pkg/exchange/max/maxapi/public.go:214-231 | two candles convert alike iff they agree up to the case of the symbol |
| EnvVars.Snapshots | pkg/server/envvars.go:13 | one credential record per session, in order |
| EnvVars.VarPrefix | pkg/server/envvars.go:19-28 | the variable prefix is the session's own prefix verbatim, else its upper-cased name, else none |
| EnvVars.VarNamesAreDistinct | pkg/server/envvars.go:20-25 | a key variable never collides with a secret variable, and different prefixes give different names |
| EnvVars.Failure | pkg/server/envvars.go:14-28 | a session stops the loop iff both key and secret are empty, or it has neither prefix nor name |
| EnvVars.Collect | pkg/server/envvars.go:10-36 | the loop stops at the first failing session with its error; every session before it is processed; no error iff all are processed |
| EnvVars.CollectStopsAtError | pkg/server/envvars.go:14-17 | after an error the later sessions do not matter |
| EnvVars.CollectAtFailure | pkg/server/envvars.go:14-17 | a failing session ends the loop with its error and the map so far |
| EnvVars.CollectAtSuccess | pkg/server/envvars.go:19-25 | a good session adds its key and secret variables |
| EnvVars.CollectedNames | pkg/server/envvars.go:19-25 | the map's names are exactly the key and secret variables of the processed sessions |
| EnvVars.CollectedValues | pkg/server/envvars.go:19-25 | a processed session's variables hold its key and secret unless a later session with the same prefix overwrote them |
| EnvVars.PrefixIsVerbatim | pkg/server/envvars.go:19-21 | prefix "MAX_MAIN" gives MAX_MAIN_API_KEY and MAX_MAIN_API_SECRET |
| EnvVars.NameIsUpperCased | pkg/server/envvars.go:22-25 | name "binance" gives BINANCE_API_KEY and BINANCE_API_SECRET |
| EnvVars.Session.constructor | pkg/server/envvars.go:13 | a session holds the given name, prefix and credentials |
| EnvVars.CollectSessionEnvVars | pkg/server/envvars.go:10-37 | the loop returns the specified map and error; processed sessions have key and secret reset to ""; on error the sessions not reached keep theirs |

## Left out

- `DistributionStats` bucketing (pkg/accounting/cost_distribution.go:70-102): it depends on floating-point `Log10`, `Pow10` and `Floor`, and on float formatting and parsing.
- The mutex in `StockDistribution`: every operation is modelled sequentially.
- The error results of `stock`, `consume` and `flushPendingSells` are always nil in the source, so they are not modelled.
- Float rounding is not modelled: all quantities and prices are taken to be exact multiples of 1e-8 (integers here), so `round` is the identity.
- The `Position` implementation is not part of this model. The per-trade rule is the one the `TestPosition` table pins down.
  - Exact reals stand in for the fixed-point values.
  - These are modelling choices that `TestPosition` does not pin down:
    - `Positions.Notional`: a buy whose fee is paid in the quote currency costs quote quantity plus fee.
    - `Positions.Apply`: extending to a zero size keeps the old average cost.
    - `Positions.NetQuantity`: a fee paid in the base currency lowers the base moved by a sell as well as by a buy (`q − fee` on both sides). This is the opposite of `toStock`, which adds the fee to a sell's quantity (cost_distribution.go:243); no row of the table has a sell with a base-currency fee.
    - `Positions.Apply`: the Reduce and Flip branches for a buy against a short mirror the sell-against-long ones; no row of the table buys into a short.
    - `Positions.ApplyAll`: the batch profit is the sum of the profits realized trade by trade, and its flag means that some trade realized a profit; the table only exercises batches with at most one realizing trade.
- `restapi.go`, `parseKLines` and the REST calls of the MAX client are not part of this model: they are HTTP, signing, JSON and clock plumbing.
- `toBps`, `getPrice`, `sourceTargetSpread`, `startNotifier`'s ticker and `CrossRun` are not part of this model: they are floating point, goroutines and order-book wiring.
  - `Alerts.MessageQueue.Receive` models only the receive in that loop, as a non-blocking take.
- `StrategyConfig.UnmarshalJSON` is not modelled. It trims and lower-cases before calling `duration`; `Durations.Duration` models `duration` itself, which is case-sensitive.
- The `default` branch of `duration`'s unit switch is unreachable, because the pattern admits only `s`, `m` and `h`. It is not modelled.
- The clock is an explicit `now` in nanoseconds. Go's zero `time.Time` is `None`, and the time elapsed since it is the largest duration, because `Sub` saturates.
- Case mapping is ASCII only, whereas Go's `strings.ToLower` and `strings.ToUpper` are Unicode-aware.
- Go maps iterate in an unspecified order, so `EnvVars.CollectSessionEnvVars` takes the sessions as a sequence in whatever order they are visited, and requires them to be distinct objects. Two map keys sharing one session pointer is not modelled.
- The error texts of `collectSessionEnvVars` are reduced to two error kinds. The source's first message says "key & secret is not empty" when both are empty.
- The callbacks of `compare` become the `alert` result of `Alerts.Comparator.Observe`, the log line of `throttledNotifier` is dropped, and the closures' captured variables are class fields.

## Findings

| source | as written | input that shows it | evidently intended | confidence | as-written member | corrected member |
|---|---|---|---|---|---|---|
| pkg/strategy/spreadmonitor/strategy.go:50 | `time.Duration(d) * unit` multiplies in int64 and wraps around | "2562048h": 2562048 · 3600 · 10^9 = 9223372800000000000 > 2^63 − 1, giving −9223371273709551616 ns | a duration too large for int64 is rejected, like a number too large for int64 is at line 33-36 | not executed | Durations.HoursOverflowWrapsNegative | Durations.Duration |

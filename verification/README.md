# Verified core of the IQ Option SDK

This project models the parts of the SDK that decide whether an order is sent,
how large it is, when it expires, and how its outcome finds its way back to the
caller, together with the indicators, the backtest and the bounded stores that
feed those decisions. Each component is one Dafny module. Objects whose methods
update fields are classes; every method is proved against a function on the
object's value, and the properties are lemmas about those functions over all
runs. Loops that compute a value are methods with loops, proved against a
definition of the result.

| file | component |
|---|---|
| `RateLimit.dfy` | the token bucket, any number of threads, the `rate_limited` gate |
| `CircuitBreaker.dfy` | the capital circuit breaker |
| `Reconnect.dfy` | backoff manager and the reconnect loop that combines it with the breaker |
| `Martingale.dfy` | stake sizing |
| `Wilder.dfy`, `MarketRegime.dfy` | the two computations of the directional index, and their relation |
| `Indicators.dfy` | moving averages, strength index, stochastic, Williams %R |
| `Backtest.dfy`, `Metrics.dfy` | the replay engine, and the metrics of a run |
| `Expiration.dfy`, `DigitalExpiry.dfy` | expiry arithmetic |
| `OrderCorrelation.dfy`, `RepliesInOrder.dfy` | matching replies to requests, in any run and in runs with replies in request order |
| `SingleOrders.dfy`, `ManyOrders.dfy` | what `buy` and `buy_multi` make of it |
| `WaitNotify.dfy` | waiting for an order's outcome |
| `CandleCache.dfy`, `DictQueue.dfy` | the two bounded candle stores |
| `Correlation.dfy` | Pearson correlation and its matrix |
| `Common.dfy` | shared vocabulary and arithmetic |

Conventions. Floats are reals; NaN is an absent value. Every clock read is a
parameter, and reads do not decrease where the statement says so. Threads
interleave at lock boundaries, or at single dictionary and event operations
where the code holds no lock. The breaker and the candle cache hold none either;
calls on one of them are taken not to overlap. Random numbers, the strategy of a
backtest and the square root are parameters too.

Where the code does not do what its names or comments suggest, the model
follows the code, and the project proves exactly when the two differ:

* `get_adx` divides the smoothed DX by the period only when it has exactly
  `period` DX values. Without zero denominators those are exactly `2 * period`
  candles, and on any longer series it returns `period` times the ADX, clamped
  and rounded (`MarketRegime.RawAdxAgainstAdx`, `MarketRegime.ReportedIsAdxExactly`,
  and an example in `MarketRegime.TwiceTheIndex`).
* `buy` queues its id twice, so in a session no later call learns its option id
  before two replies have come for every earlier call
  (`SingleOrders.OnlyTheFirstBuyIsCorrelated`, `SingleOrders.OneMoreCatchesUp`).
* A refusal that comes as an "option" reply without an order id leaves its id in
  the queue. From then on every option is stored under an earlier request
  (`RepliesInOrder.StoredUnderItsRequestExactly`, and an example in
  `RepliesInOrder.ARefusalTakesTheOption`).
* `buy_multi` sorts the requests as strings and takes the openings in the order
  of sending. Place i of its result is the i-th order's exactly when every order
  was opened, in just the order that the sorting undoes, no such refusal came for
  an order after its place was filled, and no failed result, even of another
  request with the same number, for an id still queued
  (`ManyOrders.BuyMultiIsRightExactly`). Up to ten orders that is the request
  order; with more, openings in request order are never right
  (`ManyOrders.RightInRequestOrder`). Otherwise places shift, appear or empty
  (`ManyOrders.ARejectionShiftsTheList`, `ManyOrders.ADeclineAddsAPlace`,
  `ManyOrders.ADeclineEmptiesAPlace`, `ManyOrders.AForeignFailureLosesAnOption`).
* `_wait_result` misses a signal that is taken between its failed lookup and its
  registration (`WaitNotify.HeardUnlessInTheWindow`, and an example in
  `WaitNotify.ALostSignal`).
* `check_win` can be woken in vain: most of the handlers that set its event write
  nothing where it looks (`WaitNotify.CheckWinFindsNothing`). `check_win_digital`
  cannot (`WaitNotify.DigitalWaitFindsIt`).
* A breaker that sees the account go to zero in one loss stays closed
  (`CircuitBreaking.LossTripsExactly`, `CircuitBreaking.WipedOutStaysClosed`).
* `PerformanceAnalyzer.max_drawdown` ignores falls from the opening balance. It is
  right exactly when there is no such fall or a later one reaches the largest of
  them again (`Metrics.AnalyzerAgainstBacktest`, and an example in
  `Metrics.OneLossGoesUnnoticed`).
* `buy_digital_spot` passes the same gate twice, on the client's bucket, which
  blocks. Each order is sent but costs two tokens, and waits until two can have
  been there (`RateLimit.NestedGateBlocks`, `RateLimit.NestedGateIsPrompt`), so
  such orders leave at half the rate, but for those that are past their first
  gate when a window opens (`RateLimit.NestedOrdersBound`, and an example in
  `RateLimit.ALateBurst`).
* `connect` resets the reconnect manager as soon as the login is through, and can
  raise after that. Such an attempt gives the whole budget back, so only the
  breaker is sure to end the loop (`Reconnecting.BreakerStopsTheLoop`,
  `Reconnecting.BudgetBoundsConnects`, and an example in
  `Reconnecting.DropsOutlastTheBudget`).
* The two expiry calculators of digital options agree only while the current
  period ends within the hour and the first boundary is ten seconds away
  (`DigitalExpiry.CalculatorsAgreeExactly`, and an example in
  `DigitalExpiry.SevenMinutesDisagree`).
* `set_maxlen` keeps the oldest candles, not the newest
  (`CandleCaching.ShrinkingKeepsTheNewest`).
* `get_remaning_time` and `get_expiration_time` disagree at second 30
  (`Expiration.RemainingAgainstSearch`).

## Model

| member | source | states |
|---|---|---|
| RateLimit.TokenBucket.constructor | iqoptionapi/core/ratelimit.py:35-43 | A new bucket is full and has just been refilled. |
| RateLimit.TokenBucket.RefillNow | iqoptionapi/core/ratelimit.py:45-52 | The level becomes the lazily accrued allowance, cut at the capacity, and the time of the refill is kept. |
| RateLimit.TokenBucket.TryConsume | iqoptionapi/core/ratelimit.py:60-80 | One locked pass of the retry loop: the new bucket and which of the four ways it ends. |
| RateLimit.TokenBucket.Consume | iqoptionapi/core/ratelimit.py:54-80 | Undisturbed, a call ends after at most two passes, a blocking one always with a token, and the second pass happens only after a sleep. |
| RateLimit.TokenBucket.AvailableTokens | iqoptionapi/core/ratelimit.py:82-86 | A reading is a refill and nothing else. |
| RateLimit.LevelInRange | iqoptionapi/core/ratelimit.py:45-80 | In every run of any number of threads the level stays between zero and the capacity. |
| RateLimit.AdmissionBound | iqoptionapi/core/ratelimit.py:45-86 | For every interleaving and every window [t1, t2], the orders admitted number at most capacity + refill rate * (t2 - t1). |
| RateLimit.PaidByAllowance | iqoptionapi/core/ratelimit.py:45-80 | From any reachable bucket on, admissions up to a time are paid for by the present level and later refills. |
| RateLimit.BurstIsExact | iqoptionapi/core/ratelimit.py:54-62 | The burst part of the bound is reached: at one instant a bucket admits the whole tokens it holds. |
| RateLimit.RefillTwice | iqoptionapi/core/ratelimit.py:45-52 | Refilling twice equals refilling once at the later time. |
| RateLimit.AvailableTokensIsHarmless | iqoptionapi/core/ratelimit.py:82-86 | Removing every reading of `available_tokens` from a run changes no caller's outcome. |
| RateLimit.RetryExact | iqoptionapi/core/ratelimit.py:60-80 | Uncontended, the pass after a sleep succeeds if and only if the full wait has passed and the capacity is at least one. |
| RateLimit.SmallBucketStarves | iqoptionapi/core/ratelimit.py:54-80 | A bucket of capacity below one never admits anything, so a blocking call on it never returns. |
| RateLimit.EnterGrants | iqoptionapi/core/ratelimit.py:89-105 | A decorated call on a blocking bucket that sleeps as long as it is told ends with a token, and costs one. |
| RateLimit.NoBucketNoLimit | iqoptionapi/core/ratelimit.py:98-106 | Without a bucket every order is sent at once. |
| RateLimit.NestedGateBlocks | iqoptionapi/mixins/orders_mixin.py:64-69 | On a blocking bucket with room for a token and a positive rate, as the client's has, an order through both decorators is always sent, whatever the pauses, costs two tokens, and leaves no earlier than two tokens can have been there. |
| RateLimit.NestedGateIsPrompt | iqoptionapi/mixins/orders_mixin.py:64-69 | Without pauses of its own it leaves exactly then. |
| RateLimit.TwoAdmissionsAnOrder | iqoptionapi/mixins/orders_mixin.py:64-69 | In any window of any run of any number of threads, twice the orders sent through both decorators are at most the admissions and the threads past their first gate when the window opens. |
| RateLimit.NestedOrdersBound | iqoptionapi/mixins/orders_mixin.py:64-69 | For every interleaving and window [t1, t2], twice the nested orders sent number at most capacity + refill rate * (t2 - t1), and one more for each thread that is past its first gate at t1. |
| RateLimit.NestedOrdersFromTheStart | iqoptionapi/mixins/orders_mixin.py:64-69 | In a window that opens with the run twice their number is within the plain bound. |
| RateLimit.ALateBurst | iqoptionapi/mixins/orders_mixin.py:64-69 | A concrete run in which the half-way threads reach the bound: on a bucket for two, two such orders leave at one instant. |
| RateLimit.NestedGateChargesTwice | iqoptionapi/mixins/orders_mixin.py:64-69 | The case of a bucket that does not block: with any time between its two clock reads, an order through both decorators is sent if and only if a token is there at the first and, with what was refilled, another at the second; the level left behind shows the token lost otherwise. |
| RateLimit.NestedGateAtOnce | iqoptionapi/mixins/orders_mixin.py:64-69 | On such a bucket, back to back, it is sent if and only if two tokens are there at once. |
| CircuitBreaking.CircuitBreaker.constructor | iqoptionapi/circuit_breaker.py:30-51 | A new breaker is closed, with nothing counted. |
| CircuitBreaking.CircuitBreaker.State | iqoptionapi/circuit_breaker.py:53-60 | Reading the state turns an open breaker half-open, with a fresh probe, once the wait is over. |
| CircuitBreaking.CircuitBreaker.TripNow | iqoptionapi/circuit_breaker.py:125-129 | Tripping opens the breaker, counts the trip and notes its time. |
| CircuitBreaking.CircuitBreaker.UpdateBalanceMetrics | iqoptionapi/circuit_breaker.py:95-103 | The first balance fixes the start, and the peak never falls. |
| CircuitBreaking.CircuitBreaker.Check | iqoptionapi/circuit_breaker.py:105-123 | The thresholds in order of precedence, the drawdown one skipped for an empty account. |
| CircuitBreaking.CircuitBreaker.Win | iqoptionapi/circuit_breaker.py:74-82 | A win clears the streak and closes a half-open breaker. |
| CircuitBreaking.CircuitBreaker.Loss | iqoptionapi/circuit_breaker.py:84-93 | A loss while half-open trips at once; otherwise the thresholds decide. |
| CircuitBreaking.CircuitBreaker.IsOpen | iqoptionapi/circuit_breaker.py:131-133 | The answer refers to the state after the wait has been taken into account. |
| CircuitBreaking.CircuitBreaker.MayTrade | iqoptionapi/circuit_breaker.py:135-144 | A half-open breaker lets one trade through, an open one none. |
| CircuitBreaking.CircuitBreaker.Success | iqoptionapi/circuit_breaker.py:146-151 | A success closes the breaker from any state. |
| CircuitBreaking.CircuitBreaker.Failure | iqoptionapi/circuit_breaker.py:153-158 | A failure counts as a loss and trips at the limit. |
| CircuitBreaking.CircuitBreaker.Reset | iqoptionapi/circuit_breaker.py:160-166 | A session reset keeps the last balance seen. |
| CircuitBreaking.CircuitBreaker.Status | iqoptionapi/circuit_breaker.py:168-177 | A report's fields, the drawdown rounded to four digits, and what making it does to the breaker. |
| CircuitBreaking.ClosedMeansBelowLimit | iqoptionapi/circuit_breaker.py:74-158 | In every run from a sound breaker, closed implies fewer consecutive losses than the limit. |
| CircuitBreaking.FreshClosedMeansBelowLimit | iqoptionapi/circuit_breaker.py:30-158 | For new breakers this holds in all runs if and only if the limit is at least one. |
| CircuitBreaking.OpenGrantsNothing | iqoptionapi/circuit_breaker.py:53-60 | After a trip no trade is let through before the wait is over, short of a success or a reset. |
| CircuitBreaking.ProbesAreSpaced | iqoptionapi/circuit_breaker.py:53-144 | In every run any two half-open test trades are at least the recovery wait apart, whatever lies between them. |
| CircuitBreaking.NextProbeIsLate | iqoptionapi/circuit_breaker.py:53-144 | Once the probe is spent, the next one comes no sooner than the recovery wait after it. |
| CircuitBreaking.GrantsExactly | iqoptionapi/circuit_breaker.py:53-166 | In every run of a new breaker a question is granted if and only if, by the calls before it, no pause stands, or its wait is over and nothing was granted since it began: a pause begins with a loss or failure that reaches a limit or any loss once the wait is over, and ends with a success, a reset or a win once the wait is over. |
| CircuitBreaking.GrantsWithinLimits | iqoptionapi/circuit_breaker.py:135-144 | A run in which no limit is reached grants every question. |
| CircuitBreaking.ReportsExactly | iqoptionapi/circuit_breaker.py:168-177 | A report tells the losses, the session's loss, the pauses, the peak and the drawdown of the calls before it. |
| CircuitBreaking.ReportSpendsTheProbe | iqoptionapi/circuit_breaker.py:168-177 | Asking for a report has the verdict and the cost of asking to trade. |
| CircuitBreaking.LossTripsExactly | iqoptionapi/circuit_breaker.py:84-123 | A closed breaker trips on a loss if and only if a limit is reached, except when only the drawdown one is and the account is empty. |
| CircuitBreaking.WipedOutStaysClosed | iqoptionapi/circuit_breaker.py:105-123 | A concrete run that loses everything and leaves the breaker closed. |
| CircuitBreaking.SpentSessionTripsOnEveryLoss | iqoptionapi/circuit_breaker.py:84-123 | Until a reset, every loss after the session limit ends with an open breaker. |
| CircuitBreaking.StaleBalanceIsHarmless | iqoptionapi/circuit_breaker.py:160-166 | Runs that differ only in the last balance seen let the same trades through. |
| CircuitBreaking.ReportAfterReset | iqoptionapi/circuit_breaker.py:160-177 | A report after a reset, whose drawdown is rounded to four digits, shows none if and only if the old balance is within half of such a step of the new one. |
| Reconnecting.ReconnectManager.Pause | iqoptionapi/core/reconnect.py:45-65 | One wait counts an attempt, and either delays or raises once the budget is used up. |
| Reconnecting.ReconnectManager.Reset | iqoptionapi/core/reconnect.py:67-71 | A reset restores the whole budget. |
| Reconnecting.DelaysStayInTheBand | iqoptionapi/core/reconnect.py:57-59 | Delays stay in the jitter band around a raw delay that never shrinks and never passes the cap. |
| Reconnecting.DelaysMultiply | iqoptionapi/core/reconnect.py:57 | The first raw delay is one, and each is the one before it times the base until the cap is reached. |
| Reconnecting.DelayWithoutJitter | iqoptionapi/core/reconnect.py:57-59 | At the middle noise the delay is the raw one of the attempt, and at the least noise the lower edge of the band. |
| Reconnecting.ReconnectWithBackoff | iqoptionapi/mixins/management_mixin.py:62-108 | The loop over two mutable objects, watched for any number of turns, with its end, the attempts and the final state of both; an attempt can also log in, reset the manager and then raise. |
| Reconnecting.BudgetBoundsConnects | iqoptionapi/mixins/management_mixin.py:69-108 | Whatever happens, the attempts of one call are bounded by the manager's remaining budget and one budget more for each attempt that logs in and then raises; the manager's count starts anew with each of these, and the loop raises only when it is at the limit. |
| Reconnecting.OneBudgetWithoutDrops | iqoptionapi/mixins/management_mixin.py:69-108 | If no attempt logs in and then raises, the remaining budget alone bounds the attempts, and the loop ends. |
| Reconnecting.EndedForGood | iqoptionapi/mixins/management_mixin.py:69-108 | A loop that has ended stays as it is however long it is watched. |
| Reconnecting.AbortedCallsShareTheBudget | iqoptionapi/mixins/management_mixin.py:69-108 | A series of aborted calls shares one budget, and one more for each attempt that logs in and then raises. |
| Reconnecting.BreakerStopsTheLoop | iqoptionapi/mixins/management_mixin.py:69-108 | With prompt checks the breaker alone ends the loop, after at most max(1, losses limit - losses) attempts, whatever the manager's count does. |
| Reconnecting.FailuresAreRecorded | iqoptionapi/mixins/management_mixin.py:69-108 | Every attempt that does not connect, and the final error, is one failure for the breaker; a success clears them. |
| Reconnecting.FreshManagerNeverRaises | iqoptionapi/mixins/management_mixin.py:69-108 | With a fresh manager and at least as many attempts as losses allowed, the attempts error is never raised. |
| Reconnecting.HopelessLoop | iqoptionapi/mixins/management_mixin.py:69-108 | If nothing connects, the loop aborts after exactly the breaker's patience if the count stays below the limit so long, and otherwise raises as soon as the count reaches it. |
| Reconnecting.UnguardedLoop | iqoptionapi/mixins/management_mixin.py:69-108 | Without a breaker a hopeless loop runs exactly as long as the count stays below the limit, and then raises. |
| Reconnecting.HopelessWithoutDrops | iqoptionapi/mixins/management_mixin.py:69-108 | If no attempt logs in and then raises, exactly the shorter of patience and budget is used up, and without a breaker exactly the budget. |
| Reconnecting.DropsOutlastTheBudget | iqoptionapi/stable_api.py:165-182 | A concrete script, every attempt logging in and then raising: on a budget of one a new breaker lets three attempts through, and without a breaker the loop never ends. |
| MoneyManagement.MartingaleGuard.CalculateRawAmount | iqoptionapi/martingale_guard.py:69-106 | The step moves as the strategy says, and the raw stake is that of the new step. |
| MoneyManagement.MartingaleGuard.NextAmount | iqoptionapi/martingale_guard.py:42-67 | The guard after a call, and the stake it remembers and returns. |
| MoneyManagement.MartingaleGuard.Reset | iqoptionapi/martingale_guard.py:108-110 | A reset gives a new guard. |
| MoneyManagement.Next | iqoptionapi/martingale_guard.py:42-67 | Every stake lies between one and max(1, min(cap, balance * share)). |
| MoneyManagement.StakeExactly | iqoptionapi/martingale_guard.py:42-106 | In every run the stake is what the calls ask for, cut at both caps and never less than one: the base at the start, the stake before after a draw, the base times the multiplier to the power of the streak modulo the ladder, or the base times the Fibonacci number of the step. |
| MoneyManagement.RungIsStaked | iqoptionapi/martingale_guard.py:69-80 | A martingale within its caps stakes exactly the base times the multiplier for each loss of the streak. |
| MoneyManagement.FibStepIsStep | iqoptionapi/martingale_guard.py:95-104 | The Fibonacci step goes up by one on a loss, starting anew beyond the last step, and down by two on a win. |
| MoneyManagement.StepIsStreakModulo | iqoptionapi/martingale_guard.py:69-106 | In every run the step is the current streak, draws ignored, modulo the length of the ladder. |
| MoneyManagement.StepWithinLadder | iqoptionapi/martingale_guard.py:69-106 | The step never leaves the ladder. |
| MoneyManagement.FibonacciStepInRange | iqoptionapi/martingale_guard.py:95-104 | In every run the Fibonacci table is read within its bounds. |
| MoneyManagement.RungsAreGeometric | iqoptionapi/martingale_guard.py:69-106 | The stakes of the first rungs add up to the base times a geometric sum. |
| MoneyManagement.StakeBelowRung | iqoptionapi/martingale_guard.py:42-106 | In every run a stake is at most the uncapped stake of its rung. |
| MoneyManagement.LadderBoundsEveryCycle | iqoptionapi/martingale_guard.py:42-106 | With base and multiplier at least one, no losing cycle stakes more than the whole ladder, whatever the balances. |
| Wilder.Smooth | iqoptionapi/strategy/indicators.py:328-333 | Every entry of the smoothed array, and which are undefined. |
| Wilder.DirectionalIndex | iqoptionapi/strategy/indicators.py:310-344 | The DX array, with undefined quotients where a denominator is zero. |
| Wilder.AverageDx | iqoptionapi/strategy/indicators.py:346-357 | The averaged array, defined from index 2 * period - 1 on. |
| Wilder.Adx | iqoptionapi/strategy/indicators.py:289-357 | The whole indicator, with its undefined cases. |
| Wilder.MovesWithinRange | iqoptionapi/strategy/indicators.py:310-325 | On sane candles +DM + -DM never exceeds the true range. |
| Wilder.LargerMoveCounts | iqoptionapi/strategy/indicators.py:310-325 | The two moves of a bar are never both counted; each is counted exactly when it goes beyond the bar before and is the larger one, and then in full. |
| Wilder.RangeIsSpan | iqoptionapi/strategy/indicators.py:313-319 | The true range is the width of the smallest interval that holds high, low and the previous close. |
| Wilder.DxIgnoresTheRange | iqoptionapi/strategy/indicators.py:335-344 | For a positive range DX is the difference of the moves relative to their sum, in percent, whatever the range. |
| Wilder.AdxMirrors | iqoptionapi/strategy/indicators.py:289-357 | Turning the prices upside down leaves the ADX as it is. |
| Wilder.AnOutsideBar | iqoptionapi/strategy/indicators.py:310-325 | A concrete outside bar: only the larger, downward move counts, and the ADX is one hundred. |
| Wilder.SmoothingKeepsOrder | iqoptionapi/strategy/indicators.py:328-337 | Wilder smoothing preserves that bound. |
| Wilder.DirectionalIndicatorsShareHundred | iqoptionapi/strategy/indicators.py:339-344 | On sane candles +DI + -DI is at most one hundred, and every defined DX is in [0, 100]. |
| Wilder.AdxInRange | iqoptionapi/strategy/indicators.py:346-357 | Every defined ADX is in [0, 100]. |
| MarketRegime.Ws | iqoptionapi/strategy/market_regime.py:51-57 | The whole smoothed list, empty for short data. |
| MarketRegime.DxValues | iqoptionapi/strategy/market_regime.py:64-72 | The DX list with zero ranges left out. |
| MarketRegime.FlatBarsAreSkipped | iqoptionapi/strategy/market_regime.py:64-72 | The values are those of the bars with a range, and there are as many as such bars when all have one or none has. |
| MarketRegime.SkippingOneBar | iqoptionapi/strategy/market_regime.py:64-72 | A bar without a range changes nothing wherever it stands. |
| MarketRegime.EqualMovesAreNeutral | iqoptionapi/strategy/market_regime.py:67-71 | Equal moves, zero or not, give the value zero. |
| MarketRegime.Movements | iqoptionapi/strategy/market_regime.py:38-47 | The three differenced series are those of the array computation without its first entry. |
| MarketRegime.GetAdxOf | iqoptionapi/strategy/market_regime.py:38-79 | The clamped value rounded to two digits, or the mark for too little data. |
| MarketRegime.GetAdx | iqoptionapi/strategy/market_regime.py:21-79 | The same from cached candles; one that does not convert spoils the result. |
| MarketRegime.CandlesGiveTheirSeries | iqoptionapi/strategy/market_regime.py:21-37 | From cached candles the index is that of the highs, lows and closes they hold. |
| MarketRegime.WsIsWilder | iqoptionapi/strategy/market_regime.py:51-57 | On the same series the two smoothers agree entry for entry. |
| MarketRegime.SumFormIsScaledMean | iqoptionapi/strategy/market_regime.py:73-78 | Smoothing DX as a sum gives exactly period times smoothing it as a mean, at every index. |
| MarketRegime.RawAdxAgainstAdx | iqoptionapi/strategy/market_regime.py:38-79 | Without zero denominators the unclamped value is the last ADX at exactly 2 * period candles, and period times it beyond. |
| MarketRegime.LastAdxDefined | iqoptionapi/strategy/indicators.py:339-357 | The last ADX is defined if and only if no denominator on the way to it is zero. |
| MarketRegime.ReportedIsAdxExactly | iqoptionapi/strategy/market_regime.py:75-79 | On every sane series the value before rounding is the ADX if and only if no denominator is zero and there are exactly 2 * period candles, the period is one, or the ADX is 0 or 100. |
| MarketRegime.ReportedIsClose | iqoptionapi/strategy/market_regime.py:79 | Rounding moves the value by half a hundredth at most. |
| MarketRegime.TrendingThresholdShrinks | iqoptionapi/strategy/market_regime.py:81-90 | On longer series with a defined ADX a market counts as trending if and only if period * ADX exceeds 25.005, the rounding included. |
| MarketRegime.RangingThresholdShrinks | iqoptionapi/strategy/market_regime.py:81-90 | Likewise it counts as ranging if and only if period * ADX is below 19.995, and as neither without enough data. |
| MarketRegime.TwiceTheIndex | iqoptionapi/strategy/market_regime.py:75-90 | Five concrete sane candles with period two: the ADX is 20, 40 is reported, and the regime changes. |
| Indicators.Ema | iqoptionapi/strategy/indicators.py:29-45 | The loop computes the recursive average, or nothing for short data. |
| Indicators.EmaArray | iqoptionapi/strategy/indicators.py:79-91 | Entry i is the moving average of the prefix that ends at i. |
| Indicators.EmaWithinPrices | iqoptionapi/strategy/indicators.py:29-45 | The average never leaves the range of its prices. |
| Indicators.EmaLagsBehindARamp | iqoptionapi/strategy/indicators.py:29-45 | On steadily rising prices the average stays behind the last one by exactly half of the period less one. |
| Indicators.Averages | iqoptionapi/strategy/indicators.py:63-70 | The loop carries both of Wilder's averages. |
| Indicators.Rsi | iqoptionapi/strategy/indicators.py:48-76 | The index from those averages, one hundred without losses, and in [0, 100]. |
| Indicators.RsiIsGainShare | iqoptionapi/strategy/indicators.py:72-76 | The formula is the gain's share of gain plus loss, in percent. |
| Indicators.AverageIsZero | iqoptionapi/strategy/indicators.py:63-70 | A smoothed average of gains is zero only if all of them are, or with period one the last. |
| Indicators.RsiMirrors | iqoptionapi/strategy/indicators.py:48-76 | Mirroring the prices turns the index around fifty if and only if some price differs from the first, or with period one the last two differ. |
| Indicators.RisingMarket | iqoptionapi/strategy/indicators.py:48-76 | Without a falling step the index is one hundred. |
| Indicators.FallingMarket | iqoptionapi/strategy/indicators.py:48-76 | Without a rising step it is zero, if the prices it still sees are not all the same. |
| Indicators.AverageIsSmoothedSum | iqoptionapi/strategy/indicators.py:63-70 | Period times the index's average is the smoothed sum of the directional index, at every step. |
| Indicators.LatestPercentKs | iqoptionapi/strategy/indicators.py:155-190 | The %K values of the last windows, newest first, of series that reach far enough. |
| Indicators.NthPercentK | iqoptionapi/strategy/indicators.py:155-190 | The j-th value is that of the window that ends j candles before the end. |
| Indicators.PercentKExtremes | iqoptionapi/strategy/indicators.py:176-180 | %K is fifty for a flat window, one hundred for a close at the highest high and zero for one at the lowest low. |
| Indicators.Stochastic | iqoptionapi/strategy/indicators.py:155-190 | For series of any lengths: nothing for short highs, a failure exactly when an index or a window runs out, and otherwise the newest %K and the mean of the last ones. |
| Indicators.WilliamsR | iqoptionapi/strategy/indicators.py:360-390 | %R of every window, undefined before the first, for flat windows and for arrays of unequal length. |
| Indicators.PercentRIsShiftedPercentK | iqoptionapi/strategy/indicators.py:360-390 | On the same window %R is %K minus one hundred, and in [-100, 0] on sane candles. |
| Backtest.Create | iqoptionapi/backtest/engine.py:230-266 | An engine is made if and only if all its parameters are accepted. |
| Backtest.MakeTrade | iqoptionapi/backtest/engine.py:302-335 | The trade of a candle with a signal: from its close to the next, won or lost by its direction, with the balance after it. |
| Backtest.Run | iqoptionapi/backtest/engine.py:270-348 | The loop with its early stop computes the recursive replay. |
| Backtest.NoLookAhead | iqoptionapi/backtest/engine.py:287-348 | Running on the first m candles gives exactly the full run's trades with index at most m - 2, in order. |
| Backtest.TradedExactly | iqoptionapi/backtest/engine.py:287-348 | A candle is traded if and only if its signal is not HOLD and no earlier trade emptied the account. |
| Backtest.ShownExactly | iqoptionapi/backtest/engine.py:295-302 | A strategy that calls on one window alone trades a candle if and only if that window is the min_candles candles before it and the account is alive. |
| Backtest.BlindToTheFuture | iqoptionapi/backtest/engine.py:287-302 | Two runs on candles that agree before index i decide alike at i while both accounts are alive, with the same direction and confidence. |
| Backtest.TheExitIsNotShown | iqoptionapi/backtest/engine.py:287-302 | Concrete candles: a strategy that waits for the candle it would exit at never trades. |
| Backtest.TradesAreHonest | iqoptionapi/backtest/engine.py:302-335 | Every trade has the direction, prices, result and profit its candles and signal say. |
| Backtest.OnlyTheLastTradeRuins | iqoptionapi/backtest/engine.py:287-348 | Every trade but the last leaves money, and trades come in candle order. |
| Backtest.AnalyzedExactly | iqoptionapi/backtest/engine.py:287-348 | How many candles a run analyses, with and without ruin. |
| Backtest.BalancesArePrefixSums | iqoptionapi/backtest/engine.py:287-348 | Each recorded balance is the opening one plus all profits so far, and the last is the final balance. |
| Backtest.FinalBalance | iqoptionapi/backtest/engine.py:287-348 | Final balance = initial + amount * (payout * wins - losses). |
| Metrics.DrawdownIsLargestFall | iqoptionapi/backtest/engine.py:96-112 | The running-peak formula is the largest fall from any balance to a later one. |
| Metrics.AnalyzerMaxDrawdown | iqoptionapi/performance.py:129-151 | The loop returns the largest fall of the balances with zero in place of the opening one, and that fall's share of its peak where it is first reached; absent profits count as zero. |
| Metrics.AQuarterOfThePeak | iqoptionapi/performance.py:129-151 | Concrete profits: a thousand gained and half of it lost is a quarter of a peak of two thousand. |
| Metrics.UnknownLeavesTheBalance | iqoptionapi/performance.py:137-143 | A trade without a profit leaves the balance where it was. |
| Metrics.LowerBefore | iqoptionapi/performance.py:144-149 | Before the place where the share is taken, every fall is smaller. |
| Metrics.AnalyzerMissesTheOpening | iqoptionapi/performance.py:129-151 | The true drawdown is the larger of the analyzer's and the fall from the opening balance. |
| Metrics.DrawdownIgnoresOpening | iqoptionapi/backtest/engine.py:96-112 | The drawdown does not depend on the opening balance. |
| Metrics.AnalyzerAgainstBacktest | iqoptionapi/performance.py:129-151 | On the same profits the analyzer's drawdown is at most the backtest's, and equal if and only if there is no fall from the opening balance or a later fall reaches the largest of them. |
| Metrics.NoOpeningLoss | iqoptionapi/performance.py:129-151 | It is equal whenever the first trade is no loss. |
| Metrics.OneLossGoesUnnoticed | iqoptionapi/performance.py:129-151 | A concrete input: a single loss of ten is a drawdown of ten, and the analyzer reports none. |
| Metrics.RecordedAreBalances | iqoptionapi/backtest/engine.py:104-109 | The balances a run's drawdown is taken over are those of its profits. |
| Metrics.AnalyzerAgainstRun | iqoptionapi/backtest/engine.py:96-112 | The comparison of the two drawdowns, with its exact condition, for every run of the engine. |
| Metrics.RunThatStartsWinning | iqoptionapi/backtest/engine.py:96-112 | They are equal for every run of an accepted engine that starts with a win or does not trade. |
| Metrics.ExpectancyIsAverageProfit | iqoptionapi/backtest/engine.py:154-171 | The weighted formula is total profit / total trades. |
| Metrics.EngineTradesAreDecisive | iqoptionapi/backtest/engine.py:302-335 | Every trade of an accepted engine earns on a win and costs on a loss, as the expectancy presumes. |
| Metrics.LongestRunIsLongest | iqoptionapi/backtest/engine.py:173-209 | The one-pass maximum is the length of the longest block of equal results. |
| Metrics.MaxConsecutive | iqoptionapi/backtest/engine.py:173-209 | The loop finds that maximum. |
| Metrics.AnalyzerStreaks | iqoptionapi/performance.py:70-83 | The analyzer's loop finds both maxima over the results with the draws taken out. |
| Metrics.DrawsCountForNothing | iqoptionapi/performance.py:70-83 | A draw counts for nothing wherever it stands, and without draws the results stay as they are. |
| Expiration.Quarters | iqoptionapi/expiration.py:29-37 | The minute-by-minute search ends, and finds exactly the consecutive quarter hours more than five minutes away. |
| Expiration.Offer | iqoptionapi/expiration.py:15-37 | The list of expiries in closed form. |
| Expiration.GetExpirationTime | iqoptionapi/expiration.py:15-46 | With a clock read for every offered expiry, the result is the first one whose remaining time is closest to the wanted one. |
| Expiration.SearchAgainstRetired | iqoptionapi/ws/channels/orders/buy_binary.py:63-72 | For one to five minutes the index is below five, and the choice equals the retired formula if and only if it is not second 30 with one minute. |
| Expiration.LongDurations | iqoptionapi/expiration.py:29-46 | From the first quarter hour on the chosen expiry is within half a quarter hour of the wanted time, up to the fiftieth quarter hour, which all later times get. |
| Expiration.GetRemainingTime | iqoptionapi/expiration.py:49-80 | Every label with its remaining seconds, a clock read each. |
| Expiration.LabelsAreClose | iqoptionapi/expiration.py:69-80 | A minute's label is right to half a minute, and a quarter hour's is at most five minutes low and under ten high. |
| Expiration.RemainingAgainstSearch | iqoptionapi/expiration.py:15-80 | The listed time is that of the chosen expiry if and only if it is not second 30 with two minutes or more. |
| DigitalExpiry.BuyDigitalExpiry | iqoptionapi/mixins/orders_mixin.py:96-107 | The bounded search always succeeds and finds the first boundary of the duration after the timestamp. |
| DigitalExpiry.CalculatorsAgreeExactly | iqoptionapi/ws/channels/strike_list.py:22-31 | For every duration the two calculators agree if and only if the current period ends within the hour and the first boundary is at least ten seconds away; otherwise it says by how much they differ. |
| DigitalExpiry.CalculatorsAgree | iqoptionapi/ws/channels/strike_list.py:22-31 | For durations that divide the hour only the ten seconds count, and the difference is one period. |
| DigitalExpiry.StrikeIsLeastTenSecondsAway | iqoptionapi/ws/channels/strike_list.py:22-31 | For every duration, the strike list picks the first boundary at or after ten seconds from now if and only if the period running nine seconds from now ends within the hour, or, in the last ten seconds of an hour, the duration divides sixty or is 120. |
| DigitalExpiry.DivisorIsLeastTenSecondsAway | iqoptionapi/ws/channels/strike_list.py:22-31 | For durations that divide the hour it always does. |
| DigitalExpiry.SevenMinutesDisagree | iqoptionapi/ws/channels/strike_list.py:22-31 | A concrete timestamp at which the calculators are three minutes apart. |
| OrderCorrelation.Api.SendWebsocketRequest | iqoptionapi/api.py:382-410 | The id of a request, and that only open-option requests are queued. |
| OrderCorrelation.Api.RemovePendingBuyId | iqoptionapi/api.py:412-420 | The first occurrence is removed; an absent id changes nothing. |
| OrderCorrelation.Api.OptionOpened | iqoptionapi/ws/received/orders/option_opened.py:4-20 | The oldest queued id gets the option id; with an empty queue nothing changes. |
| OrderCorrelation.Api.ResultReceived | iqoptionapi/ws/received/auth/result.py:3-16 | The success is recorded, and a rejected id leaves the queue. |
| OrderCorrelation.Api.OptionWithoutOrder | iqoptionapi/ws/received/orders/option_closed.py:20-25 | A refusal without an order id replaces its request's entry and leaves the queue alone. |
| OrderCorrelation.Api.BuyBegin | iqoptionapi/mixins/orders_mixin.py:33-42 | A single order enters the queue twice. |
| OrderCorrelation.Api.BuyMultiBegin | iqoptionapi/mixins/orders_mixin.py:227-233 | Several orders enter it once each, numbered from zero. |
| OrderCorrelation.DecimalIsInjective | iqoptionapi/api.py:393-398 | Different numbers give different request ids. |
| OrderCorrelation.QueueIsRestOfLine | iqoptionapi/api.py:400-420 | In every run whatever, the queue is the ids sent, without those rejected in time, behind as many as openings took. |
| OrderCorrelation.StoredInLine | iqoptionapi/ws/received/orders/option_opened.py:9-18 | In every run with distinct ids, the k-th id of that line has stored the k-th opening's option, or nothing if it was declined since. |
| OrderCorrelation.NothingUntilTaken | iqoptionapi/ws/received/orders/option_opened.py:9-18 | An id that no opening took has no option stored. |
| OrderCorrelation.EntriesExactly | iqoptionapi/ws/received/orders/option_closed.py:20-25 | An id has an entry if and only if an opening took it or an "option" reply without an order id named it. |
| OrderCorrelation.SuccessIsTheLatest | iqoptionapi/ws/received/auth/result.py:8-12 | In every run the success stored under an id is that of its latest result since its entry was made. |
| RepliesInOrder.LineAgainstTruth | iqoptionapi/api.py:400-420 | With replies in request order, the requests opened and then those waiting are the line with the ids taken out that were declined while they waited. |
| RepliesInOrder.QueueIsUnanswered | iqoptionapi/api.py:400-420 | With replies in request order the queue is the unanswered requests in order if and only if none was declined while it waited. |
| RepliesInOrder.StoredUnderItsRequestExactly | iqoptionapi/ws/received/orders/option_opened.py:9-18 | The k-th opening is stored under its own request if and only if no request up to there in line was declined while it waited. |
| RepliesInOrder.StoredUnderItsRequest | iqoptionapi/ws/received/orders/option_opened.py:9-18 | While none is declined as it waits, the option stored under a request is the one it opened, unless it was declined afterwards, and no other is ever stored. |
| RepliesInOrder.RejectedGetsNone | iqoptionapi/ws/received/auth/result.py:8-16 | Then a request refused by a failed result never holds an option. |
| RepliesInOrder.OutOfOrderGoesToTheOldest | iqoptionapi/ws/received/orders/option_opened.py:9-18 | A reply out of order is stored under the oldest request in the queue, and its own keeps waiting. |
| RepliesInOrder.ARefusalTakesTheOption | iqoptionapi/ws/received/orders/option_closed.py:20-25 | A concrete run: the first of two orders is declined, and the second one's option is stored under the first. |
| SingleOrders.Backlog | iqoptionapi/mixins/orders_mixin.py:33-62 | In every run of single orders with distinct ids, whatever replies come, the queue holds the older calls' ids first, at least twice the older calls less the replies. |
| SingleOrders.BuysLeaveStaleIds | iqoptionapi/mixins/orders_mixin.py:33-62 | The queue holds at least twice the calls less the replies, so with one reply a call at least one id for every call. |
| SingleOrders.OnlyTheFirstBuyIsCorrelated | iqoptionapi/mixins/orders_mixin.py:33-62 | In every such run with at most two replies for every older call, whoever caused them, the call in progress finds an option id if and only if it is the first and an option was opened and not declined since. |
| SingleOrders.ACallForgets | iqoptionapi/mixins/orders_mixin.py:33-36 | A new call forgets the entries of the ones before it. |
| SingleOrders.OneMoreCatchesUp | iqoptionapi/mixins/orders_mixin.py:33-62 | The bound is reached: after any number of calls one opening more is stored under the last call. |
| ManyOrders.NumbersAscend | iqoptionapi/mixins/orders_mixin.py:239 | The request numbers are in string order if and only if there are at most ten. |
| ManyOrders.KeysInRequestOrder | iqoptionapi/mixins/orders_mixin.py:239 | So with an entry for every order, the sorted keys are in request order if and only if there are at most ten. |
| ManyOrders.CollectIds | iqoptionapi/mixins/orders_mixin.py:238-246 | The list returned holds each key's option id, absent ones as None. |
| ManyOrders.RequestsQueueUp | iqoptionapi/mixins/orders_mixin.py:227-233 | Sending n orders is a run that leaves the desk as the client's own loop does. |
| ManyOrders.ListsTheTaken | iqoptionapi/mixins/orders_mixin.py:227-246 | For every run with distinct ids: the list has a place for exactly the ids that openings took or refusals without an order id named, with what the line says for the former and None for the others. |
| ManyOrders.ListsTheOpened | iqoptionapi/mixins/orders_mixin.py:227-246 | With replies in request order and none declined while it waits, the places are those of the opened and the declined requests, and each holds exactly the option its request opened, unless it was declined since. |
| ManyOrders.ListsInOrderOfOpening | iqoptionapi/mixins/orders_mixin.py:227-246 | Up to ten orders, when only requests that hold an option are declined, place i is what the i-th opening left, with no place for a request without an option. |
| ManyOrders.InOrderIsServed | iqoptionapi/ws/received/auth/result.py:8-16 | Replies in request order are among the runs of the next rows, which allow any order. |
| ManyOrders.LineIsFullExactly | iqoptionapi/ws/received/auth/result.py:8-16 | Every opening takes the next request in the order of sending if and only if no failed result named an id still queued. |
| ManyOrders.BuyMultiIsRightExactly | iqoptionapi/mixins/orders_mixin.py:227-246 | With openings, failed results of any request, and refusals without an order id, in any order: every place i < n holds the option that request i opened if and only if all were opened, the k-th opening being that of the request whose number is k's rank in string order, no failed result named an id still queued, and no refusal named another id or request k after k + 1 openings. |
| ManyOrders.RightInRequestOrder | iqoptionapi/mixins/orders_mixin.py:227-246 | Up to ten orders that order is the request order, and openings in request order are right only up to ten. |
| ManyOrders.ARejectionShiftsTheList | iqoptionapi/mixins/orders_mixin.py:227-246 | A concrete run: the first of two orders is rejected, and the second one's option stands in the first place. |
| ManyOrders.ADeclineAddsAPlace | iqoptionapi/mixins/orders_mixin.py:227-246 | A concrete run: an order declined without an opening gets a place that holds None. |
| ManyOrders.ADeclineEmptiesAPlace | iqoptionapi/mixins/orders_mixin.py:227-246 | A concrete run: with every order opened, one declined afterwards loses its option. |
| ManyOrders.AForeignFailureLosesAnOption | iqoptionapi/ws/received/auth/result.py:8-16 | A concrete run: both orders are opened, but a failed result for another request with the first one's number came before; the second order's option is lost. |
| WaitNotify.EventStores.Lookup | iqoptionapi/stable_api.py:515-517 | The caller takes the stored event, or makes one of its own that nobody else knows. |
| WaitNotify.EventStores.Register | iqoptionapi/stable_api.py:518-521 | The caller's event replaces whatever is stored. |
| WaitNotify.EventStores.Conclude | iqoptionapi/stable_api.py:529-557 | The outcome is read only if the event fired, first where the caller looks and then among the filed messages, and the entry is deleted in any case. |
| WaitNotify.EventStores.Fetch | iqoptionapi/ws/received/orders/option_closed.py:57-65 | A handler takes the stored event, creating it if it is missing. |
| WaitNotify.EventStores.Handle | iqoptionapi/ws/received/orders/option_closed.py:32-65 | What each handler stores, files and signals for the wait in question; an order numbered 0 is never signalled, nor stored by the bet-info handler. |
| WaitNotify.EventStores.OnClose | iqoptionapi/ws/client.py:272-282 | Every stored event is set, and no other. |
| WaitNotify.EarIsRight | iqoptionapi/stable_api.py:503-557 | In every interleaved run, an account without event identities tells for each order whether an entry exists and whether its event is set. |
| WaitNotify.WaitsUntilHeard | iqoptionapi/stable_api.py:527-531 | A waiting caller can time out if and only if it has heard nothing. |
| WaitNotify.HeardUnlessInTheWindow | iqoptionapi/stable_api.py:515-527 | Once a handler has signalled, the waiting caller wakes if and only if the handler did not take the event between the failed lookup and the registration. |
| WaitNotify.ALostSignal | iqoptionapi/stable_api.py:515-527 | A concrete run: the message is stored and signalled inside the window, and the caller can only time out. |
| WaitNotify.SignalIsKept | iqoptionapi/ws/received/orders/option_closed.py:32-65 | Outside that window, no later traffic makes the caller miss the signal. |
| WaitNotify.AnnouncedCannotTimeOut | iqoptionapi/ws/received/orders/option_closed.py:32-65 | For both waits: a caller that waits when a message arrives that is final for its order, as "option-closed" and "socket-option-closed" always are, "option" if it says so, and for `check_win` also a final position change, list info and bet info, cannot time out once the network thread listens again, in any run. |
| WaitNotify.OnlyAnnouncementsWake | iqoptionapi/ws/received/orders/option_closed.py:32-65 | Without such a message and without a close nobody is woken, and whoever waits can time out. |
| WaitNotify.CloseWakes | iqoptionapi/ws/client.py:272-282 | A connection that closes after the registration wakes the caller. |
| WaitNotify.NoEntryRemains | iqoptionapi/stable_api.py:552-557 | After the cleanup an entry exists if and only if a handler or a new wait has made one since. |
| WaitNotify.WokenReadsTheLatest | iqoptionapi/stable_api.py:532-548 | A woken caller takes the newest message of the handlers that write where it looks (the "option" and the two closing ones for `check_win_digital`, bet info for `check_win`), and must look among the filed ones if and only if there was none. |
| WaitNotify.ConsultReadsTheFiled | iqoptionapi/stable_api.py:542-548 | It then takes the newest position change, or else "option-closed", or else "option" message, and finds none if and only if there was none of them. |
| WaitNotify.TheMessageIsTheAnswer | iqoptionapi/stable_api.py:527-551 | Once woken, the caller ends with the message of a handler that writes where it looks, if none is newer there. |
| WaitNotify.TheFiledMessageIsTheAnswer | iqoptionapi/stable_api.py:542-551 | A caller that found nothing there ends with a filed message, if none is preferred and none is newer: so `check_win` ends with "option-closed". |
| WaitNotify.StoreBeforeSignal | iqoptionapi/ws/received/orders/option_closed.py:32-65 | If every message that sets the event was written where the caller looks, and the connection does not close, every event set has a message stored before it. |
| WaitNotify.DigitalWaitFindsIt | iqoptionapi/mixins/orders_mixin.py:364-372 | That is so for `check_win_digital`: short of a closing connection, once woken it finds the newest message of its handlers. |
| WaitNotify.CheckWinFindsNothing | iqoptionapi/mixins/orders_mixin.py:342-349 | They are not for `check_win`: a concrete run wakes it without a close, and it finds nothing. |
| CandleCaching.CandleCache.GetOrCreateBuffer | iqoptionapi/candle_cache.py:21-25 | An unknown key gets an empty buffer of the default length. |
| CandleCaching.CandleCache.AddCandle | iqoptionapi/candle_cache.py:27-30 | The candle enters on the left, and a full buffer loses its right end. |
| CandleCaching.CandleCache.GetCandles | iqoptionapi/candle_cache.py:32-38 | The slice asked for; asking creates the buffer. |
| CandleCaching.CandleCache.SetMaxlen | iqoptionapi/candle_cache.py:40-48 | The buffer is rebuilt from its right end; a negative length changes nothing. |
| CandleCaching.CandleCache.EvictExpired | iqoptionapi/candle_cache.py:50-66 | Every buffer loses its expired candles, and the result is exactly the drop in the total. |
| CandleCaching.CandleCache.Stats | iqoptionapi/candle_cache.py:68-72 | The number of buffers and of candles. |
| CandleCaching.EvictionIsExact | iqoptionapi/candle_cache.py:57-66 | Eviction keeps every copy of every candle that is still alive and none that has expired. |
| CandleCaching.EvictionTakesTheTail | iqoptionapi/candle_cache.py:57-66 | Under a clock that does not run back it leaves a prefix and removes a suffix. |
| CandleCaching.HoldsTheNewest | iqoptionapi/candle_cache.py:21-66 | In every run a buffer whose length is the default, or was set before its first candle, holds the newest candles of an unbounded history, newest first, whatever happens to other keys. |
| CandleCaching.GetsTheNewest | iqoptionapi/candle_cache.py:32-38 | What a caller gets is the newest n of that history, as far as the buffer reaches. |
| CandleCaching.OtherLengths | iqoptionapi/candle_cache.py:32-38 | No length or a zero gives everything, and a negative one leaves out as many of the oldest. |
| CandleCaching.ShrinkingKeepsTheNewest | iqoptionapi/candle_cache.py:40-48 | For distinct candles a new length keeps the newest if and only if it drops none or is zero. |
| CandleCaching.ShrinkingHeals | iqoptionapi/candle_cache.py:27-48 | After as many additions as the new length, the buffer holds the newest again. |
| DictQueue.Queue.Add | iqoptionapi/ws/client.py:183-199 | The loop ends; a new key stands beside the largest old ones, and with no room at all the store is emptied and the call fails. |
| DictQueue.LargestIsUnique | iqoptionapi/ws/client.py:183-199 | There is only one way to keep the largest keys. |
| DictQueue.NeverTooLarge | iqoptionapi/ws/client.py:183-199 | In every series from an empty store the size stays within the limit. |
| DictQueue.OneMakesRoom | iqoptionapi/ws/client.py:183-199 | A full store drops exactly its smallest key. |
| DictQueue.KeepsTheLargest | iqoptionapi/ws/client.py:183-199 | One call keeps the largest keys of the history if and only if its key is present, there is room, or it exceeds the smallest key present. |
| DictQueue.RefinesHistory | iqoptionapi/ws/client.py:183-199 | Over a whole series the store is always the largest keys ever added, with their latest values, if and only if that held of every call. |
| Correlation.CauchySchwarz | iqoptionapi/strategy/correlation_engine.py:73-84 | The squared numerator is at most the product of the two sums of squares. |
| Correlation.PearsonIsBounded | iqoptionapi/strategy/correlation_engine.py:73-84 | Every coefficient lies in [-1, 1]. |
| Correlation.PearsonIsSymmetric | iqoptionapi/strategy/correlation_engine.py:73-84 | Exchanging the series changes nothing. |
| Correlation.TooLittleIsZero | iqoptionapi/strategy/correlation_engine.py:73-84 | Fewer than five pairs, or a series that does not vary, have the coefficient zero. |
| Correlation.LineIsPerfect | iqoptionapi/strategy/correlation_engine.py:73-84 | For points on a line the coefficient is the sign of the slope. |
| Correlation.PerfectExactlyOnLines | iqoptionapi/strategy/correlation_engine.py:73-84 | The coefficient is one or minus one if and only if all points lie on a line. |
| Correlation.CollectCloses | iqoptionapi/strategy/correlation_engine.py:23-39 | Missing closes are left out, the rest keeps its order. |
| Correlation.MissingCountForNothing | iqoptionapi/strategy/correlation_engine.py:23-39 | A missing close counts for nothing wherever it stands, and present ones stay as they are. |
| Correlation.LaterClosesAreIgnored | iqoptionapi/strategy/correlation_engine.py:40-46 | Only the earliest closes count, as many as the shorter series has. |
| Correlation.GetCorrelation | iqoptionapi/strategy/correlation_engine.py:15-46 | The coefficient of the two series cut to the shorter one, zero below five points. |
| Correlation.CoefficientIsFair | iqoptionapi/strategy/correlation_engine.py:15-46 | It is bounded and symmetric whatever closes are missing. |
| Correlation.GetCorrelationMatrix | iqoptionapi/strategy/correlation_engine.py:62-71 | The matrix holds the coefficient of exactly the pairs listed in that order. |
| Correlation.MatrixHasEachPairOnce | iqoptionapi/strategy/correlation_engine.py:62-71 | It holds each unordered pair exactly once, and none of an asset with itself, if and only if no asset was listed twice. |

## Left out

- RateLimit.TokenBucket.Consume: the second pass follows the first without other threads in between, and a blocking call needs a capacity of at least one and a positive rate to end at all; calls that interleave are covered by the runs of `AdmissionBound`, and the call that never ends by `SmallBucketStarves`.
- Reconnecting.BreakerStopsTheLoop: presumes that the recovery wait does not run out between a failure and the next check; with a longer pause the breaker turns half-open and only `BudgetBoundsConnects` holds.
- Reconnecting.ReconnectWithBackoff: a single loop is modelled. In the running system a closing connection starts another one on its own thread (iqoptionapi/ws/client.py:284-290), also when `connect` closes the old connection first, and several loops can then share one manager and one breaker. Since nothing bounds the turns in the code, the loop is watched for a number of them. The refresh of credentials is part of an attempt.
- Expiration.GetExpirationTime: minutes and quarter hours are those of UTC, so local offsets that are not whole quarter hours and changes of daylight saving time are not modelled. The comparisons with the retired formula and the remaining times are for a clock that shows the timestamp at every read.
- DigitalExpiry.BuyDigitalExpiry: whole-second timestamps, the full hour in local time falling on the full hour of UTC; the one-minute case uses `Expiration.GetExpirationTime`.
- SingleOrders.OnlyTheFirstBuyIsCorrelated: `buy` draws its ids at random, and two equal ids are possible; the statement is about distinct ones.
- RepliesInOrder.QueueIsUnanswered: openings and failed results that no request in the queue caused, such as an order placed elsewhere in the same account or another request with the same number, also take an id; the runs of `OrderCorrelation.StoredInLine` may hold them, and so may those of `SingleOrders` and, but for foreign openings, of `ManyOrders`.
- OrderCorrelation.Api.OptionWithoutOrder: the reply's own fields, such as a success mark, are not kept in the entry; its option id is None.
- ManyOrders.BuyMultiIsRightExactly: the server is taken to give no option id twice, to open only what was sent here and at most once, and the queue to be empty before the call; entries that single orders left behind come first and shift the answers.
- OrderCorrelation.Api.BuyMultiBegin: lists of different length, which only log an error.
- WaitNotify.EarIsRight: at most one caller waits for an order at a time, one thread handles messages, and one event store is followed with the dictionary its caller reads, for `check_win` and `check_win_digital`; the third pair, `position_changed_event_store` with `listinfodata`, and the wait on a single event are not part of this model, nor are the handlers of closed positions, which signal only that pair.
- WaitNotify.ALostSignal: for orders not numbered 0, which no handler signals; likewise `CheckWinFindsNothing`.
- WaitNotify.EventStores.Handle: which fields make a message final is a parameter, and stores that neither wait reads are not modelled. The path of an "option" message without an order id is `OrderCorrelation.Api.OptionWithoutOrder`.
- CandleCaching.CandleCache.AddCandle: the code marks the caller's own dictionary; adding the same dictionary twice would change both entries. The cache has no lock, and calls that overlap, such as an eviction that loses a candle added meanwhile, are not modelled.
- CircuitBreaking.CircuitBreaker.MayTrade: the breaker has no lock either; two threads that ask at once could both get the probe.
- CandleCaching.CandleCache.constructor: a negative default length in the configuration, which would make every first use of a key fail.
- MarketRegime.ReportedIsAdxExactly: the comparison is made before the rounding to two digits, which `ReportedIsClose` bounds. The series is taken as the computation reads it; the candle cache hands candles out newest first, so in the running system the two computations do not even see the same order. With zero-range bars skipped, a longer series can also have exactly `period` DX values; the ADX of the array computation is then undefined.
- Wilder.Adx: infinities from dividing by zero, which are undefined values here like 0 / 0.
- Correlation.PearsonIsBounded: the square root is any function that squares back to its argument.
- IEEE rounding everywhere, and the rounding of the backtest's and the analyzer's figures.
- The drawdown in percent, profit factor, Sharpe ratio and the grouping by asset, strategy and hour: single formulas.
- `sma`, `macd`, `bollinger_bands`, `atr`, `vwap`, `obv`, `cci`, `get_trend_direction`, `get_summary`, `get_correlated_assets`: sums, single branches or square roots.
- Idempotency registry, validators, subscription limits, signal consensus, session windows, candle patterns and multi-timeframe votes: map updates or finite facts.
- HTTP, login, sockets, logging, configuration files, and the threads that run the handlers: input and output.

# Multi-strategy trading bot: a Dafny model of its decision core

This project models the evaluation and simulation layer of a Java trading bot for BTC/USDT. It takes bars of market data and decides whether to buy or sell. It also sizes positions, keeps a book of open positions, replays history in a backtest and reports statistics. Every operation is stated in Dafny and proved against a specification.

Modules, following the program's own structure:

- `Wrappers`, `Decimal`, `Series`, `Domain`, `Sorting`: the basic vocabulary.
  - `Option` and `Result` types.
  - A `Fault` for each Java exception the code can reach: a null pointer, division by zero, an index out of bounds, a missing position, an illegal argument.
  - BigDecimal division with `HALF_UP` (ties away from zero, for negative values too) and with `DOWN` (truncation toward zero), over exact `real`s.
  - Sums and suffixes of series, and a stable insertion sort standing in for `List.sort`.
  - The records of the model package: bars, signals, positions, backtest trades, results and configurations. A nullable field is an `Option`.
- `Indicators`: the technical indicators SMA, EMA, ATR, Bollinger Bands and RSI.
  - Each is a function giving the value.
  - Each also has a loop method proved to compute exactly that function.
- `StrategyCommon`, `TrendFollowing`, `VolatilityBreakout`, `RangeMeanReversion`, `VolumeSpikeReversal`: the four analyzers.
  - Each maps a window of bars to a BUY, SELL or HOLD signal, with its stop, target and confidence.
- `SignalSelection`: the analyzers enabled by the configuration, and the selection of the best signal.
  - The best signal is the first non-HOLD signal of highest confidence.
- `RiskManagement` and `PortfolioManager`: the two position-sizing variants, together with:
  - signal validation and the open-position limit;
  - exposure;
  - the trailing-stop ratchet;
  - the portfolio's risk limits and per-strategy performance.
- `Repository` (class `PositionRepository`) and `PositionManagement`: the live position book.
  - Opening, closing, and stop-loss/take-profit triggering as methods that change the repository.
  - Realised and unrealised profit as folds over the book.
- `TradingEngine`: the decision logic of one live trading cycle.
  - The account balance, the bars and the clock are inputs.
- `BacktestMetrics` and `Backtesting`: the backtest state machine and its statistics.
  - The state holds cash, the open trades, the equity curve, the running peak and the largest drawdown.
  - The statistics are closing trades, equity, trade statistics and the Sharpe ratio.
- `Dashboard` (class `DashboardService`): the dashboard's aggregations.
  - The equity history, capped at 2160 points.
  - The maximum drawdown and the Sharpe ratio of that history.
  - Per-strategy metrics, the most recent trades and the health warnings.
- `BacktestController`: reading a CSV file of bars.
  - Java's `String.split` (trailing empty fields dropped), `Long.parseLong` and `new BigDecimal(String)` on the fields.
  - The header line skipped and malformed lines dropped.

Modelling conventions:

- Java's `Math.sqrt` is passed in as a function `sqrt: real -> real`.
- The clock is passed in as an integer `now`.
- Where an exception can reach the caller, the model returns a `Result` carrying the `Fault`.

## Model

| member | source | states |
|---|---|---|
| Indicators.Sma | src/main/java/com/kinduberre/multistrategytradingbot/service/TechnicalIndicatorService.java:16-24 | no average exactly when there are fewer prices than the period |
| Indicators.CalculateSma | src/main/java/com/kinduberre/multistrategytradingbot/service/TechnicalIndicatorService.java:16-24 | the summing loop over the last `period` prices returns exactly the average Sma defines |
| Indicators.SmaWithin | src/main/java/com/kinduberre/multistrategytradingbot/service/TechnicalIndicatorService.java:16-24 | the average lies between any bounds (exact to 8 places) of the last `period` prices: rounding never leaves the range |
| Indicators.SmaConstant | src/main/java/com/kinduberre/multistrategytradingbot/service/TechnicalIndicatorService.java:16-24 | the average of a constant window is that constant rounded half-up to 8 places, and the constant itself when it has at most 8 places |
| Indicators.SmaOfSuffix | src/main/java/com/kinduberre/multistrategytradingbot/service/TechnicalIndicatorService.java:19-22 | only the last `period` prices matter: any suffix at least that long gives the same average |
| Indicators.Multiplier | src/main/java/com/kinduberre/multistrategytradingbot/service/TechnicalIndicatorService.java:29 | the smoothing factor 2 / (period + 1) lies in (0, 1] for every period of at least one |
| Indicators.Ema | src/main/java/com/kinduberre/multistrategytradingbot/service/TechnicalIndicatorService.java:26-37 | no average exactly when there are fewer prices than the period |
| Indicators.EmaFoldAppend | src/main/java/com/kinduberre/multistrategytradingbot/service/TechnicalIndicatorService.java:32-35 | one more price blends into the running average as price × k + previous × (1 − k) |
| Indicators.CalculateEma | src/main/java/com/kinduberre/multistrategytradingbot/service/TechnicalIndicatorService.java:26-37 | the method (seed average, then the smoothing loop) returns exactly Ema |
| Indicators.FoldEma | src/main/java/com/kinduberre/multistrategytradingbot/service/TechnicalIndicatorService.java:32-35 | the smoothing loop computes the left fold of price × k + ema × (1 − k) over the remaining prices |
| Indicators.EmaFoldWithin | src/main/java/com/kinduberre/multistrategytradingbot/service/TechnicalIndicatorService.java:32-35 | smoothing keeps the running average inside any range holding the seed and every later price |
| Indicators.EmaWithin | src/main/java/com/kinduberre/multistrategytradingbot/service/TechnicalIndicatorService.java:26-37 | the exponential average lies between any bounds (exact to 8 places) of all the prices |
| Indicators.EmaConstant | src/main/java/com/kinduberre/multistrategytradingbot/service/TechnicalIndicatorService.java:26-37 | the exponential average of a constant series with at most 8 places is that constant |
| Indicators.TrueRange | src/main/java/com/kinduberre/multistrategytradingbot/service/TechnicalIndicatorService.java:44-52 | the true range is the largest of high − low, ‖high − previous close‖ and ‖low − previous close‖: at least each, equal to one, never negative |
| Indicators.TrueRanges | src/main/java/com/kinduberre/multistrategytradingbot/service/TechnicalIndicatorService.java:42-53 | one true range per bar after the first, none of them negative |
| Indicators.Atr | src/main/java/com/kinduberre/multistrategytradingbot/service/TechnicalIndicatorService.java:39-56 | no ATR exactly when there are fewer than period + 1 bars |
| Indicators.CalculateAtr | src/main/java/com/kinduberre/multistrategytradingbot/service/TechnicalIndicatorService.java:39-56 | the loop collecting true ranges, then the average, returns exactly Atr |
| Indicators.AtrNonNegative | src/main/java/com/kinduberre/multistrategytradingbot/service/TechnicalIndicatorService.java:39-56 | the ATR is never negative |
| Indicators.AtrOfLastWindow | src/main/java/com/kinduberre/multistrategytradingbot/service/TechnicalIndicatorService.java:39-56 | the ATR depends on the last period + 1 bars only |
| Indicators.SquaredDeviationNonNegative | src/main/java/com/kinduberre/multistrategytradingbot/service/TechnicalIndicatorService.java:62-67 | the sum of squared deviations is never negative |
| Indicators.BollingerBands | src/main/java/com/kinduberre/multistrategytradingbot/service/TechnicalIndicatorService.java:58-78 | no bands exactly when there are fewer prices than the period |
| Indicators.SumSquaredDeviations | src/main/java/com/kinduberre/multistrategytradingbot/service/TechnicalIndicatorService.java:62-67 | the variance loop returns the sum of squared deviations from the mean |
| Indicators.CalculateBollingerBands | src/main/java/com/kinduberre/multistrategytradingbot/service/TechnicalIndicatorService.java:58-78 | the method returns exactly BollingerBands |
| Indicators.BandsShape | src/main/java/com/kinduberre/multistrategytradingbot/service/TechnicalIndicatorService.java:58-78 | the middle band is the simple average and the bands are symmetric about it; with a non-negative square root and multiplier, upper ≥ middle ≥ lower |
| Indicators.GainTotal | src/main/java/com/kinduberre/multistrategytradingbot/service/TechnicalIndicatorService.java:94-101 | the summed rises over the first n changes are never negative |
| Indicators.LossTotal | src/main/java/com/kinduberre/multistrategytradingbot/service/TechnicalIndicatorService.java:94-101 | the summed falls (a zero change counting as a fall) are never negative |
| Indicators.Rsi | src/main/java/com/kinduberre/multistrategytradingbot/service/TechnicalIndicatorService.java:88-112 | no RSI exactly when there are fewer than period + 1 prices |
| Indicators.RsiDivisorPositive | src/main/java/com/kinduberre/multistrategytradingbot/service/TechnicalIndicatorService.java:103-110 | a non-zero average loss is positive, and the gain/loss ratio is never negative, so 1 + rs cannot be zero |
| Indicators.CalculateRsi | src/main/java/com/kinduberre/multistrategytradingbot/service/TechnicalIndicatorService.java:88-112 | the method (loop over the first period changes, then the ratio) returns exactly Rsi |
| Indicators.RsiRange | src/main/java/com/kinduberre/multistrategytradingbot/service/TechnicalIndicatorService.java:88-112 | the RSI lies between 0 and 100 |
| Indicators.GainTotalOfPrefix | src/main/java/com/kinduberre/multistrategytradingbot/service/TechnicalIndicatorService.java:94-101 | the totals over the first n changes ignore every price after them |
| Indicators.RsiUsesFirstChanges | src/main/java/com/kinduberre/multistrategytradingbot/service/TechnicalIndicatorService.java:94 | the RSI reads only the first period + 1 prices, not the latest ones |
| Indicators.NoLossWhenRising | src/main/java/com/kinduberre/multistrategytradingbot/service/TechnicalIndicatorService.java:96-100 | strictly rising prices have no loss |
| Indicators.NoGainWhenFalling | src/main/java/com/kinduberre/multistrategytradingbot/service/TechnicalIndicatorService.java:96-100 | prices that never rise have no gain |
| Indicators.RsiAllRising | src/main/java/com/kinduberre/multistrategytradingbot/service/TechnicalIndicatorService.java:106 | strictly rising prices give an RSI of 100 |
| Indicators.RsiNoneRising | src/main/java/com/kinduberre/multistrategytradingbot/service/TechnicalIndicatorService.java:106-111 | prices that never rise give 0, or 100 when the average loss rounds to zero |
| Sorting.Insert | src/main/java/com/kinduberre/multistrategytradingbot/strategy/impl/VolatilityBreakoutStrategy.java:61 | inserting one element adds exactly it: the length grows by one and the multiset by the element |
| Sorting.InsertSorted | src/main/java/com/kinduberre/multistrategytradingbot/strategy/impl/VolatilityBreakoutStrategy.java:61 | inserting into a sorted sequence keeps it sorted |
| Sorting.SortBy | src/main/java/com/kinduberre/multistrategytradingbot/strategy/impl/VolatilityBreakoutStrategy.java:61 | a sorted permutation of its input |
| Sorting.WithKey | src/main/java/com/kinduberre/multistrategytradingbot/service/DashboardService.java:206 | the elements with one key, in their order, all with that key |
| Sorting.InsertWithKey | src/main/java/com/kinduberre/multistrategytradingbot/service/DashboardService.java:206 | an inserted element goes ahead of every element with its key |
| Sorting.SortByIsStable | src/main/java/com/kinduberre/multistrategytradingbot/service/DashboardService.java:206 | the sort is stable: the elements with any one key are in the same order after sorting as before |
| StrategyCommon.HoldSignal | src/main/java/com/kinduberre/multistrategytradingbot/strategy/impl/TrendFollowingStrategy.java:105-112 | a HOLD signal of the given strategy and reason, with no price, levels or confidence |
| StrategyCommon.AverageVolumeDividesByTwenty | src/main/java/com/kinduberre/multistrategytradingbot/strategy/impl/TrendFollowingStrategy.java:60-65 | with fewer than 20 bars the volume total is still divided by 20, not by the number of bars |
| StrategyCommon.AverageVolumeOfLastTwenty | src/main/java/com/kinduberre/multistrategytradingbot/strategy/impl/TrendFollowingStrategy.java:61-62 | the average volume reads only the last 20 bars |
| StrategyCommon.AverageVolumeNonNegative | src/main/java/com/kinduberre/multistrategytradingbot/strategy/impl/TrendFollowingStrategy.java:60-65 | non-negative volumes give a non-negative average |
| TrendFollowing.Analyze | src/main/java/com/kinduberre/multistrategytradingbot/strategy/impl/TrendFollowingStrategy.java:38-103 | every signal is the strategy's own; the only failure is the null dereference of a missing average or ATR |
| TrendFollowing.InsufficientData | src/main/java/com/kinduberre/multistrategytradingbot/strategy/impl/TrendFollowingStrategy.java:40-42 | fewer bars than max(smaLong, breakoutPeriod) hold with "Insufficient data" and no confidence |
| TrendFollowing.FailsIff | src/main/java/com/kinduberre/multistrategytradingbot/strategy/impl/TrendFollowingStrategy.java:48-77 | the analysis throws exactly when, past the length guard, the short average is missing, or all entry conditions hold but fewer than 15 bars leave the ATR missing |
| TrendFollowing.BuyConditions | src/main/java/com/kinduberre/multistrategytradingbot/strategy/impl/TrendFollowingStrategy.java:70-75 | the close above the short average, the short average above the long one, the close at or above the breakout high and the volume above the multiplied 20-bar average; BuyIff makes them decide a BUY |
| TrendFollowing.BuyFacts | src/main/java/com/kinduberre/multistrategytradingbot/strategy/impl/TrendFollowingStrategy.java:70-88 | a BUY implies both length guards, all four entry conditions and an ATR |
| TrendFollowing.ConditionsGiveBuy | src/main/java/com/kinduberre/multistrategytradingbot/strategy/impl/TrendFollowingStrategy.java:70-88 | when the entry conditions hold and the analysis succeeds, the result is the BUY at the last close with the ATR levels |
| TrendFollowing.BuyIff | src/main/java/com/kinduberre/multistrategytradingbot/strategy/impl/TrendFollowingStrategy.java:70-88 | a successful analysis is a BUY if and only if the guards and all four entry conditions hold |
| TrendFollowing.BuyLevels | src/main/java/com/kinduberre/multistrategytradingbot/strategy/impl/TrendFollowingStrategy.java:77-88 | a BUY is priced at the last close, with stop and target from the 14-bar ATR and the multiplier |
| TrendFollowing.BuySignalLevels | src/main/java/com/kinduberre/multistrategytradingbot/strategy/impl/TrendFollowingStrategy.java:78-87 | the target is twice as far above the price as the stop is below it, confidence 0.75; with non-negative ATR and multiplier, stop ≤ price ≤ target |
| TrendFollowing.SellOnlyBelowAverage | src/main/java/com/kinduberre/multistrategytradingbot/strategy/impl/TrendFollowingStrategy.java:90-100 | a SELL means the entry conditions failed and the close is below the short average; it carries no stop or target and confidence 0.70 |
| TrendFollowing.FallThroughIsHold | src/main/java/com/kinduberre/multistrategytradingbot/strategy/impl/TrendFollowingStrategy.java:102 | neither entry nor exit gives HOLD "No trend signal" |
| TrendFollowing.BuyClosesAtHigh | src/main/java/com/kinduberre/multistrategytradingbot/strategy/impl/TrendFollowingStrategy.java:54-58 | the breakout high includes the current bar, so a BUY on a well-formed bar closes exactly at its high |
| TrendFollowing.BreakoutHigh | src/main/java/com/kinduberre/multistrategytradingbot/strategy/impl/TrendFollowingStrategy.java:54-58 | the highest high of the last breakoutPeriod bars; BreakoutHighCoversLast puts the last high at or below it |
| TrendFollowing.BreakoutHighCoversLast | src/main/java/com/kinduberre/multistrategytradingbot/strategy/impl/TrendFollowingStrategy.java:54-58 | the breakout high is at least the last bar's high |
| VolatilityBreakout.MapWindows | src/main/java/com/kinduberre/multistrategytradingbot/strategy/impl/VolatilityBreakoutStrategy.java:51-58 | one value per window of `width` bars that ends before the last bar |
| VolatilityBreakout.MapWindowsAt | src/main/java/com/kinduberre/multistrategytradingbot/strategy/impl/VolatilityBreakoutStrategy.java:52-56 | entry j is the function of bars j .. j + width − 1 |
| VolatilityBreakout.HistoricalAtrs | src/main/java/com/kinduberre/multistrategytradingbot/strategy/impl/VolatilityBreakoutStrategy.java:51-58 | one historical ATR for each i from atrPeriod + 1 to the last index, none when there are at most atrPeriod + 1 bars |
| VolatilityBreakout.WindowAtrIsAtr | src/main/java/com/kinduberre/multistrategytradingbot/strategy/impl/VolatilityBreakoutStrategy.java:53-57 | each window holds period + 1 bars, so its ATR is never null and none is skipped |
| VolatilityBreakout.WindowAtrOf | src/main/java/com/kinduberre/multistrategytradingbot/strategy/impl/VolatilityBreakoutStrategy.java:53-56 | the ATR of one window, by the indicator method, is the window's value |
| VolatilityBreakout.CollectWindowAtrs | src/main/java/com/kinduberre/multistrategytradingbot/strategy/impl/VolatilityBreakoutStrategy.java:51-58 | the collecting loop returns exactly the per-window values |
| VolatilityBreakout.CollectHistoricalAtrs | src/main/java/com/kinduberre/multistrategytradingbot/strategy/impl/VolatilityBreakoutStrategy.java:51-58 | the loop returns exactly HistoricalAtrs |
| VolatilityBreakout.Analyze | src/main/java/com/kinduberre/multistrategytradingbot/strategy/impl/VolatilityBreakoutStrategy.java:40-115 | every signal is the strategy's own and never a SELL; the only failure is an index out of bounds |
| VolatilityBreakout.Judge | src/main/java/com/kinduberre/multistrategytradingbot/strategy/impl/VolatilityBreakoutStrategy.java:65-114 | the decision once the threshold is known is the strategy's own and never a SELL |
| VolatilityBreakout.InsufficientData | src/main/java/com/kinduberre/multistrategytradingbot/strategy/impl/VolatilityBreakoutStrategy.java:41-43 | fewer than 50 bars hold with "Insufficient data" |
| VolatilityBreakout.PercentileIndex | src/main/java/com/kinduberre/multistrategytradingbot/strategy/impl/VolatilityBreakoutStrategy.java:62 | the product of size and percentile truncated toward zero; PercentileIndexInBounds states when it is a valid index |
| VolatilityBreakout.CompressionThreshold | src/main/java/com/kinduberre/multistrategytradingbot/strategy/impl/VolatilityBreakoutStrategy.java:60-63 | the ATR at the percentile index of the sorted history, none when the index is out of range; ThresholdIsOrderStatistic states its rank |
| VolatilityBreakout.PercentileIndexInBounds | src/main/java/com/kinduberre/multistrategytradingbot/strategy/impl/VolatilityBreakoutStrategy.java:62-63 | the exact product size × percentile, truncated toward zero, is a valid index if and only if the product lies strictly between −1 and size |
| VolatilityBreakout.PercentileInUnitInterval | src/main/java/com/kinduberre/multistrategytradingbot/strategy/impl/VolatilityBreakoutStrategy.java:62-63 | a percentile in [0, 1) always gives a valid index |
| VolatilityBreakout.ThresholdIsOrderStatistic | src/main/java/com/kinduberre/multistrategytradingbot/strategy/impl/VolatilityBreakoutStrategy.java:60-63 | the threshold is one of the historical ATRs, with every sorted ATR before the index at most it and every one after at least it |
| VolatilityBreakout.FailsIff | src/main/java/com/kinduberre/multistrategytradingbot/strategy/impl/VolatilityBreakoutStrategy.java:46-63 | past the length guard the analysis throws exactly when the current window starts before the first bar or the percentile index is out of range |
| VolatilityBreakout.NoHistoryFails | src/main/java/com/kinduberre/multistrategytradingbot/strategy/impl/VolatilityBreakoutStrategy.java:51-63 | with exactly atrPeriod + 1 bars there is no historical ATR and reading the percentile throws |
| VolatilityBreakout.BuyIff | src/main/java/com/kinduberre/multistrategytradingbot/strategy/impl/VolatilityBreakoutStrategy.java:65-111 | a successful analysis is a BUY if and only if the current ATR is below the threshold and the close breaks the 14-bar high on a volume spike |
| VolatilityBreakout.BuyFacts | src/main/java/com/kinduberre/multistrategytradingbot/strategy/impl/VolatilityBreakoutStrategy.java:65-111 | a BUY implies the guards, a threshold, compression and the breakout conditions |
| VolatilityBreakout.ConditionsGiveBuy | src/main/java/com/kinduberre/multistrategytradingbot/strategy/impl/VolatilityBreakoutStrategy.java:65-111 | compression with the breakout conditions gives a successful BUY |
| VolatilityBreakout.AnalyzeJudges | src/main/java/com/kinduberre/multistrategytradingbot/strategy/impl/VolatilityBreakoutStrategy.java:40-115 | past the guards the analysis succeeds with the decision at the computed threshold |
| VolatilityBreakout.CurrentAtr | src/main/java/com/kinduberre/multistrategytradingbot/strategy/impl/VolatilityBreakoutStrategy.java:46-49 | the ATR of the last atrPeriod + 1 bars; CurrentAtrIsAtr equates it with the ATR of the whole window |
| VolatilityBreakout.CurrentAtrIsAtr | src/main/java/com/kinduberre/multistrategytradingbot/strategy/impl/VolatilityBreakoutStrategy.java:46-49 | the ATR of the last period + 1 bars is the ATR of the whole series |
| VolatilityBreakout.BuyLevels | src/main/java/com/kinduberre/multistrategytradingbot/strategy/impl/VolatilityBreakoutStrategy.java:95-111 | a BUY is priced at the last close with the 14-bar low as stop |
| VolatilityBreakout.BuySignalLevels | src/main/java/com/kinduberre/multistrategytradingbot/strategy/impl/VolatilityBreakoutStrategy.java:96-109 | stop at the low, target above the price by the risk times the reward/risk ratio, confidence 0.80; target ≥ price when low ≤ price and the ratio is non-negative |
| VolatilityBreakout.NoBuyWhenCloseWithinHigh | src/main/java/com/kinduberre/multistrategytradingbot/strategy/impl/VolatilityBreakoutStrategy.java:72-95 | the consolidation high includes the current bar, so a close not above its own high never buys: every success is a HOLD |
| VolatilityBreakout.ConsolidationHighCoversLast | src/main/java/com/kinduberre/multistrategytradingbot/strategy/impl/VolatilityBreakoutStrategy.java:72-76 | the consolidation high is at least the last bar's high |
| RangeMeanReversion.BandSignal | src/main/java/com/kinduberre/multistrategytradingbot/strategy/impl/RangeMeanReversionStrategy.java:85-116 | the band decision is the strategy's own |
| RangeMeanReversion.Analyze | src/main/java/com/kinduberre/multistrategytradingbot/strategy/impl/RangeMeanReversionStrategy.java:34-117 | every signal is the strategy's own; the only failure is a division by a zero mean price |
| RangeMeanReversion.InsufficientData | src/main/java/com/kinduberre/multistrategytradingbot/strategy/impl/RangeMeanReversionStrategy.java:35-37 | fewer bars than max(rangePeriod, bollingerPeriod) hold with "Insufficient data" |
| RangeMeanReversion.FailsIff | src/main/java/com/kinduberre/multistrategytradingbot/strategy/impl/RangeMeanReversionStrategy.java:52-60 | the analysis throws exactly when, past the length guard, the mean price is zero |
| RangeMeanReversion.TradesOnlyInQuietRange | src/main/java/com/kinduberre/multistrategytradingbot/strategy/impl/RangeMeanReversionStrategy.java:62-114 | a trade needs a range strictly between 5% and 15% of the mean and a volume below the 20-bar average, and is the band decision at the last close |
| RangeMeanReversion.BandSignalCases | src/main/java/com/kinduberre/multistrategytradingbot/strategy/impl/RangeMeanReversionStrategy.java:88-116 | SELL iff the close is at or above the upper band on low volume; BUY iff not, and at or below the lower band on low volume; each with its levels; HOLD without low volume |
| RangeMeanReversion.RangeHigh | src/main/java/com/kinduberre/multistrategytradingbot/strategy/impl/RangeMeanReversionStrategy.java:39-43 | the highest high of the last rangePeriod bars; RangeContainsClose puts the last close at or below it |
| RangeMeanReversion.RangeLow | src/main/java/com/kinduberre/multistrategytradingbot/strategy/impl/RangeMeanReversionStrategy.java:45-49 | the lowest low of the last rangePeriod bars; RangeContainsClose puts the last close at or above it |
| RangeMeanReversion.MeanPrice | src/main/java/com/kinduberre/multistrategytradingbot/strategy/impl/RangeMeanReversionStrategy.java:51-55 | the mean of the last rangePeriod closes, half-up to 8 places; FailsIff fails the analysis exactly when it is zero |
| RangeMeanReversion.InRange | src/main/java/com/kinduberre/multistrategytradingbot/strategy/impl/RangeMeanReversionStrategy.java:62-63 | the range percentage lies strictly between 5 and 15; TradesOnlyInQuietRange requires it of every trade |
| RangeMeanReversion.RangeContainsClose | src/main/java/com/kinduberre/multistrategytradingbot/strategy/impl/RangeMeanReversionStrategy.java:40-50 | the range low and high enclose the last close of a well-formed bar; the low is non-negative when every low is |
| RangeMeanReversion.BandSignalLevels | src/main/java/com/kinduberre/multistrategytradingbot/strategy/impl/RangeMeanReversionStrategy.java:88-113 | with ordered bands and a close inside a non-negative range, a SELL has target ≤ price ≤ stop and a BUY stop ≤ price ≤ target |
| RangeMeanReversion.ProtectiveLevels | src/main/java/com/kinduberre/multistrategytradingbot/strategy/impl/RangeMeanReversionStrategy.java:34-117 | on well-formed non-negative bars every trade has price, stop and target on the protective sides |
| VolumeSpikeReversal.WickSignal | src/main/java/com/kinduberre/multistrategytradingbot/strategy/impl/VolumeSpikeReversalStrategy.java:47-86 | the wick decision is the strategy's own |
| VolumeSpikeReversal.Analyze | src/main/java/com/kinduberre/multistrategytradingbot/strategy/impl/VolumeSpikeReversalStrategy.java:28-87 | every signal is the strategy's own; the analysis never throws |
| VolumeSpikeReversal.InsufficientData | src/main/java/com/kinduberre/multistrategytradingbot/strategy/impl/VolumeSpikeReversalStrategy.java:29-31 | fewer than 20 bars hold with "Insufficient data" |
| VolumeSpikeReversal.NoSpikeHolds | src/main/java/com/kinduberre/multistrategytradingbot/strategy/impl/VolumeSpikeReversalStrategy.java:42-46 | without a volume spike the result is HOLD "No volume spike reversal" |
| VolumeSpikeReversal.SignalCases | src/main/java/com/kinduberre/multistrategytradingbot/strategy/impl/VolumeSpikeReversalStrategy.java:46-86 | SELL iff a spike with an upper wick above range × ratio; BUY iff a spike, no such upper wick and a long lower wick; each with its signal |
| VolumeSpikeReversal.UpperWick | src/main/java/com/kinduberre/multistrategytradingbot/strategy/impl/VolumeSpikeReversalStrategy.java:51-53 | the high less the larger of close and open; WickIdentity and AtMostOneLongWick relate it to the range |
| VolumeSpikeReversal.LowerWick | src/main/java/com/kinduberre/multistrategytradingbot/strategy/impl/VolumeSpikeReversalStrategy.java:69-70 | the smaller of close and open less the low; WickIdentity and AtMostOneLongWick relate it to the range |
| VolumeSpikeReversal.VolumeSpike | src/main/java/com/kinduberre/multistrategytradingbot/strategy/impl/VolumeSpikeReversalStrategy.java:42-44 | the last volume strictly above the 20-bar average times the multiplier; NoSpikeHolds holds without it |
| VolumeSpikeReversal.WickIdentity | src/main/java/com/kinduberre/multistrategytradingbot/strategy/impl/VolumeSpikeReversalStrategy.java:47-70 | upper wick + body + lower wick is the bar's range |
| VolumeSpikeReversal.AtMostOneLongWick | src/main/java/com/kinduberre/multistrategytradingbot/strategy/impl/VolumeSpikeReversalStrategy.java:55-72 | with a wick ratio of at least 0.5 a well-formed bar cannot have both wicks long |
| VolumeSpikeReversal.ProtectiveLevels | src/main/java/com/kinduberre/multistrategytradingbot/strategy/impl/VolumeSpikeReversalStrategy.java:55-83 | a SELL has target ≤ price ≤ high ≤ stop and a BUY stop ≤ low ≤ price ≤ target |
| SignalSelection.StrategiesOf | src/main/java/com/kinduberre/multistrategytradingbot/service/TradingEngine.java:91-111 | the strategy of each collected signal, in order |
| SignalSelection.EnabledSignals | src/main/java/com/kinduberre/multistrategytradingbot/service/TradingEngine.java:91-111 | the signals collected come from exactly the enabled strategies, in the order trend, volatility, mean reversion, volume spike |
| SignalSelection.CollectSignals | src/main/java/com/kinduberre/multistrategytradingbot/service/TradingEngine.java:91-111 | collecting fails exactly when an enabled analyzer throws; on success the signals' strategies are the enabled ones in order |
| SignalSelection.GenerateSignals | src/main/java/com/kinduberre/multistrategytradingbot/service/TradingEngine.java:91-111 | running the enabled analyzers on one window gives one signal per enabled strategy, in order |
| SignalSelection.SelectBestSignal | src/main/java/com/kinduberre/multistrategytradingbot/service/TradingEngine.java:113-119 | a selected signal is never HOLD and always has a confidence |
| SignalSelection.SelectBestIsEarliestMaximum | src/main/java/com/kinduberre/multistrategytradingbot/service/TradingEngine.java:113-119 | nothing is selected exactly when no signal is eligible; otherwise the selection is the earliest eligible signal of greatest confidence |
| SignalSelection.EarliestMaximumUnique | src/main/java/com/kinduberre/multistrategytradingbot/service/TradingEngine.java:113-119 | there is at most one earliest maximum, so the selection is determined |
| SignalSelection.SelectedFromEnabled | src/main/java/com/kinduberre/multistrategytradingbot/service/TradingEngine.java:74-77 | a selected signal always comes from an enabled strategy |
| RiskManagement.PositionSize | src/main/java/com/kinduberre/multistrategytradingbot/service/RiskManagementService.java:29-49 | zero without a stop; fails exactly when there is a stop and the price is missing, equal to the stop or zero |
| RiskManagement.PositionSizeCapped | src/main/java/com/kinduberre/multistrategytradingbot/service/RiskManagementService.java:35-48 | the size is the smaller of the risked size and the 10% cap: at most each and equal to one |
| RiskManagement.PositionSizeScenario | src/main/java/com/kinduberre/multistrategytradingbot/service/RiskManagementService.java:29-49 | a BUY at 50000 with stop 49000 on a 10000 balance at 1% risk is sized 0.02, the 10% cap |
| RiskManagement.CanOpenPosition | src/main/java/com/kinduberre/multistrategytradingbot/service/RiskManagementService.java:51-54 | fewer positions are open than the limit; LimitReachedAfterOpening shows the limit closing once it is reached |
| RiskManagement.OpenCountAfterInsert | src/main/java/com/kinduberre/multistrategytradingbot/service/RiskManagementService.java:51-54 | saving an open position adds it to the open positions; saving a closed one leaves them |
| RiskManagement.LimitReachedAfterOpening | src/main/java/com/kinduberre/multistrategytradingbot/service/RiskManagementService.java:51-54 | one below the limit a position may be opened, and after opening it no more may |
| RiskManagement.Exposures | src/main/java/com/kinduberre/multistrategytradingbot/service/RiskManagementService.java:56-61 | one exposure, quantity × entry price of an open position, per position |
| RiskManagement.CurrentExposure | src/main/java/com/kinduberre/multistrategytradingbot/service/RiskManagementService.java:56-61 | the sum of quantity × entry price over the open positions; ExposureFacts states its sign and its fall when a position closes |
| RiskManagement.ExposureFacts | src/main/java/com/kinduberre/multistrategytradingbot/service/RiskManagementService.java:56-61 | with non-negative quantities and prices the exposure is non-negative, and closing one open position lowers it by exactly that position's cost |
| RiskManagement.ExposuresNonNegative | src/main/java/com/kinduberre/multistrategytradingbot/service/RiskManagementService.java:58-60 | each exposure is non-negative for non-negative quantities and prices |
| RiskManagement.ClosingClearsExposure | src/main/java/com/kinduberre/multistrategytradingbot/service/RiskManagementService.java:57-60 | a closed position no longer contributes to the exposure |
| RiskManagement.CountStrategy | src/main/java/com/kinduberre/multistrategytradingbot/service/RiskManagementService.java:83-86 | the number of positions of one strategy is at most the number of positions |
| RiskManagement.ValidateSignal | src/main/java/com/kinduberre/multistrategytradingbot/service/RiskManagementService.java:63-94 | the verdict on a signal, or the fault the reward-to-risk computation throws; ValidateSignalIff states when it accepts and when it throws |
| RiskManagement.ValidateSignalIff | src/main/java/com/kinduberre/multistrategytradingbot/service/RiskManagementService.java:63-94 | accepted exactly when there is a stop, any target pays at least 1.5 times the risk, and the strategy has fewer than two open positions; it throws exactly when a target comes with a missing price or a stop at the price; without a target it never throws |
| RiskManagement.FirstTrailFault | src/main/java/com/kinduberre/multistrategytradingbot/service/RiskManagementService.java:100-111 | the first open profitable position without a stop, where comparing with its stop throws; none before it |
| RiskManagement.TrailedUpTo | src/main/java/com/kinduberre/multistrategytradingbot/service/RiskManagementService.java:100-111 | the update keeps the number of positions |
| RiskManagement.TrailingStop | src/main/java/com/kinduberre/multistrategytradingbot/service/RiskManagementService.java:114-126 | 1.5 ATR below the price, or the current stop when there is no ATR; TrailedStopBelowPrice keeps it at or below the price |
| RiskManagement.TrailStops | src/main/java/com/kinduberre/multistrategytradingbot/service/RiskManagementService.java:96-112 | the book after the trailing update, each position before the first fault trailed; TrailingOnlyRaises states that only stops change, and only upward |
| RiskManagement.TrailAll | src/main/java/com/kinduberre/multistrategytradingbot/service/RiskManagementService.java:100-111 | the loop updates the stored book to the trailed positions up to the first fault, and reports a null dereference exactly when there is one |
| RiskManagement.UpdateTrailingStops | src/main/java/com/kinduberre/multistrategytradingbot/service/RiskManagementService.java:96-112 | no bars throws index out of bounds and changes nothing; otherwise the book is trailed at the last close with the 14-bar ATR, faulting as TrailAll |
| RiskManagement.TrailingOnlyRaises | src/main/java/com/kinduberre/multistrategytradingbot/service/RiskManagementService.java:100-126 | only the stop ever changes, and only upward, on an open profitable position with an ATR, to 1.5 ATR below the price |
| RiskManagement.TrailedStopBelowPrice | src/main/java/com/kinduberre/multistrategytradingbot/service/RiskManagementService.java:114-126 | with a non-negative ATR a raised stop is never above the price |
| PortfolioManager.Allocation | src/main/java/com/kinduberre/multistrategytradingbot/service/PortfolioManager.java:42-55 | the configured share of each of the four strategies, 0.1 for any other; PositionWithinAllocation bounds a position's cost by it |
| PortfolioManager.PositionSize | src/main/java/com/kinduberre/multistrategytradingbot/service/PortfolioManager.java:24-40 | fails exactly when the stop is missing, or the price is zero while the stop is not; a price at the stop sizes zero |
| PortfolioManager.PositionWithinAllocation | src/main/java/com/kinduberre/multistrategytradingbot/service/PortfolioManager.java:24-40 | at a positive price the position never costs more than the strategy's share of the balance |
| PortfolioManager.CappedByCapital | src/main/java/com/kinduberre/multistrategytradingbot/service/PortfolioManager.java:37-39 | the smaller of any size and the capital over the price, rounded down, never costs more than the capital |
| PortfolioManager.PositionSizeRoundsDown | src/main/java/com/kinduberre/multistrategytradingbot/service/PortfolioManager.java:34 | rounding down never sizes above the exact risk amount over the stop distance |
| PortfolioManager.CheckRiskLimits | src/main/java/com/kinduberre/multistrategytradingbot/service/PortfolioManager.java:57-70 | fails exactly when the account balance is zero |
| PortfolioManager.NothingOpenWithinLimits | src/main/java/com/kinduberre/multistrategytradingbot/service/PortfolioManager.java:57-70 | with nothing open the exposure ratio is zero, so the check passes exactly when the maximum drawdown is below 1 |
| PortfolioManager.Performance | src/main/java/com/kinduberre/multistrategytradingbot/service/PortfolioManager.java:72-84 | fails exactly when some closed position has no profit |
| PortfolioManager.AddProfit | src/main/java/com/kinduberre/multistrategytradingbot/service/PortfolioManager.java:78-82 | adding one profit adds its strategy as a key and leaves every other strategy's total alone |
| PortfolioManager.ProfitsOf | src/main/java/com/kinduberre/multistrategytradingbot/service/PortfolioManager.java:75-83 | each closed position's profit when it belongs to the strategy, otherwise zero |
| PortfolioManager.ProfitsOfLast | src/main/java/com/kinduberre/multistrategytradingbot/service/PortfolioManager.java:75-83 | the group total grows by the last profit exactly when that position belongs to the group |
| PortfolioManager.ProfitsOfAbsent | src/main/java/com/kinduberre/multistrategytradingbot/service/PortfolioManager.java:75-83 | a strategy with no closed position totals zero |
| PortfolioManager.OccursLast | src/main/java/com/kinduberre/multistrategytradingbot/service/PortfolioManager.java:76-77 | a strategy occurs in the list exactly when it occurs before the last position or is the last one's |
| PortfolioManager.PerformanceKeys | src/main/java/com/kinduberre/multistrategytradingbot/service/PortfolioManager.java:75-83 | with every profit present the grouping succeeds, and its keys are exactly the strategies that occur |
| PortfolioManager.PerformanceIsGroupSum | src/main/java/com/kinduberre/multistrategytradingbot/service/PortfolioManager.java:72-84 | the grouping succeeds, has exactly the occurring strategies as keys, and maps each to the sum of its positions' profits |
| PortfolioManager.StrategyPerformance | src/main/java/com/kinduberre/multistrategytradingbot/service/PortfolioManager.java:72-84 | the per-strategy profit totals of the closed positions; PerformanceIsGroupSum states its keys and sums |
| Repository.WithOpen | src/main/java/com/kinduberre/multistrategytradingbot/repository/PositionRepository.java:10 | the stored positions with the given open flag, and no others |
| Repository.Find | src/main/java/com/kinduberre/multistrategytradingbot/repository/PositionRepository.java:9 | finds a stored position with the id, or none when no position has it |
| Repository.PositionRepository.constructor | src/main/java/com/kinduberre/multistrategytradingbot/repository/PositionRepository.java:9 | an empty table |
| Repository.PositionRepository.FindById | src/main/java/com/kinduberre/multistrategytradingbot/repository/PositionRepository.java:9 | the lookup of the id in the current table |
| Repository.PositionRepository.FindByIsOpen | src/main/java/com/kinduberre/multistrategytradingbot/repository/PositionRepository.java:10 | exactly the stored positions with the flag |
| Repository.PositionRepository.Insert | src/main/java/com/kinduberre/multistrategytradingbot/repository/PositionRepository.java:9 | saving a new position assigns the next id and appends it |
| Repository.PositionRepository.Update | src/main/java/com/kinduberre/multistrategytradingbot/repository/PositionRepository.java:9 | saving an existing position replaces its row and nothing else |
| PositionManagement.Closed | src/main/java/com/kinduberre/multistrategytradingbot/service/PositionManagementService.java:58-65 | closing keeps the entry fields, clears the open flag, records exit price and time, and sets the profit to (exit − entry) × quantity |
| PositionManagement.Opened | src/main/java/com/kinduberre/multistrategytradingbot/service/PositionManagementService.java:25-33 | the new position takes the signal's price, stop, target and strategy, the quantity, the symbol BTCUSDT and the time, open with no exit or profit |
| PositionManagement.OpenPosition | src/main/java/com/kinduberre/multistrategytradingbot/service/PositionManagementService.java:23-51 | the opened position is saved under the next id and appended to the book |
| PositionManagement.CloseIn | src/main/java/com/kinduberre/multistrategytradingbot/service/PositionManagementService.java:54-67 | closing keeps the number of stored positions |
| PositionManagement.ClosePosition | src/main/java/com/kinduberre/multistrategytradingbot/service/PositionManagementService.java:53-83 | an unknown id fails with "Position not found" and changes nothing; otherwise exactly that row is replaced by its closed form, which is returned |
| PositionManagement.ClosedLeavesOpenPositions | src/main/java/com/kinduberre/multistrategytradingbot/service/PositionManagementService.java:53-83 | after closing, the closed id is no longer open and every other open position still is |
| PositionManagement.Triggered | src/main/java/com/kinduberre/multistrategytradingbot/service/PositionManagementService.java:90-97 | the price is at or below the stop, or a target exists and the price is at or above it; CheckStopsCloses closes exactly the triggered positions |
| PositionManagement.FirstNullStop | src/main/java/com/kinduberre/multistrategytradingbot/service/PositionManagementService.java:88-90 | the first open position without a stop, where the comparison throws; none before it |
| PositionManagement.CheckedUpTo | src/main/java/com/kinduberre/multistrategytradingbot/service/PositionManagementService.java:88-100 | the check keeps the number of stored positions |
| PositionManagement.CheckStops | src/main/java/com/kinduberre/multistrategytradingbot/service/PositionManagementService.java:85-101 | the book after the check; CheckStopsCloses states which positions it closes and CheckStopsIdempotent that a second check changes nothing |
| PositionManagement.CheckStopLossAndTakeProfit | src/main/java/com/kinduberre/multistrategytradingbot/service/PositionManagementService.java:85-101 | the loop closes at the price the triggered positions before the first null stop, and reports a null dereference exactly when there is one |
| PositionManagement.CheckStopsCloses | src/main/java/com/kinduberre/multistrategytradingbot/service/PositionManagementService.java:88-100 | an open position before the fault is closed exactly when the price is at or below its stop or at or above its target, at the price; every other position is unchanged |
| PositionManagement.CheckStopsIdempotent | src/main/java/com/kinduberre/multistrategytradingbot/service/PositionManagementService.java:85-101 | checking twice at the same price and time changes nothing more |
| PositionManagement.Realised | src/main/java/com/kinduberre/multistrategytradingbot/service/PositionManagementService.java:107-113 | one realised profit per position, zero for open positions and missing profits |
| PositionManagement.Unrealised | src/main/java/com/kinduberre/multistrategytradingbot/service/PositionManagementService.java:115-120 | one unrealised profit per position, zero for closed ones |
| PositionManagement.TotalPnL | src/main/java/com/kinduberre/multistrategytradingbot/service/PositionManagementService.java:107-113 | the sum of the present profits of the closed positions; EmptySides and ClosingConservesPnL state its value with nothing closed and its growth on closing |
| PositionManagement.UnrealizedPnL | src/main/java/com/kinduberre/multistrategytradingbot/service/PositionManagementService.java:115-120 | the sum of (price − entry) × quantity over the open positions; EmptySides and ClosingConservesPnL state its value with nothing open and its fall on closing |
| PositionManagement.EmptySides | src/main/java/com/kinduberre/multistrategytradingbot/service/PositionManagementService.java:107-120 | with nothing closed the realised total is zero; with nothing open the unrealised total is zero |
| PositionManagement.ClosingConservesPnL | src/main/java/com/kinduberre/multistrategytradingbot/service/PositionManagementService.java:53-120 | closing an open position at the current price moves its profit from unrealised to realised: the sum is unchanged and the realised total grows by that profit |
| TradingEngine.BuyOrder | src/main/java/com/kinduberre/multistrategytradingbot/service/TradingEngine.java:124-144 | an order is placed only when a position may be opened, the signal validates, and the size is positive and is the risk service's size |
| TradingEngine.BuyOrderIff | src/main/java/com/kinduberre/multistrategytradingbot/service/TradingEngine.java:124-144 | an order is placed if and only if all three guards pass and the size is positive; at the position limit nothing is ordered and nothing throws |
| TradingEngine.ClosedUpTo | src/main/java/com/kinduberre/multistrategytradingbot/service/TradingEngine.java:149-157 | the closing loop keeps the number of stored positions |
| TradingEngine.CloseStrategy | src/main/java/com/kinduberre/multistrategytradingbot/service/TradingEngine.java:145-158 | the book after a SELL; CloseStrategyExactly states that exactly the strategy's open positions close, at the price |
| TradingEngine.CloseStrategyPositions | src/main/java/com/kinduberre/multistrategytradingbot/service/TradingEngine.java:145-158 | the loop leaves the book as CloseStrategy describes |
| TradingEngine.CloseStrategyExactly | src/main/java/com/kinduberre/multistrategytradingbot/service/TradingEngine.java:145-158 | every open position of the signal's strategy is closed at the price with its profit, every other position is unchanged, and none of that strategy remains open |
| TradingEngine.Process | src/main/java/com/kinduberre/multistrategytradingbot/service/TradingEngine.java:121-159 | the fault and the book after one signal; ProcessOpensOnlyGuardedBuys, SimulationLeavesBook and ProcessKeepsPositionLimit state what it may change |
| TradingEngine.ProcessSignal | src/main/java/com/kinduberre/multistrategytradingbot/service/TradingEngine.java:121-159 | the method's fault and new book are those of the decision function Process |
| TradingEngine.ProcessOpensOnlyGuardedBuys | src/main/java/com/kinduberre/multistrategytradingbot/service/TradingEngine.java:121-159 | processing adds at most one position, and only for a live BUY whose order passed the guards: the old rows unchanged and the new one opened at the risk size |
| TradingEngine.SimulationLeavesBook | src/main/java/com/kinduberre/multistrategytradingbot/service/TradingEngine.java:139-155 | without live trading processing a signal never changes the book |
| TradingEngine.ChecksOnlyClose | src/main/java/com/kinduberre/multistrategytradingbot/service/TradingEngine.java:67-71 | the stop checks and trailing keep the number of positions and never open one |
| TradingEngine.CycleFrom | src/main/java/com/kinduberre/multistrategytradingbot/service/TradingEngine.java:52-89 | the outcome and book of a cycle from its price, ATR and signals; CycleKeepsPositionLimit and SimulationCycle state what it may change |
| TradingEngine.ExecuteTradingCycle | src/main/java/com/kinduberre/multistrategytradingbot/service/TradingEngine.java:52-89 | no bars returns without change; otherwise the cycle's outcome and book are CycleFrom at the last close with the ATR and the enabled analyzers' signals |
| TradingEngine.OpenCountMonotone | src/main/java/com/kinduberre/multistrategytradingbot/service/TradingEngine.java:67-71 | a change that never opens a position never raises the open count |
| TradingEngine.CycleKeepsPositionLimit | src/main/java/com/kinduberre/multistrategytradingbot/service/TradingEngine.java:52-89 | a cycle that starts within the position limit ends within it |
| TradingEngine.ProcessKeepsPositionLimit | src/main/java/com/kinduberre/multistrategytradingbot/service/TradingEngine.java:121-159 | processing one signal keeps the open count within the limit |
| TradingEngine.SimulationCycle | src/main/java/com/kinduberre/multistrategytradingbot/service/TradingEngine.java:52-89 | without live trading a whole cycle changes the book only by the stop checks and trailing |
| BacktestMetrics.Unrealised | src/main/java/com/kinduberre/multistrategytradingbot/service/BacktestingService.java:264-268 | one unrealised profit, (price − entry) × quantity, per open trade |
| BacktestMetrics.Equity | src/main/java/com/kinduberre/multistrategytradingbot/service/BacktestingService.java:261-270 | the cash plus the unrealised profit of the open trades at the price; BuyingLowersEquity and EquityAtEntryIsCash relate it to the cash |
| BacktestMetrics.CalculateEquity | src/main/java/com/kinduberre/multistrategytradingbot/service/BacktestingService.java:261-270 | the loop returns the cash plus the unrealised profit of every open trade |
| BacktestMetrics.BuyingLowersEquity | src/main/java/com/kinduberre/multistrategytradingbot/service/BacktestingService.java:65-83 | buying at the current price and paying its cost lowers the equity by exactly that cost, since equity counts only the open trade's profit |
| BacktestMetrics.EquityAtEntryIsCash | src/main/java/com/kinduberre/multistrategytradingbot/service/BacktestingService.java:261-270 | with every open trade at its entry price the equity is the cash |
| BacktestMetrics.QuantityCancels | src/main/java/com/kinduberre/multistrategytradingbot/service/BacktestingService.java:177-183 | the quantity cancels from the profit over the cost, leaving the price move over the entry price |
| BacktestMetrics.CloseTrade | src/main/java/com/kinduberre/multistrategytradingbot/service/BacktestingService.java:171-185 | fails exactly on a trade of zero cost; otherwise records the exit, the profit (exit − entry) × quantity and the percentage, the price move over the entry rounded half-up to 4 places, times 100 |
| BacktestMetrics.CloseAll | src/main/java/com/kinduberre/multistrategytradingbot/service/BacktestingService.java:97-102 | fails exactly when some open trade has zero cost; otherwise every trade is closed at the last bar with "End of backtest", in order |
| BacktestMetrics.CloseRemaining | src/main/java/com/kinduberre/multistrategytradingbot/service/BacktestingService.java:97-102 | the closing loop returns exactly CloseAll |
| BacktestMetrics.Pnls | src/main/java/com/kinduberre/multistrategytradingbot/service/BacktestingService.java:196-204 | the profit of each closed trade, in order |
| BacktestMetrics.TallyFacts | src/main/java/com/kinduberre/multistrategytradingbot/service/BacktestingService.java:187-204 | every trade is a win or a loss; the totals are non-negative, zero without such trades, positive with a win, and wins minus losses is the total profit |
| BacktestMetrics.Statistics | src/main/java/com/kinduberre/multistrategytradingbot/service/BacktestingService.java:187-225 | the counts, totals, averages, win rate and profit factor of the closed trades; StatisticsFacts states their relations and ranges |
| BacktestMetrics.CalculateTradeStatistics | src/main/java/com/kinduberre/multistrategytradingbot/service/BacktestingService.java:187-225 | the counting loop and the averages give exactly Statistics |
| BacktestMetrics.StatisticsFacts | src/main/java/com/kinduberre/multistrategytradingbot/service/BacktestingService.java:187-225 | wins and losses add up to the trades; the averages are present exactly when there are wins or losses and are non-negative; the win rate is present exactly with a win and lies in [0, 100]; the profit factor is non-negative |
| BacktestMetrics.StatsOfFacts | src/main/java/com/kinduberre/multistrategytradingbot/service/BacktestingService.java:206-224 | the same facts from any counts that add up and non-negative totals |
| BacktestMetrics.WinRateIsPercentage | src/main/java/com/kinduberre/multistrategytradingbot/service/BacktestingService.java:212-214 | wins over trades, rounded half-up to 4 places, times 100 lies in [0, 100] |
| BacktestMetrics.Returns | src/main/java/com/kinduberre/multistrategytradingbot/service/BacktestingService.java:230-235 | one return per consecutive pair of equities, the change over the earlier one, half-up to 8 places |
| BacktestMetrics.SquaredDeviations | src/main/java/com/kinduberre/multistrategytradingbot/service/BacktestingService.java:241-245 | the square of each return's deviation from the mean |
| BacktestMetrics.Sharpe | src/main/java/com/kinduberre/multistrategytradingbot/service/BacktestingService.java:227-259 | no ratio below two equities; a zero equity before the end throws a division by zero |
| BacktestMetrics.PeriodReturns | src/main/java/com/kinduberre/multistrategytradingbot/service/BacktestingService.java:230-235 | the returns loop fails with a division by zero exactly when an equity before the last is zero, otherwise returns exactly Returns |
| BacktestMetrics.SumOfSquares | src/main/java/com/kinduberre/multistrategytradingbot/service/BacktestingService.java:241-245 | the variance loop sums the squared deviations |
| BacktestMetrics.CalculateSharpeRatio | src/main/java/com/kinduberre/multistrategytradingbot/service/BacktestingService.java:227-259 | the method returns exactly Sharpe |
| BacktestMetrics.AnnualCancels | src/main/java/com/kinduberre/multistrategytradingbot/service/BacktestingService.java:254-256 | the √252 factors cancel from the ratio |
| BacktestMetrics.AnnualisedFacts | src/main/java/com/kinduberre/multistrategytradingbot/service/BacktestingService.java:252-258 | with a positive deviation and a non-zero √252 the ratio exists, is the mean over the deviation half-up to 2 places, and is non-negative for a non-negative mean |
| BacktestMetrics.SharpeIsMeanOverDeviation | src/main/java/com/kinduberre/multistrategytradingbot/service/BacktestingService.java:227-259 | a ratio, when set, is the mean return over the positive deviation half-up to 2 places, non-negative for a non-negative mean; with a non-zero √252 the calculation fails exactly on a zero equity before the end |
| BacktestMetrics.Variance | src/main/java/com/kinduberre/multistrategytradingbot/service/BacktestingService.java:241-250 | the population variance of the returns, half-up to 8 places; VarianceNonNegative keeps it non-negative |
| BacktestMetrics.SharpeOfReturns | src/main/java/com/kinduberre/multistrategytradingbot/service/BacktestingService.java:237-259 | the annualised ratio of a non-empty list of returns, none at a zero deviation; SharpeIsMeanOverDeviation states its value |
| BacktestMetrics.VarianceNonNegative | src/main/java/com/kinduberre/multistrategytradingbot/service/BacktestingService.java:241-250 | the variance is never negative |
| BacktestMetrics.FlatReturns | src/main/java/com/kinduberre/multistrategytradingbot/service/BacktestingService.java:237-250 | zero returns have zero mean and zero variance |
| BacktestMetrics.FlatCurveReturns | src/main/java/com/kinduberre/multistrategytradingbot/service/BacktestingService.java:230-235 | a flat non-zero equity curve has only zero returns |
| BacktestMetrics.FlatCurveHasNoSharpe | src/main/java/com/kinduberre/multistrategytradingbot/service/BacktestingService.java:227-259 | a flat non-zero curve leaves the ratio unset when √0 is 0 |
| Backtesting.Initial | src/main/java/com/kinduberre/multistrategytradingbot/service/BacktestingService.java:42-46 | the loop starts with the initial capital as cash and maximum, no trades, an empty curve and no drawdown; QuietRun and RunKeepsInv start from it |
| Backtesting.Window | src/main/java/com/kinduberre/multistrategytradingbot/service/BacktestingService.java:50-54 | the window at bar i holds lookback + 1 bars and ends with bar i |
| Backtesting.OpenTrade | src/main/java/com/kinduberre/multistrategytradingbot/service/BacktestingService.java:150-169 | throws exactly when the signal's price or stop is missing or the two are equal; otherwise a trade entered at the bar's close and time, with the signal's strategy and no exit, its quantity within half a unit of the eighth decimal place of capital × risk over the stop distance, and non-negative for a non-negative risk amount |
| Backtesting.Bests | src/main/java/com/kinduberre/multistrategytradingbot/service/BacktestingService.java:49-63 | one best signal per bar from the lookback period on |
| Backtesting.BestsAt | src/main/java/com/kinduberre/multistrategytradingbot/service/BacktestingService.java:49-63 | the best signal of bar i is the selection among the signals of its window |
| Backtesting.ClosedAreClosed | src/main/java/com/kinduberre/multistrategytradingbot/service/BacktestingService.java:97-102 | every trade closed at the end has a profit |
| Backtesting.Backtest | src/main/java/com/kinduberre/multistrategytradingbot/service/BacktestingService.java:32-121 | a lookback of −1 throws index out of bounds, a smaller one an illegal argument, no bars index out of bounds; a result keeps the initial capital |
| Backtesting.RunUnfold | src/main/java/com/kinduberre/multistrategytradingbot/service/BacktestingService.java:49-95 | a bar whose signal and step succeed hands its new state to the next bar |
| Backtesting.Costs | src/main/java/com/kinduberre/multistrategytradingbot/service/BacktestingService.java:72-74 | what each trade cost when opened, entry × quantity |
| Backtesting.OpenOnBuy | src/main/java/com/kinduberre/multistrategytradingbot/service/BacktestingService.java:65-79 | the state after the BUY branch; OpenOnBuyFacts states when a trade is appended and paid for |
| Backtesting.Record | src/main/java/com/kinduberre/multistrategytradingbot/service/BacktestingService.java:81-94 | the state after recording the bar's equity; RecordFacts states what it keeps and what it never lowers |
| Backtesting.Step | src/main/java/com/kinduberre/multistrategytradingbot/service/BacktestingService.java:56-94 | one bar of the loop; StepFacts and StepKeepsInv state its effect and the invariant it keeps |
| Backtesting.Run | src/main/java/com/kinduberre/multistrategytradingbot/service/BacktestingService.java:49-95 | the loop from a bar on, the first fault ending it; RunKeepsInv states the invariant it keeps and the curve it builds |
| Backtesting.Simulation | src/main/java/com/kinduberre/multistrategytradingbot/service/BacktestingService.java:42-95 | the loop from the lookback period on, from Initial; QuietSimulation states it with every analyzer disabled |
| Backtesting.Finish | src/main/java/com/kinduberre/multistrategytradingbot/service/BacktestingService.java:97-116 | the result after the loop; BacktestFacts and QuietFinish state its trades, capital and ratios |
| Backtesting.StepFacts | src/main/java/com/kinduberre/multistrategytradingbot/service/BacktestingService.java:56-94 | a bar opens one trade, appended and paid out of the cash, exactly when its best signal is a BUY and fewer than maxPositions are open; otherwise trades and cash are kept; the bar's equity joins the curve and the maximum and largest drawdown never fall |
| Backtesting.OpenOnBuyFacts | src/main/java/com/kinduberre/multistrategytradingbot/service/BacktestingService.java:65-79 | the BUY branch alone: the trade appended and paid for exactly under the guard, the curve and maxima untouched |
| Backtesting.RecordFacts | src/main/java/com/kinduberre/multistrategytradingbot/service/BacktestingService.java:81-94 | recording keeps the trades and cash, appends the equity at the close, and never lowers the maximum or the largest drawdown |
| Backtesting.StepKeepsInv | src/main/java/com/kinduberre/multistrategytradingbot/service/BacktestingService.java:56-94 | one bar keeps the loop invariant: at most maxPositions open, cash = initial capital − cost of the open trades, maximum ≥ initial capital, drawdown ≥ 0 |
| Backtesting.RunKeepsInv | src/main/java/com/kinduberre/multistrategytradingbot/service/BacktestingService.java:49-95 | the whole loop keeps the invariant, adds one equity per remaining bar and never lowers the largest drawdown |
| Backtesting.CloseAllKeepsCosts | src/main/java/com/kinduberre/multistrategytradingbot/service/BacktestingService.java:97-102 | closing the trades at the end keeps what each cost |
| Backtesting.BacktestFacts | src/main/java/com/kinduberre/multistrategytradingbot/service/BacktestingService.java:32-121 | a finished backtest has at most maxPositions trades, all closed at the last close with "End of backtest"; the final capital is the initial capital less the cost of every trade (the proceeds are never returned), so the total return is minus those costs; the drawdown is non-negative and wins and losses add up to the trades |
| Backtesting.DisabledHasNoSignal | src/main/java/com/kinduberre/multistrategytradingbot/service/BacktestingService.java:123-148 | with every analyzer disabled no signal is selected |
| Backtesting.QuietRun | src/main/java/com/kinduberre/multistrategytradingbot/service/BacktestingService.java:49-95 | with no signal at any bar the loop opens nothing, keeps the cash and a zero drawdown, and records the initial capital at every bar |
| Backtesting.NoAnalyzersNoTrades | src/main/java/com/kinduberre/multistrategytradingbot/service/BacktestingService.java:32-121 | with every analyzer disabled the backtest succeeds with no trades, the initial capital back, zero return and drawdown, and no Sharpe ratio |
| Backtesting.QuietSimulation | src/main/java/com/kinduberre/multistrategytradingbot/service/BacktestingService.java:42-95 | with every analyzer disabled the loop succeeds with no open trade, the initial cash, no drawdown and a flat curve |
| Backtesting.DisabledBests | src/main/java/com/kinduberre/multistrategytradingbot/service/BacktestingService.java:59-63 | with every analyzer disabled every bar's best signal is none |
| Backtesting.QuietFinish | src/main/java/com/kinduberre/multistrategytradingbot/service/BacktestingService.java:97-116 | closing a quiet run gives no trades, the initial capital, zero return and drawdown, and no Sharpe ratio |
| Backtesting.RunBacktest | src/main/java/com/kinduberre/multistrategytradingbot/service/BacktestingService.java:32-121 | the method returns exactly Backtest |
| Backtesting.SimulateBars | src/main/java/com/kinduberre/multistrategytradingbot/service/BacktestingService.java:42-95 | the bar loop returns exactly Simulation |
| Backtesting.BestAt | src/main/java/com/kinduberre/multistrategytradingbot/service/BacktestingService.java:50-63 | the signals of one window, then the selection, give exactly that bar's best signal |
| Backtesting.ProcessBar | src/main/java/com/kinduberre/multistrategytradingbot/service/BacktestingService.java:56-94 | one pass of the loop body gives exactly Step |
| Backtesting.Conclude | src/main/java/com/kinduberre/multistrategytradingbot/service/BacktestingService.java:97-116 | the closing and metrics give exactly Finish |
| Dashboard.CappedKeepsLatest | src/main/java/com/kinduberre/multistrategytradingbot/service/DashboardService.java:258-263 | after recording, the history holds at most 2160 points and ends with the new one; below the cap it is the old history plus the point, at the cap the oldest point is dropped |
| Dashboard.Values | src/main/java/com/kinduberre/multistrategytradingbot/service/DashboardService.java:139-141 | the equity values of the history, point by point |
| Dashboard.Scan | src/main/java/com/kinduberre/multistrategytradingbot/service/DashboardService.java:136-152 | the peak and largest drawdown after the loop over the values; ScanIsLargestDrawdown states that it is the largest drawdown at any point |
| Dashboard.MaxDrawdown | src/main/java/com/kinduberre/multistrategytradingbot/service/DashboardService.java:133-155 | zero below two points, otherwise the largest drawdown as a percentage; MaxDrawdownBounds bounds it |
| Dashboard.PeakAtLast | src/main/java/com/kinduberre/multistrategytradingbot/service/DashboardService.java:139-142 | the running peak at the last point is the larger of the previous peak and that point's value |
| Dashboard.PeakAtPrefix | src/main/java/com/kinduberre/multistrategytradingbot/service/DashboardService.java:139-142 | the running peak at a point depends only on the points up to it |
| Dashboard.DrawdownAtPrefix | src/main/java/com/kinduberre/multistrategytradingbot/service/DashboardService.java:144-147 | the drawdown at a point depends only on the points up to it |
| Dashboard.ScanStep | src/main/java/com/kinduberre/multistrategytradingbot/service/DashboardService.java:139-152 | one more point raises the peak to its value if larger, and the largest drawdown to that point's drawdown if larger |
| Dashboard.ScanPointRaises | src/main/java/com/kinduberre/multistrategytradingbot/service/DashboardService.java:140-151 | one pass of the loop body: the new peak is the larger of the old peak and the value; the drawdown (peak − value) / peak, to four places, counts only once the peak is positive and replaces the maximum only when larger |
| Dashboard.ScanIsLargestDrawdown | src/main/java/com/kinduberre/multistrategytradingbot/service/DashboardService.java:136-152 | the loop ends with the peak of all values and a largest drawdown that is non-negative, at least the drawdown at every point, and either zero or the drawdown at some point |
| Dashboard.MaxDrawdownBounds | src/main/java/com/kinduberre/multistrategytradingbot/service/DashboardService.java:133-155 | the max drawdown is non-negative; from two points on it is at least 100 × every point's drawdown; with non-negative equity it is at most 100 |
| Dashboard.DrawdownAtMostOne | src/main/java/com/kinduberre/multistrategytradingbot/service/DashboardService.java:144-147 | a point's drawdown is at most 1 (a value of at least zero never lies above the peak by more than the peak) |
| Dashboard.DailyReturns | src/main/java/com/kinduberre/multistrategytradingbot/service/DashboardService.java:92-102 | at most one return per pair of consecutive points |
| Dashboard.AllDailyReturns | src/main/java/com/kinduberre/multistrategytradingbot/service/DashboardService.java:92-102 | when every previous value is positive, there is one return per consecutive pair, (current − previous) / previous to eight places |
| Dashboard.SampleVariance | src/main/java/com/kinduberre/multistrategytradingbot/service/DashboardService.java:112-121 | the squared deviations summed, over n − 1 half-up to 8 places from two returns on; SampleVarianceNonNegative keeps it non-negative |
| Dashboard.SampleVarianceNonNegative | src/main/java/com/kinduberre/multistrategytradingbot/service/DashboardService.java:112-121 | the variance, summed squares divided by n − 1 when there are two returns or more, is non-negative |
| Dashboard.SharpeRatio | src/main/java/com/kinduberre/multistrategytradingbot/service/DashboardService.java:89-90 | fewer than 30 points give a Sharpe ratio of 0 |
| Dashboard.AnnualisedSharpe | src/main/java/com/kinduberre/multistrategytradingbot/service/DashboardService.java:104-130 | zero without returns or with a zero deviation, else the annualised mean over the deviation; SharpeIsMeanOverDeviation and AnnualiseIsRatio state its value |
| Dashboard.SharpeIsMeanOverDeviation | src/main/java/com/kinduberre/multistrategytradingbot/service/DashboardService.java:89-131 | with √252 non-zero the ratio is computed without fault; with 30 points or more, some return and a non-zero deviation, it is the average return over the standard deviation rounded to two places, the √252 factors cancelling |
| Dashboard.AnnualiseIsRatio | src/main/java/com/kinduberre/multistrategytradingbot/service/DashboardService.java:128-130 | multiplying mean and deviation by the same non-zero annual factor leaves mean / deviation, rounded to two places |
| Dashboard.FlatHistoryHasNoSharpe | src/main/java/com/kinduberre/multistrategytradingbot/service/DashboardService.java:89-125 | a history of one constant positive value has no variance (√0 being 0) and so a Sharpe ratio of 0 |
| Dashboard.FlatDailyReturns | src/main/java/com/kinduberre/multistrategytradingbot/service/DashboardService.java:92-102 | a constant positive history has one zero return per pair |
| Dashboard.ZeroReturnsHaveNoVariance | src/main/java/com/kinduberre/multistrategytradingbot/service/DashboardService.java:106-121 | all-zero returns have zero average and zero variance |
| Dashboard.Group | src/main/java/com/kinduberre/multistrategytradingbot/service/DashboardService.java:170-172 | the positions of one strategy, exactly those of the table with that strategy |
| Dashboard.Profits | src/main/java/com/kinduberre/multistrategytradingbot/service/DashboardService.java:181-184 | each position's profit, a missing profit counting as 0 |
| Dashboard.Wins | src/main/java/com/kinduberre/multistrategytradingbot/service/DashboardService.java:187-189 | the number of winning positions is at most the group's size |
| Dashboard.StrategyNameInjective | src/main/java/com/kinduberre/multistrategytradingbot/service/DashboardService.java:176-197 | two strategies with the same name are the same strategy, so no group overwrites another |
| Dashboard.WinRateBounds | src/main/java/com/kinduberre/multistrategytradingbot/service/DashboardService.java:191-192 | wins × 100 / trades lies between 0 and 100 |
| Dashboard.StrategyPerformance | src/main/java/com/kinduberre/multistrategytradingbot/service/DashboardService.java:165-201 | the metrics of each strategy that occurs, keyed by its name; StrategyPerformanceKeys and StrategyPerformanceFacts state its keys and entries |
| Dashboard.StrategyPerformanceKeys | src/main/java/com/kinduberre/multistrategytradingbot/service/DashboardService.java:165-201 | a strategy's name is a key of the performance map exactly when some position has that strategy, and its entry is the metrics of its group |
| Dashboard.StrategyPerformanceFacts | src/main/java/com/kinduberre/multistrategytradingbot/service/DashboardService.java:174-198 | each entry has the strategy's name, a non-empty group's size as trades, the sum of the group's profits as pnl, a win rate between 0 and 100, and pnl / trades to four places as average return |
| Dashboard.MetricsOf | src/main/java/com/kinduberre/multistrategytradingbot/service/DashboardService.java:175-195 | the name, trades, pnl, win rate and average return of one strategy's positions; MetricsOfFacts states them |
| Dashboard.MetricsOfFacts | src/main/java/com/kinduberre/multistrategytradingbot/service/DashboardService.java:175-195 | the metrics of one group: name, trades, pnl, a win rate within 0..100 and the average return |
| Dashboard.GroupsPartition | src/main/java/com/kinduberre/multistrategytradingbot/service/DashboardService.java:170-172 | the five strategy groups together hold every position once |
| Dashboard.Exited | src/main/java/com/kinduberre/multistrategytradingbot/service/DashboardService.java:204-205 | exactly the positions with an exit time |
| Dashboard.ByExit | src/main/java/com/kinduberre/multistrategytradingbot/service/DashboardService.java:204-206 | a permutation of the positions with an exit time (all of them and no others, each as often as in the table), newest exit first |
| Dashboard.ByExitKeepsTableOrderOnTies | src/main/java/com/kinduberre/multistrategytradingbot/service/DashboardService.java:206 | positions with the same exit time keep their table order, since the sort is stable |
| Dashboard.NewestFirstDescends | src/main/java/com/kinduberre/multistrategytradingbot/service/DashboardService.java:206 | a sequence sorted by descending exit time has non-increasing exit times |
| Dashboard.ToRecentTrade | src/main/java/com/kinduberre/multistrategytradingbot/service/DashboardService.java:212-222 | the trade row of an exited position: its exit time, symbol, SELL, exit price, quantity, profit and strategy name; RecentTradesAreNewest ties the rows to it |
| Dashboard.RecentTrades | src/main/java/com/kinduberre/multistrategytradingbot/service/DashboardService.java:203-210 | at most limit trades (fewer only when fewer positions have exited), newest first, every one a SELL; RecentTradesAreNewest states that they are the newest exits |
| Dashboard.RecentTradesAreNewest | src/main/java/com/kinduberre/multistrategytradingbot/service/DashboardService.java:203-210 | row i is the i-th position of the newest-first order, and no exited position left out exited after any row shown |
| Dashboard.RecentTradesFromTable | src/main/java/com/kinduberre/multistrategytradingbot/service/DashboardService.java:203-222 | every recent trade is the conversion of an exited position of the table |
| Dashboard.RecentTradesComplete | src/main/java/com/kinduberre/multistrategytradingbot/service/DashboardService.java:203-210 | when limit covers every exited position, each of them appears among the recent trades |
| Dashboard.Warnings | src/main/java/com/kinduberre/multistrategytradingbot/service/DashboardService.java:232-245 | "Low account balance" is raised exactly when the balance is below 100, "High drawdown detected" exactly when the drawdown exceeds 10 |
| Dashboard.Health | src/main/java/com/kinduberre/multistrategytradingbot/service/DashboardService.java:224-248 | trading, data feed and alerts flagged active, 1200 API calls remaining, and the warnings for the balance and the max drawdown of the history; Warnings states when each is raised |
| Dashboard.CalculateDailyReturns | src/main/java/com/kinduberre/multistrategytradingbot/service/DashboardService.java:92-102 | the loop computes exactly the daily returns |
| Dashboard.CalculateAnnualisedSharpe | src/main/java/com/kinduberre/multistrategytradingbot/service/DashboardService.java:104-130 | the average, variance loop and ratio give exactly the annualised Sharpe of the returns |
| Dashboard.DashboardService.constructor | src/main/java/com/kinduberre/multistrategytradingbot/service/DashboardService.java:23 | the history starts empty |
| Dashboard.DashboardService.RecordEquityPoint | src/main/java/com/kinduberre/multistrategytradingbot/service/DashboardService.java:250-264 | the point valued at balance plus unrealised profit at the current price is appended and the history capped at 2160 |
| Dashboard.DashboardService.CalculateMaxDrawdown | src/main/java/com/kinduberre/multistrategytradingbot/service/DashboardService.java:133-155 | the loop over the history returns exactly the max drawdown of its values |
| Dashboard.DashboardService.CalculateSharpeRatio | src/main/java/com/kinduberre/multistrategytradingbot/service/DashboardService.java:89-131 | returns exactly the Sharpe ratio of the history's values |
| Dashboard.DashboardService.GetSystemHealth | src/main/java/com/kinduberre/multistrategytradingbot/service/DashboardService.java:224-248 | the health flags and the warnings for the balance and the history's max drawdown |
| BacktestController.Fields | src/main/java/com/kinduberre/multistrategytradingbot/controller/BacktestController.java:112 | splitting on every comma gives at least one field, none holding a comma |
| BacktestController.DropTrailingEmpty | src/main/java/com/kinduberre/multistrategytradingbot/controller/BacktestController.java:112 | String.split drops trailing empty strings: what remains is a prefix ending in a non-empty field, and everything dropped is empty |
| BacktestController.Split | src/main/java/com/kinduberre/multistrategytradingbot/controller/BacktestController.java:112 | no field of the split holds a comma |
| BacktestController.JoinOne | src/main/java/com/kinduberre/multistrategytradingbot/controller/BacktestController.java:112 | joining one more field in front adds it and a comma |
| BacktestController.JoinFields | src/main/java/com/kinduberre/multistrategytradingbot/controller/BacktestController.java:112 | joining the comma-separated fields with commas gives back the line |
| BacktestController.FieldsNoComma | src/main/java/com/kinduberre/multistrategytradingbot/controller/BacktestController.java:112 | a comma-free string is a single field |
| BacktestController.FieldsOfPrefix | src/main/java/com/kinduberre/multistrategytradingbot/controller/BacktestController.java:112 | a comma-free field before a comma comes first among the fields |
| BacktestController.FieldsJoin | src/main/java/com/kinduberre/multistrategytradingbot/controller/BacktestController.java:112 | splitting comma-free fields joined with commas gives back those fields |
| BacktestController.SplitJoin | src/main/java/com/kinduberre/multistrategytradingbot/controller/BacktestController.java:112 | String.split gives back comma-free fields joined with commas, unless the last of several is empty |
| BacktestController.SignedDigits | src/main/java/com/kinduberre/multistrategytradingbot/controller/BacktestController.java:118-132 | a signed number is never the empty string |
| BacktestController.ParseLong | src/main/java/com/kinduberre/multistrategytradingbot/controller/BacktestController.java:118-132 | Long.parseLong gives only values in the 64-bit signed range |
| BacktestController.FirstOf | src/main/java/com/kinduberre/multistrategytradingbot/controller/BacktestController.java:126-131 | the first position of one of the marks: none of them before it, one of them at it unless it is the end |
| BacktestController.ParseDecimal | src/main/java/com/kinduberre/multistrategytradingbot/controller/BacktestController.java:126-131 | new BigDecimal never accepts the empty string; its values are stated by ParseDecimalOfDigits, ParseDecimalOfPoint, ParseDecimalWithExponent and MinusNegates |
| BacktestController.ShowNat | src/main/java/com/kinduberre/multistrategytradingbot/controller/BacktestController.java:118-132 | a natural number is printed as at least one decimal digit |
| BacktestController.DigitsOfShowNat | src/main/java/com/kinduberre/multistrategytradingbot/controller/BacktestController.java:118-132 | reading the printed digits gives back the number |
| BacktestController.SignedDigitsOfDigits | src/main/java/com/kinduberre/multistrategytradingbot/controller/BacktestController.java:118-132 | a digit string, with or without a leading minus, reads as its value or its negation |
| BacktestController.UnsignedDigits | src/main/java/com/kinduberre/multistrategytradingbot/controller/BacktestController.java:118-132 | a digit string reads as its value |
| BacktestController.NegatedDigits | src/main/java/com/kinduberre/multistrategytradingbot/controller/BacktestController.java:118-132 | a minus then a digit string reads as the negated value |
| BacktestController.SignedDigitsOfShowInt | src/main/java/com/kinduberre/multistrategytradingbot/controller/BacktestController.java:118-132 | reading a printed integer gives it back |
| BacktestController.ParseLongShowInt | src/main/java/com/kinduberre/multistrategytradingbot/controller/BacktestController.java:118-132 | Long.parseLong reads back every printed value of the 64-bit range |
| BacktestController.ParseLongOverflow | src/main/java/com/kinduberre/multistrategytradingbot/controller/BacktestController.java:118-132 | Long.parseLong rejects every printed value outside the 64-bit range |
| BacktestController.FirstOfAbsent | src/main/java/com/kinduberre/multistrategytradingbot/controller/BacktestController.java:126-131 | with none of the marks present the first position is the end |
| BacktestController.MantissaOfDigits | src/main/java/com/kinduberre/multistrategytradingbot/controller/BacktestController.java:126-131 | a digit string without a point is an unscaled value of scale 0 |
| BacktestController.UnsignedOfDigits | src/main/java/com/kinduberre/multistrategytradingbot/controller/BacktestController.java:126-131 | an unsigned digit string reads as its value |
| BacktestController.DigitsHaveNoMarks | src/main/java/com/kinduberre/multistrategytradingbot/controller/BacktestController.java:126-131 | a digit string holds neither an exponent mark nor a point |
| BacktestController.ParseDecimalOfDigits | src/main/java/com/kinduberre/multistrategytradingbot/controller/BacktestController.java:126-131 | new BigDecimal reads a digit string as its value |
| BacktestController.MinusNegates | src/main/java/com/kinduberre/multistrategytradingbot/controller/BacktestController.java:126-131 | a leading minus negates the decimal, and is rejected exactly when the rest is |
| BacktestController.ParseDecimalShowInt | src/main/java/com/kinduberre/multistrategytradingbot/controller/BacktestController.java:126-131 | new BigDecimal reads back every printed integer |
| BacktestController.ShiftIsPower | src/main/java/com/kinduberre/multistrategytradingbot/controller/BacktestController.java:126-131 | shifting by e multiplies by ten to the e, or divides by ten to the −e for a negative e |
| BacktestController.ScientificOf | src/main/java/com/kinduberre/multistrategytradingbot/controller/BacktestController.java:126-131 | unscaled digits d of scale s with exponent x make d shifted by x − s |
| BacktestController.UnsignedNoExponent | src/main/java/com/kinduberre/multistrategytradingbot/controller/BacktestController.java:126-131 | without an exponent mark the unsigned value is the mantissa's digits shifted down by its scale |
| BacktestController.UnsignedAtExponent | src/main/java/com/kinduberre/multistrategytradingbot/controller/BacktestController.java:126-131 | with the first exponent mark at e, the unsigned value is the digits before it shifted by the signed exponent after it, less the scale |
| BacktestController.MantissaOfPoint | src/main/java/com/kinduberre/multistrategytradingbot/controller/BacktestController.java:126-131 | `w.f` is the unscaled value `wf` with scale |f| |
| BacktestController.PointHasNoExponent | src/main/java/com/kinduberre/multistrategytradingbot/controller/BacktestController.java:126-131 | `w.f` holds no exponent mark |
| BacktestController.DecimalNoExponentOf | src/main/java/com/kinduberre/multistrategytradingbot/controller/BacktestController.java:126-131 | a mark-free mantissa starting with neither sign reads as its digits divided by ten to its scale |
| BacktestController.ParseDecimalOfPoint | src/main/java/com/kinduberre/multistrategytradingbot/controller/BacktestController.java:126-131 | new BigDecimal reads `w.f` (digit strings, not both empty) as the digits of `wf` divided by ten to the number of digits of `f` |
| BacktestController.MarkAfterPrefix | src/main/java/com/kinduberre/multistrategytradingbot/controller/BacktestController.java:126-131 | after a mark-free mantissa, the appended `e` is the first exponent mark |
| BacktestController.UnsignedWithExponentOf | src/main/java/com/kinduberre/multistrategytradingbot/controller/BacktestController.java:126-131 | an exponent text reading as k after a mark-free mantissa shifts the digits by k less the scale |
| BacktestController.ShiftOfScaled | src/main/java/com/kinduberre/multistrategytradingbot/controller/BacktestController.java:126-131 | shifting the digits by k less the scale is the scaled value times ten to the k |
| BacktestController.DecimalWithExponentOf | src/main/java/com/kinduberre/multistrategytradingbot/controller/BacktestController.java:126-131 | a mark-free mantissa of value v followed by `e` and an exponent reading as k reads as v times ten to the k, or v divided by ten to the −k |
| BacktestController.ParseDecimalWithExponent | src/main/java/com/kinduberre/multistrategytradingbot/controller/BacktestController.java:126-131 | appending `e` and a printed integer k to a plain decimal `w.f` of value v gives v times ten to the k, or v divided by ten to the −k for a negative k |
| BacktestController.ParseFields | src/main/java/com/kinduberre/multistrategytradingbot/controller/BacktestController.java:115-134 | a bar exactly when fields 0 and 9 are longs and fields 3 to 8 decimals; then timestamp, symbol (field 2), open, high, low, close, volume, quote volume and trade count are those fields, the date field 1 skipped |
| BacktestController.ParseLine | src/main/java/com/kinduberre/multistrategytradingbot/controller/BacktestController.java:110-113 | a line with fewer than ten fields after the split is skipped |
| BacktestController.ParseLineOfJoin | src/main/java/com/kinduberre/multistrategytradingbot/controller/BacktestController.java:110-139 | a line of ten or more comma-free fields, the last non-empty, parses exactly as its fields |
| BacktestController.EmptyLastFieldIsNull | src/main/java/com/kinduberre/multistrategytradingbot/controller/BacktestController.java:110-139 | a ten-field line whose trade count is empty is dropped by the split to nine fields and skipped |
| BacktestController.Somes | src/main/java/com/kinduberre/multistrategytradingbot/controller/BacktestController.java:84-86 | keeping only the parsed bars keeps at most as many as there were lines |
| BacktestController.Parsed | src/main/java/com/kinduberre/multistrategytradingbot/controller/BacktestController.java:82-83 | each line is parsed on its own |
| BacktestController.ParseFile | src/main/java/com/kinduberre/multistrategytradingbot/controller/BacktestController.java:74-91 | the header is skipped, so at most one bar per remaining line, and a file of at most a header gives none |
| BacktestController.ParseFileAppend | src/main/java/com/kinduberre/multistrategytradingbot/controller/BacktestController.java:82-87 | one more line adds its bar at the end exactly when it parses |
| BacktestController.SomesStep | src/main/java/com/kinduberre/multistrategytradingbot/controller/BacktestController.java:84-86 | one more line's result adds its bar exactly when present |
| BacktestController.SomesAll | src/main/java/com/kinduberre/multistrategytradingbot/controller/BacktestController.java:84-86 | when every line parses, every bar is kept, in order |
| BacktestController.SomesFrom | src/main/java/com/kinduberre/multistrategytradingbot/controller/BacktestController.java:84-86 | every kept bar came from some line |
| BacktestController.AllLinesParse | src/main/java/com/kinduberre/multistrategytradingbot/controller/BacktestController.java:74-91 | when every line after the header parses, the bars are those lines' bars in order |
| BacktestController.BarsFromLines | src/main/java/com/kinduberre/multistrategytradingbot/controller/BacktestController.java:74-91 | every bar read is the parse of some line after the header |
| BacktestController.ReadBars | src/main/java/com/kinduberre/multistrategytradingbot/controller/BacktestController.java:74-91 | the reading loop returns exactly the parsed file |
| BacktestController.RequestConfig | src/main/java/com/kinduberre/multistrategytradingbot/controller/BacktestController.java:34-36 | the request's risk per trade and position limit, every other setting at its default |
| BacktestController.RunBacktestFromLines | src/main/java/com/kinduberre/multistrategytradingbot/controller/BacktestController.java:24-47 | a file with no bar fails with an index out of bounds; a result keeps the requested initial capital |

## Left out

- Network and exchange access: the Binance REST and WebSocket clients, order placement and account queries. Klines and the USDT balance are parameters, and a placed order is not modelled.
- Persistence: JPA storage of positions. `Repository.PositionRepository` is an in-memory sequence with sequential identifiers.
- Time: `LocalDateTime.now()` becomes the parameter `now`. Signal timestamps, `calculateTodayPnL`, `getEquityCurve` and the health report's `lastUpdate` depend only on the wall clock and are not modelled. `getCurrentMetrics` only gathers those and the other dashboard values, so it is not modelled either.
- Floating point:
  - `Math.sqrt` (Bollinger deviation, both Sharpe ratios) is the parameter `sqrt`, assumed non-negative where a lemma needs it.
  - The `double` EMA multiplier and the `double` win rates are exact reals.
  - The request's `double` risk per trade and initial capital are exact reals.
  - `BigDecimal.valueOf(double)` constants are their exact decimal values.
- Epoch-millisecond timestamps stay integers. Their conversion through `ZoneId.systemDefault()` depends on the machine and is not modelled.
- Reading the file itself (`MultipartFile`, `FileReader`, `IOException`) is not modelled. The parser works on the sequence of lines.
- Character sets: `Long.parseLong` and `new BigDecimal` also accept non-ASCII Unicode digits. The model accepts ASCII digits only.
- BigDecimal exponent overflow beyond the `int` scale range is not modelled.
- Logging, alerts, metrics export, the machine-learning filter, the mock market-data generator and the web controllers are outside this model.
- The backtest's empty stubs are no-ops, as in the code:
  - the stop and target check;
  - closing matching positions on a SELL;
  - the per-strategy performance;
  - the monthly returns.
  `strategyPerformance` and `monthlyReturns` are therefore absent from the result.
- Backtest quirks are modelled as written:
  - The backtest's final capital is only the remaining cash; the proceeds of the trades closed at the end are never credited.
  - Equity subtracts each trade's cost on entry.
  - The commission is computed but never applied, so it is not modelled.
- The position-sizing expectation in the integration test is 0.1. The code's 10%-of-balance cap gives 0.02 for a balance of 10000, a price of 50000 and a stop of 49000. The model follows the code (`RiskManagement.PositionSizeScenario`).
- A configured period (SMA, EMA, ATR, RSI, Bollinger, strategy lookbacks) is at least 1: a zero period divides by zero in the source, and negative periods are configuration errors. These are preconditions of the model.
- PositionManagement.OpenPosition: requires the signal to carry a price. The source would store a null entry price. The model's entry price is not nullable.
- Null strategies: signals and positions always carry a strategy in the model. The source's null strategy is not modelled. It would throw in the portfolio's allocation switch and be skipped by the dashboard's grouping.
- Dashboard.WinRateBounds: states the bound on the exact ratio. The source computes the win rate in `double`.
- Backtesting.OpenTrade: states the quantity within 5·10⁻⁹ of capital × risk / stop distance instead of the exact eight-place HALF_UP value. The function itself computes the exact rounding.
- VolatilityBreakout.PercentileIndex: truncates the exact product of size and percentile. The source multiplies in `double` first, so a product that rounds below an integer truncates one lower: 90 × 0.7 is 62.99999999999999 in `double`, index 62 in the source and 63 in the model.
- VolatilityBreakout.PercentileIndexInBounds: states the bounds for the exact product. The source's `double` product can land on the other side of an integer, as above.

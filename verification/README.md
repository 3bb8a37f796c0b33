# Formal model of stock-center

This project models the parts of the platform whose correctness is not visible in any single function and
proves them in Dafny 4.11: the forward-adjusted (QFQ) factor engine, the concurrent ingest and backfill
pipelines, the lease and the snapshot cache, and the daily coverage figures. `dafny verify dfyconfig.toml`
checks everything.

## What is modelled

**Factor engine.** `TechnicalCore` defines every indicator on a prefix of a price series (EMA, MACD, KDJ, RSI,
Bollinger bands, ATR) and proves the local fallback loop, with its skip branches and running state, against
those definitions. `LocalFill` proves what a pass does to the factor table, `IndicatorBounds` the ranges of the
indicators, and `IndicatorMeaning`, `RowMeaning` and `MinuteMeaning` say what each stored figure is in terms of
the bars. `FactorRow` adds the SQL windows of one assembled row, `RebaseRecompute` and `QfqBasis` prove that
multiplying stored columns by one derived scale equals recomputing history on the new adjustment basis, and
say exactly when one rebase, or its rerun, updates anything. `QfqRuns` follows the basis of every stored row
over runs in which rebases are missed, late or repeated, `QfqDaily` over the daily run after a bulk load with
all columns, `QfqReassembly` over the second assembly of a row. `MinuteFactors`, `MinuteGaps`, `InflowRuns` and
`Percentiles` relate factors that exist both as a Python loop and as SQL windows.

**Pipelines.** `MinutePipeline` and `HistoryBackfill` are step machines over every interleaving of their
workers; `MinuteSync` and `HistoryRun` are the mutable objects whose methods follow those machines.
`MinuteAnswers` follows the answers themselves into the table, `BackfillCounters` tells counters, buffers and
thresholds from the events of a run, and `BackfillConvergence` and `BackfillProgress` show that resuming after
failures converges and that runs end.
`FactorWindows` and `SectorWindows` account for the trade dates of the factor backfills, `TargetBackfill` for
the targets of the sector, index, limit-event and north-flow backfills.

**Lease and cache.** `RedisLease` interleaves the atomic operations of the lease; `MemoryStore` and
`MemoryLease` do the same for process memory. `SnapshotCache` proves that four keys with their own expiry
behave as one cell holding the latest success; `SnapshotMemory` is the in-place form with the shared meta
object, `SnapshotSharing` follows that sharing over runs, and `SnapshotFollows` proves that the objects follow
those runs operation by operation.

**Coverage.** `CoverageGaps` relates the clipped counts to the rows of the gap report through the sets both
come from.

Prices, amounts and clock readings are exact reals; NULL and None are `Option`. `variance ** 0.5` is a function
parameter `root` known only to give the non-negative root. Provider calls, database writes that may raise and
clock readings are parameters of the steps. Queries are declarative functions over the rows they read.

## Where the code and its descriptions differ

- The rebase is described as re-anchoring history after an ex-date. It does so exactly when the factor moved by
  more than 1e-12 and the ratio of the factors is within [0.01, 100] and off 1 by more than 1e-8
  (`QfqBasis.RebaseReanchorsExactly`); otherwise history keeps the old basis.
- The rebase is described as idempotent. Running the same day again is (`QfqBasis.RebaseIsIdempotent`). Running
  an older ex-date again, once a newer factor has moved the basis on, rescales the rows before it a second time
  exactly when the factor of that date had moved and the ratio of the newest basis to it passes the guard
  (`QfqBasis.RerunUpdatesNothingExactly`), and then leaves history on two bases (`QfqBasis.OldExDateSplitsHistory`, `QfqBasis.OldExDateRerun`).
- A missed or refused rebase leaves history on two bases (`QfqDaily.MissedExDate`). The close job accepts past
  dates and the repair job runs it for them; such a late rebase repairs the history exactly when it fires against
  the earlier basis and the later one is the factor of its own day (`QfqRuns.LateRebaseRepairsExactly`,
  `QfqDaily.LateRepair`). History stays split as long as no event joins the rows on the two sides
  (`QfqRuns.MissedExDateIsPermanent`), and there are histories that nothing joins: once a later ex-date has been
  rebased, the reference of the missed one may be on its own factor already (`QfqDaily.PassedOverForGood`,
  `QfqDaily.PassedOverStaysApart`).
- Assembling a row that is stored on an older factor again does not move it to the new one: prices and averages
  stay, rolling extremes move, and the row is on no single basis (`QfqReassembly.ReassemblyKeepsOneBasisExactly`).
- The stock inflow count is a trailing run only on the last loaded day or before a non-positive day
  (`InflowRuns.StockEqualsTrailingRunExactly`).
- The unfiltered stock percentiles count NULL rows in the denominator and rank them at 100
  (`Percentiles.CumeDistEqualsMapExactly`, `Percentiles.NullRanksLast`).
- With missing prices the minute loop and the windows still agree as long as no gap lies between priced bars
  and no unpriced bar was traded before a priced one, unless at the average price of the priced ones so far;
  otherwise they store different rows (`MinuteGaps.SameRowsExactly`).
- In process memory a status probe evicts a lease in its final second (`MemoryLease.ProbeLetsOtherIn`), and
  the first failure after a success rewrites its last-good meta while the meta of the success is still live
  (`SnapshotSharing.LastGoodMetaDamagedExactly`).
- A stock counted as completed is counted as failed too when the flush after it fails
  (`HistoryBackfill.RunAccounting`, `BackfillProgress.FailedFlushCountsTwice`); a window whose success report
  raises is counted twice (`SectorWindows.RunAccounting`, `SectorWindows.RaisingReportCountsTwice`).
- The truncation flag misses a cut when the table holds at least as many stocks outside the universe as rows
  were cut (`CoverageGaps.TruncationFlag`, `CoverageGaps.MissedCut`).

## Model

| member | source | states |
|---|---|---|
| `TechnicalCore.FillSeries` | python-back/app/modules/indicator_engine/repository.py:821-921 | the loop with its three skip branches and all running state emits exactly `Emitted`: for each eligible date, in order, the indicators of the prefix that ends there |
| `TechnicalCore.FillOne` | python-back/app/modules/indicator_engine/repository.py:832-921 | one iteration: a skipped bar advances the same running state as an emitted one |
| `TechnicalCore.Advance` | python-back/app/modules/indicator_engine/repository.py:833-857 | one bar takes every running variable from its value on a prefix to its value on the prefix with the bar |
| `TechnicalCore.AdvanceEmas` | python-back/app/modules/indicator_engine/repository.py:845-848 | the nine-period dictionary holds every EMA of the longer prefix |
| `TechnicalCore.AdvanceMacd` | python-back/app/modules/indicator_engine/repository.py:849-851 | dif and dea become those of the longer prefix, with the first bar seeding dea |
| `TechnicalCore.AdvanceKdj` | python-back/app/modules/indicator_engine/repository.py:852-856 | K and D become those of the longer prefix, over the nine-bar high and low |
| `TechnicalCore.BuildRow` | python-back/app/modules/indicator_engine/repository.py:871-920 | the emitted dictionary holds every one of the 21 core columns, each with the value of the prefix |
| `IndicatorBounds.EmaWithinCloses` | python-back/app/modules/indicator_engine/repository.py:845-848 | for every period an EMA lies between the smallest and largest close of its prefix |
| `IndicatorBounds.EmaForgetting` | python-back/app/modules/indicator_engine/repository.py:2151-2158 | two EMAs with different histories differ after n shared bars by exactly (1 - 2/(p+1))^n times their first gap |
| `IndicatorBounds.KdjRange` | python-back/app/modules/indicator_engine/repository.py:852-857 | with low <= close <= high on every bar, K and D stay in [0,100] and J in [-400/3, 700/3] |
| `IndicatorBounds.StochasticInRangeExactly` | python-back/app/modules/indicator_engine/repository.py:852-854 | with a proper nine-bar range the stochastic is in [0,100] if and only if the close lies inside the range |
| `IndicatorBounds.KInRangeExactly` | python-back/app/modules/indicator_engine/repository.py:852-855 | K stays in [0,100] if and only if the stochastic of the bar lies between -2 times the previous K and 300 less twice the previous K; on the first bar between -100 and 200 |
| `IndicatorBounds.FirstBarInRangeExactly` | python-back/app/modules/indicator_engine/repository.py:852-855 | on the first bar K stays in [0,100] if and only if the close is no more than one range width outside low and high |
| `IndicatorBounds.RsiRange` | python-back/app/modules/indicator_engine/repository.py:875-881 | RSI of every period lies in [0,100] for all non-negative gains and losses, the zero-loss branch included |
| `IndicatorBounds.AtrNonNegative` | python-back/app/modules/indicator_engine/repository.py:842-844 | the ATR of an ordered series is non-negative |
| `IndicatorBounds.ColumnsInRange` | python-back/app/modules/indicator_engine/repository.py:907-916 | every emitted oscillator column and the ATR are in range on every ordered series |
| `IndicatorBounds.BandsOrdered` | python-back/app/modules/indicator_engine/repository.py:871-873 | boll_lower <= boll_mid <= boll_upper on every series whatever its prices |
| `IndicatorMeaning.MacdMeans` | python-back/app/modules/indicator_engine/repository.py:845-851 | an EMA weighs each close by 2/(p+1) and its age, the first close by what is left; dif is the 12/26 difference, dea the same average of it at 0.2, and the MACD twice their gap |
| `IndicatorMeaning.KdjMeans` | python-back/app/modules/indicator_engine/repository.py:852-857 | K and D start from 50 and weigh the stochastics, and the Ks, by a third and their age; J is three times K less twice D |
| `IndicatorMeaning.RsvMeaning` | python-back/app/modules/indicator_engine/repository.py:852-854 | the stochastic places the close in percent between the lowest low and highest high of the last nine bars, a missing or zero price counting as the close; 50 without a range |
| `IndicatorMeaning.RsiMeans` | python-back/app/modules/indicator_engine/repository.py:875-881 | RSI times rises plus falls equals a hundred times the rises of the last bars; 50 when rises and falls are equal |
| `IndicatorMeaning.AtrMeans` | python-back/app/modules/indicator_engine/repository.py:842-844 | the ATR is the mean, over the last fourteen bars, of how far the bar and the close before it reach |
| `IndicatorMeaning.BandsMean` | python-back/app/modules/indicator_engine/repository.py:871-873 | the middle band is the mean of the last twenty closes, and the square of the band width is four times their mean squared distance from it |
| `IndicatorMeaning.MeanTimesCount` | python-back/app/modules/indicator_engine/repository.py:871-878 | a mean times the count is the sum |
| `IndicatorMeaning.RowColumns` | python-back/app/modules/indicator_engine/repository.py:907-916 | the row has exactly these columns, each with its value |
| `LocalFill.EmittedExactly` | python-back/app/modules/indicator_engine/repository.py:859-921 | a row is emitted if and only if its bar is eligible, with the indicators of its own prefix |
| `LocalFill.EmittedInWords` | python-back/app/modules/indicator_engine/repository.py:859-870 | a date gets a row if and only if it is requested, stored and not yet ready with a 14-day RSI; the row holds the indicators of the bars up to it |
| `LocalFill.WindowIndependence` | python-back/app/modules/indicator_engine/repository.py:859-861 | the row of a date is the same for every requested window that contains the date |
| `LocalFill.NoLookAhead` | python-back/app/modules/indicator_engine/repository.py:832-870 | appending later bars only appends rows: no emitted row depends on the future |
| `LocalFill.UpsertEffect` | python-back/app/modules/indicator_engine/repository.py:923-949 | the coalescing upsert keeps every stored number, completes touched rows and leaves the others alone |
| `LocalFill.FillReachesFixpoint` | python-back/app/modules/indicator_engine/repository.py:862-949 | one pass keeps stored numbers, leaves every eligible row ready and complete, every other row unchanged, and a second pass emits nothing |
| `RebaseRecompute.CoreScales` | python-back/app/modules/indicator_engine/repository.py:644-701 | on prices multiplied by s > 0 the loop gives s times EMA, MACD, Bollinger and ATR and leaves KDJ and RSI unchanged |
| `RebaseRecompute.RowScales` | python-back/app/modules/indicator_engine/repository.py:290-336 | the same for every locally computed column: moving averages and rolling extremes scale, returns, distances, drawdowns and volatility do not |
| `RebaseRecompute.QfqRebases` | python-back/app/modules/indicator_engine/repository.py:270-276 | a QFQ price on a new latest factor is the old one times the ratio of the factors, NULLs included |
| `RowMeaning.QfqMeaning` | python-back/app/modules/indicator_engine/repository.py:270-276 | a QFQ price times the latest factor is the raw price times its own factor, and it is missing exactly when one of them is or the latest factor is zero |
| `RowMeaning.PriceColumnsMean` | python-back/app/modules/indicator_engine/repository.py:270-276 | the price columns of a row are the QFQ prices of its own day |
| `RowMeaning.AverageMeans` | python-back/app/modules/indicator_engine/repository.py:290-296 | a moving average is the mean of the closes of the last rows, and missing exactly when none of them has one |
| `RowMeaning.ExtremesMean` | python-back/app/modules/indicator_engine/repository.py:307-314 | the rolling high and low are the largest known high and smallest known low of the last rows, the current one included |
| `RowMeaning.ReturnsMean` | python-back/app/modules/indicator_engine/repository.py:318-328 | the return over n rows grows the close n rows before to the current one, in percent; the previous close is that of the row before |
| `RowMeaning.HighDistanceMeans` | python-back/app/modules/indicator_engine/repository.py:427-433 | the distance from the rolling high leads from it to the close, and the drawdown is that distance in percent |
| `RowMeaning.LowDistanceMeans` | python-back/app/modules/indicator_engine/repository.py:427-429 | the distance from the rolling low leads from it to the close |
| `RowMeaning.VolatilityMeans` | python-back/app/modules/indicator_engine/repository.py:330-336 | the square of the volatility is the mean squared distance of the known one-row returns of the last rows from their mean |
| `RowMeaning.CoreSeriesHolds` | python-back/app/modules/indicator_engine/repository.py:815-818 | the series of the walk has exactly the rows with a close, each with its own date, high and low |
| `RowMeaning.CoreSeriesInOrder` | python-back/app/modules/indicator_engine/repository.py:815-818 | and in order |
| `RowMeaning.SeriesEndsHere` | python-back/app/modules/indicator_engine/repository.py:832-835 | a technical column of a row with a close is computed on the series that ends with that row |
| `RebaseRecompute.RebaseEqualsRecompute` | python-back/app/modules/indicator_engine/repository.py:571-730 | rebasing a stored row with the ratio of the two bases equals recomputing the row on the new basis, for every locally computed column and every series |
| `QfqBasis.DerivedScaleIsRatio` | python-back/app/modules/indicator_engine/repository.py:609-643 | the scale derived from the last stored close is the ratio of the two bases |
| `QfqBasis.RebaseReanchorsExactly` | python-back/app/modules/indicator_engine/repository.py:592-724 | the rebase puts every stored row on the new basis if and only if the factor is unchanged or it moved by more than 1e-12 and the ratio passes the guard of the UPDATE |
| `QfqBasis.RebaseInNumbers` | python-back/app/modules/indicator_engine/repository.py:592-724 | on rows stored as close times factor over one basis the rebase updates rows if and only if the factor moved by more than 1e-12 and basis over factor lies in [0.01, 100] and more than 1e-8 off 1; every earlier row is then close times factor over the factor of the day |
| `QfqBasis.RebaseWithoutFacts` | python-back/app/modules/indicator_engine/repository.py:578-637 | without a factor on the day, an earlier factor or an earlier stored close nothing is updated |
| `QfqBasis.HundredfoldFactorStaysBehind` | python-back/app/modules/indicator_engine/repository.py:721-723 | a factor more than a hundredfold larger is a family the guard shuts out: history stays on the old basis |
| `QfqBasis.RebaseUpdatesExactly` | python-back/app/modules/indicator_engine/repository.py:592-724 | on a table with any one basis and any later rows the rebase of a day updates rows if and only if the factor moved and basis over factor passes the guard; then the earlier rows are on the factor of the day and later rows untouched |
| `QfqBasis.RebaseIsIdempotent` | python-back/app/modules/indicator_engine/repository.py:571-577 | over any table, whatever rows of the day and later have been stored since, running the rebase of the same day again updates no row |
| `QfqBasis.RerunUpdatesNothingExactly` | python-back/app/modules/indicator_engine/repository.py:592-724 | on a table of any one basis a rerun updates no row if and only if the factor of the day did not move or basis over factor fails the guard; it never fires on the basis of its own day |
| `QfqBasis.OldExDateSplitsHistory` | python-back/app/modules/indicator_engine/repository.py:571-730 | a rerun of an older ex-date that fires against a newer basis leaves history on no single basis, whenever a row of that day or later is stored |
| `QfqBasis.OldExDateRerun` | python-back/app/modules/indicator_engine/repository.py:571-730 | such a table: factors 1, 2 and 4 on the basis 4, and the rerun of day 1 rewrites the first row |
| `QfqBasis.RebasedHistoryIsRecomputed` | python-back/app/modules/indicator_engine/repository.py:638-723 | with the scale the rebase derives, every column of every earlier row becomes what a full recompute on the new factor stores |
| `QfqRuns.RunShows` | python-back/app/modules/indicator_engine/repository.py:571-730 | after any sequence of assemblies and rebases, each of any day in any order, every stored close is on the basis that the facts and the events alone give it |
| `QfqRuns.RunEndsOnLatestBasisExactly` | python-back/app/modules/indicator_engine/repository.py:571-730 | from any table on one basis and after any such events the stored closes are on a factor if and only if the bases computed from facts and events are all that factor |
| `QfqRuns.LateRebaseRepairsExactly` | python-back/app/modules/market_data/close_ingest.py:433-447 | a late rebase of day n, with the rows before n on one basis and those from n on another, ends on the later basis if and only if it fires against the earlier one and that later basis is the factor of day n |
| `QfqRuns.StepKeepsApartExactly` | python-back/app/modules/indicator_engine/repository.py:609-723 | two rows on different bases come together in one event if and only if it is the rebase of a day between them that fires and scales the earlier row onto the later one |
| `QfqRuns.JoinsAtExactly` | python-back/app/modules/indicator_engine/repository.py:609-723 | in a run the joining step of two rows on different bases is the one after which they are on the same |
| `QfqRuns.ApartUnlessJoined` | python-back/app/modules/indicator_engine/repository.py:609-723 | two rows on different bases stay on different bases through all events of which none is such a rebase |
| `QfqRuns.MissedExDateIsPermanent` | python-back/app/modules/indicator_engine/repository.py:571-730 | and the stored closes are then on no single basis after all of them |
| `QfqDaily.RunStaysOnLatestBasis` | python-back/app/modules/indicator_engine/repository.py:571-730 | scales telescope: after a bulk load and any daily run whose factor changes reanchor, every stored close is close times its factor over the latest factor |
| `QfqDaily.ColumnsStayOnLatestBasis` | python-back/app/modules/indicator_engine/repository.py:571-730 | over any such run in which some earlier close gives a reference, every locally computed column of every stored row is what a full recompute on the latest factor would store |
| `QfqDaily.UnreferencedRowStaysBehind` | python-back/app/modules/indicator_engine/repository.py:615-623 | the reference is needed: with no valued day before the last one, the stored high of a row with a factor and a high equals its recompute if and only if its factor is still the latest |
| `QfqDaily.MissedExDate` | python-back/app/modules/market_data/close_ingest.py:429-447 | two assembled days whose second rebase did not run: the closes are on no single basis |
| `QfqDaily.LateRepair` | python-back/app/modules/market_data/scheduler_handlers.py:1114-1195 | the rebase of that day in a later close or repair run puts both closes on the latest factor |
| `QfqDaily.PassedOverForGood` | python-back/app/modules/indicator_engine/repository.py:609-723 | factors 1, 2 and 4 with the second day passed over and the third rebased: no events whatever change the bases 2, 4 and 4 of the rows |
| `QfqDaily.PassedOverIsReached` | python-back/app/modules/indicator_engine/repository.py:571-730 | that state is reached from an empty table in four events |
| `QfqDaily.PassedOverStaysApart` | python-back/app/modules/indicator_engine/repository.py:571-730 | so after those four and any further events the stored closes are on no single basis |
| `QfqReassembly.ReassemblyIsNoOpExactly` | python-back/app/modules/indicator_engine/repository.py:451-510 | assembling a stored row again changes no locally computed column if and only if it is stored on the latest factor |
| `QfqReassembly.ReassemblyKeepsOneBasisExactly` | python-back/app/modules/indicator_engine/repository.py:451-510 | the row assembled again is on some one basis if and only if the stored and the latest basis are that one |
| `QfqReassembly.ReassembledColumns` | python-back/app/modules/indicator_engine/repository.py:451-510 | column by column: stored prices and averages are kept and missing ones filled in; extremes, returns, distances, drawdowns and volatilities are replaced |
| `MinuteFactors.MinuteFactorRows` | python-back/app/modules/indicator_engine/service.py:65-120 | the loop with running totals, running extremes and the growing price list emits exactly the rows defined on prefixes, skipping unpriced bars |
| `MinuteMeaning.PricesAre` | python-back/app/modules/indicator_engine/service.py:86-97 | the price list holds the prices of the priced bars, in order |
| `MinuteMeaning.PriceFiguresMean` | python-back/app/modules/indicator_engine/service.py:107-112 | the returns grow the price one, five and fifteen priced bars before to the current one, in percent, and the averages times their count are the sums of the last five, ten and twenty prices |
| `MinuteMeaning.VwapMeans` | python-back/app/modules/indicator_engine/service.py:91-106 | the VWAP times a hundred times the lots traded at a price is their turnover; missing exactly without such lots |
| `MinuteMeaning.PositionMeans` | python-back/app/modules/indicator_engine/service.py:95-117 | the position is taken between the lowest and the highest price so far |
| `MinuteMeaning.PositionMeaning` | python-back/app/modules/indicator_engine/service.py:114-117 | position times the range is the distance of the price from the low; missing exactly without a range |
| `MinuteMeaning.VolumeRatioMeans` | python-back/app/modules/indicator_engine/service.py:98-113 | the volume ratio is the volume over the mean volume of the twenty bars before |
| `MinuteMeaning.VolumeRatioMissing` | python-back/app/modules/indicator_engine/service.py:98-113 | it is missing without twenty bars before or when one of them did not trade |
| `MinuteFactors.LoopEqualsWindows` | python-back/app/modules/indicator_engine/repository.py:1082-1207 | on every series without missing prices each loop row equals the SQL window row in all nine figures |
| `MinuteGaps.ReturnAgreesExactly` | python-back/app/modules/indicator_engine/repository.py:1195-1197 | a return of a priced bar agrees if and only if the price so many priced bars back and the price so many rows back are both missing or equal |
| `MinuteGaps.OneMinuteAgreesExactly` | python-back/app/modules/indicator_engine/repository.py:1133-1136 | the one-minute return of a priced bar agrees if and only if the bar is the first, the bar before it is priced, or nothing earlier is |
| `MinuteGaps.MissingPriceParts` | python-back/app/modules/indicator_engine/service.py:122-126 | after a gap between priced bars the loop has a one-minute return and the window has none |
| `MinuteGaps.VwapAgreesExactly` | python-back/app/modules/indicator_engine/repository.py:1100-1117 | the VWAP agrees if and only if no unpriced bar was traded so far, or the priced ones were and at the same average price |
| `MinuteGaps.NoGapRowAgrees` | python-back/app/modules/indicator_engine/repository.py:1093-1207 | without a gap before it a priced bar agrees in all nine figures once the VWAP condition holds |
| `MinuteGaps.SameRowsExactly` | python-back/app/modules/indicator_engine/repository.py:1093-1208 | for positive prices the two forms store the same rows if and only if there is no gap between priced bars and the VWAP condition holds on every priced bar |
| `MinuteGaps.SameRowsWhenQuiet` | python-back/app/modules/indicator_engine/repository.py:1093-1208 | in particular on a day without a gap on which no unpriced bar was traded |
| `MinuteFactors.PositionInUnitInterval` | python-back/app/modules/indicator_engine/service.py:114-117 | the intraday position ratio, where defined, lies in [0,1] |
| `MinuteFactors.VwapBetweenBarPrices` | python-back/app/modules/indicator_engine/service.py:88-106 | the VWAP lies between any bounds on the per-bar prices amount / (100 x volume) |
| `InflowRuns.ContinuousPositive` | python-back/app/modules/indicator_engine/factor_calculators.py:121-129 | the backwards loop returns the length of the maximal run of positive days at the end |
| `InflowRuns.SectorEqualsTrailingRun` | python-back/app/modules/indicator_engine/repository.py:1542-1580 | the sector window count equals the Python count of the prefix on every day |
| `InflowRuns.StockEqualsTrailingRunExactly` | python-back/app/modules/indicator_engine/repository.py:337-353 | the stock window count is never below the trailing run and equals it if and only if the day is the last loaded one or is followed by a non-positive day |
| `InflowRuns.BackfilledDayCountsTheFuture` | python-back/app/modules/indicator_engine/repository.py:351-352 | two positive days: the first is stored as 2 |
| `Percentiles.PercentileMap` | python-back/app/modules/indicator_engine/factor_calculators.py:135-139 | the map has exactly the values as keys and the share at or below each as figures |
| `Percentiles.PercentileMeaning` | python-back/app/modules/indicator_engine/factor_calculators.py:135-145 | the figures do not depend on the order of the values, lie in (0,100], never fall as the value rises, and reach 100 at the largest |
| `Percentiles.PercentileCounts` | python-back/app/modules/indicator_engine/factor_calculators.py:135-139 | the figure of a value times the number of values is a hundred times the number at or below it |
| `Percentiles.CumeDistEqualsMapExactly` | python-back/app/modules/indicator_engine/repository.py:1662-1664 | for a known value cume_dist never exceeds the Python percentile and equals it if and only if the partition holds no NULL |
| `Percentiles.OrderedIs` | python-back/app/modules/indicator_engine/repository.py:1662-1664 | the window order is ascending, equal values allowed, with the NULLs last |
| `Percentiles.NullRanksLast` | python-back/app/modules/indicator_engine/repository.py:1009-1014 | the unfiltered stock query gives every NULL row the figure 100 |
| `MinutePipeline.StepKeepsPlaces` | python-back/app/modules/market_data/close_ingest.py:1687-1787 | a step never changes how often a code occurs over fetch queue, hands, write queue, open batch and flushed batches |
| `MinutePipeline.StepInv` | python-back/app/modules/market_data/close_ingest.py:1687-1787 | every step of every worker and of the writer keeps the pipeline invariant: queue bound, sentinels against finished workers, batch sizes, conservation |
| `MinutePipeline.WriterExit` | python-back/app/modules/market_data/close_ingest.py:1767-1787 | when the writer exits, all queues and hands are empty and the flushed batches hold the needed codes exactly, with multiplicity |
| `MinutePipeline.NoDeadlock` | python-back/app/modules/market_data/close_ingest.py:1688-1728 | until the writer exits some step is enabled: the writer itself when it has to flush or when the bounded queue holds anything, and otherwise a step of an unfinished worker, whatever it is doing |
| `MinutePipeline.StepDecreases` | python-back/app/modules/market_data/close_ingest.py:1698-1787 | every step lowers one measure |
| `MinutePipeline.EveryInterleaving` | python-back/app/modules/market_data/close_ingest.py:1687-1793 | in every interleaving no code is lost or duplicated, and no run has more than 9 times the needed codes plus one steps |
| `MinutePipeline.StuckMeansComplete` | python-back/app/modules/market_data/close_ingest.py:1687-1793 | a run that can take no further step has flushed every needed code exactly once in batches of the right size |
| `MinutePipeline.PipelineInNumbers` | python-back/app/modules/market_data/close_ingest.py:1687-1793 | in every run the write queue holds at most twice the worker limit and a put waits exactly at that; a stuck run has flushed the needed codes in batches of exactly the batch size but the last, which is not empty |
| `MinutePipeline.PoolSize` | python-back/app/modules/market_data/close_ingest.py:1693-1693 | the pool is the smaller of the worker limit and the needed codes |
| `MinuteAnswers.RowsAreAnswers` | python-back/app/modules/market_data/close_ingest.py:1773-1782 | the rows upserted for a list of items are the answered rows, joined in order |
| `MinuteAnswers.EveryRowIsUpserted` | python-back/app/modules/market_data/close_ingest.py:1778-1780 | no row of any answer is dropped |
| `MinuteAnswers.FetchedExactly` | python-back/app/modules/market_data/close_ingest.py:1778-1780 | a stock counts as fetched if and only if some item of it answered with a row |
| `MinuteAnswers.FailedAreTheOthers` | python-back/app/modules/market_data/close_ingest.py:1775-1782 | the failed count is the number of items with an error or an empty answer |
| `MinuteAnswers.StepKeepsItems` | python-back/app/modules/market_data/close_ingest.py:1699-1787 | a step keeps every item, code and answer, over hands, queue, batch and flushed batches; only an answer adds one |
| `MinuteAnswers.EveryAnswerIsFlushed` | python-back/app/modules/market_data/close_ingest.py:1687-1787 | when the writer has exited the flushed items are the answers of the run, for exactly the needed codes, with their rows, fetched stocks and failures |
| `MinuteAnswers.TableHoldsEveryAnswer` | python-back/app/modules/market_data/close_ingest.py:1687-1787 | the minute table of a run that has ended holds every row of every answer, as often as it was given |
| `MinuteSync.MinuteWriter.Add` | python-back/app/modules/market_data/close_ingest.py:1773-1782 | the accumulators describe the open batch plus the item, in all three outcomes |
| `MinuteSync.MinuteWriter.RecordBatch` | python-back/app/modules/market_data/close_ingest.py:1742-1754 | the record appended is the one of the open batch, and the table gains exactly its rows |
| `MinuteSync.MinuteWriter.Flush` | python-back/app/modules/market_data/close_ingest.py:1738-1765 | an empty batch changes nothing; otherwise the batch joins the flushed ones and the accumulators are cleared |
| `MinuteSync.Sync.constructor` | python-back/app/modules/market_data/close_ingest.py:1687-1693 | the queues and workers start as the initial state of the step machine |
| `MinuteSync.Sync.TakeCode` | python-back/app/modules/market_data/close_ingest.py:1699-1703 | the head of the fetch queue is marked attempted and in the hand of the worker; an empty queue makes the worker close; refines the take step |
| `MinuteSync.Sync.ProvideBars` | python-back/app/modules/market_data/close_ingest.py:1704-1721 | rows, no rows and an exception each make the message of the code; refines the produce step |
| `MinuteSync.Sync.PutMessage` | python-back/app/modules/market_data/close_ingest.py:1713-1728 | the message joins the bounded queue and the worker moves on or finishes |
| `MinuteSync.Sync.CloseProvider` | python-back/app/modules/market_data/close_ingest.py:1724-1728 | a closing worker sends its one sentinel |
| `MinuteSync.Sync.ReceiveMessage` | python-back/app/modules/market_data/close_ingest.py:1767-1786 | a sentinel is counted, an item joins the batch, a full batch is flushed next |
| `MinuteSync.Sync.FlushBatch` | python-back/app/modules/market_data/close_ingest.py:1783-1787 | the flush inside the loop and the one after it move as the machine step |
| `MinuteSync.FetchedAndFailed` | python-back/app/modules/market_data/close_ingest.py:1746-1754 | within a batch of distinct codes fetched plus failed stocks equal the targets |
| `MinuteSync.RecordsAccountForRun` | python-back/app/modules/market_data/close_ingest.py:1746-1754 | when the writer has exited, recorded targets add up to the needed codes and recorded rows to the rows upserted |
| `HistoryBackfill.StepAccounted` | python-back/app/modules/market_data/history_backfill.py:491-661 | at every step completed + skipped + failed equal the handled stocks plus one per failed flush, filtered rows equal upserted + buffered + discarded, and a worker flushes exactly when it has reached one of the two thresholds |
| `HistoryBackfill.RunAccounting` | python-back/app/modules/market_data/history_backfill.py:470-684 | the accounting at every point of every run, and in closed form when all workers are done |
| `HistoryBackfill.StepOwning` | python-back/app/modules/market_data/history_backfill.py:497-661 | queue and workers own disjoint stocks, no buffered row is persisted yet, the dates a worker read stay true, and no persisted row is changed |
| `HistoryBackfill.RunOnlyAdds` | python-back/app/modules/market_data/history_backfill.py:578-579 | whatever fails and wherever the run is cut off, persisted rows only accumulate |
| `BackfillCounters.StartOfRun` | python-back/app/modules/market_data/history_backfill.py:465-482 | a run starts with the smaller of the workers asked for and the stocks, all ready, and with nothing counted |
| `BackfillCounters.DistinctExactly` | python-back/app/modules/market_data/history_backfill.py:465-482 | the stocks of a run are distinct if and only if there are as many codes as entries |
| `BackfillCounters.FlushesWhenDue` | python-back/app/modules/market_data/history_backfill.py:580-602 | at every point of every run a working worker flushes next if and only if it has answered the batch number of stocks since its last flush or failure, or buffers the maximum number of rows |
| `BackfillCounters.RunCounters` | python-back/app/modules/market_data/history_backfill.py:504-656 | in every run the completed stocks are the answers, the skipped ones those with every date persisted, and the failed ones the failed reads, requests and flushes |
| `BackfillCounters.RunBuffers` | python-back/app/modules/market_data/history_backfill.py:578-647 | a worker buffers exactly the missing rows answered since its last flush or failure: a failed read, fetch or flush loses all of them, rows of earlier stocks included |
| `BackfillCounters.TableHoldsFlushedRows` | python-back/app/modules/market_data/history_backfill.py:597-664 | after any run the table is the old one with the rows of the successful flushes upserted in order, and the upserted count is their number |
| `HistoryRun.FilterRows` | python-back/app/modules/market_data/history_backfill.py:578-579 | the comprehension keeps exactly the rows of missing dates, in order |
| `HistoryRun.Run.constructor` | python-back/app/modules/market_data/history_backfill.py:465-482 | the run starts as the initial state of the step machine |
| `HistoryRun.Run.TakeStock` | python-back/app/modules/market_data/history_backfill.py:491-513 | the head of the queue is skipped when its dates cover the calendar, failed when they cannot be read, else held with its dates; an empty queue drains the worker |
| `HistoryRun.Run.DeliverResponse` | python-back/app/modules/market_data/history_backfill.py:578-602 | the rows of missing dates join the buffer, the stock is counted, and the worker flushes next if and only if it reached one of the two thresholds |
| `HistoryRun.Run.UpsertBuffer` | python-back/app/modules/market_data/history_backfill.py:603-604 | the flush persists the buffered rows in order and counts them |
| `HistoryRun.Run.FlushBuffer` | python-back/app/modules/market_data/history_backfill.py:599-646 | a flush persists and clears the buffer, or fails, discards it and counts its last stock as failed too |
| `HistoryRun.Run.Rollback` | python-back/app/modules/market_data/history_backfill.py:617-647 | the exception branch discards the whole buffer, rows of earlier stocks included |
| `HistoryRun.Run.FailStock` | python-back/app/modules/market_data/history_backfill.py:617-656 | a failing fetch counts the stock as failed and discards the buffer with the rows of earlier stocks |
| `HistoryRun.Run.FinishWorker` | python-back/app/modules/market_data/history_backfill.py:659-661 | the rest of the buffer is persisted after the queue is drained |
| `BackfillConvergence.CleanRunIsDetermined` | python-back/app/modules/market_data/history_backfill.py:497-661 | a failure-free run ends with the old rows and exactly the provider rows of every stock it fetches |
| `BackfillConvergence.SchedulesAgree` | python-back/app/modules/market_data/history_backfill.py:480-664 | two failure-free runs persist the same table whatever their schedules, worker counts and thresholds |
| `BackfillConvergence.RunsOnlyAdd` | python-back/app/modules/market_data/history_backfill.py:497-661 | any number of runs with arbitrary failures only adds rows |
| `BackfillConvergence.CoveredTableIsFixed` | python-back/app/modules/market_data/history_backfill.py:504-513 | a failure-free run over a covering table persists nothing |
| `BackfillConvergence.ResumeConverges` | python-back/app/modules/market_data/history_backfill.py:497-661 | after any history of failing runs one failure-free run covers every stock it fetches, keeps every row ever persisted, and a further one changes nothing |
| `BackfillProgress.EveryRunEnds` | python-back/app/modules/market_data/history_backfill.py:491-661 | every schedule, failing or not, is bounded by the measure of its start, and one that cannot go on has all workers done |
| `BackfillProgress.CleanRunExists` | python-back/app/modules/market_data/history_backfill.py:491-661 | from every state in which the provider answers for the open stocks, a failure-free run to the end exists |
| `BackfillProgress.FlushCarriesNewest` | python-back/app/modules/market_data/history_backfill.py:603-604 | after a flush every buffered key carries its newest buffered fact, whatever was persisted |
| `BackfillProgress.FullReload` | python-back/app/modules/market_data/history_backfill.py:497-513 | without only_missing a run from the start fetches a stock whatever is persisted and upserts the whole response |
| `BackfillProgress.FullReloadRewrites` | python-back/app/modules/market_data/history_backfill.py:503-604 | so each date ends with the newest fact of the response: persisted rows are rewritten |
| `BackfillProgress.FailedFlushCountsTwice` | python-back/app/modules/market_data/history_backfill.py:586-646 | a complete run, for every stock and response, in which a failing flush counts one stock as completed and as failed |
| `RedisLease.StepInv` | python-back/app/core/redis_client.py:226-273 | every atomic operation, lost reply and clock tick keeps each unexpired claim backed by the key |
| `RedisLease.Exclusion` | python-back/app/core/redis_client.py:226-273 | in every interleaving of SET NX, GET, compare-and-expire, release and expiry at most one owner holds an unexpired claim |
| `RedisLease.GrantedExactly` | python-back/app/core/redis_client.py:236-252 | only a True makes a claim, and it lasts the requested seconds, at least one |
| `RedisLease.LateOwnerIsHarmless` | python-back/app/core/redis_client.py:243-251 | an owner that lost its lease neither extends nor deletes nor replaces the lease of its successor |
| `RedisLease.HeldUntilExpiry` | python-back/app/core/redis_client.py:226-273 | from a True until expiry or an operation of the owner itself no other acquire returns True and the key is unchanged |
| `RedisLease.HeldWhileRenewed` | python-back/app/core/redis_client.py:236-252 | while the owner renews, fails or retries, does not release and the key does not lapse, every other acquire is refused |
| `RedisLease.RefusedForItsSecondsExactly` | python-back/app/core/redis_client.py:236-242 | a lease set for some seconds refuses every other owner for exactly those, at least one, and is then granted for the seconds asked for |
| `RedisLease.ReleaseFreesExactly` | python-back/app/core/redis_client.py:264-273 | a release frees the lease for any owner if and only if the holder released it; otherwise the key stays |
| `RedisLease.RenewalSucceeds` | python-back/app/core/redis_client.py:236-252 | a holder whose replies arrive gets a True whatever others do between its three operations, as long as the lease is live at the last one, and then has its full time again |
| `RedisLease.RefusalEnds` | python-back/app/core/redis_client.py:236-255 | an owner that finds the lease of another, or cannot reach the server, gives up with a False and leaves the key |
| `RedisLease.GrantsOtherExactly` | python-back/app/core/redis_client.py:226-252 | the runs above grant another owner if and only if some step of them makes its acquire return True |
| `MemoryStore.Store.Get` | python-back/app/core/redis_client.py:426-434 | a live value is returned, an expired one is evicted |
| `MemoryStore.Store.Set` | python-back/app/core/redis_client.py:436-437 | the value is stored for at least one second |
| `MemoryStore.FoundForItsSeconds` | python-back/app/core/redis_client.py:426-437 | a stored value is found for exactly its seconds, at least one, and other keys are unaffected |
| `MemoryStore.Store.Ttl` | python-back/app/core/redis_client.py:439-448 | the whole seconds that remain; a value with less than one second left is evicted although it is live |
| `MemoryStore.Store.AcquireLease` | python-back/app/core/redis_client.py:229-234 | refused exactly when a live dictionary names another owner; granted otherwise |
| `MemoryStore.Store.ReleaseLease` | python-back/app/core/redis_client.py:258-262 | only the lease of the owner itself is removed |
| `MemoryLease.GrantedExactly` | python-back/app/core/redis_client.py:229-234 | only a True makes a claim, and it lasts the requested seconds, at least one |
| `MemoryLease.StepInv` | python-back/app/core/redis_client.py:229-262 | acquire, release, probe and clock keep every firm claim backed by the store |
| `MemoryLease.Exclusion` | python-back/app/core/redis_client.py:229-262 | firm claims never coexist: up to expiry without probes, up to the last second with them |
| `MemoryLease.HeldWhileFirm` | python-back/app/core/redis_client.py:229-262 | while a claim is firm and its owner does nothing no other acquire returns True |
| `MemoryLease.RefusedForItsSecondsExactly` | python-back/app/core/redis_client.py:229-234 | a lease taken for some seconds refuses every other owner for exactly those, at least one, and never its own |
| `MemoryLease.ReleaseFreesExactly` | python-back/app/core/redis_client.py:258-262 | another owner gets the lease after a release if and only if the holder released it, and whenever nobody holds it |
| `MemoryLease.GrantsOtherExactly` | python-back/app/core/redis_client.py:229-234 | the runs above grant another owner if and only if some step of them does |
| `MemoryLease.ProbeLetsOtherIn` | python-back/app/core/redis_client.py:443-448 | a probe lets a second owner in beside an unexpired claim if and only if less than a second of it remains |
| `MemoryLease.FinalSecondIsReached` | python-back/app/modules/data_assets/service.py:644-646 | a run that reaches such a state |
| `SnapshotCache.KeysDistinct` | python-back/app/modules/data_assets/service.py:624-638 | no two snapshots share a key and no snapshot uses one key twice |
| `SnapshotCache.KeyNames` | python-back/app/modules/data_assets/service.py:624-638 | the names of the four keys of a snapshot, below the configured prefix |
| `SnapshotCache.UsedKeys` | python-back/app/modules/data_assets/service.py:648-652 | the keys in use, for every number of days, are ones the builders keep apart |
| `SnapshotCache.MetaFields` | python-back/app/modules/data_assets/service.py:506-543 | a success names its times; a failure keeps every field of the meta it found but status, time and error, and starts with the key alone when there was none |
| `SnapshotCache.RunAgrees` | python-back/app/modules/data_assets/service.py:506-549 | in every run the four keys of every snapshot agree with one cell holding the latest success |
| `SnapshotCache.ReadIsLatestSuccess` | python-back/app/modules/data_assets/service.py:557-622 | a cached read returns the most recent success until its last-good retention runs out and nothing afterwards; a live fresh payload equals it; `has_last_good` is true if and only if a read would hit |
| `SnapshotCache.KeptForTwoDays` | python-back/app/modules/data_assets/service.py:506-564 | from the latest success of a snapshot on, whatever fails or expires in between, a read returns its payload for 172800 seconds or three times its ttl, whichever is longer, and nothing later; the fresh copy goes with its ttl |
| `SnapshotCache.NothingBeforeSuccess` | python-back/app/modules/data_assets/service.py:551-622 | before the first success a read returns nothing |
| `SnapshotCache.FailureKeepsPayloads` | python-back/app/modules/data_assets/service.py:530-549 | a failed refresh changes no payload, fresh or last good, of any snapshot, and no key of another snapshot |
| `SnapshotCache.FailureAndLastGoodMeta` | python-back/app/modules/data_assets/service.py:536-549 | one failure changes the last-good meta exactly when that is present, differs and is the object updated; `SnapshotFollows` says of the objects when it is |
| `SnapshotSharing.LastGoodMetaDamagedExactly` | python-back/app/modules/data_assets/service.py:530-549 | over every run in process memory a stored last-good meta is not the one of the latest success if and only if the first failure after that success came before its meta expired; the last-good payload is intact either way; `SnapshotFollows.StoredMetaDamagedExactly` carries this to the objects |
| `SnapshotSharing.RunMatches` | python-back/app/modules/data_assets/service.py:506-549 | over every run in process memory the history says that the meta is shared from a success until a failure finds it expired, and the two stored metas agree with that story; the objects follow the history by the `SnapshotFollows` methods |
| `SnapshotSharing.DamagedWithinTheTtl` | python-back/app/modules/data_assets/service.py:530-549 | with step i the latest success and step f the first failure after it, the stored last-good meta reports a failure if and only if the failure read within the ttl of that success, or within a second |
| `SnapshotSharing.IntactWithoutFailure` | python-back/app/modules/data_assets/service.py:506-528 | without a failure since, the stored last-good meta is that of the latest success |
| `SnapshotSharing.DamageIsReached` | python-back/app/modules/data_assets/service.py:506-549 | such a run, for every snapshot, payload and meta |
| `SnapshotCache.ProbeIsInvisible` | python-back/app/modules/data_assets/service.py:583-583 | the eviction by the status page never changes what a read returns |
| `SnapshotCache.SplitRead` | python-back/app/modules/data_assets/service.py:557-564 | a read whose two lookups see different instants returns the latest success of one of them |
| `SnapshotMemory.Snapshots.WriteSuccess` | python-back/app/modules/data_assets/service.py:506-528 | the four writes in process memory, with one new meta object under two keys and nothing else touched |
| `SnapshotMemory.Snapshots.UpdateMeta` | python-back/app/modules/data_assets/service.py:536-549 | a live meta is updated in place; the last-good key sees it exactly when it holds the same object |
| `SnapshotMemory.Snapshots.WriteFailed` | python-back/app/modules/data_assets/service.py:530-549 | the failure path equals the Redis one except under the last-good meta key, and there exactly when the live meta is shared; afterwards the keys share one object if and only if they did and it was live |
| `SnapshotMemory.FailedAfterSuccess` | python-back/app/modules/data_assets/service.py:506-549 | a success and then a failure while the meta is live: the last-good payload is that of the success and its meta reports the failure |
| `SnapshotMemory.Snapshots.ReadCachedPayload` | python-back/app/modules/data_assets/service.py:551-564 | the fresh payload, or else the last good one, evicting what expired |
| `SnapshotMemory.Snapshots.Ttl` | python-back/app/core/redis_client.py:439-448 | the whole seconds that remain; a value with less than one left is evicted and nothing else is touched |
| `SnapshotFollows.Started` | python-back/app/core/redis_client.py:426-434 | an empty cache follows the empty run |
| `SnapshotFollows.FollowSuccess` | python-back/app/modules/data_assets/service.py:506-528 | a success keeps the cache with its run: the view is that of the run, and the meta keys of every snapshot hold one object if and only if the run says shared and both are there |
| `SnapshotFollows.FollowFailure` | python-back/app/modules/data_assets/service.py:530-549 | so does a failure, with the sharing read off the history: the flag of the step is no free choice |
| `SnapshotFollows.FollowGet` | python-back/app/core/redis_client.py:426-434 | so does a read, which may evict its key |
| `SnapshotFollows.FollowTtl` | python-back/app/core/redis_client.py:439-448 | so does the question for the remaining seconds |
| `SnapshotFollows.FollowRead` | python-back/app/modules/data_assets/service.py:551-564 | the cached read of a cache that follows a run returns the payload of the latest success, and returns one if and only if that is still retained at its last lookup |
| `SnapshotFollows.FlagsAgree` | python-back/app/modules/data_assets/service.py:536-549 | whether the sharing is taken from the objects or from the history, a failure changes the same items |
| `SnapshotFollows.OthersShare` | python-back/app/modules/data_assets/service.py:506-549 | an operation that stays within the keys of its snapshot leaves the sharing of every other snapshot |
| `SnapshotFollows.StoredMetaDamagedExactly` | python-back/app/modules/data_assets/service.py:530-549 | in a cache that follows a run the live last-good meta object reports a failure if and only if the first failure after the latest success found its meta live, and the two keys hold one object only before that failure or when it did |
| `CoverageGaps.BatchCoverages` | python-back/app/modules/data_assets/repository.py:209-242 | every asset on every date, missing figures counting as zero |
| `CoverageGaps.MissingFigures` | python-back/app/modules/data_assets/repository.py:213-216 | figures that exist are taken over and missing ones count as zero |
| `CoverageGaps.NothingExpected` | python-back/app/modules/data_assets/repository.py:214-221 | without a universe nothing is expected, exempt or missing |
| `CoverageGaps.CoverTotals` | python-back/app/modules/data_assets/repository.py:216-221 | the clipping chain collapses to one cut: exempt takes what is explained, missing the rest |
| `CoverageGaps.CountsAddUp` | python-back/app/modules/data_assets/repository.py:214-221 | actual + exempt + missing equal the expected count if and only if the table has no more stocks than the universe |
| `CoverageGaps.GapCount` | python-back/app/modules/data_assets/repository.py:405-410 | counted gaps never exceed the uncovered stocks and equal them if and only if one of table and universe contains the other |
| `CoverageGaps.MissingCount` | python-back/app/modules/data_assets/repository.py:221-221 | the counted missing is the number of stocks the report labels missing_data less the masking ones, and equal if and only if nothing masks or nothing is missing |
| `CoverageGaps.BreakdownMatchesLabels` | python-back/app/modules/data_assets/repository.py:222-228 | when nothing masks every breakdown entry is the number of stocks with that label |
| `CoverageGaps.RowsAreGaps` | python-back/app/modules/data_assets/repository.py:323-355 | the unlimited report has one row per uncovered stock and one missing_data row per unexplained one |
| `CoverageGaps.CountedGaps` | python-back/app/modules/data_assets/repository.py:410-410 | the counted gaps are the uncovered stocks less the foreign stocks of the table, down to none |
| `CoverageGaps.TruncationFlag` | python-back/app/modules/data_assets/repository.py:409-422 | the flag is raised only when the limit cut rows; it misses a cut if and only if the table holds at least as many foreign stocks as rows were cut; with the table inside the universe it is exact |
| `CoverageGaps.MissedCut` | python-back/app/modules/data_assets/repository.py:409-422 | a day on which a cut is missed |
| `CoverageGaps.MissingRowsShown` | python-back/app/modules/data_assets/repository.py:356-383 | a limited report shows as many missing_data rows as fit: they come first |
| `CoverageGaps.LabelsAreSets` | python-back/app/modules/data_assets/repository.py:323-355 | a gap is suspended with a suspension event, without a market record when it has neither that nor a record, and otherwise missing |
| `CoverageGaps.FiguresAreSets` | python-back/app/modules/data_assets/repository.py:214-228 | suspended stocks of the universe explain the raw gap first, stocks without a record what is left, and the rest is missing |
| `FactorWindows.Chunks` | python-back/app/modules/market_data/close_ingest.py:1814-1816 | slices of a list: nothing lost, repeated or reordered, all full but the last, none empty |
| `FactorWindows.ChunksAreDetermined` | python-back/app/modules/indicator_engine/backfill.py:159-162 | list and size determine the windows |
| `FactorWindows.CountWindow` | python-back/app/modules/indicator_engine/backfill.py:268-291 | the loop over an assembled window: each date is skipped exactly when no key of it is missing, else processed with its written rows |
| `FactorWindows.SharesCount` | python-back/app/modules/indicator_engine/backfill.py:268-291 | an assembled window processes as many dates as have a bar that is not ready and skips the others |
| `FactorWindows.ResultIsTotals` | python-back/app/modules/indicator_engine/backfill.py:163-326 | processed, skipped and failed dates and written rows of a run are the totals of its windows, date by date |
| `FactorWindows.BackfillDaily` | python-back/app/modules/indicator_engine/backfill.py:163-326 | a run that returns has processed + skipped + failed equal to the trade dates; it raises exactly under fail_fast with a failed window |
| `SectorWindows.RunWindow` | python-back/app/modules/indicator_engine/backfill.py:401-439 | one attempt, and a second one if and only if the first lost its connection |
| `SectorWindows.StepCounted` | python-back/app/modules/indicator_engine/backfill.py:391-529 | in every interleaving processed + failed + open dates equal the trade dates plus those counted twice |
| `SectorWindows.RunAccounting` | python-back/app/modules/indicator_engine/backfill.py:385-535 | a run that ends normally counts every date and window exactly once if and only if no success report raised; each one that raised counts its window once more; the row total is that of the committed attempts |
| `SectorWindows.RaisingReportCountsTwice` | python-back/app/modules/indicator_engine/backfill.py:444-517 | a complete run, for every window, in which a raising success report counts its window as processed and as failed |
| `SectorWindows.CountersTellOutcomes` | python-back/app/modules/indicator_engine/backfill.py:401-527 | at the end of any run the processed dates are those of the windows whose final attempt committed, the failed ones those of the others and of windows whose success report raised |
| `SectorWindows.DatesOfWindows` | python-back/app/modules/indicator_engine/backfill.py:352-355 | the windows hold exactly the trade dates |
| `SectorWindows.EveryRunEnds` | python-back/app/modules/indicator_engine/backfill.py:391-529 | no run is longer than its measure; one that cannot go on has every worker stopped or dead, and one died if and only if a failure was fatal: fail_fast, or a raising failure report |
| `SectorWindows.EndAccounting` | python-back/app/modules/indicator_engine/backfill.py:385-535 | so every run has an end, and there counted and left windows, dates and rows add up; windows are left only when every worker died |
| `SectorWindows.Run.constructor` | python-back/app/modules/indicator_engine/backfill.py:385-389 | the run starts as the initial state of the step machine |
| `SectorWindows.Run.TakeWindow` | python-back/app/modules/indicator_engine/backfill.py:393-397 | the head of the queue goes into the hand of the worker; an empty queue stops it |
| `SectorWindows.Run.ComputeWindow` | python-back/app/modules/indicator_engine/backfill.py:400-439 | the window succeeds or raises as its final attempt does |
| `SectorWindows.Run.RecordSuccess` | python-back/app/modules/indicator_engine/backfill.py:444-476 | the counters move under the lock; a raising report drops into the failure branch of the same window |
| `SectorWindows.Run.RecordFailure` | python-back/app/modules/indicator_engine/backfill.py:492-527 | the counters move and the worker goes on, or dies on fail_fast or a raising report |
| `TargetBackfill.StepAccounted` | python-back/app/modules/market_data/entity_history_backfill.py:136-223 | in every interleaving each target is queued, in hand or settled as often as it was asked for, and the counters count the settled ones |
| `TargetBackfill.StepMeant` | python-back/app/modules/market_data/entity_history_backfill.py:319-436 | a completed target has the provider dates in every table, a skipped one every trade date in every table, a target in hand those of the tables committed so far; no persisted key is lost |
| `TargetBackfill.FailedAreFails` | python-back/app/modules/market_data/history_backfill.py:367-378 | the failed targets of a run are its failing steps |
| `TargetBackfill.SkippedExactly` | python-back/app/modules/market_data/entity_history_backfill.py:326-346 | a target is skipped if and only if the rule is on and every table has every trade date of it |
| `TargetBackfill.LastTableCompletes` | python-back/app/modules/market_data/market_north_flow_backfill.py:146-174 | a commit stores every provider date of its table, and counts the target if and only if it was the last table |
| `TargetBackfill.RunAccounting` | python-back/app/modules/market_data/entity_history_backfill.py:314-436 | a run that ends with every worker done settles every target exactly once: completed + skipped + failed equal the targets |
| `TargetBackfill.EveryRunEnds` | python-back/app/modules/market_data/entity_history_backfill.py:314-436 | no run is longer than its measure; one that cannot go on has every worker done or dead, and one died if and only if a target failed under fail_fast |
| `TargetBackfill.EndAccounting` | python-back/app/modules/market_data/entity_history_backfill.py:314-436 | so every run has an end, and there completed + skipped + failed and the targets left add up to the targets; targets are left only when fail_fast ended every worker |
| `TargetBackfill.Run.constructor` | python-back/app/modules/market_data/history_backfill.py:262-264 | the run starts as the initial state of the step machine |
| `TargetBackfill.Run.TakeTarget` | python-back/app/modules/market_data/entity_history_backfill.py:326-346 | the head of the queue is skipped when every table has all its trade dates, else fetched from the first table; an empty queue ends the worker |
| `TargetBackfill.Run.CommitRows` | python-back/app/modules/market_data/market_north_flow_backfill.py:146-174 | the rows of one table are committed, and the last table counts the target as completed |
| `TargetBackfill.Run.FailTarget` | python-back/app/modules/market_data/history_backfill.py:367-378 | the target is counted as failed; the worker goes on, or dies under fail_fast |

## Left out

- FastAPI routes, schemas, logging, progress text, configuration centre, encryption, chat and the web front end.
- Provider adapters and HTTP: a call is an arbitrary answer or an exception.
- Floating-point rounding, NaN and infinity.
- SQL parsing and the database: an upsert is a keyed map update, a window a function over a sequence.
- Columns of the rebase that the platform only stores and does not compute (bbi, mtm, asi, dpo, emv, expma, keltner, taq, xsii and their companions), and the source and quality-flag texts.
- The fallback loop over stocks: it repeats the loop over one series, which is modelled, for every stock.
- QfqRuns.RunEndsOnLatestBasisExactly: assumes positive closes and factors, and one factor per stock and date that does not change during the run; competing factor sources and corrected factors are not modelled.
- QfqReassembly.ReassemblyIsNoOpExactly: for a row with a close and one rolling high that are not zero, which tell the bases apart.
- MinuteGaps.SameRowsExactly: assumes positive prices.
- BackfillConvergence.ResumeConverges: stock codes are distinct and a response carries rows of the requested stock only.
- Abort after an exception outside the per-stock handler: a failing final flush, fail_fast and cancellation end a history run at some prefix of a schedule, about which only the invariants are claimed.
- The minute writer when a database write raises, and a provider whose close raises: the run is cancelled, with no further obligation.
- The list caps of the results (50 errors, 30 errors, the last 20 batches) and the final summary counters of `_sync_intraday`.
- Fallback from Redis to process memory inside one operation and a change of backend during a run.
- The cache switched off, the configured key prefix, and the status texts; `refresh_cache` itself, which calls the modelled lease and writers in sequence.
- SnapshotCache.ReadIsLatestSuccess: the lookups of one status item see one instant; only the two lookups of a read are also split (`SnapshotCache.SplitRead`).
- TargetBackfill.RunAccounting: a provider gives the same dates for a target and table throughout a run; row values, warnings, the mapping of provider records and the audit rows are not modelled.
- Coverage of minute tables, whose actual count is an estimate from row counts, and the percentages.
- Strategy centre, market insight, realtime market and the remaining SQL of the sector and market summaries.

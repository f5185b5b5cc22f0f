# CryptoCandle: a verified model of the trade → candle → daily summary path

The repository moves trades through four stages: a producer validates and publishes them, a
streaming job turns them into one-minute candles with a keyed upsert, a retention job rolls old
candles up into daily rows and deletes them, and a batch path archives raw trades, backfills gaps
from a REST API and summarizes whole days. `shared/aggregation_ref.py` holds the simple versions
of the two aggregations.

This project models those stages and proves that the incremental, re-run, evicting, overwriting
and interleaved machinery computes what the simple versions compute, or says exactly when it does
not.

| file | content |
|---|---|
| `Options.dfy`, `Sums.dfy` | nullable values; SUM, MAX and MIN over keyed tables, independent of row order |
| `Reals.dfy`, `Decimals.dfy` | facts about products and quotients; rounding to a scale |
| `Trades.dfy` | trades, windows, days, first-occurrence dedup, sums over lists |
| `Candles.dfy` | what a candle of a bag of trades is; partial aggregates and their merging |
| `Reference.dfy` | the reference loops: dedup, candles, daily summary |
| `Streaming.dfy` | the candle query as a state machine over batches, attempts and commits |
| `Retention.dfy` | the rollup, conservation of volume by one purge |
| `Rollups.dfy` | two-level aggregation against one pass; rounded quotes |
| `Purging.dfy` | whole runs of purge transactions, at any cutoffs, interleaved with upserts |
| `Validation.dfy` | the Python and the Spark validator |
| `Timing.dfy` | batch clocks, the late rule and how old a written candle can be |
| `Records.dfy` | messages, their verdicts, and the rows made of the valid ones |
| `Pipeline.dfy` | validation, streaming and retention together, end to end |
| `Warehouse.dfy`, `StreamJob.dfy`, `DailyBatch.dfy` | the classes that change tables and archives in place |
| `Pagination.dfy`, `EventIds.dfy`, `Producer.dfy` | the REST cursor loop, the event id text, the reconnect loop |

## Main results

* **Streaming.** For every cut of the trades into batches, every watermark history, every order
  and shape in which the engine evaluates a batch, and every pattern of re-runs, the upserted
  table holds exactly the candles of the accepted trades (`Streaming.StreamRefinesReference`).
  Every row is the reference candle but for the open or close of a window whose first, or last,
  millisecond carries two prices (`Streaming.StreamMatchesReference`); there, and only there, the
  row depends on the schedule (`Streaming.ScheduleDecidesTies`). Rows never shrink, and never
  change once their window is behind the watermark. The cut into batches matters exactly when the
  first occurrence of some id is late (`Streaming.SplitIrrelevant`).
* **Retention.** The code computes `NOW() - keep_days` without truncating it to a day. In every run
  in which no candle arrives behind a rollup, at any cutoffs, with upserts between the statements
  and with aborts, a daily row is the rollup of exactly the candles of its day in the last committed purge that held any
  (`Purging.LastPurgeWins`), and the volume lost is exactly that of the candles whose rollup was
  overwritten; none is lost if and only if no two purges hold candles of one day with volume in
  the earlier one (`Purging.RunsConserveIff`). Cutoffs on UTC midnight lose nothing
  (`Purging.AlignedRunsConserve`). In every run whatever, a daily row is the rollup of exactly what
  the last purge with candles of its day had rolled up (`Purging.LastPurgeAlwaysWins`).
* **Settings.** Upserts may slip between the statements of a purge. No run of the pipeline loses a
  candle without a trace if and only if the shorter of the late rule and the time skew, rounded up
  to a second, plus 59 999 ms plus the write lag is at most `keep_days`, or no symbol is configured
  (`Pipeline.SafeExactly`). For all other settings, `keep_days = 0` among them, a run of three steps
  loses one (`Pipeline.LosingRun`, `Pipeline.KeepDaysZeroLoses`).
* **End to end.** With safe settings and any cutoffs, every daily row holds the aggregates of exactly
  the accepted trades of its day in the last purge that held any, and every trade not yet purged is
  in its candle (`Pipeline.PipelineRows`); the two tables hold the volume of all accepted trades if
  and only if no two purges split a day (`Pipeline.PipelineConservesIff`). On midnight cutoffs every
  retired day holds all trades accepted for it (`Pipeline.PipelineRefinesReference`).
* **Two writers.** The batch summary and retention write the same daily rows. On the same sales they
  agree if and only if the day has no volume or its quotes sum to price times quantity
  (`StreamJob.WritersAgreeIff`).
* **Pagination.** The fetched trades are an ordered subsequence of the server's log, and the
  missing ones are known exactly (`Pagination.FetchAccount`). The fetch is complete if and only if
  no block boundary of the log cuts a millisecond or stops one short of the end
  (`Pagination.CompleteIff`).
* **Validators.** The verdicts and codes of the two validators agree except on exactly described
  sets (`Validation.VerdictsDiffer`, `Validation.CodesDiffer`).

## Modelling decisions

* Prices and quantities are exact reals, times integer milliseconds, dates UTC day numbers.
* Spark is modelled by step rules: rows at or behind the watermark are dropped, then ids already
  seen; the windows touched by a batch are emitted; windows whose end is at or behind the watermark
  are evicted; the watermark then moves to the larger of itself and the latest event time minus the
  delay; an uncommitted batch is re-run with the same rows and the same batch clock. How a group is
  evaluated (`Candles.Plan`) is left open: any tree of merges over its rows and its stored buffer.
  `min_by` and `max_by` may therefore pick any trade at the extreme time.
* Postgres statements are atomic, each sees the rows committed before it, `NOW()` is fixed per
  transaction, an aborted purge restores the daily rows, and one purge transaction runs at a time.
* `volatility` is represented by its square, the sample variance.
* The trades topic carries schema-valid events, as the producer writes them. A NULL symbol would
  pass the Spark rules (`Validation.NullSymbolPasses`) and then meet the NOT NULL column of
  infra/postgres/init.sql:9.
* `hide` statements keep definitions out of proofs that do not need them; they add no assumption.

## Where code and documentation differ

The model follows the code.

* services/spark_streaming/transforms.py:140 says the reference mirrors the streaming semantics. It
  does, except that a window in which every `quote_qty` is missing has quote volume NULL in the
  stream and 0 in the reference (`Reference.RefQuote`), and that ties at the first or last
  millisecond are settled only by the reference (`Reference.RefTies`).
* README.md:48-49 speaks of a single validation contract. The two validators order their rules
  differently, and differ on vanishing and overflowing decimals and on an empty symbol list.
* README.md:51-52 speaks of exactly-once writes. The candle table is equal to an exactly-once run
  (`Streaming.ReplaysInvisible`); the raw archive is written at least once and equal only after
  dedup (`DailyBatch.ReplayedArchive`); dead letters may repeat.
* README.md:45-46 lists three independently checkpointed sinks. The code runs two queries: the
  archive and the dead letters share one.

## Model

| member | source | states |
|---|---|---|
| `Trades.MinuteWithinDay` | shared/retention.py:33 | a candle is filed under the same UTC day as its trades |
| `Trades.CoversExactly` | services/spark_streaming/transforms.py:131-142 | windows, days, watermark and cutoff ranges in milliseconds |
| `Trades.SelectBag` | shared/aggregation_ref.py:31-33 | grouping keeps every occurrence of a trade of the group and no other |
| `Trades.DedupConcat` | services/spark_streaming/transforms.py:129-134 | stateful dedup batch by batch is first-occurrence dedup of the concatenation |
| `Trades.DedupFromIds` | shared/aggregation_ref.py:16-25 | dedup keeps exactly one row of every id not yet seen |
| `Trades.DedupFromFirst` | shared/aggregation_ref.py:19-24 | the row kept of an id is its first occurrence |
| `Candles.SqDevMerge` | services/spark_streaming/transforms.py:155 | merging partial variance states gives the two-pass squared deviations of the concatenation |
| `Candles.SqDevSign` | shared/aggregation_ref.py:56 | the variance is never negative and is zero exactly when all prices are equal |
| `Candles.CandleUnique` | services/spark_streaming/transforms.py:143-156 | a bag of trades has a single candle exactly when all trades at its first millisecond carry one price and so do all at its last |
| `Candles.CandleSandwich` | shared/aggregation_ref.py:48-52 | low ≤ open, close, avg ≤ high |
| `Candles.CandleVolatility` | shared/aggregation_ref.py:50-56 | volatility is NULL for one trade, never negative, and zero exactly when high equals low |
| `Candles.CandleSpread` | services/spark_streaming/transforms.py:155 | n (n - 1) times the squared volatility is the sum of the squared price differences over all pairs of trades |
| `Candles.SpreadOfTwo` | shared/aggregation_ref.py:56 | for two trades the squared volatility is half the squared price difference |
| `Candles.CandleOfOne` | shared/aggregation_ref.py:43-58 | the candle of a single trade, column by column |
| `Candles.CandleOfBoth` | shared/aggregation_ref.py:43-58 | the count, sums, average and extremes of two bags together, from the candles of each |
| `Candles.EvalLeaves` | services/spark_streaming/transforms.py:146-155 | every shape of partial aggregation describes exactly the rows it read |
| `Candles.PlanSound` | services/spark_streaming/transforms.py:144-156 | evaluating new rows on top of a stored buffer, in any order, describes the stored and the new trades together |
| `Candles.TiesDecide` | services/spark_streaming/transforms.py:146-150 | all evaluations of a bag give one candle exactly when its ends agree in that sense |
| `Reference.SortCorrect` | shared/aggregation_ref.py:37 | the sort orders by time, keeps the bag, and keeps the listed order of equal times |
| `Reference.RefIsCandle` | shared/aggregation_ref.py:28-58 | the reference candle meets the streaming specification up to a NULL quote sum |
| `Reference.RefIsOnlyCandle` | shared/aggregation_ref.py:37-49 | the reference candle is the only one the streaming rules allow exactly when the ends of the bag agree |
| `Reference.RefQuote` | shared/aggregation_ref.py:40 | the quote sums differ exactly when every quote_qty of the window is missing |
| `Reference.RefTies` | shared/aggregation_ref.py:37-49 | ties at the extreme times are opened and closed by the first and the last trade listed |
| `Reference.DedupByEventId` | shared/aggregation_ref.py:16-25 | the loop computes first-occurrence dedup |
| `Reference.Compute1mCandles` | shared/aggregation_ref.py:28-60 | one candle for every (symbol, minute) with trades, of exactly those trades |
| `Reference.ComputeDailySummary` | shared/aggregation_ref.py:63-89 | one summary for every (day, symbol) with trades, of exactly those trades |
| `Reference.DailySandwich` | shared/aggregation_ref.py:72-85 | low ≤ vwap ≤ high on every day with volume |
| `Reference.SummaryOfOne` | shared/aggregation_ref.py:71-87 | the summary of a single trade, column by column |
| `Reference.SummaryOfBoth` | shared/aggregation_ref.py:71-87 | the volume, notional and extremes of two lists together, from the summaries of each |
| `Streaming.LateRule` | services/spark_streaming/transforms.py:131-132 | a row is dropped as late exactly when an earlier batch held a row at least the delay ahead of it |
| `Streaming.AcceptedSnoc` | services/spark_streaming/transforms.py:129-134 | the rows a batch adds extend the one dedup of all rows that were on time |
| `Streaming.AcceptedIds` | services/spark_streaming/transforms.py:129-134 | the ids accepted are those of the rows on time when their batch arrived, each once |
| `Streaming.TouchedIsOpen` | services/spark_streaming/transforms.py:142 | a window a batch touches starts less than a minute behind the watermark |
| `Streaming.UpsertSound` | services/spark_streaming/pg_writer.py:60-86 | the upsert brings the table up to date, whether the batch is new or re-run |
| `Streaming.OpenWindowsExactly` | services/spark_streaming/transforms.py:131-142 | after a batch the open windows are exactly those still ahead of the watermark |
| `Streaming.StreamRefinesReference` | services/spark_streaming/transforms.py:129-171 | after any run the table holds exactly the candles of the accepted trades |
| `Streaming.StreamMatchesReference` | shared/aggregation_ref.py:28-60 | every row is the reference candle of its window up to open and close, and in every column where the ends of the window agree |
| `Streaming.ScheduleDecidesTies` | services/spark_streaming/transforms.py:146-150 | the row of a window first touched by a batch is the same for all schedules of the batch exactly when the ends of the window agree |
| `Streaming.SplitIrrelevant` | services/spark_streaming/stream_job.py:487-499 | the cut into batches does not matter, the accepted trades being the dedup of the whole list, exactly when the first occurrence of every id is on time |
| `Streaming.NeverStuck` | services/spark_streaming/stream_job.py:389-437 | any next batch, and any re-run, can be scheduled |
| `Streaming.Frozen` | services/spark_streaming/pg_writer.py:68-79 | once a window is behind the watermark its row never changes |
| `Streaming.RowsNeverShrink` | services/spark_streaming/pg_writer.py:68-79 | between any two points of a run no row disappears, no count, volume or high falls, no low rises |
| `Streaming.ReplaysInvisible` | services/spark_streaming/stream_job.py:485-499 | re-running uncommitted batches leaves the table of a run without re-runs, in every column where the ends of a window agree and up to open and close elsewhere |
| `StreamJob.CandleQuery.RunBatch` | services/spark_streaming/stream_job.py:389-437 | one execution of a batch is one step of the state machine |
| `StreamJob.EveryRecordRouted` | services/spark_streaming/stream_job.py:275-285 | the two sinks share out the records of a batch; the archive gets those that are valid and the dead letters those that are not, so none goes to both |
| `StreamJob.RoutedInOrder` | services/spark_streaming/stream_job.py:275-277 | each sink gets its records in the order of the batch |
| `StreamJob.ArchiveQuery.ForeachBatchValidated` | services/spark_streaming/stream_job.py:271-367 | a batch that completes adds each valid row once to the raw partition of its day and appends exactly the invalid records to the dead letters; one that stops adds what it wrote; the counts of records, valid, invalid and late ones |
| `StreamJob.ArchiveQuery.Run` | services/spark_streaming/stream_job.py:369-385 | after any batches, each run until it commits, every valid record is in the raw partition of its day, the new dead letters are exactly the records that are not valid, and the archive holds the deliveries that `DailyBatch.ReplayedArchive` is about |
| `StreamJob.ArchivedCarries` | services/spark_streaming/stream_job.py:297-299 | nothing else is in it |
| `StreamJob.WritersAgreeIff` | services/spark_batch/daily_summary.py:40-53 | the batch row and the retention row of a day with the same ids and sales are equal exactly when the day has no volume or its quotes sum to the notional |
| `Retention.GroupedVolume` | shared/retention.py:30-41 | grouping candles by day and symbol loses no volume |
| `Retention.PurgeBalance` | shared/retention.py:30-52 | a purge loses exactly the volume of the daily rows it replaces |
| `Retention.PurgeConservesIff` | shared/retention.py:42-46 | a purge conserves volume exactly when every daily row it replaces was empty |
| `Retention.SecondPurgeLoses` | shared/retention.py:40-46 | two purges that cut a day in the middle lose the volume of its first part |
| `Warehouse.UpsertedRows` | services/spark_batch/pg_writer.py:26-30 | over the statements of one call, a key gets its last listed row and every other row stays |
| `Warehouse.UpsertedLast` | services/spark_batch/pg_writer.py:26-30 | the row listed last for a key, by position, is the one that stays |
| `Warehouse.UpsertIdempotent` | services/spark_streaming/pg_writer.py:60-86 | running the same upsert twice changes nothing the second time |
| `Warehouse.Postgres.UpsertCandles1m` | services/spark_streaming/pg_writer.py:49-86 | the candle table after the rows are written in pages of 1000; a key repeated in a page raises and leaves the table alone |
| `Warehouse.Postgres.UpsertDailySummary` | services/spark_batch/pg_writer.py:11-37 | the daily table, likewise |
| `Warehouse.GroupRows` | shared/retention.py:32-41 | one pass over the rows in any order computes the rollup of every group |
| `Warehouse.KeepFromBag` | shared/retention.py:54-57 | a metrics time stays exactly when it is at or after the cutoff, as often as it was there |
| `Warehouse.Postgres.PurgeOldCandles` | shared/retention.py:64-104 | the cutoff in milliseconds, and the three tables and the counts after one purge, with and without the rollup |
| `Rollups.TwoLevelTotal` | shared/retention.py:38 | summing window by window is summing the trades |
| `Rollups.TableRow` | shared/retention.py:30-41 | the aggregates over a table of candles are those over its trades: volume, vwap with its NULL case, high and low |
| `Rollups.RollupIsDayRow` | shared/retention.py:30-41 | rolling candles up by day gives volume, vwap, high and low of the day's trades |
| `Rollups.DayRowMatchesReference` | shared/aggregation_ref.py:72-85 | volume, high and low agree with the reference; the vwap agrees exactly when the quotes sum to the notional; a day without volume is NULL against 0 |
| `Decimals.RoundError` | services/spark_streaming/transforms.py:59 | a decimal cast is off by at most half a unit in the last place |
| `Rollups.QuoteRoundingBound` | services/spark_streaming/transforms.py:59 | n rounded quotes sum to within n half units of the notional |
| `Rollups.VwapRoundingBound` | shared/retention.py:37 | the rolled-up vwap is within that bound over the volume of the reference vwap |
| `Purging.InterleavedWriteLost` | shared/retention.py:87-91 | a candle written below the cutoff between the statements of a purge vanishes without being rolled up |
| `Purging.InterleavedUpsert` | shared/retention.py:87-91 | an upsert between the statements is serializable with the purge exactly when it writes no such candle |
| `Purging.AlignedRunsConserve` | shared/retention.py:78-97 | where every cutoff falls on midnight or within the minute before, daily rows and candles hold the final version of every candle written |
| `Purging.MidnightExactly` | shared/retention.py:42 | which cutoffs fall on midnight or within the minute before |
| `Purging.SettledStep` | shared/retention.py:81-97 | at any cutoff, every statement, an upsert behind a rollup excepted, keeps the candles those not yet deleted and the daily rows the fold of the committed cuts, with the open one on top |
| `Purging.OpenPurgeCoherent` | shared/retention.py:81-92 | while a purge is open the daily table is what its rollup would write now |
| `Purging.RollupOver` | shared/retention.py:42-46 | rolling up over the rows of an earlier rollup is one rollup of the new candles and the earlier ones of untouched days |
| `Purging.FoldedIsRollup` | shared/retention.py:42-46 | the fold of the cuts is one rollup of the candles that survive in the last cut of their day |
| `Purging.RunsConserveIff` | shared/retention.py:78-97 | after any run with no candle behind a rollup, the volume of the tables and of the overwritten candles is the volume written; nothing is lost exactly when no two cuts hold candles of one day with volume in the earlier one |
| `Purging.LastPurgeWins` | shared/retention.py:42-52 | after any run with no candle behind a rollup, a daily row is the rollup of exactly the candles, at their final value, of the last cut that touched its day; a day no cut touched has no row |
| `Purging.LastPurgeAlwaysWins` | shared/retention.py:42-52 | after any run whatever, a daily row is the rollup of exactly what the last committed purge with candles of its day had rolled up; other days have no row |
| `Purging.GrowingRunsHold` | shared/retention.py:78-97 | where volumes only grow and no candle is both live and rolled up, the tables hold at most the volume written, and all of it exactly when every candle is live or stands in a daily row at its final volume |
| `Purging.WrittenAgainCountsTwice` | shared/retention.py:42-52 | candles written again after their purge are counted twice |
| `Validation.SparkTwoValued` | services/spark_streaming/transforms.py:64-101 | the three-valued WHEN chain on schema-valid events, rule by rule |
| `Validation.SparkNullable` | services/spark_streaming/transforms.py:64-101 | the chain over every row, NULLs included |
| `Validation.PriceCast` | services/spark_streaming/transforms.py:57 | a price is rounded half away from zero to 1e-8 and is NULL from half a unit below 1e12 on |
| `Validation.QuantityCast` | services/spark_streaming/transforms.py:58-59 | a quantity or quote likewise at 1e-12 below 1e26 |
| `Validation.FieldBounds` | services/spark_streaming/transforms.py:66-72 | exactly which prices and quantities the stream takes |
| `Validation.PriceDisagreement` | services/spark_streaming/transforms.py:57 | the price rules differ exactly on prices that round to zero or overflow |
| `Validation.QuantityDisagreement` | shared/validation.py:69-74 | the quantity rules differ exactly on negative quantities that round to zero and on overflow |
| `Validation.ValidatorsAgree` | shared/validation.py:79-141 | on exact numerals Spark accepts exactly what Python accepts and is not late; codes differ exactly when symbol and time rules both fail |
| `Validation.VerdictsDiffer` | services/spark_streaming/transforms.py:92-114 | over all schema-valid events, exactly when the two verdicts differ |
| `Validation.CodesDiffer` | shared/validation.py:107-141 | over all schema-valid events, exactly when both validators reject and give different codes |
| `Validation.NullSymbolPasses` | services/spark_streaming/transforms.py:66-99 | a NULL symbol is treated like an allowed one |
| `Validation.NoSymbolsConfigured` | shared/validation.py:115 | with no symbols configured Spark rejects everything and Python uses its defaults |
| `Timing.ResolveLateAfterMs` | services/spark_streaming/stream_job.py:103-111 | the late threshold is the setting in milliseconds, at least one minute |
| `Timing.OldestMinute` | services/spark_streaming/transforms.py:75-88 | no accepted trade lies in a minute older than the late and skew rules allow |
| `Timing.TightSchedule` | services/spark_streaming/transforms.py:54 | a schedule that reaches the bound |
| `Timing.SafeSettingsIff` | services/spark_streaming/transforms.py:75-88 | no trade time, batch clock, write time and NOW() allow a write behind a purge, exactly when the settings meet the bound |
| `Records.IsValidExactly` | services/spark_streaming/transforms.py:64-114 | in plain numbers, which records are valid at a batch clock |
| `Records.RowsCarry` | services/spark_streaming/transforms.py:54-63 | the rows of a batch are, in order, those of exactly its valid records; each carries the id, symbol and time of its record, its price and quantity within half a unit of the numerals and equal on exact ones, and a quote that is NULL exactly when the text is missing, no number or out of range |
| `Records.ValidRowsGood` | services/spark_streaming/transforms.py:92-114 | a valid row has a positive price, a non-negative quantity, an allowed symbol and a time within bounds of the batch second |
| `Pipeline.RunIds` | services/spark_streaming/transforms.py:129-134 | the ids a run accepts are exactly those of its valid records that were less than the delay behind all records committed before, each once |
| `Pipeline.PurgesSeeFinalValues` | shared/retention.py:78-92 | with safe settings and any cutoffs, what a purge deletes is what it rolled up, and no candle behind its cutoff is ever written again |
| `Pipeline.LosingRun` | shared/retention.py:87-92 | for settings short of the bound, a purge, a batch between its statements and its end leave a written candle neither in the candle table nor under any daily row |
| `Pipeline.SafeExactly` | shared/retention.py:75-92 | no run loses a candle without a trace, if and only if the settings meet the bound or no symbol is configured |
| `Pipeline.KeepDaysZeroLoses` | shared/retention.py:75 | keep_days of 0 or less loses candles in some run; the defaults do exactly from a write lag of 84 540 002 ms on |
| `Pipeline.PipelineRows` | shared/retention.py:30-52 | at any cutoffs, a daily row aggregates exactly the accepted trades of its day in the last cut that held any; candles hold the trades not yet purged |
| `Pipeline.PipelineConservesIff` | shared/retention.py:42-52 | the tables hold the volume of all accepted trades exactly when no two cuts hold trades of one day with quantity in the earlier one |
| `Pipeline.RowMatchesReference` | shared/aggregation_ref.py:63-89 | at any cutoffs, volume, high and low of a daily row are the reference's for the trades it stands for; the vwap is exactly when there is no volume or the quotes sum to the notional |
| `Pipeline.ExactQuotesAddUp` | shared/retention.py:37 | quotes that are each exactly price times quantity sum to the notional |
| `Pipeline.RowVwapBound` | services/producer/main.py:51-55 | with quotes as the producer writes them, the vwap of a daily row is within half a unit in the twelfth place per trade, over the volume, of the reference vwap |
| `Pipeline.PipelineRefinesReference` | shared/retention.py:30-52 | with every cutoff on midnight or within the minute before, daily rows and candles hold the aggregates of exactly the accepted trades |
| `Pipeline.PipelineMatchesReference` | shared/aggregation_ref.py:63-89 | with such cutoffs a retired day reads as the reference summary of all its accepted trades exactly when it has no volume or their quotes sum to the notional |
| `Pipeline.NeverStuck` | services/spark_streaming/stream_job.py:487-503 | any batch, re-run or purge can come next |
| `Pagination.FetchAggTrades` | services/spark_batch/backfill_utils.py:33-68 | terminates against every server, after at most one request per millisecond of the range |
| `Pagination.MissingExactly` | services/spark_batch/backfill_utils.py:55-66 | a trade of the range is missing exactly when a full page cut it off |
| `Pagination.FetchAccount` | services/spark_batch/backfill_utils.py:41-68 | the result is an ordered, duplicate-free subsequence of the log within the range, and what is missing |
| `Pagination.CompleteIff` | services/spark_batch/backfill_utils.py:41-68 | the result is the whole range of the log exactly when no boundary of its blocks of `limit` shares a millisecond or lies one millisecond before the end |
| `EventIds.RoundTrip` | services/producer/binance_ws.py:25 | the event id can be read back, whatever the symbol and the sign of the time |
| `EventIds.TextInFull` | services/producer/binance_ws.py:25 | the text in full, digit by digit |
| `EventIds.SameTextIff` | services/spark_batch/backfill_utils.py:79 | equal texts mean equal (symbol, id, time), up to the ambiguity of negative ids |
| `DailyBatch.SameTotals` | services/spark_batch/compact_parquet.py:42 | which duplicate is kept does not matter to a sum over sales |
| `DailyBatch.BatchMatchesReference` | services/spark_batch/daily_summary.py:40-53 | the batch summary is the reference summary, with NULL for the vwap of a day without volume |
| `DailyBatch.SummaryDays` | services/spark_batch/daily_summary.py:40 | the summary has a row for exactly the UTC days and symbols of its rows |
| `DailyBatch.SummaryDependsOnIds` | services/spark_batch/daily_summary.py:33-53 | the summary depends only on the set of ids present |
| `DailyBatch.KnownIdsChangeNothing` | services/spark_batch/backfill_rest.py:53-65 | appending rows whose ids are known changes no daily row |
| `DailyBatch.AppendAddsNewIds` | services/spark_batch/backfill_rest.py:53-65 | an append adds to every day exactly the sales with new ids |
| `DailyBatch.ReplayedArchive` | services/spark_streaming/stream_job.py:297-299 | an archive written at least once, with partial writes, dedups and summarizes as one written once |
| `DailyBatch.ReplayedDay` | services/spark_batch/compact_parquet.py:41-47 | and so does each of its days |
| `DailyBatch.Lake.AppendTrades` | services/spark_streaming/sinks.py:10-23 | every row is added once to the raw partition of its UTC day, in order, and nothing else changes |
| `DailyBatch.Lake.CompactDay` | services/spark_batch/compact_parquet.py:15-59 | the day's target becomes a dedup of its raw rows; a missing or empty source changes nothing |
| `DailyBatch.Lake.ReadTradesForDay` | services/spark_batch/daily_summary.py:17-30 | the compacted rows if there are any, else the raw ones if there are any, else none |
| `DailyBatch.Lake.RunDailySummary` | services/spark_batch/daily_summary.py:56-97 | the daily table gains the summary of the compacted rows if there are any, else of the raw ones, and is left alone if there are neither |
| `DailyBatch.Lake.CompactThenSummarize` | services/spark_batch/compact_parquet.py:41-47 | compaction and summary write the summary of the deduplicated raw day and touch no other date |
| `Producer.BackoffRange` | services/producer/main.py:153 | waits start at 2, double, and level off at 32 or the cap |
| `Producer.BackoffRule` | services/producer/main.py:86-161 | over any run of sessions a wait is 2 after a connection and twice the one before after a failed connect, up to 32 or the cap |
| `Producer.Accounting` | services/producer/main.py:92-151 | received = published + rejected + lost, with no more lost than disconnects at a reconnect |
| `Producer.CountersAre` | services/producer/main.py:92-151 | published and rejected count the messages of either kind, received all of them and the lost ones |
| `Producer.ProducerLoop.Run` | services/producer/main.py:86-163 | counters and waits of the loop are those of the sessions it went through, up to one that is cancelled, whose wait is cancelled or whose flush raises |

## Left out

- Pipeline.PipelineRefinesReference: the case of midnight cutoffs; every run is covered by `Pipeline.PipelineRows`.
- Purging.SettledStep: asks that an upsert writes nothing behind what has been rolled up; the final values it speaks of are lost otherwise. `Purging.LastPurgeAlwaysWins` asks nothing.
- Purging.LastPurgeWins: likewise.
- Purging.RunsConserveIff: likewise; and it assumes the retention job is the only writer of daily rows; the batch summary writes the same table, and either may replace the other's row (`StreamJob.WritersAgreeIff` says when that changes it). `Pipeline` proves of every run with safe settings that no candle arrives behind what has been rolled up.
- Purges with the rollup switched off, other than one at a time (`Warehouse.Postgres.PurgeOldCandles`).
- Reference.Compute1mCandles: the result is a map by (symbol, window start); the final sort of the list is not modelled.
- Reference.ComputeDailySummary: likewise a map by (day, symbol).
- DailyBatch.Lake.RunDailySummary: prices and quantities are already decimals; the cast of the archived text is the one of `Validation`.
- The archive query and the candle query validate a record at their own batch clocks; their verdicts near a time bound are not related.
- Rounding when a value is stored in a NUMERIC column, and the 28-digit context of Python decimals.
- Floating point in `mean`, `stdev` and the backfill's `quote_qty`: exact arithmetic stands in.
- The grammars of numerals that Python and Spark accept: a text is blank, not a number, or a finite decimal; NaN and infinities are excluded.
- Schema validation, JSON parsing, upper-casing of symbols and whitespace stripping: events start typed.
- `run_hourly_backfill` and `validate_backfill_rows` as loops: what they append to the archive is covered by `DailyBatch.KnownIdsChangeNothing` and `DailyBatch.AppendAddsNewIds`.
- Two purge transactions at once, and the metrics rows other than their deletion.
- Kafka, WebSocket, HTTP, Parquet files, Airflow schedules, Docker and the dashboard.
- `shared/dq_quality.py`, `shared/watermark.py`, `shared/dlq.py`, logging and debug writes: single-branch helpers.

# Droid_tushare sync engine and scripts, modelled in Dafny

Droid_tushare copies market data from the Tushare web API into local DuckDB
databases and keeps them complete. This project models that engine and the scripts around it:

- the paginated, rate-limited fetcher (`TushareFetcher.fetch_data`);
- the reconciliation writer (`DuckDBStorage.store_data`), with its normalisation hooks and its `insert_new` and `replace` modes;
- the coverage metadata upsert (`init_metadata`, `update_metadata`);
- the strategy dispatch of `DataProcessor`: the `single`, `range` and `full_paging` modes, parameter grids and overwrite batching;
- the planning helpers in `utils.py` and `main.py`;
- the daily fetcher's start-date and error policy;
- the gap and consistency validators;
- the backfill and interactive update scripts;
- the small analytics helpers of two dashboard loaders.

Each source file is one Dafny module (the file name follows the source file).
Four shared modules hold the vocabulary:

- `Common`: rows, frames, key projection, de-duplication and string order;
- `Calendar`: `YYYYMMDD` dates, day stepping, weekdays, formatting and parsing;
- `Remote`: the Tushare API as a consistent result set, served in `offset`/`limit` slices, with a fault oracle deciding which attempt raises;
- `Db`: the database as a class whose named tables and `metadata` coverage rows the engine updates in place.

Modelling choices:

- A row is a map from column name to an optional string; a frame is a sequence of rows.
- Dates are compared as strings, as the code does.
- Sleeps are recorded as a list of seconds. The clock ("today", the hour) is a parameter.
- A call that raises is `None`, or a named outcome where the caller tells errors apart.
- Code that updates state step by step is modelled as methods with loops. Each method is proved against a recursive specification function, and the properties are lemmas about that function.
- Pure helpers are functions.

## Model

| member | source | states |
|---|---|---|
| BackfillMoneyflowHsgt.LocalDates | scripts/backfill_moneyflow_hsgt.py:93-100 | the stored trade dates are exactly the `trade_date` values of the table's rows, and none when the table is missing |
| BackfillMoneyflowHsgt.Missing | scripts/backfill_moneyflow_hsgt.py:106-107 | a day is missing iff it is a calendar day without a stored row; a sorted calendar gives a sorted result |
| BackfillMoneyflowHsgt.BatchEnd | scripts/backfill_moneyflow_hsgt.py:134-136 | a batch end exists only for a well-formed start date and is itself a date string |
| BackfillMoneyflowHsgt.BatchEndAfter | scripts/backfill_moneyflow_hsgt.py:131-143 | the end of a batch (start + 30 days) lies strictly after its start, so each batch holds its first day |
| BackfillMoneyflowHsgt.BatchStop | scripts/backfill_moneyflow_hsgt.py:139-143 | the inner scan stops at the first missing day past the batch end; every day it passes is at or before the end |
| BackfillMoneyflowHsgt.Batches | scripts/backfill_moneyflow_hsgt.py:129-147 | the batching loop never produces an empty batch |
| BackfillMoneyflowHsgt.BatchesHead | scripts/backfill_moneyflow_hsgt.py:133-145 | a batch starts at the current missing day and runs up to the inner scan's stop, and the rest is batched from there |
| BackfillMoneyflowHsgt.BatchesCover | scripts/backfill_moneyflow_hsgt.py:129-147 | the batches cut the missing days into consecutive pieces: joined they give back every missing day once, in order |
| BackfillMoneyflowHsgt.BatchesWithin | scripts/backfill_moneyflow_hsgt.py:129-147 | each batch spans at most 30 days from its first day, and the next batch starts after that window |
| BackfillMoneyflowHsgt.BatchesNext | scripts/backfill_moneyflow_hsgt.py:133-147 | a non-empty plan from a day starts with that day |
| BackfillMoneyflowHsgt.Span | scripts/backfill_moneyflow_hsgt.py:149-152 | the range requested for a batch is its first and last day, both in the batch |
| BackfillMoneyflowHsgt.Spans | scripts/backfill_moneyflow_hsgt.py:149-152 | one requested range per batch, in batch order |
| BackfillMoneyflowHsgt.Step | scripts/backfill_moneyflow_hsgt.py:149-173 | one batch requests exactly its span; an empty answer is recorded as a failed range and changes nothing; the stored total never decreases; only a raising store aborts |
| BackfillMoneyflowHsgt.FeedCons | scripts/backfill_moneyflow_hsgt.py:149-173 | feeding a batch ahead of the rest is its step followed by the rest |
| BackfillMoneyflowHsgt.FeedCalls | scripts/backfill_moneyflow_hsgt.py:149-173 | the calls made are the batches' spans in order, and the failed ranges are exactly the spans whose answer was empty |
| BackfillMoneyflowHsgt.FeedKeeps | scripts/backfill_moneyflow_hsgt.py:160-166 | `insert_new` only appends: every table's stored rows survive the loop as a prefix |
| BackfillMoneyflowHsgt.StepKeeps | scripts/backfill_moneyflow_hsgt.py:160-166 | one batch keeps every table's stored rows as a prefix |
| BackfillMoneyflowHsgt.SyncRun | scripts/backfill_moneyflow_hsgt.py:93-173 | only a run that gets to store changes the database; a dry run never does; a missing trade calendar is reported as such |
| BackfillMoneyflowHsgt.MissingDays | scripts/backfill_moneyflow_hsgt.py:103-127 | the days worked on are the open SSE days of the window without a stored row, ascending |
| BackfillMoneyflowHsgt.SyncPlan | scripts/backfill_moneyflow_hsgt.py:110-173 | nothing missing iff the run reports so; a dry run reports the first and last missing day and their count; a full run requests one range per batch |
| BackfillMoneyflowHsgt.SyncKeeps | scripts/backfill_moneyflow_hsgt.py:93-173 | every existing table's stored rows survive a run |
| BackfillMoneyflowHsgt.Backfill | scripts/backfill_moneyflow_hsgt.py:85-91 | as written: a missing table makes the three-argument `init_table` call raise before anything is read, leaving the state unchanged |
| BackfillMoneyflowHsgt.BackfillCorrected | scripts/backfill_moneyflow_hsgt.py:85-91 | with the two-argument call the run never fails on table creation |
| BackfillMoneyflowHsgt.CorrectedCreatesTable | scripts/backfill_moneyflow_hsgt.py:85-91 | with the corrected call the table exists after the run and every table's rows survive as a prefix |
| BackfillMoneyflowHsgt.StoreBatch | scripts/backfill_moneyflow_hsgt.py:149-173 | one batch on the database gives the state and tally of `Step`; a raising store changes nothing |
| BackfillMoneyflowHsgt.CollectBatch | scripts/backfill_moneyflow_hsgt.py:139-143 | the inner while loop collects exactly the days up to the batch end |
| BackfillMoneyflowHsgt.SyncTable | scripts/backfill_moneyflow_hsgt.py:93-173 | the run after the table check leaves the database and outcome that `SyncRun` gives |
| BackfillMoneyflowHsgt.FeedDays | scripts/backfill_moneyflow_hsgt.py:129-173 | the loop over the missing days ends in the state and tally of feeding the planned batches |
| BackfillMoneyflowHsgt.BackfillMoneyflowHsgt | scripts/backfill_moneyflow_hsgt.py:85-173 | the whole script as written, on the database, equals `Backfill` |
| BackfillMoneyflowHsgt.BackfillMoneyflowHsgtCorrected | scripts/backfill_moneyflow_hsgt.py:85-173 | the corrected script on the database equals `BackfillCorrected` |
| BackfillPledgeDetail.PagesReliable | scripts/backfill_pledge_detail.py:31-48 | from an API that never raises, the pages from an offset join to the result set from that offset up to its end or the first page boundary at or past 10000 rows |
| BackfillPledgeDetail.LastPage | scripts/backfill_pledge_detail.py:38-48 | an empty page, a short page or an offset reaching 10000 ends the paging with the rows read so far |
| BackfillPledgeDetail.NextPage | scripts/backfill_pledge_detail.py:41-45 | a full page below the cap is followed by the pages from the next offset |
| BackfillPledgeDetail.FetchDetailReliable | scripts/backfill_pledge_detail.py:26-53 | without faults a stock's detail is its whole result set when it holds at most 10000 rows, and always fewer than 10000 + limit rows |
| BackfillPledgeDetail.FaultDiscardsPages | scripts/backfill_pledge_detail.py:32-36 | a raising call returns an empty frame even after a full first page was read |
| BackfillPledgeDetail.FetchDetailForStock | scripts/backfill_pledge_detail.py:26-53 | the paging loop returns exactly the joined pages, or an empty frame when a call raised |
| BackfillPledgeDetail.Codes | scripts/backfill_pledge_detail.py:60-67 | the `stat_data` keys hold every code of the aggregate answer exactly once |
| BackfillPledgeDetail.StatCountAbsent | scripts/backfill_pledge_detail.py:91 | a code without a `pledge_stat` row counts 0 |
| BackfillPledgeDetail.DetailCount | scripts/backfill_pledge_detail.py:72-80 | a code's stored detail count is 0 iff no stored row carries that code, and never more than the rows stored |
| BackfillPledgeDetail.Select | scripts/backfill_pledge_detail.py:82-103 | force takes every code with `replace`; smart takes exactly the codes whose latest count exceeds the stored rows; default takes exactly the codes with no stored row; both with `insert_new`; no code twice |
| BackfillPledgeDetail.ChangedCodes | scripts/backfill_pledge_detail.py:89-95 | the smart-mode loop collects exactly the smart selection, in code order |
| BackfillPledgeDetail.DefaultWithinSmart | scripts/backfill_pledge_detail.py:87-103 | a code the default mode picks is also picked by smart mode whenever its pledge count is positive |
| BackfillPledgeDetail.Keep | scripts/backfill_pledge_detail.py:143 | a DELETE over a list of codes keeps exactly the rows whose code is not in the list |
| BackfillPledgeDetail.KeepSplit | scripts/backfill_pledge_detail.py:140-143 | two DELETE statements over consecutive batches of codes act as one over both |
| BackfillPledgeDetail.Purged | scripts/backfill_pledge_detail.py:136-144 | the force-mode purge changes only the detail table, removing exactly the rows of the chosen codes |
| BackfillPledgeDetail.Purge | scripts/backfill_pledge_detail.py:139-143 | the batched DELETE loop of 500 codes per statement leaves the database `Purged` describes |
| BackfillPledgeDetail.CombinedClean | scripts/backfill_pledge_detail.py:168-173 | the combined frame is unique on the keys, every row has its four key fields, and every row comes from a buffered frame |
| BackfillPledgeDetail.Tick | scripts/backfill_pledge_detail.py:153-157 | the call counter wraps to 0 on reaching 350, counting one pause each time, and nothing else changes |
| BackfillPledgeDetail.Flush | scripts/backfill_pledge_detail.py:167-188 | a buffer that combines to nothing is dropped without touching the database |
| BackfillPledgeDetail.FlushFacts | scripts/backfill_pledge_detail.py:167-188 | a flush that does not raise empties the buffer into the frames sent, never lowers the stored total, leaves the counter alone and writes only clean frames |
| BackfillPledgeDetail.Step | scripts/backfill_pledge_detail.py:151-188 | one stock fails only when a flush was due and its store raised |
| BackfillPledgeDetail.StepPaces | scripts/backfill_pledge_detail.py:153-157 | one stock advances the pause counter modulo 350 and adds a pause when it wraps |
| BackfillPledgeDetail.StepDelivers | scripts/backfill_pledge_detail.py:159-188 | one stock adds its non-empty answer to what has been buffered or sent, keeps the buffer below 50 frames and empties it at the last stock |
| BackfillPledgeDetail.StepWrites | scripts/backfill_pledge_detail.py:177-185 | one stock never lowers the stored total and writes only clean frames |
| BackfillPledgeDetail.StepKeeps | scripts/backfill_pledge_detail.py:177-183 | one stock keeps every table's stored rows as a prefix |
| BackfillPledgeDetail.AllFetched | scripts/backfill_pledge_detail.py:159-162 | at most one non-empty frame per stock is buffered |
| BackfillPledgeDetail.LoopPaces | scripts/backfill_pledge_detail.py:151-157 | a run pauses once per 350 stocks, whatever the API calls made per stock |
| BackfillPledgeDetail.LoopDelivers | scripts/backfill_pledge_detail.py:151-192 | every non-empty answer leaves the buffer once, in stock order, and nothing is left buffered after the last stock |
| BackfillPledgeDetail.LoopWrites | scripts/backfill_pledge_detail.py:151-192 | every frame the loop writes is clean, and the stored total never decreases |
| BackfillPledgeDetail.LoopKeeps | scripts/backfill_pledge_detail.py:151-192 | `insert_new` only appends: every table's stored rows survive the loop as a prefix |
| BackfillPledgeDetail.Backfill | scripts/backfill_pledge_detail.py:106-192 | a missing table ends the run at the three-argument `init_table` call; a failing stat query ends it too; only a run that processes stocks changes the state |
| BackfillPledgeDetail.BackfillAccounts | scripts/backfill_pledge_detail.py:129-192 | nothing to update iff no stock is chosen; a run that did not crash reports every chosen stock, one pause per 350 stocks, and a non-negative total |
| BackfillPledgeDetail.RunDelivers | scripts/backfill_pledge_detail.py:146-192 | a run that did not crash has sent every non-empty answer, in order, left nothing buffered and written only clean frames |
| BackfillPledgeDetail.BackfillKeeps | scripts/backfill_pledge_detail.py:123-192 | outside force mode every stored row survives the run; in force mode every stored row of an unchosen stock does |
| BackfillPledgeDetail.StoreCombined | scripts/backfill_pledge_detail.py:178-183 | the write of a flush is `store_data` with `insert_new` and `ann_date`; a raising store changes nothing |
| BackfillPledgeDetail.FlushBuffer | scripts/backfill_pledge_detail.py:167-188 | a flush on the database leaves the state and tally `Flush` gives, and nothing changed when the store raises |
| BackfillPledgeDetail.StepStock | scripts/backfill_pledge_detail.py:152-188 | one stock on the database leaves the state and tally `Step` gives |
| BackfillPledgeDetail.ProcessStocks | scripts/backfill_pledge_detail.py:146-192 | the stock loop on the database ends where `Loop` does, and reports a crash exactly when a store raised |
| BackfillPledgeDetail.BackfillPledgeDetail | scripts/backfill_pledge_detail.py:106-192 | the whole script on the database equals `Backfill` |
| BackfillPledgeStat.Fridays | scripts/backfill_pledge_stat.py:19-37 | the Fridays are sorted and are exactly the open SSE calendar days in the window that fall on a Friday |
| BackfillPledgeStat.NoConsecutiveFridays | scripts/backfill_pledge_stat.py:33 | of two consecutive days at most one passes the Friday test |
| BackfillPledgeStat.KeptOnDate | scripts/backfill_pledge_stat.py:55-58 | the part of a page that is kept is non-empty, of the requested date, and rows of the answer |
| BackfillPledgeStat.DatePagesOnDate | scripts/backfill_pledge_stat.py:45-65 | every kept page holds only rows of the requested date taken from the answer |
| BackfillPledgeStat.FetchForDateClean | scripts/backfill_pledge_stat.py:40-70 | a date's answer is unique on (ts_code, end_date) and holds only rows of that date from the API's answer |
| BackfillPledgeStat.DatePagesReliable | scripts/backfill_pledge_stat.py:45-65 | without faults, the kept pages from an offset join to the rows of the date in the result set from that offset to its end or the 100000-row cap |
| BackfillPledgeStat.LastDatePage | scripts/backfill_pledge_stat.py:52-61 | an empty page, a short page or the cap ends paging with that page's rows of the date |
| BackfillPledgeStat.NextDatePage | scripts/backfill_pledge_stat.py:55-65 | a full page below the cap contributes its rows of the date ahead of the following pages |
| BackfillPledgeStat.FetchForDateReliable | scripts/backfill_pledge_stat.py:40-70 | without faults a date's answer is the de-duplicated rows of that date in its whole result set when it holds at most 100000 rows |
| BackfillPledgeStat.FaultKeepsPages | scripts/backfill_pledge_stat.py:46-50 | a raising call stops paging but keeps the rows already read |
| BackfillPledgeStat.DatePagesAt | scripts/backfill_pledge_stat.py:45-65 | the kept pages from an offset are this page's part followed by the rest while pages come back full |
| BackfillPledgeStat.FetchPage | scripts/backfill_pledge_stat.py:46-61 | one request reports the rows of the date it adds and whether paging goes on |
| BackfillPledgeStat.FetchDate | scripts/backfill_pledge_stat.py:40-70 | the paging loop returns exactly `FetchForDate` |
| BackfillPledgeStat.EndDates | scripts/backfill_pledge_stat.py:100-101 | the stored reporting dates are exactly the `end_date` values of the stored rows |
| BackfillPledgeStat.Missing | scripts/backfill_pledge_stat.py:105 | a Friday is missing iff it has no stored row; calendar order is kept |
| BackfillPledgeStat.CombinedUnique | scripts/backfill_pledge_stat.py:134-135 | the flushed rows are unique on (ts_code, end_date), each from a buffered frame |
| BackfillPledgeStat.StepAccounts | scripts/backfill_pledge_stat.py:120-147 | one date is recorded as failed exactly when its answer is empty, otherwise buffered or sent; the buffer stays below 20 frames and is empty after the last date; the stored total never decreases |
| BackfillPledgeStat.AllFetched | scripts/backfill_pledge_stat.py:123-129 | at most one non-empty frame per date is buffered |
| BackfillPledgeStat.LoopFails | scripts/backfill_pledge_stat.py:120-147 | the failed dates are exactly the dates with an empty answer, in order, and the stored total never decreases |
| BackfillPledgeStat.FailStep | scripts/backfill_pledge_stat.py:125-127 | the failed dates from one date on are that date when empty, then those of the rest |
| BackfillPledgeStat.LoopDelivers | scripts/backfill_pledge_stat.py:120-147 | every non-empty answer leaves the buffer once, in date order, and nothing is left after the last date |
| BackfillPledgeStat.LoopKeeps | scripts/backfill_pledge_stat.py:120-147 | `insert_new` only appends: every table's stored rows survive the loop as a prefix |
| BackfillPledgeStat.StepKeeps | scripts/backfill_pledge_stat.py:133-147 | one date keeps every table's stored rows as a prefix |
| BackfillPledgeStat.Backfill | scripts/backfill_pledge_stat.py:73-163 | a failing calendar query ends the run; a missing table ends it at the three-argument `init_table` call; only a run that processes dates changes the state |
| BackfillPledgeStat.DatesExact | scripts/backfill_pledge_stat.py:91-106 | the dates of a run are exactly the open SSE Fridays from the earliest date to today without a stored row |
| BackfillPledgeStat.DatesReverseDescending | scripts/backfill_pledge_stat.py:108-113 | the dates are fetched newest first, and the run reports nothing missing iff there are none |
| BackfillPledgeStat.BackfillAccounts | scripts/backfill_pledge_stat.py:115-163 | a run that did not crash reports every date, the empty-answer dates as failed (newest first), sends every non-empty answer in order, leaves nothing buffered and a non-negative total |
| BackfillPledgeStat.BackfillKeeps | scripts/backfill_pledge_stat.py:94-147 | every stored row survives a run |
| BackfillPledgeStat.StoreCombined | scripts/backfill_pledge_stat.py:137-142 | the write of a flush is `store_data` with `insert_new` and `end_date`; a raising store changes nothing |
| BackfillPledgeStat.FlushBuffer | scripts/backfill_pledge_stat.py:133-147 | a flush on the database leaves the state and tally `Flush` gives, nothing changed when the store raises |
| BackfillPledgeStat.StepDate | scripts/backfill_pledge_stat.py:120-147 | one date on the database leaves the state and tally `Step` gives |
| BackfillPledgeStat.ProcessDates | scripts/backfill_pledge_stat.py:115-147 | the date loop on the database ends where `Loop` does, reporting a crash exactly when a store raised |
| BackfillPledgeStat.BackfillPledgeStat | scripts/backfill_pledge_stat.py:73-163 | the whole script on the database equals `Backfill` |
| ConfigPagination.PagesOf | examples/config.py:30-36 | the collected frames are the trace's pages, one per request, in request order |
| ConfigPagination.Pagenation | examples/config.py:25-39 | `pagenation` raises iff some request of the call raises, and otherwise returns every page of the call concatenated in request order |
| ConfigPagination.MoreStep | examples/config.py:33-38 | one more request of the loop extends the trace, and a page shorter than `limit` ends it |
| ConfigPagination.PagesOfCons | examples/config.py:31-36 | pages collected ahead of the loop's stay in front |
| ConfigPagination.MoreShape | examples/config.py:33-38 | the loop's requests sit `limit` rows apart; every page but the last is full and the last is not |
| ConfigPagination.MoreAll | examples/config.py:33-38 | with a reliable API whose page size is `limit`, the loop returns the rest of the result set in order without gaps |
| ConfigPagination.TraceShape | examples/config.py:25-38 | a call requests offsets 0, limit, 2·limit, …; every page but the last is full, and the last is short or empty |
| ConfigPagination.TraceAll | examples/config.py:25-39 | with a reliable API whose page size equals `limit`, `pagenation` returns the whole result set |
| DailyFetcher.LookbackDays | scripts/daily_fetcher.py:321-329 | the lookback is the table's delay (5 or 3 days for the late-published tables, 1 otherwise), raised to the global override when one is set, and never below either |
| DailyFetcher.ShiftBack | scripts/daily_fetcher.py:399-403 | a shifted date exists only for a well-formed date string and is itself one |
| DailyFetcher.ShiftBackMeaning | scripts/daily_fetcher.py:399-403 | the start date lies exactly the given number of days before the date it is computed from |
| DailyFetcher.StartFromLastDate | scripts/daily_fetcher.py:399-403 | with stored data and a non-negative lookback the start is never after the last stored date and does not depend on the end date |
| DailyFetcher.StartWithoutData | scripts/daily_fetcher.py:394-397 | without stored data the start is 30 days before the end date, so strictly before it |
| DailyFetcher.LatestOnOrBefore | scripts/daily_fetcher.py:354-366 | the latest open day on or before the reference day: none iff there is no such day, otherwise one of the days and at least every such day |
| DailyFetcher.LastTradeDate | scripts/daily_fetcher.py:332-368 | an explicit target is returned unchanged; otherwise the result is never after the reference day (today from 18:00, yesterday before) and is the latest open day up to it when the calendar has one |
| DailyFetcher.ValidateCategories | scripts/daily_fetcher.py:371-379 | the valid categories are exactly the given ones that are known |
| DailyFetcher.ValidateKeepsOrder | scripts/daily_fetcher.py:373 | validation keeps the given order: the kept categories are a subsequence of the input |
| DailyFetcher.SeqOfSet | scripts/daily_fetcher.py:115 | the union of the date keys is listed with each date once |
| DailyFetcher.DatesDesc | scripts/daily_fetcher.py:115 | the dates of either count, each once, strictly newest first |
| DailyFetcher.SortDistinct | scripts/daily_fetcher.py:115 | sorting distinct dates gives a strictly ascending list of the same dates |
| DailyFetcher.ReverseDescending | scripts/daily_fetcher.py:115 | reversing a strictly ascending list gives a strictly descending list of the same dates |
| DailyFetcher.ComparisonRows | scripts/daily_fetcher.py:104-131 | the table shows the newest 15 dates of either count, newest first; each row holds both counts (0 where missing) and their change; the total adds the changes up |
| DailyFetcher.BuildRows | scripts/daily_fetcher.py:122-131 | the row loop builds one row per shown date, in order, and sums the changes |
| DailyFetcher.ShownAreNewest | scripts/daily_fetcher.py:124 | the first 15 dates newest first are the newest 15 dates: every date left out is older than every date shown |
| DailyFetcher.TableWindow | scripts/daily_fetcher.py:529-541 | the window computed step by step is `Window`, and it reports a raise exactly when `Window` is absent |
| DailyFetcher.RunCategory | scripts/daily_fetcher.py:526-579 | the table loop of a category fetches each table over its own window and ends where `CategoryLoop` does; it reports a raise exactly when `CategoryLoop` does |
| DailyFetcher.DryRunCategory | scripts/daily_fetcher.py:500-517 | the dry-run loop over a category's tables records what `DryRanges` does, or raises when it does |
| DailyFetcher.RunDailyFetch | scripts/daily_fetcher.py:480-588 | the category loop of `run_daily_fetch` ends where `DailyLoop` does, and raises exactly when it does |
| DailyFetcher.HitsLimitCons | scripts/daily_fetcher.py:560-574 | the streak reaches 3 on some raise-free prefix iff the first table did not raise and the streak reaches 3 after it or on a prefix of the rest |
| DailyFetcher.CategoryAbort | scripts/daily_fetcher.py:529-574 | a category aborts exactly when some prefix of its outcomes, before any raise, brings the consecutive-server-error count to 3, and the count is then 3; it raises exactly when it does not abort and some window raises; otherwise the count carried on is the count after all of its outcomes, below 3 |
| DailyFetcher.CategoryStep | scripts/daily_fetcher.py:548-578 | a table of a category that goes on adds itself once to `success` or `failed`, adds its stored rows only on success, and the loop carries on from the updated streak and result |
| DailyFetcher.CategoryPartition | scripts/daily_fetcher.py:526-579 | a category that neither raises nor aborts puts each of its tables in `success` or `failed`, and its stored count is what the successes stored |
| DailyFetcher.CategoryKeys | scripts/daily_fetcher.py:537-541 | a category that neither raises nor aborts records a window for exactly its tables |
| DailyFetcher.CategoryRanges | scripts/daily_fetcher.py:537-541 | every window a category records, aborted or not, is that table's window |
| DailyFetcher.DryRangesMeaning | scripts/daily_fetcher.py:500-515 | the dry run's windows exist iff every table's window does, and are then each table's window with its lookback, for exactly the listed tables |
| DailyFetcher.DryRunRaises | scripts/daily_fetcher.py:499-523 | a dry run raises exactly when some table's window raises |
| DailyFetcher.DryRunSkipsAll | scripts/daily_fetcher.py:499-523 | a dry run that does not raise fetches nothing, never aborts, and lists every table of every category as skipped, with its window and lookback |
| DailyFetcher.RunWindows | scripts/daily_fetcher.py:505-541 | every window a run records, dry or not, is its table's window |
| DailyFetcher.FixedDateWindows | scripts/daily_fetcher.py:506-538 | without `auto_range` the run never raises, no last date is read, and every window starts and ends at the end date |
| DailyFetcher.IncrementalWindows | scripts/daily_fetcher.py:531-533 | with `auto_range` every recorded window ends at the end date and starts at `calculate_start_date` of that table's last stored date and lookback |
| DailyFetcher.NeverRaises | scripts/daily_fetcher.py:526-579 | a run in which every table's window is computable does not raise |
| DailyFetcher.CategoryLoopSome | scripts/daily_fetcher.py:526-579 | a category whose windows are all computable does not raise |
| DailyFetcher.RaisesOnBadDate | scripts/daily_fetcher.py:531-533 | a run raises only under `auto_range`, and only for a table whose `calculate_start_date` raises |
| DailyFetcher.ExitStatusIff | scripts/daily_fetcher.py:746-747 | the process exits with status 1 exactly when some category has a failed table |
| DataValidation.InitialDaily | src/tushare_duckdb/data_validation.py:53-57 | the per-day table is set up iff a detailed, regular range check has expected days, with one empty row per expected day in order |
| DataValidation.GroupDates | src/tushare_duckdb/data_validation.py:116-130 | the grouped days are exactly the stored dates inside the window |
| DataValidation.DayCounts | src/tushare_duckdb/data_validation.py:116-130 | `daily_counts` holds each grouped day with its row count, or its distinct-code count for the tables counted that way |
| DataValidation.Dict | src/tushare_duckdb/data_validation.py:131 | `count_dict` has exactly the non-empty days of `daily_counts` |
| DataValidation.Summary | src/tushare_duckdb/data_validation.py:139 | the missing range reads 'no gaps' iff nothing is missing, and otherwise names the first and last missing day and their count |
| DataValidation.BelowDates | src/tushare_duckdb/data_validation.py:141-148 | the anomalous days are exactly the days whose count is below `max(mean - 2·std, 1)`, and there are none iff no count is below it |
| DataValidation.EffectiveDays | src/tushare_duckdb/data_validation.py:109-112 | the effective expected days are the expected days on or after the effective start |
| DataValidation.Missing | src/tushare_duckdb/data_validation.py:137 | the missing days are exactly the effective expected days without stored rows |
| DataValidation.CoveredAndMissing | src/tushare_duckdb/data_validation.py:137-138 | the covered days and the missing days add up to all effective expected days |
| DataValidation.Assess | src/tushare_duckdb/data_validation.py:136-149 | coverage counts the expected days with rows out of all expected days; the range reports no gaps iff every expected day has rows; anomalies are judged on the per-day counts |
| DataValidation.EffectiveStart | src/tushare_duckdb/data_validation.py:104-110 | the effective start is the later of the requested start and the table's earliest stored date |
| DataValidation.CheckTable | src/tushare_duckdb/data_validation.py:63-193 | every table gets exactly one status row, named after it |
| DataValidation.WithColumn | src/tushare_duckdb/data_validation.py:150-160 | writing a table's per-day column keeps the number of per-day rows |
| DataValidation.SetColumn | src/tushare_duckdb/data_validation.py:150-160 | the `for i in range(len(valid_days))` loop writes exactly the table's per-day column |
| DataValidation.GetDatabaseStatus | src/tushare_duckdb/data_validation.py:9-210 | `get_database_status` returns the report `StatusReport` describes, and nothing for no tables |
| DataValidation.OneRowPerTable | src/tushare_duckdb/data_validation.py:63-193 | the loop adds one status row per table, named after it, in table order |
| DataValidation.LoopKeepsRows | src/tushare_duckdb/data_validation.py:63-193 | the rows already collected stay in front of the new ones |
| DataValidation.LoopKeepsDays | src/tushare_duckdb/data_validation.py:63-193 | the per-day table keeps one row per expected day throughout the loop |
| DataValidation.IrregularSticky | src/tushare_duckdb/data_validation.py:89-107 | once `irregular` is set it stays set, and later rows carry no quality entries unless they are error rows |
| DataValidation.IrregularStaysSet | src/tushare_duckdb/data_validation.py:63-193 | once `irregular` is set, every later row of the call is an error row or has no quality entries |
| DataValidation.MissingTableRow | src/tushare_duckdb/data_validation.py:64-75 | a missing table gets 'N/A' dates, 0 records, and 0 on every day of the per-day table |
| DataValidation.RegularTableScan | src/tushare_duckdb/data_validation.py:99-104 | a date-keyed table in a range check records its own earliest date for later tables and leaves `irregular` unset |
| DataValidation.RegularTableRecords | src/tushare_duckdb/data_validation.py:92-104 | a date-keyed table reports its stored date range and row count |
| DataValidation.CoverageOfRegularTable | src/tushare_duckdb/data_validation.py:109-149 | the quality entries are assessed on the expected days from the effective start against the days with rows in the window |
| DataValidation.Measured | src/tushare_duckdb/data_validation.py:114 | a date-keyed table with expected days left is measured |
| DataValidation.StoredDaysMeaning | src/tushare_duckdb/data_validation.py:116-136 | a day counts as stored iff it is a non-empty date of a row inside the window |
| DataValidation.DictKeys | src/tushare_duckdb/data_validation.py:131 | a day is a key of `count_dict` iff it is a non-empty grouped day |
| DataValidation.IrregularFirstTable | src/tushare_duckdb/data_validation.py:105-110 | a table without its date column that comes before any date-keyed table in a range check reads the unset `earliest_table_date` and gets the error row |
| DataValidation.StoredDateBounds | src/tushare_duckdb/data_validation.py:92-104 | the reported earliest and latest dates bound every stored date |
| DataValidation.DistinctAtMostRows | src/tushare_duckdb/data_validation.py:116-130 | a day's distinct-code count never exceeds its row count |
| DataValidation.EvenCountsNoAnomaly | src/tushare_duckdb/data_validation.py:141-148 | when every day has the same positive count, no day is anomalous |
| Fetcher.TryPage | src/tushare_duckdb/fetcher.py:28-52 | a page that arrives is the result set's slice at the offset |
| Fetcher.QueryWithRetries | src/tushare_duckdb/fetcher.py:28-52 | the retry loop for one page ends exactly as `TryPage` describes, with the same waits |
| Fetcher.FetchData | src/tushare_duckdb/fetcher.py:10-62 | `fetch_data` returns the result and makes the waits of the paging loop `Paging` |
| Fetcher.ChainedAt | src/tushare_duckdb/fetcher.py:21-54 | request `i` is at the initial offset plus `i` pages of `limit` rows |
| Fetcher.PagingChained | src/tushare_duckdb/fetcher.py:21-54 | once every page so far was full, the loop ends with chained requests and a short or failed last page |
| Fetcher.ChainedLast | src/tushare_duckdb/fetcher.py:53-54 | a failed or short page ends the loop chained |
| Fetcher.ChainedNext | src/tushare_duckdb/fetcher.py:42-54 | after full pages only, a full page moves the loop to a later offset within the result set, one page of `limit` rows past the last request, and the loop goes on |
| Fetcher.PagingStops | src/tushare_duckdb/fetcher.py:53-54 | a failed or short page is the loop's last step |
| Fetcher.PagingGoesOn | src/tushare_duckdb/fetcher.py:42-54 | a full page is followed by the loop from the next offset |
| Fetcher.LastStep | src/tushare_duckdb/fetcher.py:53-54 | a short page after full ones ends the trace chained |
| Fetcher.FullStep | src/tushare_duckdb/fetcher.py:42 | a full page keeps the trace chained with the next request `limit` rows on |
| Fetcher.OffsetsAdvanceByRawCount | src/tushare_duckdb/fetcher.py:21-54 | request `i` is at the initial offset plus `i·limit` (all-null rows dropped later still count); every page but the last was full and the last was short |
| Fetcher.TryReliable | src/tushare_duckdb/fetcher.py:28-43 | with an API that never fails every query succeeds at the first attempt, without waiting |
| Fetcher.KeptConcat | src/tushare_duckdb/fetcher.py:39-41 | the kept part of a page is the page without its all-null rows |
| Fetcher.ReliablePaging | src/tushare_duckdb/fetcher.py:21-54 | without errors the paging loop never waits and collects the rest of the result set without its all-null rows |
| Fetcher.ReliableNextPage | src/tushare_duckdb/fetcher.py:39-54 | a full page followed by the rest collected from the next offset collects the rest from this one |
| Fetcher.ReliableLastPage | src/tushare_duckdb/fetcher.py:36-54 | without errors a short page collects the rest of the result set |
| Fetcher.ReliableFullPage | src/tushare_duckdb/fetcher.py:39-42 | a full page ahead of a run that collects the rest from the next offset collects the rest from this one |
| Fetcher.PagingAfterFullPage | src/tushare_duckdb/fetcher.py:42-54 | a full page that arrived continues the loop at the offset after it |
| Fetcher.StepPages | src/tushare_duckdb/fetcher.py:39-41 | a page that arrived adds its non-all-null rows to the collected ones without waiting |
| Fetcher.RestSplit | src/tushare_duckdb/fetcher.py:42 | the rest of the result set is this page followed by the rest after it |
| Fetcher.ReliableFetch | src/tushare_duckdb/fetcher.py:10-62 | without errors the call returns the whole result set from offset 0, all-null rows dropped and de-duplicated on the unique keys keeping the last, and never waits |
| Fetcher.Backoff | src/tushare_duckdb/fetcher.py:48-49 | the waits after other errors are 1, 2, 4, … seconds, doubling with each attempt |
| Fetcher.BackoffThenSuccess | src/tushare_duckdb/fetcher.py:28-49 | other errors followed by a success before the last attempt deliver the page after exponential waits |
| Fetcher.LastAttemptFailure | src/tushare_duckdb/fetcher.py:48-52 | an error other than rate limiting on the last attempt ends the retry loop with a failure |
| Fetcher.FailureDiscards | src/tushare_duckdb/fetcher.py:50-52 | that failure makes the whole call return an empty frame, discarding the pages already collected |
| Fetcher.Cooldowns | src/tushare_duckdb/fetcher.py:45-47 | every rate-limit error waits 65 seconds |
| Fetcher.ThrottledThrough | src/tushare_duckdb/fetcher.py:45-47 | rate-limit errors on every remaining attempt use them up with 65-second waits and no failure |
| Fetcher.ThrottledPageKeepsCollected | src/tushare_duckdb/fetcher.py:28-62 | a page rate-limited on every attempt ends paging without discarding anything: the call returns the pages collected before it |
| Fetcher.ResultKeysUnique | src/tushare_duckdb/fetcher.py:56-61 | the returned frame never has two rows with the same unique-key values, and a row whose key does not occur later is kept |
| Fetcher.EmptyResult | src/tushare_duckdb/fetcher.py:52-62 | an aborted run or one that collected nothing returns an empty frame, and an empty result of a run that did not abort means nothing was collected |
| FixDailyGaps.NewRows | scripts/fix_daily_gaps.py:124-130 | the new rows are exactly the fetched rows whose code has no stored row on that day, in frame order |
| FixDailyGaps.FetchDate | scripts/fix_daily_gaps.py:110-155 | one date on the database is the visit `VisitDate` describes, and changes the tables as `Apply` says |
| FixDailyGaps.FetchFromApi | scripts/fix_daily_gaps.py:86-157 | a dry run calls nothing and changes nothing; a real run requests every date in order and ends with the tables and stats of `Run` |
| FixDailyGaps.ProjectKeeps | scripts/fix_daily_gaps.py:136-145 | the inserted row keeps every `daily` column of the fetched row |
| FixDailyGaps.VisitMeaning | scripts/fix_daily_gaps.py:110-155 | only an empty response skips a date; an API exception is an error counting nothing; a written date inserts exactly the projections of the fetched rows whose code had no stored row that day |
| FixDailyGaps.VisitKeeps | scripts/fix_daily_gaps.py:121-150 | one date inserts at most what it fetched, touches nothing but `daily`, and only appends there |
| FixDailyGaps.RefetchWritesNothing | scripts/fix_daily_gaps.py:124-147 | fetching a written date again with the same rows of that date inserts nothing |
| FixDailyGaps.AllKnownAfter | scripts/fix_daily_gaps.py:124-147 | once the new rows are stored, every fetched code is known on that day |
| FixDailyGaps.RunAccounts | scripts/fix_daily_gaps.py:102-157 | over a run `inserted` never exceeds `fetched` and equals the rows appended to `daily`; every date is skipped, an error or written; no stored row is altered or removed |
| FixDailyGaps.AccountsStep | scripts/fix_daily_gaps.py:102-155 | the run's accounts hold after one more date |
| FixDailyGaps.RunAllFailing | scripts/fix_daily_gaps.py:152-155 | a run over dates that all fail leaves the tables alone and lists every date as an error, in order |
| FixDailyGaps.Unmatched | scripts/fix_daily_gaps.py:174-180 | the unmatched rows are exactly the `bak_daily` rows without a `daily` row of the same code and date |
| FixDailyGaps.SupplementFromBak | scripts/fix_daily_gaps.py:160-201 | the call leaves the tables and count of `Supplement`, and changes nothing when it raises |
| FixDailyGaps.SupplementCounts | scripts/fix_daily_gaps.py:172-198 | the dry run changes nothing and announces exactly the count a real run inserts, one per unmatched row; a real run only appends to `daily` |
| FixDailyGaps.SupplementCloses | scripts/fix_daily_gaps.py:184-198 | after a real run the only `bak_daily` rows still unmatched are those with a NULL code or date |
| GhostCodes.Add | scripts/find_ghost_codes.py:26-29 | recording a table's ghosts adds exactly those codes as keys |
| GhostCodes.Record | scripts/find_ghost_codes.py:26-29 | the `for g in ghosts` loop appends the table to the entry of every ghost, creating missing entries |
| GhostCodes.RecordStep | scripts/find_ghost_codes.py:27-29 | one more ghost's entry gets the table appended |
| GhostCodes.AddOne | scripts/find_ghost_codes.py:27-29 | recording one more ghost is one map update |
| GhostCodes.AddNothing | scripts/find_ghost_codes.py:26 | a table without ghosts leaves the map unchanged |
| GhostCodes.FindGhostCodes | scripts/find_ghost_codes.py:9-52 | the script builds the ghost map over the four tables in order, and writes the report iff some ghost was found |
| GhostCodes.GhostIff | scripts/find_ghost_codes.py:14-31 | a code is a ghost iff some scan that did not raise saw it and `stock_basic` lacks it |
| GhostCodes.GhostMapStep | scripts/find_ghost_codes.py:21-31 | after one more scan a ghost's entry is its earlier entry plus that table when the scan saw it |
| GhostCodes.GhostMapSources | scripts/find_ghost_codes.py:21-31 | a ghost's entry is the list of tables whose scan saw it |
| GhostCodes.NoSources | scripts/find_ghost_codes.py:21-31 | a code that is not a ghost was seen by no scan as one |
| GhostCodes.SourcesInScanOrder | scripts/find_ghost_codes.py:18-31 | the source list names exactly the scans that saw the code, in scan order |
| GhostCodes.SourcesDistinct | scripts/find_ghost_codes.py:18-31 | each table appears at most once in a ghost's source list |
| InteractiveFinance.NewYear | interactive_finance_update.py:198-201 | jumping to January of the next year keeps a valid day and moves strictly forward |
| InteractiveFinance.GenerateQuarters | interactive_finance_update.py:185-209 | the generator loop returns exactly `Quarters`, or raises where `strptime` does |
| InteractiveFinance.FinQuartersMembers | interactive_finance_update.py:190-208 | the loop from a day collects exactly the 31 March, 30 June and 30 September ends from that day to the end date |
| InteractiveFinance.FinQuartersSound | interactive_finance_update.py:202-206 | every collected date is a March, June or September quarter end inside the window |
| InteractiveFinance.FinQuartersComplete | interactive_finance_update.py:190-208 | every March, June or September quarter end inside the window is collected |
| InteractiveFinance.FinQuartersAscending | interactive_finance_update.py:190-208 | the collected dates are strictly ascending |
| InteractiveFinance.QuartersExact | interactive_finance_update.py:185-209 | `generate_quarters` raises iff a bound is not an 8-digit date; otherwise it gives exactly the 0331, 0630 and 0930 dates in [start, end], ascending, and never a December quarter end |
| InteractiveFinance.ValidPeriodOfDay | interactive_finance_update.py:211-214 | on a formatted day the period check holds exactly at the four quarter ends |
| InteractiveFinance.TwoDigits | interactive_finance_update.py:213 | two decimal digits have the value their characters spell |
| InteractiveFinance.QuarterEndSuffix | interactive_finance_update.py:213-214 | a quarter end's month and day spell a listed suffix |
| InteractiveFinance.SuffixValues | interactive_finance_update.py:213-214 | a listed suffix spells one of the four quarter ends |
| InteractiveFinance.GeneratedPeriodsValid | interactive_finance_update.py:501-504 | the valid-period filter lets every generated quarter through unchanged |
| InteractiveFinance.OverwriteWindow | interactive_finance_update.py:520-526 | overwriting a quarter uses `replace` and deletes exactly the stored rows whose date column equals that quarter |
| InteractiveFinance.RetryStep | interactive_finance_update.py:220-232 | a failed attempt waits 5·(attempt + 1) seconds before the attempts after it |
| InteractiveFinance.QueryWithRetries | interactive_finance_update.py:220-234 | the retry loop for one offset ends as `TryQuery` describes |
| InteractiveFinance.PagesAfterIs | interactive_finance_update.py:219-237 | the loop from an offset, carrying what it has collected, ends with that followed by what paging from the offset gives |
| InteractiveFinance.PagesAfterStep | interactive_finance_update.py:227-236 | one full page moves the collected data, waits and offsets on past it |
| InteractiveFinance.PageOnce | interactive_finance_update.py:219-236 | one pass of the `while True` loop either ends the call as paging describes or moves to a later offset without changing the outcome |
| InteractiveFinance.PagenationVip | interactive_finance_update.py:216-237 | `pagenation_vip` returns the rows, makes the waits and queries the offsets `Pages` describes, raising when three attempts at one offset fail |
| InteractiveFinance.ThenNothing | interactive_finance_update.py:217-218 | nothing collected before the loop adds nothing |
| InteractiveFinance.ThenAssoc | interactive_finance_update.py:227-228 | collecting a page and then the rest equals collecting both at once |
| InteractiveFinance.Exhausted | interactive_finance_update.py:230-234 | three failing attempts wait 5, 10 and 15 seconds and then raise |
| InteractiveFinance.TryQueryServes | interactive_finance_update.py:220-232 | a successful attempt serves the slice at the offset; the waits before it grow by 5 seconds each and there are at most three |
| InteractiveFinance.SpacedCons | interactive_finance_update.py:228 | offsets `limit` apart stay so with one more in front |
| InteractiveFinance.FullPageStep | interactive_finance_update.py:228-236 | a page that does not end the loop is full, and the offsets go on from `limit` rows later |
| InteractiveFinance.OffsetsStep | interactive_finance_update.py:219-236 | the offsets queried are offset, offset + limit, offset + 2·limit, … |
| InteractiveFinance.ReliablePages | interactive_finance_update.py:216-237 | an API that never raises gives back the rest of its result set, without waiting |
| InteractiveFinance.MapRows | interactive_finance_update.py:262-322 | a column-wise assignment rewrites every row and keeps the row count |
| InteractiveFinance.RenameRow | interactive_finance_update.py:262 | renaming keeps every cell under the cleaned name of its column, and adds no other column |
| InteractiveFinance.Renamed | interactive_finance_update.py:262 | the renamed frame has the same rows under the cleaned names |
| InteractiveFinance.FillStep | interactive_finance_update.py:264-286 | the three fills keep the row count |
| InteractiveFinance.KeepFields | interactive_finance_update.py:291-295 | the field filter keeps exactly the configured fields (lower-cased) and the preserved columns, with their cells |
| InteractiveFinance.FieldStep | interactive_finance_update.py:288-295 | the field filter keeps every row |
| InteractiveFinance.Versions | interactive_finance_update.py:303-306 | every row gets as update_flag the text of its version number, and nothing else changes |
| InteractiveFinance.FlagStep | interactive_finance_update.py:297-317 | the update_flag steps keep every row |
| InteractiveFinance.FinalStep | interactive_finance_update.py:319-329 | formatting and the null check never add rows |
| InteractiveFinance.Prepared | interactive_finance_update.py:262-295 | renaming, filling and the field filter keep every row |
| InteractiveFinance.Clean | interactive_finance_update.py:257-332 | an empty frame comes back as it is with zero counts; otherwise the removed count is 0 and the kept count is the returned row count, at most the input's |
| InteractiveFinance.CleanFinanceDf | interactive_finance_update.py:257-332 | `clean_finance_df` returns the frame and counts of `Clean` |
| InteractiveFinance.LowerSpace | interactive_finance_update.py:262 | lower-casing a character does not change whether it is whitespace |
| InteractiveFinance.LowerIdempotent | interactive_finance_update.py:262 | lower-casing twice is lower-casing once, and leaves no capital letter |
| InteractiveFinance.ColumnNameIdempotent | interactive_finance_update.py:262 | a cleaned column name has no surrounding whitespace and no capital letter, so cleaning it again changes nothing |
| InteractiveFinance.FillCountRow | interactive_finance_update.py:264-284 | a row with a blank ann_date is counted by exactly one of the three fills |
| InteractiveFinance.FillCountRows | interactive_finance_update.py:264-284 | the three mask counts add up to the rows with a blank ann_date |
| InteractiveFinance.FillCounts | interactive_finance_update.py:264-286 | `ann_date_filled` counts every row whose ann_date was null or empty once, even when the last fill leaves it blank |
| InteractiveFinance.FillMeaning | interactive_finance_update.py:266-284 | ann_date is kept when present, else taken from f_ann_date, else from end_date, else set to end_date's blank value or to 20990101 without an end_date column; nothing else changes |
| InteractiveFinance.FormatCellMeaning | interactive_finance_update.py:320-322 | formatting keeps a real YYYYMMDD date as it is and turns anything else into null |
| InteractiveFinance.FormatDatesKeeps | interactive_finance_update.py:320-322 | formatting touches only the three date columns and keeps the set of columns |
| InteractiveFinance.FinalStepFrom | interactive_finance_update.py:319-329 | every row returned is an input row with its dates formatted |
| InteractiveFinance.CleanStages | interactive_finance_update.py:257-332 | the clean-up is the fill and field steps, then the update_flag steps, then formatting and the null check |
| InteractiveFinance.FlagStepKeys | interactive_finance_update.py:297-317 | the update_flag steps add at most the update_flag column and change no other cell |
| InteractiveFinance.FieldStepKeys | interactive_finance_update.py:291-295 | with fields configured, a kept column is preserved or a lower-cased configured field |
| InteractiveFinance.FieldsKept | interactive_finance_update.py:288-295 | with fields configured, only the lower-cased fields and the preserved columns come out |
| InteractiveFinance.AnnColumnKept | interactive_finance_update.py:264-322 | an ann_date column in the input reaches the formatted frame |
| InteractiveFinance.NoAnnColumn | interactive_finance_update.py:264-322 | without an ann_date column nothing adds one |
| InteractiveFinance.AnnDatesCore | interactive_finance_update.py:324-329 | after the null check every row has a real YYYYMMDD ann_date |
| InteractiveFinance.AnnDatesFinal | interactive_finance_update.py:257-332 | with an ann_date column every row returned has a real YYYYMMDD ann_date; without one no row is dropped |
| InteractiveFinance.PrecedesTrans | interactive_finance_update.py:303-304 | the sort order of the versions is transitive |
| InteractiveFinance.PrecedesTotal | interactive_finance_update.py:303-304 | of two different rows one sorts before the other |
| InteractiveFinance.NotPrecedesSelf | interactive_finance_update.py:303-304 | no row sorts before itself |
| InteractiveFinance.RankBelow | interactive_finance_update.py:306 | a row sorted before another of its group gets a smaller count |
| InteractiveFinance.NatStrInjective | interactive_finance_update.py:306 | different counts have different texts |
| InteractiveFinance.VersionsDistinct | interactive_finance_update.py:303-306 | two rows of one (ts_code, end_date, bz_item, bz_code) group get different versions |
| InteractiveFinance.FormatKeyMatch | interactive_finance_update.py:320-322 | formatting leaves a complete key and the update_flag as they were |
| InteractiveFinance.KeysPresent | interactive_finance_update.py:298-309 | a complete key after the flag step means the frame had all four key columns |
| InteractiveFinance.KeysPresentOut | interactive_finance_update.py:298-329 | a returned row with a complete key means the frame had all four key columns |
| InteractiveFinance.VersionsUniqueCore | interactive_finance_update.py:303-329 | returned rows of one group with the same version are the same row |
| InteractiveFinance.VersionsUnique | interactive_finance_update.py:298-329 | for fina_mainbz, returned rows agreeing on the key and the version are the same row |
| InteractiveFinance.MainbzStep | interactive_finance_update.py:298-306 | with all four key columns, fina_mainbz rows are versioned, sorted by ann_date when the frame has it |
| InteractiveFinance.VersionPair | interactive_finance_update.py:303-306 | two versioned rows agreeing on the key and the version are one row |
| InteractiveFinance.MainbzUnique | interactive_finance_update.py:297-332 | for fina_mainbz no two rows returned agree on all four non-null key columns and on update_flag |
| InteractiveFinance.MainbzDefault | interactive_finance_update.py:308-309 | fina_mainbz without all four key columns gets version "0" on every row |
| InteractiveFinance.DividendCore | interactive_finance_update.py:312-316 | every dividend row returned has an update_flag taken from an input row |
| InteractiveFinance.DividendFlags | interactive_finance_update.py:312-316 | every dividend row returned has an update_flag: a missing one became "0", a present one is kept |
| InteractiveStock.NextQuarter | interactive_stock_update.py:59 | adding three months to a quarter start gives a later quarter start |
| InteractiveStock.QuarterLast | interactive_stock_update.py:55 | three months on, less a day, is a valid day after the quarter start whose next day is the next quarter's start |
| InteractiveStock.TilesCons | interactive_stock_update.py:54-59 | a first window clipped to the end date, followed by windows tiling from the next quarter, tiles from the current quarter |
| InteractiveStock.WindowsTile | interactive_stock_update.py:48-60 | the windows start at the start year's 1 January, follow each other without gap or overlap, stay inside the range and end exactly at the end date; none when the end precedes the start |
| InteractiveStock.WindowsCover | interactive_stock_update.py:48-60 | every day from the start to the end date lies in exactly one window |
| InteractiveStock.WindowsOrdered | interactive_stock_update.py:48-60 | later windows start after earlier ones end |
| InteractiveStock.WindowHead | interactive_stock_update.py:55-58 | the first window is the quarter clipped to the end date, and its days are within Python's year range |
| InteractiveStock.Labels | interactive_stock_update.py:58 | one (start, end) pair of YYYYMMDD strings per window, in order |
| InteractiveStock.QuarterWindows | interactive_stock_update.py:48-53 | when neither datetime nor strptime raises, every window's days are formattable dates |
| InteractiveStock.QuarterStep | interactive_stock_update.py:55-59 | one loop pass emits the formatted pair of the current window and advances to the next quarter start |
| InteractiveStock.GenerateQuarters | interactive_stock_update.py:48-60 | the loop returns exactly the formatted window list, or fails exactly when the start year or the end date is invalid |
| InteractiveStock.PagesAfterIs | interactive_stock_update.py:62-77 | the pager loop from an offset after collected frames returns the collected frames followed by the rest of the pages |
| InteractiveStock.PagenationQuarter | interactive_stock_update.py:62-77 | the imperative pager returns the joined pages, or nothing when a call raises |
| InteractiveStock.QuarterPagesReliable | interactive_stock_update.py:65-76 | without faults the pager from an offset returns the rows up to the first page boundary at or past 100000 |
| InteractiveStock.LastQuarterPage | interactive_stock_update.py:68-76 | an empty page, a short page or reaching the offset cap ends the paging with the rows read so far |
| InteractiveStock.NextQuarterPage | interactive_stock_update.py:70-73 | a full page below the cap is kept and paging continues at the next offset |
| InteractiveStock.PagenationQuarterReliable | interactive_stock_update.py:62-77 | without faults the whole result set comes back when it holds at most 100000 rows, and never more than 100000 plus one page |
| InteractiveStock.FaultLosesPages | interactive_stock_update.py:67 | a call that raises after a full page loses every page already read |
| InteractiveStock.ResumeYearMeaning | interactive_stock_update.py:186-194 | stk_managers resumes from the stored date's year, from 2014 when nothing usable is stored, and from 2015 when the stored text does not start with a number |
| InteractiveStock.RewardBatches | interactive_stock_update.py:216-221 | the loop produces the 20-code slices of the stock list in order |
| InteractiveStock.BatchesCover | interactive_stock_update.py:220-221 | the batches joined give back every code in order; each holds 1 to 20 codes and only the last may hold fewer |
| InteractiveStock.MenuChoiceMeaning | interactive_stock_update.py:163-171 | q quits, a number k in 1..n picks table k-1, and anything else shows the validation report |
| FinanceLoader.FlagDigits | dashboard/finance_data_loader.py:47 | the cleaned update_flag text consists of digits only |
| FinanceLoader.FlagRankMeaning | dashboard/finance_data_loader.py:45-50 | a null flag ranks 0, a flag of digits ranks as its number, a flag without digits ranks 0, and only the empty string makes the cast raise |
| FinanceLoader.Insert | dashboard/finance_data_loader.py:57 | inserting a row adds exactly that row to the frame's multiset |
| FinanceLoader.SortRows | dashboard/finance_data_loader.py:57 | the sort loses and adds no row |
| FinanceLoader.InsertSorted | dashboard/finance_data_loader.py:57 | inserting into a sorted frame keeps it sorted |
| FinanceLoader.SortRowsSorted | dashboard/finance_data_loader.py:57 | the sort orders rows by end date, announcement date and flag rank, all descending with unparsable dates last, and is a permutation |
| FinanceLoader.LaterTrans | dashboard/finance_data_loader.py:57 | the descending date order with NaT last is transitive |
| FinanceLoader.AheadTrans | dashboard/finance_data_loader.py:57 | the three-key descending order is transitive |
| FinanceLoader.DedupByEndDate | dashboard/finance_data_loader.py:41-59 | every row returned is a row of the input |
| FinanceLoader.FilterSortedRows | dashboard/finance_data_loader.py:58 | dropping rows from a sorted frame keeps it sorted |
| FinanceLoader.DedupFirstBest | dashboard/finance_data_loader.py:58 | in a sorted frame the first row of an end date has no rival of that end date sorting before it |
| FinanceLoader.DedupFirstSorted | dashboard/finance_data_loader.py:58 | keeping the first row per end date keeps the frame sorted |
| FinanceLoader.SortedPairs | dashboard/finance_data_loader.py:57 | in a sorted frame no later row sorts strictly before an earlier one |
| FinanceLoader.DedupByEndDateCases | dashboard/finance_data_loader.py:42-48 | an empty frame or one without end_date is returned unchanged, and the call raises exactly when an update_flag cell is the empty string |
| FinanceLoader.DedupByEndDateBest | dashboard/finance_data_loader.py:57-58 | the row kept for an end date has no rival with that end date and a later announcement, nor with the same announcement and a higher flag rank |
| FinanceLoader.DedupByEndDateUnique | dashboard/finance_data_loader.py:58 | the output has pairwise distinct end dates and keeps every end date of the input |
| FinanceLoader.DedupByEndDateOrder | dashboard/finance_data_loader.py:57-59 | the output lists the newest end date first and unparsable end dates last |
| FinanceLoader.Top | dashboard/finance_data_loader.py:350-352 | the picked index is a valid report other than the skipped one, and one exists whenever two reports do |
| FinanceLoader.TopIsGreatest | dashboard/finance_data_loader.py:350 | no other report sorts strictly before the picked one |
| FinanceLoader.Piotroski | dashboard/finance_data_loader.py:342-396 | there is no total and no details exactly when fewer than two reports are given |
| FinanceLoader.PiotroskiBounds | dashboard/finance_data_loader.py:354-396 | with two or more reports the total lies in 1..9, no-dilution always scores 1, and the total is 9 exactly when every criterion holds |
| FinanceLoader.PiotroskiCompares | dashboard/finance_data_loader.py:350-352 | the latest report is the newest one, the prior is the newest of the others, and they are different reports |
| FinanceLoader.MissingScoresZero | dashboard/finance_data_loader.py:357-393 | a criterion whose indicator is missing in a report it reads scores 0 |
| FinanceLoader.EmptyReportsScoreOne | dashboard/finance_data_loader.py:354-396 | two reports without indicators score exactly 1 |
| MarketInsights.DisplayName | dashboard/market_insights_loader.py:43-46 | the name is the code, " - ", then the code's entry in the index table, or the code again when it has none |
| MarketInsights.PeValues | dashboard/market_insights_loader.py:278 | the sector's non-null PE values are at most as many as the rows |
| MarketInsights.PeValuesMeaning | dashboard/market_insights_loader.py:278 | a value is among the PE values exactly when some row of the sector carries it as a non-null PE |
| MarketInsights.CountBelow | dashboard/market_insights_loader.py:285 | the count of values below the current PE is at most the number of values |
| MarketInsights.CountBelowSelf | dashboard/market_insights_loader.py:285 | when the current PE is one of the values, fewer than all values lie below it |
| MarketInsights.CountBelowZero | dashboard/market_insights_loader.py:285 | no value lies below the current PE exactly when it is at most every value |
| MarketInsights.SeqMin | dashboard/market_insights_loader.py:290 | the minimum is one of the values and at most each of them |
| MarketInsights.SeqMax | dashboard/market_insights_loader.py:291 | the maximum is one of the values and at least each of them |
| MarketInsights.PePercentile | dashboard/market_insights_loader.py:267-294 | there is no result exactly when the sector has no non-null PE |
| MarketInsights.PePercentileBounds | dashboard/market_insights_loader.py:282-291 | the percentile lies in [0, 100), it is 0 exactly when the current PE is the minimum, min <= current <= max, and the current PE is one of the sector's values |
| MarketInsights.Peak | dashboard/market_insights_loader.py:455-459 | the running peak is the greatest price seen so far and is one of them |
| MarketInsights.MaxDrawdown | dashboard/market_insights_loader.py:451-463 | the maximum drawdown is non-negative and at least every day's drawdown |
| MarketInsights.CalculateMaxDrawdown | dashboard/market_insights_loader.py:451-463 | the loop returns the maximum drawdown of the whole series, 0 for an empty one |
| MarketInsights.MaxDrawdownAttained | dashboard/market_insights_loader.py:456-462 | the maximum drawdown is 0 or some day's drawdown, and it is below 1 |
| MarketInsights.DrawdownBelowOne | dashboard/market_insights_loader.py:460 | with positive prices a day's drawdown lies in [0, 1) |
| MarketInsights.PeakOfRising | dashboard/market_insights_loader.py:458-459 | on a series that never falls the running peak is the current price |
| MarketInsights.RisingNoDrawdown | dashboard/market_insights_loader.py:451-463 | a price series that never falls has maximum drawdown 0 |
| MarketInsights.LiquidityOf | dashboard/market_insights_loader.py:602-607 | there is no score exactly when the sector has no rows |
| MarketInsights.LiquidityBounds | dashboard/market_insights_loader.py:609-629 | each subscore is at most 100 and 50 when its input is missing, the amount and market-cap subscores are positive, and the combined score is at most 100 and non-negative when the turnover subscore is |
| MarketInsights.AmountScoreCap | dashboard/market_insights_loader.py:612 | a positive amount scores amount/10 below 1000 and full marks from 1000 on |
| MainPlan.Names | src/tushare_duckdb/main.py:79 | the table names of a category, one per configured table, in configuration order |
| MainPlan.SelectTables | src/tushare_duckdb/main.py:80-83 | the selected tables are exactly the stripped tokens that name a configured table, and every table when no token does |
| MainPlan.ClampEnd | src/tushare_duckdb/main.py:113-116 | trade-day data never ends after today, a missing end means today, and an allowed end is kept |
| MainPlan.Earliest | src/tushare_duckdb/main.py:119-122 | the earliest supported date is at most every selected table's and is one of them |
| MainPlan.ClampStart | src/tushare_duckdb/main.py:123 | the start is never before the earliest supported date, a missing start means that date, and a later start is kept |
| MainPlan.PlanWindow | src/tushare_duckdb/main.py:74-181 | without years a known category raises on its first table exactly when it has no table, and otherwise plans the selected tables over a non-empty, clamped window, with every day of it for data that is not trade-day data |
| MainPlan.SelectNone | src/tushare_duckdb/main.py:79-83 | the selection is empty exactly when the category has no configured table, whatever was asked for |
| MainPlan.PlanNoTables | src/tushare_duckdb/main.py:79-108 | a known category's plan raises on `selected_tables_list[0]` exactly when the category has no configured table |
| MainPlan.PlanUnknown | src/tushare_duckdb/main.py:74-75 | the plan is rejected as an unknown category exactly when the category is not configured |
| MainPlan.FirstYearOnly | src/tushare_duckdb/main.py:129-140 | with years only the first year that has dates reaches the processor, and there is none exactly when no year has any |
| MainPlan.MenuMode | src/tushare_duckdb/main.py:396-401 | only modes 1, 2 and 3 are accepted; overwrite exactly for mode 2, force_fetch for modes 2 and 3 |
| MainPlan.ModeThreeIsModeOne | src/tushare_duckdb/main.py:400-401 | modes 3 and 1 share the overwrite setting and differ only in force_fetch |
| Db.DateValues | src/tushare_duckdb/metadata.py:57 | the values MIN and MAX aggregate are exactly the non-null values of the date column, at most one per row |
| Db.MinOf | src/tushare_duckdb/metadata.py:57 | MIN is NULL exactly for no values, and otherwise a value at or before every value |
| Db.MaxOf | src/tushare_duckdb/metadata.py:57 | MAX is NULL exactly for no values, and otherwise a value at or after every value |
| Metadata.CoverageBounds | src/tushare_duckdb/metadata.py:53-65 | the stored min_date never exceeds max_date, and every non-null date of the table lies between them |
| Metadata.CountWithAndWithoutFilter | src/tushare_duckdb/metadata.py:55-65 | without the filter the count includes rows with a null date; with it exactly those rows are left out |
| Metadata.NullSplit | src/tushare_duckdb/metadata.py:55-57 | the non-null dates and the null-date rows together account for every row |
| Metadata.Upsert | src/tushare_duckdb/metadata.py:75-83 | the upsert leaves one row per table name, the written one for this table and the others untouched |
| Metadata.InitMetadata | src/tushare_duckdb/metadata.py:6-24 | the metadata table is created empty only when absent; existing metadata and every data table are untouched |
| Metadata.UpdateMetadata | src/tushare_duckdb/metadata.py:26-89 | nothing changes when the metadata or the target table is missing; otherwise the whole stored table's coverage is upserted and the data tables are untouched |
| Processor.FetchLimit | src/tushare_duckdb/fetcher.py:13 | the page size fetch_data reads is positive, 2000 when the entry sets none |
| Processor.PagingLimit | src/tushare_duckdb/processor.py:117 | the page size of full paging is positive, 12000 when the entry sets none |
| Processor.PutRows | src/tushare_duckdb/processor.py:202-209 | one store_data call changes the database and returns the count exactly as the storage model says |
| Processor.CodeGrid | src/tushare_duckdb/processor.py:27-28 | one combination {'ts_code': c} per non-empty code, in the order given |
| Processor.DayResponses | src/tushare_duckdb/processor.py:246-254 | one response per date of the list |
| Processor.DailyLoopCons | src/tushare_duckdb/processor.py:246-268 | the standard loop takes the first date's step, stops there if it raised, and otherwise goes on adding only a non-negative count |
| Processor.CollectStep | src/tushare_duckdb/processor.py:279-285 | collecting stops at a raised request, skips an empty frame and keeps a non-empty one |
| Processor.MultiResponses | src/tushare_duckdb/processor.py:308-316 | one [first date, last date] response per combination |
| Processor.DeleteRange | src/tushare_duckdb/processor.py:291-292 | the direct DELETE keeps every table name and the metadata, or raises |
| Processor.LocalMax | src/tushare_duckdb/processor.py:107-112 | the local maximum is '19000101' or the greatest stored value of the date column |
| Processor.AsDatetime | src/tushare_duckdb/processor.py:154 | a cell survives the conversion only as a parsable YYYYMMDD date, unchanged |
| Processor.ConvertColumn | src/tushare_duckdb/processor.py:154 | converting the date column keeps every row of the page |
| Processor.PageGoesOn | src/tushare_duckdb/processor.py:138-160 | a page the loop stores lies inside the result set |
| Processor.PageLoopCons | src/tushare_duckdb/processor.py:120-170 | the paging loop stores a page that goes on and continues one limit further unless the store raised |
| Processor.Refresh | src/tushare_duckdb/processor.py:172 | refreshing the metadata leaves the data tables untouched |
| Processor.FetchRows | src/tushare_duckdb/fetcher.py:10-62 | the fetch returns the rows, or the exception, the fetcher model gives for these parameters |
| Processor.FetchOnlyRange | src/tushare_duckdb/processor.py:176-181 | the range-only fetch sends the one [first date, last date] request and returns its rows |
| Processor.ProcessRange | src/tushare_duckdb/processor.py:183-211 | range mode stores the window's rows once, with replace over the window (the whole table for a snapshot table) or insert_new, and returns 0 for no rows |
| Processor.DayStepRun | src/tushare_duckdb/processor.py:250-266 | one date's request, and the store of its rows over [d, d] when it returned any |
| Processor.DailyStep | src/tushare_duckdb/processor.py:246-268 | one pass of the standard loop takes exactly the step the loop model takes for that date |
| Processor.ProcessDailyLoop | src/tushare_duckdb/processor.py:246-268 | the standard loop requests each date in order, stores each non-empty response and totals the non-negative counts, stopping at an exception |
| Processor.DeleteThenInsertRows | src/tushare_duckdb/processor.py:289-300 | one DELETE of [first date, last date], then one insert_new of every collected row |
| Processor.CollectDates | src/tushare_duckdb/processor.py:279-285 | the per-date requests of one combination, keeping the non-empty frames in order |
| Processor.CollectGrid | src/tushare_duckdb/processor.py:273-287 | every combination's per-date frames, in grid then date order |
| Processor.BatchFetchAndStore | src/tushare_duckdb/processor.py:270-301 | the whole-grid batch collects every combination's per-date rows, then deletes the window once and inserts them, returning 0 when nothing came back |
| Processor.CollectMulti | src/tushare_duckdb/processor.py:308-316 | one window request per combination, keeping the non-empty frames in order |
| Processor.BatchFetchAndStoreMultiCode | src/tushare_duckdb/processor.py:303-330 | the multi-code batch collects each combination's window rows, then deletes the window once and inserts them, returning 0 when nothing came back |
| Processor.ProcessDaily | src/tushare_duckdb/processor.py:213-268 | single mode runs the whole-grid batch, the multi-code batch or the standard loop exactly as the table and the overwrite flag select |
| Processor.PageRun | src/tushare_duckdb/processor.py:120-170 | one pass of the paging loop stores the page when it goes on and takes exactly the loop model's step |
| Processor.PageAll | src/tushare_duckdb/processor.py:120-170 | the paging loop ends in the state and total of the loop model from offset 0 |
| Processor.ProcessFullPaging | src/tushare_duckdb/processor.py:103-174 | full paging from the local maximum stores pages until one brings nothing newer, then refreshes the table's metadata |
| Processor.GridStepRun | src/tushare_duckdb/processor.py:37-65 | one combination runs the strategy date_param_mode names and adds its count, or defers its range frame |
| Processor.ProcessDatesRun | src/tushare_duckdb/processor.py:15-99 | process_dates runs each combination in order, stops at the first exception, and ends with the single replace of deferred range frames |
| ProcessorLaws.GridPrecedence | src/tushare_duckdb/processor.py:27-33 | a non-empty ts_code gives exactly one {'ts_code': c} per such code; otherwise the product of required_params, or one empty combination |
| ProcessorLaws.EmptyGridCause | src/tushare_duckdb/processor.py:27-33 | the grid is empty only when no ts_code is given and some required parameter has no values |
| ProcessorLaws.ProductZeroHasEmpty | src/tushare_duckdb/utils.py:125-130 | the product is empty only when some parameter has no values |
| ProcessorLaws.EmptyGridRaises | src/tushare_duckdb/processor.py:37-99 | an empty grid writes nothing and raises when mode is read after the loop |
| ProcessorLaws.RangeRequestWindow | src/tushare_duckdb/processor.py:176-181 | range mode sends one request whose start_date and end_date are the first and last dates, formatted for the API |
| ProcessorLaws.RangeKeepsOutside | src/tushare_duckdb/processor.py:191-209 | an overwriting range store keeps every stored row outside [first date, last date] for the given ts_code |
| ProcessorLaws.RangeAppends | src/tushare_duckdb/processor.py:191-209 | without overwrite range mode only appends: every table keeps its stored rows in place |
| ProcessorLaws.RangeBatchDefers | src/tushare_duckdb/processor.py:52-58 | overwriting range mode over several combinations writes nothing in the loop, only collects frames, and raises at once without dates |
| ProcessorLaws.RangeBatchSingleStore | src/tushare_duckdb/processor.py:66-92 | that mode ends in exactly one replace of all collected frames on the database as it was before the call |
| ProcessorLaws.DailyTotalGrows | src/tushare_duckdb/processor.py:265-266 | negative store results are never added, so the standard loop's total never decreases |
| ProcessorLaws.DailyAppends | src/tushare_duckdb/processor.py:246-268 | without overwrite the standard loop only appends to every table |
| ProcessorLaws.DailyKeepsOtherDates | src/tushare_duckdb/processor.py:255-264 | with overwrite a stored row outside every [d, d] and ts_code scope survives the whole loop |
| ProcessorLaws.BuildIgnoresFixed | src/tushare_duckdb/utils.py:132-189 | the request parameters depend on the entry's date settings and never on its fixed_params |
| ProcessorLaws.DayRequestIgnoresFixed | src/tushare_duckdb/processor.py:279-281 | a batch's per-date request does not depend on fixed_params |
| ProcessorLaws.GridFramesIgnoresFixed | src/tushare_duckdb/processor.py:273-287 | the batch's collected frames do not depend on fixed_params |
| ProcessorLaws.MultiResponsesIgnoresFixed | src/tushare_duckdb/processor.py:308-316 | the multi-code requests do not depend on fixed_params |
| ProcessorLaws.BatchIgnoresFixed | src/tushare_duckdb/processor.py:275 | the whole-grid batch never sends the entry's fixed_params |
| ProcessorLaws.MultiCodeIgnoresFixed | src/tushare_duckdb/processor.py:311 | the multi-code batch never sends the entry's fixed_params |
| ProcessorLaws.OverwriteBatchRepeats | src/tushare_duckdb/processor.py:61-63 | overwriting single mode over several combinations runs the same whole-grid batch for every combination, so it runs once per combination |
| ProcessorLaws.PageOffsets | src/tushare_duckdb/processor.py:120-170 | the pages stored are at offset, offset + limit, ... whatever their size, and a loop that did not raise stopped at a page that does not go on |
| ProcessorLaws.PagesStoredGoOn | src/tushare_duckdb/processor.py:138-160 | every stored page had no fault, rows, the date column and a date newer than the local maximum |
| ProcessorLaws.PagingAppends | src/tushare_duckdb/processor.py:162-170 | full paging only appends to every table and keeps the metadata table |
| ProcessorLaws.PageStoreAppends | src/tushare_duckdb/processor.py:162-167 | one page's insert_new keeps every table's rows and the metadata table |
| ProcessorLaws.StoreKeepsMeta | src/tushare_duckdb/storage.py:11-241 | a store never drops an existing metadata table |
| ProcessorLaws.FullPagingRefreshes | src/tushare_duckdb/processor.py:172 | after full paging that did not raise, the table's metadata row describes the table as it now is |
| Storage.RenameRow | src/tushare_duckdb/storage.py:37-39 | a present source column is renamed to its target with its value; a row without it is unchanged |
| Storage.FillBlankFrom | src/tushare_duckdb/storage.py:52-58 | a blank target cell takes the source column's value; a non-blank one is kept |
| Storage.FillColumn | src/tushare_duckdb/storage.py:52-58 | the fill is applied row by row and keeps every row |
| Storage.AnnDateFill | src/tushare_duckdb/storage.py:49-58 | the ann_date fill keeps every row |
| Storage.DefaultFlag | src/tushare_duckdb/storage.py:72-76 | every row ends with an update_flag value |
| Storage.ParseDashed | src/tushare_duckdb/storage.py:133 | a YYYY-MM-DD text parses only to a day in the calendar's range |
| Storage.ParseMonth | src/tushare_duckdb/storage.py:127-133 | a YYYYMM text parses only to a day in the calendar's range |
| Storage.NormalizeDateCell | src/tushare_duckdb/storage.py:133 | a rewritten date cell is never null |
| Storage.NormalizeColumn | src/tushare_duckdb/storage.py:133 | rewriting one column keeps every row and every other cell |
| Storage.NormalizeColumnCell | src/tushare_duckdb/storage.py:133 | each rewritten cell is the cell parsed on its own (`YYYYMMDD` or `YYYY-MM-DD`, or `YYYYMM` for monthly data) and written canonically, or `''`; pandas' choice of one format for the whole column is not modelled |
| Storage.NormalizeColumns | src/tushare_duckdb/storage.py:122-135 | rewriting the listed columns keeps every row |
| Storage.DateColumnsToFix | src/tushare_duckdb/storage.py:117-120 | the columns rewritten are the configured ones plus the table's date column |
| Storage.DateColumnsToFixStable | src/tushare_duckdb/storage.py:117-120 | the in-place append grows the entry's list by at most the date column, keeps what it listed, and a later call with the same date column rewrites the same columns and leaves the entry unchanged |
| Storage.DeleteScope | src/tushare_duckdb/storage.py:171-186 | the bounded DELETE keeps exactly the rows outside [start, end] and the given ts_code |
| Storage.InsertNewRows | src/tushare_duckdb/storage.py:198-214 | insert_new adds exactly the batch rows without a SQL key match among the stored rows |
| Storage.Store | src/tushare_duckdb/storage.py:11-241 | store_data keeps the set of tables, every other table, and the table's columns and index, and a failed write leaves the metadata alone |
| Storage.StoreData | src/tushare_duckdb/storage.py:11-241 | the database after store_data and its result are exactly those of the storage model |
| Storage.EarlyExits | src/tushare_duckdb/storage.py:13-36 | an empty batch returns 0, and a missing table or a mapping to a missing column returns -1, before the table is touched |
| Storage.FinanceHookFills | src/tushare_duckdb/storage.py:48-69 | after the finance hook no row has a blank announcement date |
| Storage.AnnDateFillOrder | src/tushare_duckdb/storage.py:49-58 | a blank ann_date is filled from f_ann_date first, then from end_date; a non-blank one is kept |
| Storage.AnnFillRow | src/tushare_duckdb/storage.py:52-58 | the same fill order for one row |
| Storage.FillKeepsColumn | src/tushare_duckdb/storage.py:52-58 | the fill keeps every column of the batch |
| Storage.MoneyflowHookCodes | src/tushare_duckdb/storage.py:81-112 | after the moneyflow_cnt_ths hook every row has a code, and a row whose code was blank got it from the name map |
| Storage.NormalizedCellIsCanonical | src/tushare_duckdb/storage.py:133 | a rewritten date cell is '' or canonical: 8 digits, or 6 for monthly data |
| Storage.NormalizeIdempotent | src/tushare_duckdb/storage.py:133 | rewriting a date cell twice gives what rewriting it once gives |
| Storage.NullFilterKeepsAll | src/tushare_duckdb/storage.py:150-159 | date rewriting never produces null, so the null-date filter drops nothing |
| Storage.NormalizeColumnsNonNull | src/tushare_duckdb/storage.py:122-135 | a rewritten column has no null cell |
| Storage.StaysNonNull | src/tushare_duckdb/storage.py:122-135 | rewriting columns keeps a column free of nulls |
| Storage.InsertNewIdempotent | src/tushare_duckdb/storage.py:198-214 | writing the same batch twice with insert_new inserts nothing the second time when its key cells are non-null |
| Storage.NullKeyReinserted | src/tushare_duckdb/storage.py:198-214 | a row with a null key cell never matches and is inserted again by every write |
| Storage.InsertNewAppends | src/tushare_duckdb/storage.py:198-231 | insert_new never alters or removes a stored row and returns the number of rows added |
| Storage.ReplaceScoped | src/tushare_duckdb/storage.py:171-191 | a bounded replace keeps every stored row outside its scope and removes every stored row inside it that the batch does not bring back |
| Storage.StoreInsertNewKeeps | src/tushare_duckdb/storage.py:198-231 | store_data with insert_new keeps every stored row of every table in place |
| Storage.StoreReplaceKeeps | src/tushare_duckdb/storage.py:171-186 | a replace bounded by [start, end] keeps every stored row outside that scope |
| Storage.ReplaceUnbounded | src/tushare_duckdb/storage.py:187-191 | replace without both bounds empties the table and inserts the whole batch |
| Storage.InsertIntoEmpty | src/tushare_duckdb/storage.py:215-231 | inserting a fitting batch into an empty table stores exactly the batch |
| Storage.Added | src/tushare_duckdb/processor.py:265-266 | a result counts as its value when positive and as nothing otherwise |
| Storage.WriterKeeps | src/tushare_duckdb/storage.py:198-231 | a writer that is store_data only appends under insert_new |
| Utils.WithEach | src/tushare_duckdb/utils.py:130 | extending each combination with each value gives values times combinations entries |
| Utils.ParamGrid | src/tushare_duckdb/utils.py:125-130 | the grid has exactly the product of the value-list lengths entries |
| Utils.WithEachHas | src/tushare_duckdb/utils.py:130 | every value paired with every combination is in the extension |
| Utils.GridCombinations | src/tushare_duckdb/utils.py:125-130 | every combination names exactly the required parameters, each with one of its values |
| Utils.GridComplete | src/tushare_duckdb/utils.py:125-130 | every choice of one value per required parameter is a combination of the grid |
| Utils.GridEdges | src/tushare_duckdb/utils.py:126-130 | no required parameters give one empty combination; a parameter with no values gives none |
| Utils.ProductZero | src/tushare_duckdb/utils.py:130 | a parameter with no values makes the product 0 |
| Utils.Undash | src/tushare_duckdb/utils.py:152-159 | removing dashes never lengthens a string |
| Utils.FormatDateRoundTrip | src/tushare_duckdb/utils.py:152-159 | format_date only inserts two dashes into an 8-character dashless date for YYYY-MM-DD, and removing them gives the input back; anything else passes unchanged |
| Utils.BuildApiParams | src/tushare_duckdb/utils.py:132-189 | the request never carries the config entry |
| Utils.BuildDateKeys | src/tushare_duckdb/utils.py:161-174 | range mode sets start_date and end_date; otherwise one key (date_param, else param_name, else trade_date) gets the end date; none only when requires_date is False |
| Utils.BuildTsCode | src/tushare_duckdb/utils.py:176-183 | ts_codes becomes ts_code only for the three index tables, and the ts_code argument fills ts_code without overriding one present |
| Utils.GetAllDates | src/tushare_duckdb/utils.py:38-50 | the loop returns exactly the calendar-day list of the window |
| Utils.DaysFromMembers | src/tushare_duckdb/utils.py:44-46 | the list holds exactly the date strings of the days from start to end |
| Utils.DaysFromAscending | src/tushare_duckdb/utils.py:44-46 | the list is strictly ascending |
| Utils.DaysFromEnds | src/tushare_duckdb/utils.py:44-46 | the list is empty exactly when the end is before the start, and otherwise starts at the start and ends at the end |
| Utils.AllDatesSpan | src/tushare_duckdb/utils.py:38-47 | get_all_dates on two valid dates is empty exactly when end < start, and otherwise every day from start to end once, ascending |
| Utils.AllDatesMalformed | src/tushare_duckdb/utils.py:48-50 | a start or end that is not an 8-digit date gives the empty list |
| Utils.QuarterEnd | src/tushare_duckdb/utils.py:83-107 | the end of a day's quarter is a valid day not before it |
| Utils.GetQuarterlyDates | src/tushare_duckdb/utils.py:68-122 | the loop returns exactly the quarter-end list of the window |
| Utils.QuarterEndIsQuarterEnd | src/tushare_duckdb/utils.py:83-107 | the computed end is 31 March, 30 June, 30 September or 31 December |
| Utils.QuarterEndFirst | src/tushare_duckdb/utils.py:83-107 | no quarter end lies between a day and the end of its quarter |
| Utils.QuarterEndsMembers | src/tushare_duckdb/utils.py:81-120 | the list holds exactly the quarter ends from the current day to the end |
| Utils.QuarterEndsSound | src/tushare_duckdb/utils.py:116-117 | every listed date is a quarter end inside the window |
| Utils.QuarterEndsComplete | src/tushare_duckdb/utils.py:81-120 | every quarter end inside the window is listed |
| Utils.QuarterEndsAscending | src/tushare_duckdb/utils.py:81-120 | the quarter ends are listed strictly ascending |
| Utils.QuarterlyDatesExact | src/tushare_duckdb/utils.py:68-122 | get_quarterly_dates gives exactly the 0331/0630/0930/1231 dates in [start, end], ascending |
| Utils.CalDates | src/tushare_duckdb/utils.py:63-65 | the dates are exactly the cal_date values of the selected trade_cal rows |
| Utils.TradeDatesExact | src/tushare_duckdb/utils.py:60-65 | without trade_cal no dates; otherwise exactly the exchange's open days in [start, end], ascending |
| Utils.Upper | src/tushare_duckdb/utils.py:217 | upper-casing keeps the length and maps each character |
| Utils.Find | src/tushare_duckdb/utils.py:220-230 | find returns the first occurrence at or after the start, or -1 when there is none |
| Utils.RemoveSpaces | src/tushare_duckdb/utils.py:234 | the column list has no space left and is no longer than before |
| Utils.StripStart | src/tushare_duckdb/main.py:81 | lstrip drops exactly the leading whitespace |
| Utils.StripEnd | src/tushare_duckdb/main.py:81 | rstrip drops exactly the trailing whitespace |
| Utils.Strip | src/tushare_duckdb/main.py:81 | a stripped string has no whitespace at either end |
| Utils.StripTrimmed | src/tushare_duckdb/main.py:81 | stripping leaves a trimmed string unchanged |
| Utils.StripInfix | src/tushare_duckdb/main.py:81 | stripping removes only whitespace, from the two ends |
| Utils.CompositeKey | src/tushare_duckdb/utils.py:218-235 | a table-level PRIMARY KEY (a, b) builds the index over the parenthesised list with spaces removed |
| Utils.CompositeKeyAt | src/tushare_duckdb/utils.py:220-235 | the index list is the text between the first PRIMARY KEY ( and the next ) |
| Utils.InlinePrimaryKey | src/tushare_duckdb/utils.py:222-226 | a column-level PRIMARY KEY directly followed by a comma matches neither form, so no unique index is created |
| Utils.Initialized | src/tushare_duckdb/utils.py:203-213 | a known table that does not exist yet is added; every other table is unchanged |
| Utils.InitTable | src/tushare_duckdb/utils.py:203-245 | init_table returns False and changes nothing for an unknown or existing table; otherwise it creates the empty table and succeeds exactly when its index statement does |
| ValidateComprehensive.IsValidDate | scripts/validate_comprehensive.py:113-117 | a date is valid exactly when it is present and eight characters long |
| ValidateComprehensive.ValidOrNone | scripts/validate_comprehensive.py:77-79 | a stock_basic date is kept exactly when it is valid, and unchanged |
| ValidateComprehensive.PutWf | scripts/validate_comprehensive.py:79 | assigning into the dict keeps its insertion order listing every key once |
| ValidateComprehensive.FromBasicWf | scripts/validate_comprehensive.py:76-79 | the stock_basic loop leaves a well-formed dict |
| ValidateComprehensive.FromBakWf | scripts/validate_comprehensive.py:88-97 | the bak_basic loop keeps the dict well formed |
| ValidateComprehensive.Codes | scripts/validate_comprehensive.py:149 | the codes of the universe entries, in order |
| ValidateComprehensive.UniverseMembers | scripts/validate_comprehensive.py:62-111 | a code is in the universe exactly when stock_basic has it with a valid list date, or without one and bak_basic supplies one, or only bak_basic has it and it has quote data |
| ValidateComprehensive.FromBasicEntries | scripts/validate_comprehensive.py:76-79 | the stock_basic loop keeps, per code, the validated dates of its last row |
| ValidateComprehensive.FromBakEntries | scripts/validate_comprehensive.py:88-97 | the bak_basic loop adds a new code only when it has quote data and fills a missing list date of a known code |
| ValidateComprehensive.BakStepEntries | scripts/validate_comprehensive.py:89-97 | one more bak_basic row keeps that outcome |
| ValidateComprehensive.ListedMembers | scripts/validate_comprehensive.py:100-103 | uni_list holds exactly the codes whose entry has a list date |
| ValidateComprehensive.ListedDistinct | scripts/validate_comprehensive.py:100-103 | every code of uni_list appears once and has a list date |
| ValidateComprehensive.DayGap | scripts/validate_comprehensive.py:195-251 | a day is a gap exactly when it is not suspended and misses a table; its type follows the priority total, daily-only, adj-only, partial, and it is recoverable exactly for a total gap with a bak_daily row |
| ValidateComprehensive.EndDate | scripts/validate_comprehensive.py:189-190 | the end date is the delist date when earlier than yesterday, else yesterday |
| ValidateComprehensive.Expected | scripts/validate_comprehensive.py:193 | the expected days are exactly the trade days from the list date to the end date |
| ValidateComprehensive.Validator.GetUniverse | scripts/validate_comprehensive.py:62-111 | the universe is built by the three loops and the list-date filter, and universe_count is its size |
| ValidateComprehensive.Validator.ProcessBatch | scripts/validate_comprehensive.py:148-252 | each batch entry's gap details are appended in order |
| ValidateComprehensive.Validator.ScanItem | scripts/validate_comprehensive.py:181-252 | one entry's gaps over its expected days are appended |
| ValidateComprehensive.Validator.ScanDays | scripts/validate_comprehensive.py:195-252 | the gaps of one code's expected days are appended in order |
| ValidateComprehensive.Validator.ScanDay | scripts/validate_comprehensive.py:196-252 | a gap day is counted and its details kept; other days change nothing |
| ValidateComprehensive.Validator.ScanGaps | scripts/validate_comprehensive.py:119-146 | scanning in batches of 500 appends the same details as scanning the whole universe |
| ValidateComprehensive.DayGapsSnoc | scripts/validate_comprehensive.py:195 | one more expected day appends its gap, if any |
| ValidateComprehensive.BatchGapsSnoc | scripts/validate_comprehensive.py:181 | one more entry appends its gaps |
| ValidateComprehensive.NextBatch | scripts/validate_comprehensive.py:141-146 | one more batch appends its gaps |
| ValidateComprehensive.ListUniverse | scripts/validate_comprehensive.py:100-103 | the loop builds exactly uni_list from the finished dict |
| ValidateComprehensive.BatchGapsSplit | scripts/validate_comprehensive.py:141-142 | scanning a run of entries in two parts gives the same details as scanning it whole |
| ValidateComprehensive.BatchGapsLast | scripts/validate_comprehensive.py:181 | the gaps of a run are those of all but its last entry followed by the last entry's |
| ValidateComprehensive.DayGapsSound | scripts/validate_comprehensive.py:195-251 | every reported gap of a code is on a scanned day and is that day's verdict |
| ValidateComprehensive.DayGapsComplete | scripts/validate_comprehensive.py:195-251 | every scanned day that is a gap is reported |
| ValidateComprehensive.ItemGapsExact | scripts/validate_comprehensive.py:181-251 | an entry has a gap on exactly the trade days from its list date to its end date that are not suspended and miss a table |
| ValidateComprehensive.BatchGapsFrom | scripts/validate_comprehensive.py:181-251 | every reported gap belongs to a universe entry with a list date |
| ValidateComprehensive.SuspendedNeverGap | scripts/validate_comprehensive.py:197-200 | a suspended day is never reported as a gap |
| ValidateComprehensive.ParseNat | scripts/validate_comprehensive.py:312 | a non-empty string of ASCII digits is read as a number and every other string is rejected; Python's `int()` also accepts surrounding whitespace, a sign and underscores, which are not modelled |
| ValidateComprehensive.ParseAll | scripts/validate_comprehensive.py:312-314 | every date converts, or the fallback returns the dates as given |
| ValidateComprehensive.InsertNat | scripts/validate_comprehensive.py:312 | inserting keeps a list sorted and adds exactly the element |
| ValidateComprehensive.SortNats | scripts/validate_comprehensive.py:312 | sorted() gives a sorted permutation |
| ValidateComprehensive.Span | scripts/validate_comprehensive.py:334-352 | a range lo..hi holds exactly the consecutive integers from lo to hi |
| ValidateComprehensive.DatesToRanges | scripts/validate_comprehensive.py:306-354 | no dates give no ranges, unparsable dates come back as given, and otherwise the labels of the maximal runs of the sorted dates |
| ValidateComprehensive.LabelAll | scripts/validate_comprehensive.py:340-352 | each range is written as its label, in order |
| ValidateComprehensive.FoldRuns | scripts/validate_comprehensive.py:334-352 | the start/prev loop computes exactly the maximal runs |
| ValidateComprehensive.FlattenSnoc | scripts/validate_comprehensive.py:340-346 | appending a range appends its integers |
| ValidateComprehensive.FoldExtend | scripts/validate_comprehensive.py:335-337 | a consecutive date extends the open range |
| ValidateComprehensive.FoldBreak | scripts/validate_comprehensive.py:338-347 | a non-consecutive date closes the open range and opens a new one |
| ValidateComprehensive.FoldShape | scripts/validate_comprehensive.py:334-352 | the fold's ranges are well formed, separated and spell out the input |
| ValidateComprehensive.FoldDone | scripts/validate_comprehensive.py:349-352 | closing the last range completes the ranges |
| ValidateComprehensive.RunsShape | scripts/validate_comprehensive.py:306-354 | the ranges spell out the sorted dates exactly, each is a run of consecutive integers, and no two neighbours could be merged |
| ValidateComprehensive.LabelTilde | scripts/validate_comprehensive.py:340-352 | a range is written with a tilde exactly when it spans more than one day |
| ComprehensiveRepair.ExistingScope | scripts/validate_comprehensive.py:411-423 | the `existing_set` query, narrowed to the frame's own dates and codes, finds a frame row's key exactly when some stored row carries the same non-null code and date |
| ComprehensiveRepair.ProjectAll | scripts/validate_comprehensive.py:431-435 | each row to insert is the `row.get` projection of the frame row at the same position, one for one |
| ComprehensiveRepair.ToInsertExact | scripts/validate_comprehensive.py:426-435 | a row is written exactly when it is the projection of a frame row that no stored row matches |
| ComprehensiveRepair.GrowsTrans | scripts/validate_comprehensive.py:408-484 | "only appends rows" composes across successive inserts |
| ComprehensiveRepair.InsertKeepsRows | scripts/validate_comprehensive.py:408-447 | an insert that returns keeps every stored row, every table and every other table's contents, and leaves the target's columns and index alone |
| ComprehensiveRepair.InsertIdempotent | scripts/validate_comprehensive.py:408-447 | after an insert returns, inserting the same frame (with non-null keys) again writes nothing |
| ComprehensiveRepair.CollectNew | scripts/validate_comprehensive.py:426-435 | the `iterrows` loop collects exactly the unmatched rows, projected, in frame order |
| ComprehensiveRepair.CollectSnoc | scripts/validate_comprehensive.py:427-435 | one more loop step extends the collected rows by the next row exactly when that row is unmatched |
| ComprehensiveRepair.ProjectAllConcat | scripts/validate_comprehensive.py:431-435 | projecting rows distributes over concatenation |
| ComprehensiveRepair.InsertMissing | scripts/validate_comprehensive.py:449-484 | `_insert_daily`/`_insert_suspend` returns exactly when the anti-join insert succeeds; then the tables are its result, otherwise unchanged; metadata untouched |
| ComprehensiveRepair.GapDateList | scripts/validate_comprehensive.py:372 | the gap list's `trade_date` column, position by position |
| ComprehensiveRepair.Squeeze | scripts/validate_comprehensive.py:372-373 | dropping repeats from a sorted list keeps every value and leaves it strictly ascending |
| ComprehensiveRepair.GapDates | scripts/validate_comprehensive.py:372-373 | `unique()` then `sort()`: every gap date exactly once, strictly ascending |
| ComprehensiveRepair.OnlyTargets | scripts/validate_comprehensive.py:387 | the `isin(target_codes)` filter keeps exactly the rows whose code is a target |
| ComprehensiveRepair.FixFrom | scripts/validate_comprehensive.py:372-406 | the date loop requests every gap date once in ascending order and leaves the tables as the fold of the per-date repair |
| ComprehensiveRepair.FixLoopSnoc | scripts/validate_comprehensive.py:375-406 | one more date extends the loop's fold by that date's repair |
| ComprehensiveRepair.FixOneDate | scripts/validate_comprehensive.py:377-406 | one date: target quotes inserted, then target suspensions; an exception keeps what was written |
| ComprehensiveRepair.FixWithApi | scripts/validate_comprehensive.py:356-406 | as written: the dates requested and the tables follow the list read from `validation_gaps.csv`, nothing when it is missing |
| ComprehensiveRepair.FixWithApiCorrected | scripts/validate_comprehensive.py:271-272 | the same repair reading `validation_matrix.csv`, the file the scan writes |
| ComprehensiveRepair.ScanThenFixRequestsNothing | scripts/validate_comprehensive.py:271-272 | as written, a repair after a scan requests no date: the scan never writes the file the repair reads |
| ComprehensiveRepair.ScanThenFixCorrected | scripts/validate_comprehensive.py:372-373 | reading the scan's own file, a repair after a scan with gaps requests every gap date once, ascending |
| ComprehensiveRepair.FixKeepsRows | scripts/validate_comprehensive.py:375-406 | the repair over any dates never alters or removes a stored row |
| ComprehensiveRepair.GrowsRefl | scripts/validate_comprehensive.py:383-406 | a step that writes nothing keeps every row |
| ComprehensiveRepair.InsertOrKeep | scripts/validate_comprehensive.py:388-398 | an insert that returns keeps every stored row |
| ComprehensiveRepair.FixDateKeepsRows | scripts/validate_comprehensive.py:377-406 | one date's repair never alters or removes a stored row, whatever the API does |
| ComprehensiveRepair.YearPagesCover | scripts/validate_comprehensive.py:501-518 | the pages one year's `while True` loop reads are the whole result set from the offset, without gap or overlap |
| ComprehensiveRepair.YearLoopPages | scripts/validate_comprehensive.py:501-518 | with a reliable API one year's loop is the in-order insert of those pages |
| ComprehensiveRepair.YearKeepsRows | scripts/validate_comprehensive.py:501-522 | one year's loop never alters or removes a stored row |
| ComprehensiveRepair.FetchYear | scripts/validate_comprehensive.py:501-518 | the `while True` loop leaves the tables as the year's paging fold, metadata untouched |
| ComprehensiveRepair.FixSuspendByRange | scripts/validate_comprehensive.py:486-522 | the tables end as the fold of the paging loop over the years `start_year..end_year` in order |
| ComprehensiveRepair.RangeKeepsRows | scripts/validate_comprehensive.py:493-522 | the backfill over any years never alters or removes a stored row |
| ValidateOptions.CheckMissingContracts | scripts/validate_options.py:45-114 | the totals are the two code-set sizes; `missing_in_basic` is exactly the quoted codes unknown to `opt_basic` and `extra_in_basic` exactly the listed codes without quotes, each sorted without repeats |
| ValidateOptions.Judge | scripts/validate_options.py:178-212 | a contract is skipped iff a date is missing; complete iff it has both dates, a non-empty window of trade days up to min(delist, today) and at least 95% of them; otherwise incomplete with expected minus actual missing days |
| ValidateOptions.WindowBounded | scripts/validate_options.py:185-193 | an expected day is a trade day between the list date and both the delist date and today |
| ValidateOptions.Verdicts | scripts/validate_options.py:178 | one verdict per contract row, in query order |
| ValidateOptions.VerdictsPartition | scripts/validate_options.py:167-212 | every checked contract is complete, incomplete, or neither (skipped or no expected day), and the three counts add up to the number checked |
| ValidateOptions.ShortfallsExact | scripts/validate_options.py:200-212 | a shortfall is listed exactly for the contracts judged incomplete |
| ValidateOptions.VerdictsSnoc | scripts/validate_options.py:178-212 | one more contract adds one to the complete count when complete and appends its shortfall when incomplete |
| ValidateOptions.CheckDataCompleteness | scripts/validate_options.py:117-219 | the limited contracts are all checked; the complete count and the incomplete list are those of their verdicts, and complete plus incomplete is at most the number checked |
| ValidateOptions.LastOfSome | scripts/validate_options.py:294-320 | an exchange has an aggregate entry exactly when some aggregate row names it |
| ValidateOptions.CoverageByExchange | scripts/validate_options.py:280-325 | the result holds the exchanges of either aggregate, each with the basic and daily figures of its last row there (absent when there is none) |
| ValidateOptions.DailyOnlyExchange | scripts/validate_options.py:311-320 | an exchange seen only in `opt_daily` still gets an entry, with no basic part |
| ValidateStocks.CheckBasicConsistency | scripts/validate_stocks.py:45-75 | the totals are the two code-set sizes; `missing_in_basic` is exactly the traded codes unknown to `stock_basic`, `extra_in_basic` exactly the listed codes without quotes, each sorted without repeats, and the two never share a code |
| ValidateStocks.CheckEnd | scripts/validate_stocks.py:167 | the check ends at today, or at the delist date when there is one and it is earlier; never after either |
| ValidateStocks.ExpectedDays | scripts/validate_stocks.py:170-171 | the expected days are exactly the calendar days between the list date and the check end |
| ValidateStocks.ElemsCard | scripts/validate_stocks.py:189 | a day list has at most as many distinct days as entries |
| ValidateStocks.ShortfallMeaning | scripts/validate_stocks.py:174-207 | an incomplete stock discounts only suspended days that are expected days; its adjusted count is positive, its actual count below 99% of it, and its missing count adjusted minus actual and positive |
| ValidateStocks.SubsetCard | scripts/validate_stocks.py:189-190 | the discounted days never outnumber the expected days |
| ValidateStocks.NinetyNinePercentComplete | scripts/validate_stocks.py:192-193 | a stock with at least 99% of its expected days net of suspensions is complete |
| ValidateStocks.FullCountComplete | scripts/validate_stocks.py:174-176 | a stock with as many quotes as expected days is complete without consulting suspensions |
| ValidateStocks.JudgeMonotone | scripts/validate_stocks.py:174-207 | more quotes never turn a complete stock into an incomplete one |
| ValidateStocks.Verdicts | scripts/validate_stocks.py:163 | one verdict per stock row, in query order |
| ValidateStocks.CheckDataGaps | scripts/validate_stocks.py:117-214 | the limited stocks are all checked; the complete count and the incomplete list are those of their verdicts, and every checked stock lands in exactly one of the two |
| ValidateStocks.ReportExact | scripts/validate_stocks.py:161-207 | a stock is listed incomplete exactly when its verdict says so, and complete plus incomplete equals the number checked |
| Calendar.DaysInMonth | src/tushare_duckdb/utils.py:107 | `calendar.monthrange`'s month length lies between 28 and 31 and is 28 exactly for February of a common year |
| Calendar.Next | src/tushare_duckdb/utils.py:46 | `+ timedelta(days=1)` gives a valid date strictly after the given one |
| Calendar.NextIsSuccessor | src/tushare_duckdb/utils.py:43-46 | no date lies strictly between a date and its successor, so the day-by-day loop skips nothing |
| Calendar.Prev | scripts/daily_fetcher.py:349 | `- timedelta(days=1)` gives a valid date strictly before the given one |
| Calendar.PrevNext | scripts/daily_fetcher.py:349 | stepping a day back undoes stepping a day forward, and the other way round |
| Calendar.AddDays | scripts/daily_fetcher.py:86 | shifting by k days gives a valid date, later for positive k, earlier for negative k, the same for zero |
| Calendar.Weekday | scripts/backfill_pledge_stat.py:33 | `dayofweek` numbers the days 0 to 6 |
| Calendar.NextWeekday | scripts/backfill_pledge_stat.py:33 | the day after a date falls on the next weekday, cyclically |
| Calendar.WeekdayAnchor | scripts/backfill_pledge_stat.py:33 | 1 January 2001 is day 1 (a Monday), fixing the numbering to `dayofweek`'s Sunday-is-0 |
| Calendar.Format | src/tushare_duckdb/utils.py:45 | `strftime('%Y%m%d')` is eight digits |
| Calendar.Parse | src/tushare_duckdb/utils.py:40-41 | an 8-digit string is read only as a date within years 1 to 9999; the unpadded 6- and 7-character forms `strptime` also accepts are not read |
| Calendar.ParseFormat | src/tushare_duckdb/utils.py:40-45 | parsing a formatted date gives the date back |
| Calendar.FormatParse | src/tushare_duckdb/utils.py:40-45 | formatting a parsed string gives the string back |
| Calendar.FormatOrder | scripts/validate_stocks.py:170 | comparing `YYYYMMDD` strings orders them exactly as the dates they denote |
| Calendar.NatStrValue | scripts/validate_comprehensive.py:494-495 | the decimal text of a year reads back as that year |
| Remote.Slice | src/tushare_duckdb/fetcher.py:24-25 | a `limit`/`offset` request returns at most `limit` rows: exactly the result set's rows from `offset` on, a full page when enough rows remain, and a short page only at the end |
| Remote.SliceNext | src/tushare_duckdb/fetcher.py:42 | a page followed by everything after it is everything from the page's offset on |
| Remote.SliceFull | src/tushare_duckdb/fetcher.py:53 | a full page lies wholly within the result set |
| Remote.Reach | scripts/backfill_pledge_detail.py:45-48 | paging in full steps from an offset below the cap stops at the first offset at or beyond the cap, less than one step past it |
| Remote.ReachStep | scripts/backfill_pledge_detail.py:45-48 | a step that stays below the cap does not change where paging stops |
| Common.Lower | src/tushare_duckdb/data_validation.py:88 | `lower()` maps every character and keeps the length |
| Common.DedupLast | src/tushare_duckdb/fetcher.py:59 | `drop_duplicates(keep='last')` keeps a sub-list of the rows |
| Common.DedupLastUnique | src/tushare_duckdb/fetcher.py:59 | after `drop_duplicates` no two rows share a key |
| Common.DedupLastKeepsKeys | src/tushare_duckdb/fetcher.py:59 | every key of the input survives |
| Common.DedupLastIsLast | src/tushare_duckdb/fetcher.py:59 | the row kept for a key is its last occurrence |
| Common.DedupFirst | scripts/backfill_pledge_stat.py:70 | `drop_duplicates()` (keeping the first) keeps a sub-list of the rows |
| Common.DedupFirstUnique | dashboard/finance_data_loader.py:58 | after `drop_duplicates(keep="first")` no two rows share a key |
| Common.DedupFirstKeepsKeys | scripts/backfill_pledge_stat.py:70 | every key of the input survives |
| Common.AntiJoin | src/tushare_duckdb/storage.py:198-215 | the `NOT EXISTS` insert keeps exactly the rows whose key is not stored |
| Common.Concat | scripts/backfill_pledge_stat.py:70 | `pd.concat` holds exactly the rows of its parts |
| Common.Limit | scripts/validate_options.py:163-164 | a positive `LIMIT n` keeps the first n rows (all when fewer), otherwise every row |
| Common.SortSet | scripts/validate_options.py:87-88 | `sorted(set)` lists every member once, in ascending order |

## Left out

- Logging, progress messages and `print` reports are not modelled. This includes `generate_report`, `_print_scan_summary`, `_generate_range_report`, `print_summary` and the pledge scripts' closing statistics. They state nothing about the data.
- `time.sleep` is recorded as a list of seconds, or left out where nothing depends on it: `fix_with_api`, `fix_suspend_by_range`, `fix_daily_gaps` and the dashboard loaders. It only delays the run.
- `datetime.now()` and the hour of day are parameters. The clock is an input.
- Database connections, transactions and the SQL text are abstracted. A query is its result as an input, or a function of the modelled tables. DuckDB itself is not part of this model.
- `src/tushare_duckdb/schema.py` is not part of this model. The tables' columns and unique keys are inputs.
- Floating-point arithmetic is modelled with `real`. This covers the completeness ratios, PE percentiles, drawdowns and liquidity scores, so rounding and NaN are not modelled.
- `check_table_alignment` (scripts/validate_stocks.py:78-114) and `check_orphan_data` (scripts/validate_options.py:222-277) are not modelled. They are reporting queries with no further logic.
- `random.sample` in `_get_universe` is left out. The universe is taken whole, because the sample is random.
- `_get_universe` iterates trade days in Python set order, so the trade-day order is an input of the model.
- The CSV export of the scan and the CSV read of the repair are a map from path to gap list. Only which file is written and which is read is modelled.
- The `init_table` calls with three arguments in scripts/backfill_pledge_detail.py:125 and scripts/backfill_pledge_stat.py:96 are modelled as written only. The same mistake is recorded, with its correction, as the moneyflow finding below.
- Fetcher.FetchData: requires a positive `limit`. With `limit <= 0` the source's loop never ends, because no page is shorter than the limit.
- Processor.ProcessDatesRun: requires `LimitOk`, a positive or absent `limit`, for the same reason. The same holds for every processor member that fetches.
- MarketInsights.CalculateMaxDrawdown: requires positive prices. A zero or negative close makes the source divide by zero or give a meaningless ratio.
- MarketInsights.PePercentile: the median of the PE series is computed by the source only for display and is not modelled.
- MarketInsights.DisplayName: the `GLOBAL_INDICES` table is a parameter.
- MarketInsights.LiquidityOf: the `market_name` and `ts_code` fields of the result are left out. Only the scores are modelled.
- FinanceLoader.DedupByEndDate: which of several rows with the same end date and the same rank is kept depends on pandas' sort stability and is left unspecified. The helper-column names are left out.
- FinanceLoader.Piotroski: ties in the report order are not resolved, the sort key is abstracted to a precomputed order, and the parameters the source ignores are dropped.
- InteractiveFinance.CleanFinanceDf: requires the cleaned column names to be distinct (`CleanNamesDistinct`).
  - It parses `to_datetime` as strict eight-digit dates.
  - It treats every value as a string.
  - The row order after `sort_values` is not modelled.
- InteractiveFinance: `generic_store_data` is not part of this model. Its storage call is modelled as `Storage.StoreData`. Primary-key parsing and `validate_before_update` are left out.
- InteractiveStock.GenerateQuarters: the year-10000 overflow of `datetime` is not modelled.
- InteractiveFinance.GenerateQuarters: the `ValueError` raised by `replace(year=current.year + 1)` once 30 September 9999 is reached is not modelled. The model returns the list.
- InteractiveFinance.QuartersExact: the year-9999 raise and the unpadded bounds `strptime` accepts are not modelled, so "raises iff a bound is not an 8-digit date" is stated of the model only.
- InteractiveFinance.NewYear: the step into year 10000 is not modelled as a raise.
- Utils.GetAllDates: the `OverflowError` of the day step past 31 December 9999 is not modelled. `except ValueError` does not catch it, so the source raises where the model returns the days.
- Utils.AllDatesSpan: for an end of 31 December 9999 the source raises, so this promise holds of the model only.
- Utils.GetQuarterlyDates: the uncaught overflow for an end on or after 1 October 9999 is not modelled.
- Utils.QuarterlyDatesExact: for an end on or after 1 October 9999 the source raises, so this promise holds of the model only.
- Calendar.Parse: reads only the 8-digit form. `strptime('%Y%m%d')` also accepts an unpadded month or day, so `'202311'` and `'2023011'` both read as 1 January 2023 in the source.
- Utils.AllDatesMalformed: the source returns days for the unpadded forms above, where the model gives the empty list.
- InteractiveStock.QuarterWindows: inherits the stricter parse of `Calendar.Parse`.
- ValidateComprehensive.ParseNat: Python's `int()` also accepts surrounding whitespace, a sign and underscores. The model rejects them.
- InteractiveStock.ResumeYear: Python's `int()` leniency (signs, spaces, underscores) is not modelled. Only plain digit strings are read as years.
- InteractiveStock.MenuChoice: Unicode digits accepted by `str.isdigit` are not modelled.
- DataValidation: the business-statistics block (src/tushare_duckdb/data_validation.py:171-185) is left out. It only reports. The `opt` table aliasing is kept as a flag.
- DailyFetcher: `get_table_last_date`, `get_daily_counts` and the exit through `sys.exit` are inputs or outcomes of the model, not SQL or processes.
- DailyFetcher: a window computation that raises is an outcome of the run. The exception, its message, the per-category `error` text and the progress counter are not modelled.
- FixDailyGaps: `export_gaps` and `main` are left out. They only report.
- FixDailyGaps.Supplement: the count of unmatched rows stands in for SQLite's `changes()`, which the source returns after the insert.
- Metadata.UpdateMetadata: the `last_updated` timestamp is not modelled. Exceptions are swallowed as the source does, without their messages.
- Storage.Store: a failure to register the temporary view, which returns -1 in the source, is not modelled. Logging is left out.
- Storage.NormalizeDateCell: each cell is parsed on its own, as `YYYYMMDD` or `YYYY-MM-DD`. pandas infers one format for the whole column, blanks cells in another layout, and accepts layouts such as `2023/01/05` that are not modelled.
- Storage.NormalizeColumnCell: states the cell-by-cell parse above, not pandas' per-column format choice.
- Storage.DateColumnsToFix: the in-place append to the configuration entry's `date_columns` list is modelled by `AfterFix`. Later calls in the model do not see the changed entry.
- Storage.ApplyMappings: renames one mapping after another. `df.rename` renames all columns at once, so chained mappings such as `a` to `b` and `b` to `c` differ. Duplicate column names cannot be expressed in the model's rows.
- Fetcher: the throttle marker text is a constant. The retry waits are recorded rather than slept.
- The Streamlit pages, charts, the VIX module, the notebook-style examples and the configuration loading are not part of this model. They are user interface, numerics or environment set-up.

## Findings

| source | as written | input that shows it | evidently intended | confidence | as-written member | corrected member |
|---|---|---|---|---|---|---|
| scripts/validate_comprehensive.py:271-272, 360 | the scan writes `./tmp/validation_matrix.csv` but `fix_with_api` reads `./tmp/validation_gaps.csv` | run `--scan` on a database with one gap, then the repair: the repair finds no file and requests no date | the repair reads the file the scan writes and repairs every gap date | high (not executed) | ComprehensiveRepair.ScanThenFixRequestsNothing | ComprehensiveRepair.ScanThenFixCorrected |
| scripts/backfill_moneyflow_hsgt.py:87-89 | `init_table(conn, table_name, config)` passes three arguments to `utils.init_table(conn, table_name)` | a database without the `moneyflow_hsgt` table: the call raises `TypeError` before anything is fetched | create the table with `init_table(conn, table_name)` and go on with the backfill | high (not executed) | BackfillMoneyflowHsgt.Backfill | BackfillMoneyflowHsgt.CorrectedCreatesTable |

# Verified model of the Hyperliquid backfill indexer

This project models the checkpointed ingestion engine of the indexer and proves what its README promises as
"incremental & idempotent", "fault tolerant" and "resume". One archive of hourly files feeds pages of fills through a
fetcher and a bounded channel to a consumer, which inserts them in chunks into a table with a unique key and advances a
saved checkpoint; the next run resumes there, also after a crash. Derived data (hourly statistics, rollup views, the
market-id cache, the COPY text) is proved to agree with its source.

## How it is built

| file | component |
|---|---|
| Wrappers, Hours | option and result types; instants in milliseconds and hour indices |
| Calendar, Cursors | Gregorian day numbers and the cursor text `YYYYMMDD_hour` (date in the basic format of section 4.1.2.2 of ISO 8601:2004) |
| Fills, Gaps | the fills table under its unique key; row counts and the gap query |
| Retry, Stores | the attempt loop; the store class with chunked inserts, queries and the checkpoint row |
| Parsing, Pages | the three line schemas; `fetch_hour_data`, `fetch_parallel_batch`, `fetch_page` |
| Fetcher, Planner, Backfill, Lifetime | the fetch loop, the head of `run_backfill`, the consumer loop, and whole runs on a live store |
| Engine, EngineSafety, EngineTheorems | everything concurrent, backfills and continuous sessions with crashes and restarts, as one transition system |
| Refinement | the engine's runs against the fetch loop and the consumer loop |
| Reach | the fetch loop over the S3 source reaches its end |
| Completeness, Limits | when an hour holds its whole file; what happens outside the assumptions below |
| Continuous | `run_continuous` |
| StatsUpdater, StatsMachine | the incremental statistics, first step by step, then with everything running at once |
| Rollups, Registry, CopyFormat | the hourly views, the market registry, CSV for COPY against bound VALUES |

Clock readings, downloads, failing statements and other processes are inputs, the delays of the backoff and the interval of
the periodic save are left open, so every theorem holds for all of them. A batch is the list of its requested hours, each with its fills if the file was downloaded and parsed.

## What the theorems assume

- An hourly file holds only fills stamped in its hour (`Honest`). Coverage and termination need this; order does not matter.
- An hour counts as full from 1000 stored rows on. A crash between two commits can leave such an hour incomplete, and the
  code then passes over it (`Limits.CrashLeavesHourIncomplete`). The coverage statements keep the threshold;
  `Limits.NeverCutShortIffAtMost1000` says that exactly the files with at most 1000 different keys are never cut short.
- One process at a time works on the checkpoint row. Nothing in the program enforces this; other processes may add rows.
- Rows are never deleted, and a transaction that reports an error has changed nothing.
- The rows read back from COPY's temporary table are inserted in the order in which they were written.
- The table lists the rows of one exchange with the coin in place of the market id. `Registry.MarketRegistry.Ingest`
  justifies this: on the live registry, the key with ids leaves the rows that the key with coins leaves.
- A backfill may start later than the hours covered so far, or earlier where the planner sees to the hours in between
  (`Engine.MayStartAt`): there is no checkpoint, it is reset, it resumes at or before the new start, or nothing is missing
  before it. `Planner.LeavesGapsIffFew` says exactly when gaps stay behind otherwise, namely if there are one to twelve;
  `Limits.EarlierStartSkipsHours` is an instance.
- A continuous session does not reset a checkpoint whose resume hour is more than seven days old (`Engine.MayPollAt`).
  `Continuous.ResetContiguousIffRecent` says that this is exactly when a reset may pass over hours, and
  `Limits.OldRowSkipsHours` follows one such reset into the next backfill.
- Hours are truncated in UTC.

## Where the code differs from its own comments or documentation

- `has_more` is commented as "not in the future". On a single-hour page at 23h it compares with the instant a day later,
  so a backfill can end with later hours available (`Pages.HasMoreExact`, `Pages.EarlyStopAt23`). Coverage after such an end
  is stated up to the last page hour only.
- The parallel page is described as fetching eight hours; it silently drops the hours it cannot read
  (`Pages.ParallelPageHidesFailures`). Coverage therefore speaks of requested hours and of fills that were downloaded and parsed.
- For a position an hour or more in the future the hour count wraps in the cast and eight hours are fetched (`Pages.PageWidth`).
- The branch for more than 24 gaps in the planner cannot be reached (`Planner.ResumeIsStartOrCheckpoint`).
- The reset of continuous mode is logged as a reset to the earliest gap, but it may move the checkpoint forward
  (`Continuous.ResetContiguousIffRecent`).
- `HL_HISTORIC_S3.md` dates the schema changes to 2024; the code uses 2025, and so does the model.
- `incremental_stats.rs` is not declared in `main.rs`; it is modelled as a component of its own.

## Model

| member | source | states |
|---|---|---|
| `EngineTheorems.BackfillCovers` | indexer/src/pipeline.rs:34-329 | Backfill coverage over every interleaving within a run and any number of backfills, continuous sessions and crashes one after another: a run that returned Ok leaves no hour of its range that is neither full (1000 rows or more) nor requested with all downloaded and parsed fills stored; up to the end when it reached it or skipped, else up to the last page hour |
| `EngineTheorems.CheckpointIsSafe` | indexer/src/pipeline.rs:215-250 | Crash safety: at every moment, whichever backfills and continuous sessions came before, every hour from the start of the range to the saved checkpoint's resume hour is stored, the cursor is ahead of the last record, and `records_processed` does not exceed the rows |
| `EngineTheorems.IngestingCovers` | indexer/src/pipeline.rs:412-479 | At every moment of a continuous session, after any history of runs, every hour from the start of the range to the highest page hour reached is stored |
| `EngineTheorems.SavedBatchIsCommitted` | indexer/src/pipeline.rs:223-326 | At every moment, also after a crash: while the saved row is one set by a batch, in a periodic save, the final save or a continuous session, that batch and every earlier one received in that run are committed, and the row has its cursor and, if it has fills, its time |
| `EngineTheorems.SavedRowHasSetter` | indexer/src/pipeline.rs:302-326 | Such a row was set by one of those three saves, has not changed since, and the batches recorded for it are those its run had received |
| `EngineTheorems.OtherRowIsReset` | indexer/src/pipeline.rs:55-90 | Any other saved row that was not there at the beginning was set by a reset and has not changed since |
| `EngineTheorems.RunRowIsLatest` | indexer/src/pipeline.rs:236-326 | While a run is on, its checkpoint has cursor, time and block of the latest batch handled, that is, of the batches ending no earlier than the checkpoint it began with the one that ends last; once the run is closing, so has the saved row |
| `Refinement.FetcherIsTheLoop` | indexer/src/pipeline.rs:564-675 | In every behaviour the fetcher of a run is where the fetch loop would be: its position and pages are those of a trail of the loop, and it stops after a page without more and after no other |
| `Refinement.PrefetchAsks` | indexer/src/pipeline.rs:553-571 | The list that the fetcher skips by names exactly the hours of the range with fewer than 1000 rows from its first position on |
| `Refinement.ConsumerIsTheLoop` | indexer/src/pipeline.rs:195-326 | In a run without other writers and repeated attempts, however fetching and transactions interleave, table, checkpoint and count are those that the consumer loop computes from the batches handled |
| `Refinement.RetryStartsOver` | indexer/src/pipeline.rs:223-230 | A repeated attempt inserts the whole batch again and counts only its own rows |
| `Refinement.OnlyFailuresFail` | indexer/src/pipeline.rs:223-329 | A run returns an error only if a page could not be fetched or a statement failed |
| `Refinement.SessionCounts` | indexer/src/pipeline.rs:436-456 | In such a session the count follows the rows added exactly |
| `Refinement.BegunAsSaved` | indexer/src/pipeline.rs:48-90 | A run begins with the checkpoint that a process started right after it would load, reset or not, and fetches from there or from a later start |
| `Refinement.SessionStandsAtRow` | indexer/src/pipeline.rs:436-466 | At every moment of a session in every behaviour its position and count are those of the saved row, if there is one |
| `Refinement.SessionBegunAsSaved` | indexer/src/pipeline.rs:362-414 | So does a session |
| `EngineTheorems.ChannelIsOrdered` | indexer/src/pipeline.rs:195-232 | The channel never exceeds its bound, received batches are a prefix of the sent ones, and all received ones except the one in hand were inserted completely |
| `EngineTheorems.SomeStepEnabled` | indexer/src/pipeline.rs:195-312 | With room for one batch, a running backfill always has a step of its own to take, and none of the steps shown is a failure |
| `EngineTheorems.WorkFalls` | indexer/src/pipeline.rs:564-675 | Every step of a run ends it or lowers a lexicographic measure of fetch rounds, waiting batches, attempts and fills |
| `EngineTheorems.EveryRunEnds` | indexer/src/pipeline.rs:564-675 | No run goes on forever if it keeps getting its turn, whatever the order of its steps and however often other writers come in between |
| `EngineTheorems.S3PageIsAStep` | indexer/src/ingest/s3_source.rs:399-486 | Every answer of the S3 source at any clock reading is an enabled step of a backfill, so the theorems apply to it |
| `EngineTheorems.S3PageIsAPoll` | indexer/src/pipeline.rs:482-500 | The same for a continuous session |
| `Planner.LeavesGapsIffFew` | indexer/src/pipeline.rs:55-176 | Exactly when the planner leaves gaps behind it: of the gaps before the checkpoint and the end, a run never reaches one if they are one to twelve, and reaches all of them if they are more |
| `Limits.EarlierStartSkipsHours` | indexer/src/pipeline.rs:138-176 | An instance: a range that moves back before the checkpoint with at most twelve gaps leaves six hours unfetched |
| `Limits.OldRowSkipsHours` | indexer/src/pipeline.rs:368-406 | For every hour: a continuous reset of a row more than seven days old goes forward, and the next backfill from the unchanged start never requests the ten hours passed over |
| `Limits.NeverCutShortIffAtMost1000` | indexer/src/pipeline.rs:92-117 | Exactly when an hour is kept whole: with an unchanging file of the hour, every read of it successful and no other rows in the hour, every run in every behaviour that returns Ok with the hour in its range leaves all of the file stored, if and only if the file has at most 1000 different keys |
| `Limits.CrashLeavesHourIncomplete` | indexer/src/pipeline.rs:576-595 | For every file of more than 1000 different keys: a page with it is downloaded, transactions of 5000 fills commit 1000 of the keys, the process dies, and the next run returns Ok without fetching while the rest is absent |
| `Limits.CrashLosesTheRest` | indexer/src/store.rs:154-219 | With distinct keys the first 1000 fills are stored and none of the others |
| `Completeness.StoredIsComplete` | indexer/src/pipeline.rs:34-480 | After any runs, sessions, crashes and other writers: a stored hour whose file has at most 1000 different keys holds all of the file, unless a read of it came back without its fills |
| `Completeness.FullHoldsFile` | indexer/src/store.rs:325-373 | A table that respects the unique key and has 1000 rows in an hour holds all of a file with at most 1000 different keys, if the rows come from it |
| `Completeness.CountIsKeys` | indexer/src/store.rs:297-322 | Under the unique key the row count of an hour is the number of different keys in it |
| `EngineSafety.StepKeeps` | indexer/src/pipeline.rs:34-480 | Each step of planner, fetcher, channel, consumer, continuous session, other writers and crash keeps the engine invariant |
| `EngineSafety.ResumedIsKnown` | indexer/src/pipeline.rs:120-193 | A run that resumes has no unknown hour between its start and its first page hour |
| `EngineSafety.SkippedIsKnown` | indexer/src/pipeline.rs:92-129 | A run that returns without fetching has no unknown hour in its range |
| `EngineSafety.AdvanceLosesNothing` | indexer/src/pipeline.rs:236-250 | A checkpoint that follows a batch resumes at a cursor below which every hour is full or in a handled batch |
| `EngineSafety.FetchKeeps` | indexer/src/pipeline.rs:619-666 | A page extends the covered hours without a gap, although the cursor and the start drift apart |
| `EngineSafety.SkipKeeps` | indexer/src/pipeline.rs:575-617 | A skip may pull the cursor back and still leaves no hour uncovered |
| `Planner.PlannerGuarantee` | indexer/src/pipeline.rs:55-193 | With rows added between its queries: returning at once leaves at most twelve missing hours, resuming at most twelve before the checkpoint and none after a reset, and a reset only moves the checkpoint back |
| `Planner.ResumeIsStartOrCheckpoint` | indexer/src/pipeline.rs:138-176 | The branch for more than 24 gaps is never taken; a run returns at once exactly if rows and no missing hour are found, or if the checkpoint is not before the end; otherwise it resumes at the checkpoint, or at the start if that is later |
| `Planner.RefreshEffect` | indexer/src/pipeline.rs:55-90 | The reset happens exactly on more than twelve missing hours; it goes to a missing hour below which all hours are full, one millisecond before it with that hour as cursor, and keeps block and record count |
| `Planner.FewGapsLeft` | indexer/src/pipeline.rs:139-147 | When the resume point is chosen at most twelve gaps before the checkpoint are left, none after a reset |
| `Backfill.Pipeline.Refresh` | indexer/src/pipeline.rs:55-90 | The live auto-refresh computes AutoRefresh and saves the checkpoint exactly when it resets it |
| `Backfill.Pipeline.ChooseResume` | indexer/src/pipeline.rs:120-193 | The live smart restart computes ResumePoint on the table it finds |
| `Backfill.Pipeline.Prepare` | indexer/src/pipeline.rs:38-193 | The head of the run does what PlanBackfill says about the growing table, and changes no checkpoint but by a reset |
| `Backfill.Pipeline.ProcessBatch` | indexer/src/pipeline.rs:223-250 | One batch: on success its fills are in and the checkpoint has its cursor, time, block and the new count if it ends no earlier, and is unchanged otherwise; on failure only a prefix is in and the checkpoint is unchanged |
| `Backfill.Pipeline.Consume` | indexer/src/pipeline.rs:201-321 | The consumer loop: nothing after a failed batch is inserted or saved; checkpoint and saved row stand at the latest batch by then; the row respects the cursor rule and the books; a failure-free run computes ConsumeAll |
| `Backfill.CleanBooks` | indexer/src/pipeline.rs:202-250 | In a failure-free run the checkpoint's count is the initial one plus the rows added up to the last batch that advanced it |
| `Backfill.CheckpointIsLatest` | indexer/src/pipeline.rs:234-250 | The checkpoint of a failure-free run, without replaying it: cursor, time and block of the latest batch, the count of the rows added up to that one, and unchanged exactly if every batch is empty or ends earlier |
| `Backfill.ConsumedTable` | indexer/src/pipeline.rs:215-232 | The batches leave the table that inserting all their fills in order leaves |
| `Backfill.AdvanceKeeps` | indexer/src/pipeline.rs:236-250 | A checkpoint takes cursor, time, block and count of a batch exactly if that ends no earlier; the cursor is after the last record, and time never moves back |
| `Lifetime.RunBackfill` | indexer/src/pipeline.rs:34-329 | Planner, fetch loop and consumer composed on a live store: the run does what the planner says, fetches what the loop fetches with the answer of the gap query, inserts all of it, leaves the row at the latest batch, and accounts for every hour from the resume hour to the end |
| `Lifetime.Live` | indexer/src/main.rs:76-145 | Through any sequence of backfills and continuous runs the saved cursor is absent or after the last record, the count is covered by rows, and no row is lost |
| `Fetcher.RunFetcher` | indexer/src/pipeline.rs:533-683 | The fetch loop ends within linearly many rounds, covers every hour between first and last page hour, takes exactly the skips and pages its decisions prescribe, and stops at the first page without more |
| `Fetcher.SkipProgress` | indexer/src/pipeline.rs:597-617 | A skip moves both positions to the first instant of the next hour and lowers the round bound |
| `Fetcher.PageProgress` | indexer/src/pipeline.rs:634-646 | A page moves the start to its last fill, or past the hour if it is empty, and the cursor to the one it names; every page lowers the round bound |
| `Fetcher.BatchCursorAhead` | indexer/src/ingest/s3_source.rs:430-468 | A batch with fills names a cursor hour after its last fill |
| `Fetcher.PassedOverIsFull` | indexer/src/pipeline.rs:580-595 | An hour that was passed over held at least 1000 rows in the pre-fetched list's table or when it was counted |
| `Fetcher.SkipsFullHours` | indexer/src/pipeline.rs:576-595 | When an hour is skipped: with a list, exactly if it has 1000 rows from the first position on; without one, exactly if the count could be read and the whole hour has 1000 |
| `Reach.FetchToTheEnd` | indexer/src/pipeline.rs:533-683 | Over the S3 source, with the files there, the clock a day past them and an open channel, the fetch loop reaches its end: it does not stop early and no page fails, also if files are empty |
| `Reach.PageGoesOn` | indexer/src/ingest/s3_source.rs:399-486 | A page before hours whose files can be read, a day or more ago, succeeds and has more, also at 23h |
| `Fetcher.S3KeepsContract` | indexer/src/ingest/s3_source.rs:399-486 | The S3 source meets what the engine relies on: whole consecutive hours from the page hour, fills stamped in them, the cursor right after them |
| `Fetcher.FetchWithRetries` | indexer/src/pipeline.rs:620-632 | A retried fetch returns the answer of one of the allowed attempts, and a page only from the page hour |
| `Retry.RetryWithBackoff` | core/src/backoff.rs:18-78 | The answer is the last attempt's, all earlier ones failed, and failure is returned only at the attempt limit or when the backoff gives up |
| `Stores.Store.InsertFills` | indexer/src/store.rs:38-62 | Chunked insert: success equals inserting one by one with the exact count, failure leaves exactly a number of whole batches of 5000 inserted and happens only when a statement failed |
| `Stores.Store.BulkInsertChunk` | indexer/src/store.rs:64-74 | COPY with fallback to VALUES refines the one-by-one insert of the chunk |
| `Stores.Store.BulkInsertWithCopy` | indexer/src/store.rs:76-152 | One transaction: all of the chunk or nothing |
| `Stores.Store.BulkInsertWithValues` | indexer/src/store.rs:154-219 | Batches of 5000: those before a failure stay committed |
| `Stores.Store.InsertWithRetries` | indexer/src/pipeline.rs:223-230 | It gives up only at the attempt limit or when the backoff does; after any partial attempts success ends in the one-by-one table; the count is at most the growth, and equal to it when the first attempt succeeds |
| `Stores.Store.SaveCheckpoint` | indexer/src/store.rs:242-278 | The upsert replaces the whole row or, on failure, changes nothing |
| `Stores.Store.CheckTimeRangeExists` | indexer/src/store.rs:297-322 | The count of rows in the half-open range, and whether there are any |
| `Stores.Store.HourlyCounts` | indexer/src/store.rs:336-343 | The grouped counts: for each hour the rows from the later of its start and the query's to the earlier of their ends |
| `Stores.Store.GetMissingHours` | indexer/src/store.rs:325-373 | Series of hours left-joined to the grouped counts computes the specified list |
| `Stores.PrefixThenAgain` | indexer/src/store.rs:47-50 | A complete insert after a partial one is the complete insert |
| `Fills.InsertAllRows` | migrations/0001_complete_schema.sql:80 | First wins: a row is there exactly if it was before, or is the first of the fills with a key that was not |
| `Fills.InsertTwice` | indexer/src/store.rs:142-143 | Idempotence: inserting the same fills again adds no row |
| `Fills.PrefixAbsorbed` | indexer/src/store.rs:47-50 | Starting over after a partial insert: only the longer prefix counts |
| `Fills.InsertAllUnique` | migrations/0001_complete_schema.sql:80 | Inserts keep the unique key |
| `Fills.SameKey` | migrations/0001_complete_schema.sql:80 | Two fills conflict exactly if user, coin, time, price and size agree |
| `Gaps.MissingExact` | indexer/src/store.rs:329-350 | The gap query returns exactly the hours of the truncated range with fewer than 1000 rows, those before the start not counted, strictly increasing |
| `Gaps.CountIsBetween` | indexer/src/store.rs:297-322 | The count of a range is the number of rows from its start on and before its end |
| `Gaps.MissingShrinks` | indexer/src/store.rs:329-350 | Added rows can only remove hours from the answer |
| `Gaps.NothingBeforeFirst` | indexer/src/pipeline.rs:60-84 | Up to a millisecond before the first reported hour the same query is empty, and the hours before it are full |
| `Gaps.ReportedOrFull` | indexer/src/store.rs:344-349 | An hour of the range that is not reported is full, also where the range clips it |
| `Pages.FetchParallelBatch` | indexer/src/ingest/s3_source.rs:327-393 | Rounds of eight parallel downloads return the in-order concatenation of the hours fetched singly; failed hours contribute nothing |
| `Pages.FetchTextPage` | indexer/src/ingest/s3_source.rs:399-440 | The page on a cursor text equals the page on the hour the text names, for a printed cursor the hour it was printed for; a bad date or hour is rejected, and only an hour of 24 or more panics |
| `Pages.FetchSinglePage` | indexer/src/ingest/s3_source.rs:442-485 | The single-hour page with its hand-written rollover names the next hour, across midnight too |
| `Pages.RolloverIsNextHour` | indexer/src/ingest/s3_source.rs:460-468 | The hour after the last hour of a day is hour 0 of the next day |
| `Pages.PageShape` | indexer/src/ingest/s3_source.rs:421-485 | Both modes request one hour or four to eight consecutive ones and emit the cursor right after the last |
| `Pages.LastFillHour` | indexer/src/pipeline.rs:640-646 | The last fill of a page lies in one of the requested hours |
| `Pages.PageWidth` | indexer/src/ingest/s3_source.rs:421-426 | The exact page width: eight also for a position an hour or more in the future, where the cast wraps |
| `Pages.HasMoreExact` | indexer/src/ingest/s3_source.rs:460-471 | Exactly on which clock readings `has_more` of a single-hour page differs from 'the hour after the position's has begun', for positions anywhere in an hour: too early before 23h, up to a day too late at 23h |
| `Pages.ParallelHasMore` | indexer/src/ingest/s3_source.rs:428-438 | `has_more` of a page of four to eight hours: exactly if that many hours after the position lie before the clock |
| `Pages.PageContents` | indexer/src/ingest/s3_source.rs:399-486 | Each requested hour has the fills of its own file, read by the schema of its day, or none if that fails; only a missing file on a single-hour page leaves no cursor |
| `Pages.EarlyStopAt23` | indexer/src/ingest/s3_source.rs:460-471 | A concrete case: the page of 23h reports the end of the data though two later hours are over |
| `Pages.ParallelPageHidesFailures` | indexer/src/ingest/s3_source.rs:366-388 | A parallel page never fails and moves past hours that could not be read; a single-hour page fails on them |
| `Pages.PageErrors` | indexer/src/ingest/s3_source.rs:442-457 | A failing page has the error of its download, or a fatal one if the file cannot be read |
| `Pages.PrintedCursorContinues` | indexer/src/ingest/s3_source.rs:405-413 | A printed page has the fills and `has_more` of its batch, and its cursor is read back as the hour the page continues at |
| `Parsing.ParseFills` | indexer/src/ingest/s3_source.rs:165-217 | The line and event loops compute the specified parse |
| `Parsing.ParseLinesExact` | indexer/src/ingest/s3_source.rs:165-217 | Exactly when a file parses under each schema, and exactly which fills it yields |
| `Parsing.FileRoundTrip` | indexer/src/ingest/s3_source.rs:165-315 | Reading a file gives exactly the fills written in it, field by field and in order: block lines with their number, fill lines, and trade lines with one fill for each side and no PnL |
| `Parsing.LineRoundTrip` | indexer/src/ingest/s3_source.rs:174-213 | A line is read as a list of fills exactly if they are written in it; in a block, events that tell no fill are dropped |
| `Parsing.ReadIsWritten` | indexer/src/ingest/s3_source.rs:165-217 | A file that is read at all has fills written in each of its lines |
| `Parsing.ParseEventExact` | indexer/src/ingest/s3_source.rs:219-315 | An event is read as a fill exactly if user, coin, side, price, size, time, fee, PnL and block agree |
| `Parsing.ParseSideExact` | indexer/src/ingest/s3_source.rs:225-229 | The accepted spellings of the sides, in upper and lower case |
| `Parsing.SchemaMatchesPath` | indexer/src/ingest/s3_source.rs:96-106 | The parser's schema always matches the fetched path, for every instant of the hour |
| `Parsing.CutoverDates` | indexer/src/ingest/s3_source.rs:97-101 | The schema boundaries are the midnights of 2025-07-27, 2025-05-25 and 2025-03-22 |
| `Parsing.FormatOfDay` | indexer/src/ingest/s3_source.rs:96-106 | Which format folder and reader use on which day |
| `Cursors.CursorRoundTrip` | indexer/src/ingest/s3_source.rs:405-413 | Reading a printed cursor gives its hour: accepted, hour below 24, no panic |
| `Cursors.TimeRoundTrip` | indexer/src/pipeline.rs:69-73 | Printing a time and reading it back truncates it to its hour |
| `Cursors.PrintInjective` | indexer/src/ingest/s3_source.rs:432 | Two printed cursors are equal only for the same hour |
| `Cursors.CursorFormat` | indexer/src/ingest/s3_source.rs:432 | A printed cursor is year, month and day as an eight-digit number, an underscore, and the hour without leading zero |
| `Cursors.BadDateOrHour` | indexer/src/ingest/s3_source.rs:405-413 | Eight digits and a two-digit hour: a date that does not exist is rejected, an hour of 24 or more panics, all others are that hour |
| `Cursors.TrailingTextIsRejected` | indexer/src/ingest/s3_source.rs:407-409 | A date with anything after its eight digits is rejected |
| `Cursors.MoreMarksStartOver` | indexer/src/ingest/s3_source.rs:404-406 | A text with two underscores or more is no position |
| `Cursors.ParseU32Exact` | indexer/src/ingest/s3_source.rs:410 | Which texts are numbers of 32 bits, and which numbers they are |
| `Calendar.DayOfDate` | indexer/src/ingest/s3_source.rs:408 | Gregorian conversion: every day number from year 0 on yields a valid date with that number |
| `Calendar.DateOfDay` | indexer/src/ingest/s3_source.rs:408 | Every valid date is the date of its own day number |
| `Calendar.MonthLengths` | indexer/src/ingest/s3_source.rs:408 | The months have their lengths, February by the leap year |
| `Continuous.Poll` | indexer/src/pipeline.rs:412-479 | Through retryable errors, empty pages and dropped cursors, the stored pages cover every hour from the first page hour to the highest reached; the saved row is the last page's, and without failures every round is stored |
| `Continuous.Resume` | indexer/src/pipeline.rs:362-414 | The head of continuous mode: the reset, the start and the cursor it resumes with |
| `Continuous.FetchAndProcess` | indexer/src/pipeline.rs:482-520 | A page counts only if its insert succeeded, with the exact number of rows added |
| `Continuous.ResetContiguousIffRecent` | indexer/src/pipeline.rs:368-406 | The reset of continuous mode may move forward; it passes over no unfilled hour, whatever is stored, if and only if the resume hour is at most seven days old |
| `Continuous.ContinuousRefreshEffect` | indexer/src/pipeline.rs:368-406 | The reset happens exactly on more than six missing hours since the row or in the last seven days, goes to the first of them and changes nothing else |
| `Continuous.PollProgress` | indexer/src/pipeline.rs:441-466 | After a page the session stands at its last fill, or where it stood if the page is empty, with its cursor; the saved row has that time, the block of the last fill and the new count |
| `Continuous.PollStartIs` | indexer/src/pipeline.rs:408-414 | A session begins at the row, else at the configured start, else seven days ago |
| `StatsMachine.StaleIsAccountedFor` | indexer/src/incremental_stats.rs:54-178 | In every behaviour with a bounded queue, drops and failures, a stale statistics row is covered by a request that is pending, queued, in progress, dropped or failed |
| `StatsMachine.QuietIsExact` | indexer/src/incremental_stats.rs:87-110 | When nothing is outstanding the statistics equal the full group-by, in whatever order the four concurrent updates finished |
| `StatsMachine.DrainedIsExact` | indexer/src/incremental_stats.rs:54-110 | In a behaviour in which no send finds the queue full and no query or update fails, once all is drained the statistics equal the full group-by |
| `StatsMachine.StepKeeps` | indexer/src/incremental_stats.rs:26-178 | Each step of ingestion, queue and worker keeps the accounting invariant |
| `StatsMachine.SpanIsTight` | indexer/src/incremental_stats.rs:236-238 | A request that spans a batch with both ends reached is the one the machine uses |
| `StatsUpdater.IncrementalStatsUpdater.QueueUpdate` | indexer/src/incremental_stats.rs:54-74 | A full queue drops the request, otherwise it is appended |
| `StatsUpdater.IncrementalStatsUpdater.QueueUpdateForFills` | indexer/src/incremental_stats.rs:231-244 | The request spans exactly from the earliest to the latest fill |
| `StatsUpdater.IncrementalStatsUpdater.UpdateSingleHour` | indexer/src/incremental_stats.rs:132-178 | One upsert of all groups of the hour, or no change |
| `StatsUpdater.IncrementalStatsUpdater.ProcessUpdate` | indexer/src/incremental_stats.rs:77-110 | Every affected hour whose statement succeeds is fresh afterwards, exactly the others are reported as failed, and no other hour changes |
| `StatsUpdater.AggregateMeaning` | indexer/src/incremental_stats.rs:142-158 | What an aggregate says about its group: count, traders, buy and sell against total, largest and smallest trade |
| `StatsUpdater.AggregateSums` | indexer/src/incremental_stats.rs:142-153 | Volume, buy and sell volume and fees of an aggregate are the sums over its fills, a missing fee counting as none |
| `StatsUpdater.GroupSize` | indexer/src/incremental_stats.rs:154-156 | A group has as many fills as the table has rows of its hour and exchange |
| `StatsUpdater.AffectedExact` | indexer/src/incremental_stats.rs:112-125 | An hour is affected exactly if it has a row in the range, both ends included |
| `Rollups.RollupConserves` | migrations/0001_complete_schema.sql:193-336 | User rows summed over users give the market rows, and those summed over markets the exchange rows, in any reading order, with exactly the matching groups |
| `Rollups.ViewBalances` | migrations/0001_complete_schema.sql:203-206 | In every view row buy + sell = total, buy - sell = net, spot + perp = total |
| `Rollups.ViewSums` | migrations/0001_complete_schema.sql:197-296 | Trades, volume, buy and spot volume, PnL and fees of a view row are the sums over the rows of its group, missing values counting as none |
| `Rollups.ViewGroups` | migrations/0001_complete_schema.sql:197-302 | A view has a row for exactly the groups that some row with a market belongs to |
| `Rollups.MarketIsOneKind` | migrations/0001_complete_schema.sql:320-324 | A market row's volume is all spot or all perp, so the exchange breakdown is a sum over markets |
| `Registry.MarketRegistry.Session` | indexer/src/market.rs:98-267 | Through any sequence of loads, refreshes, lookups and foreign inserts that may fail midway, the same coin always gets the same id and different coins different ids; a lookup goes unanswered only if a statement failed |
| `Registry.MarketRegistry.LoadMarketsFromDb` | indexer/src/market.rs:98-132 | A load puts exactly the active rows of the table into the cache over what was there |
| `Registry.MarketRegistry.UpsertMarket` | indexer/src/market.rs:198-241 | An upsert keeps id and activity of an existing market, writes the rest as given, and caches the stored row; nothing else changes |
| `Registry.MarketRegistry.RefreshMetadata` | indexer/src/market.rs:134-196 | A refresh that may end halfway keeps all ids; if it succeeds every listed perp and spot market is in table and cache with its symbol, type and base asset |
| `Registry.SpotIdIs` | indexer/src/market.rs:171-172 | A spot id is `@` and the index in decimal |
| `Registry.MarketRegistry.GetOrCreateRow` | migrations/0001_complete_schema.sql:602-641 | The database function returns the row's id, creating an active placeholder of the right type named after the market, and changes no other row |
| `Registry.MarketRegistry.GetOrCreateMarket` | indexer/src/market.rs:243-267 | A lookup answers the table's id, from the cache if it is there |
| `Registry.MarketRegistry.StoreFills` | indexer/src/store.rs:108-149 | One insert with market ids looked up on the live registry leaves the rows that the insert by coin leaves; a failing look-up leaves the table as it is |
| `Registry.MarketRegistry.Ingest` | indexer/src/store.rs:38-62 | Through any inserts with any registry operations in between, the table under the key with market ids holds exactly the rows of the coin-keyed insert of all batches stored |
| `Registry.DedupByIdIsDedupByCoin` | migrations/0001_complete_schema.sql:80 | Rows that carry their market ids: de-duplicating by id leaves the same rows as de-duplicating by coin |
| `CopyFormat.CopyFaithfulIff` | indexer/src/store.rs:104-130 | COPY's CSV (section 2 of RFC 4180, with `\N` as NULL) is read back as the rows that VALUES binds if and only if no text holds a comma, quote or line break or is the NULL marker |
| `CopyFormat.RowIsNoEndMarker` | indexer/src/store.rs:104-130 | No row is written as the line that COPY reads as the end of the data |
| `CopyFormat.BuildCsv` | indexer/src/store.rs:108-130 | The write loop produces the specified text |
| `CopyFormat.BuildValues` | indexer/src/store.rs:171-210 | Placeholder of row i, column j is 11i + j + 1 and is bound to that column; 5000 rows stay below 65535 parameters |

## Left out

- Cursors.CursorRoundTrip: years outside 0 to 9999 are not printed, because the text form has four digits for the year.
- Cursors.ParseDate: cursor texts with signs or blanks inside the date, which chrono's scanner would take, are read as rejected; the engine never prints them.
- Pages.PageWidth: the difference to the clock stays within 64 bits.
- Parsing.ParseFills: JSON decoding and number parsing are inputs (a line of one of the shapes, or malformed); upper-casing of sides is modelled for ASCII letters.
- Stores.Store.BulkInsertWithCopy: a commit that is lost after the server has carried it out is not modelled; the count would then be too small, the table the same.
- Stores.Store.InsertFills: market lookups inside the insert are covered by the registry model and by the open failure of each statement.
- CopyFormat.CopyFaithfulIff: columns are the texts the code prints; how the database reads the text of a number or instant is the same on both paths and is left to it.
- Engine: the periodic save is allowed at any batch that advances the checkpoint, whatever the time since the last one.
- StatsUpdater.AggregateMeaning: averages are quotients of the modelled sums, and `last_updated` is left out.
- Rollups.RollupConserves: distinct counts, averages, extremes, open and close prices, STDDEV and percentiles do not add up over groups; the join with `exchanges` drops nothing because of the foreign key.
- Fractions of a millisecond in instants, rounding of f64 and NUMERIC, NaN and infinities: values are exact integers.
- The S3 client, LZ4, HTTP calls, PostgreSQL internals and the delays of the backoff crate: their answers are inputs.
- `is_active` is never cleared by the modelled code; `updated_at`, `metadata` and `source` of a checkpoint are constant or display only.
- Progress, throughput, metrics, logging, telemetry, configuration loading, the command line, containers, scripts and dashboards.
- `update_daily_stats`, `update_market_stats_static`, `refresh_hourly_stats_view`, and the windows relative to `NOW()`: further aggregates of the same kind.
- Continuous.Poll: on the live objects a session ends between rounds; a shutdown in the middle of a round is a crash of the engine.
- Lifetime.Live: on the live objects only the shape of the row is kept; coverage of hours over any sequence of backfills and continuous sessions is proved on the engine (`EngineTheorems.CheckpointIsSafe`, `EngineTheorems.IngestingCovers`).

# Tadoru: verified model

Tadoru is a self-hosted web analytics server. Events arrive over HTTP, pass a
rate limiter, get a hashed visitor id and a session, wait in a write buffer and
are flushed to a log. Jobs on a scheduler rebuild per-day rollup tables from the
log and purge it; the dashboard answers closed days from the rollups and today
from the log. This project models that pipeline and the small algorithms beside
it in Dafny 4.11 and proves what they are for.

`dafny verify dfyconfig.toml` checks everything.

How it is laid out:

- **The log and the reports.** `TrackedEvent`, `Aggregates` (one function per
  SQL statement: `GROUP BY` as a partition, `COUNT(DISTINCT ...)` as a set's
  cardinality, NULL sums as `None`), `BreakdownLaws`, `Database`,
  `SqliteRollupBuilder`, `RollupLaws`, `Metrics`, `MetricsRepository`,
  `QuerySiteMetrics`, `RangeReports`, `ScrollDepth`, `Dashboard`, `ReachableReports`.
  `CountedReports` and `CountedRanges` say what the numbers are without the queries:
  which of the written events, one by one, each of them counts.
- **The server as a state machine.** `RecordEvent`, `BatchingEventRepository`,
  `EventRepository`, `PurgeExpiredData` over `Calendar`, and `VisitorId` are the
  parts; `Pipeline` is the machine (requests in two steps, so that others can run
  between lookup and save), `ClosedDays`, `Identities`, `Sessions`,
  `WriteThrough` and `StoredEvents` are about all its runs, `FlushTimer` adds the buffer's timer, and
  `Server` shows that the objects take its steps and that the two timers, of the
  buffer and of the rollup job, keep its closed days.
- **Beside it.** `RateLimit`, `Scheduler`, `JobStaleness`, `ScrollTracker`, and
  the text transformations `Credentials`, `EscapeHtml` and `Locale` over `Text`.
- `Counting`, `Listing` and `Wrappers` hold what the others share.

What the source changes in place is a class here; its methods are specified by
functions on values, and the theorems are about those functions.

Conventions of the model:

- A site is identified by its domain. Timestamps are whole seconds and the clock
  whole milliseconds, as stored and read.
- Event values and limiter tokens are integers in a fixed unit (a sixty-thousandth
  of a token, so refill per millisecond is whole); averages and rates are reals.
- The salt, fresh session ids, the hash, the country and device lookups and the
  URL helpers are parameters: the hash is any function, and where ids must be
  distinct a theorem names the inputs that must not collide. Requests carry the
  address and user agent as their UTF-8 bytes.
- A fresh session id is one never issued before.
- SQL row order is left open: listed reports come in any order.

Where the code and its comments or a standard differ, the code is followed. Among the
results of that:

- A rebuild can be blocked for a whole day by one group of valueless events
  (`RollupLaws.LoneValuelessScrollBlocksRebuild`); exactly when is
  `RollupLaws.StorableIff`.
- Restarting the scheduler while a run is in flight doubles a timer
  (`Scheduler.RestartInFlightDoublesTimers`); a job never has two tasks exactly in
  the runs that do not do so (`Scheduler.NeverTwoTasksIff`).
- The engagement timer starts as if the page were visible, so a page created in the
  background counts hidden time, where the browser-tracker specification excludes
  it: an hour hidden reads an hour (`ScrollTracker.HiddenHourReadsAnHour`). It
  measures visible time exactly for pages created visible, or shown at once
  (`ScrollTracker.TimerMeasuresVisibilityIff`).
- The buffer answers a lookup with the visitor's event saved last, which after
  saves out of order need not be the latest (`WriteThrough.DisorderTellsThemApart`).
  Batching changes what is stored exactly in the runs where that matters to some
  request (`WriteThrough.BatchingRefinesWritingThroughIff`); orderly runs are not
  among them.
- Overlapping first requests of one visitor can store two sessions in one second
  (`Sessions.OverlapSplitsSession`); sessions stay runs exactly in orderly runs
  (`Sessions.SessionRunsIffOrderly`), which allow every overlap of requests that
  continue a session and are saved in order.
- The retention cutoff moves back at the end of some months, unless the retention is
  a multiple of 400 years (`PurgeExpiredData.CutoffIsMonotoneIff`).
- The comment on the scroll table's fallback to 0 sessions says it should not
  happen, a race of queries apart; for two queries that read one state
  `ReachableReports.ScrollTableIsSoundInEveryRun` shows it cannot.
- A quality up to 1.999 is accepted, where section 12.4.2 of RFC 9110 stops at 1.
- The limiter's rate bound under eviction and the freedom from false staleness hold
  under a condition on the configuration; it is exact in both cases
  (`RateLimit.SweepingIsBoundedIff`, `JobStaleness.NeverStaleIff`).

## Model

| member | source | states |
|---|---|---|
| `ClosedDays.RebuiltDayIsExactAndFinal` | src/analytics/infrastructure/http/server.ts:112-130 | Over every run of requests, flushes, jobs and a forward clock with at least a month of retention: once yesterday is settled (over, and nothing of it buffered or under way) and its rebuild commits, its rollup rows equal the aggregates of every event ever saved for that day, and no later step - rebuild, purge, flush, request - changes any of them |
| `ClosedDays.RunKeepsCurrent` | src/analytics/infrastructure/http/server.ts:102-131 | The invariant behind it: from any state, a settled and current day stays settled and current through any run, its rows cell for cell the same and its events the same events |
| `ClosedDays.YesterdayStorableIff` | src/analytics/infrastructure/persistence/sqlite/SqliteRollupBuilder.ts:85-116 | Whether yesterday's rebuild commits is decided by the events saved for it alone, purges included: it does exactly when no (site, key) group of any dimension and no scrolled path consists of valueless events only |
| `ClosedDays.KeptDaysAreCurrent` | src/analytics/infrastructure/http/server.ts:112-121 | In every run, each closed day that some rollup step met as a settled, storable yesterday, and each closed day of which nothing was written, has current rollups at the end |
| `ClosedDays.RunKeepsRowsHaveEvents` | src/analytics/infrastructure/persistence/sqlite/SqliteRollupBuilder.ts:135-138 | In every reachable state each stored rollup row belongs to a day with a written event |
| `ClosedDays.RebuiltRowsStay` | src/analytics/infrastructure/http/server.ts:112-121 | What is written of a rebuilt day is the same in all later states |
| `Pipeline.RunKeepsDated` | src/analytics/infrastructure/http/server.ts:98-131 | What every run keeps under any configuration, no retention included: nothing written, buffered or under way is dated after the clock, the log holds only what was written, and rollup rows sit on day starts |
| `Pipeline.RunKeepsInv` | src/analytics/infrastructure/http/server.ts:98-131 | What every run keeps: the log holds every event of the last 28 days, in order, that was ever written; nothing is dated after the clock; rollup rows sit on day starts |
| `Pipeline.RecentDaysAreComplete` | src/analytics/application/PurgeExpiredData.ts:36-43 | Any day of the last four weeks reads the same from the purged log as from everything ever written |
| `Pipeline.PurgeJobKeeps` | src/analytics/application/PurgeExpiredData.ts:36-43 | The purge job keeps each row dated at or after the current second less the length of the last n calendar months as often as the log had it, and no other row |
| `Pipeline.BufferStaysBelowLimit` | src/analytics/infrastructure/persistence/sqlite/BatchingEventRepository.ts:42-50 | In every run less than a batch is buffered |
| `Pipeline.BatchIsWrittenWhenFull` | src/analytics/infrastructure/persistence/sqlite/BatchingEventRepository.ts:42-50 | A save that fills the batch writes what was buffered and the event, in order, and an earlier one writes nothing |
| `SqliteRollupBuilder.SqliteRollupBuilder.Execute` | src/analytics/infrastructure/persistence/sqlite/SqliteRollupBuilder.ts:58-70 | Deletes and inserts in place, dimension by dimension and then scroll: commits exactly when every group can be stored, leaving the day's rows rebuilt and all others alone, and otherwise leaves every table as it was |
| `SqliteRollupBuilder.SqliteRollupBuilder.RebuildDimension` | src/analytics/infrastructure/persistence/sqlite/SqliteRollupBuilder.ts:72-138 | One dimension's table: its rows of the day are deleted and the grouped report's rows inserted, failing exactly when some group's engagement sum is NULL |
| `SqliteRollupBuilder.SqliteRollupBuilder.RebuildScroll` | src/analytics/infrastructure/persistence/sqlite/SqliteRollupBuilder.ts:153-185 | The same for the scroll table |
| `Aggregates.RollupAgreesWithRaw` | src/analytics/infrastructure/persistence/sqlite/SqliteRollupBuilder.ts:78-116 | The all-sites statement grouped by (site, key), bounce join included, contains for each site exactly the rows and numbers of that site's raw report |
| `Aggregates.RollupScrollAgreesWithRaw` | src/analytics/infrastructure/persistence/sqlite/SqliteRollupBuilder.ts:156-177 | The same for per-path sums of per-session maxima |
| `RollupLaws.RebuiltIsCurrent` | src/analytics/infrastructure/persistence/sqlite/SqliteRollupBuilder.ts:58-138 | A rebuild makes the day current in all eleven tables - each cell present exactly when the day's report has the key, with its numbers - and leaves every other day's cells alone |
| `RollupLaws.RebuildIsIdempotent` | src/analytics/infrastructure/persistence/sqlite/SqliteRollupBuilder.ts:58-70 | Rebuilding a day again from the same log changes nothing |
| `RollupLaws.StorableIff` | src/analytics/infrastructure/persistence/sqlite/migrations/index.ts:80-80 | With NOT NULL columns, a rebuild commits if and only if every group of the day has an event that contributes a non-NULL engagement term and every scrolled path a scroll event with a value |
| `RollupLaws.LoneValuelessScrollBlocksRebuild` | src/analytics/infrastructure/persistence/sqlite/migrations/index.ts:162-162 | A single scroll event without a value, alone on its path, keeps the whole day from being rebuilt |
| `RollupLaws.CurrentFixesDay` | src/analytics/infrastructure/persistence/sqlite/SqliteRollupBuilder.ts:58-70 | Two tables that are current for the same log agree cell for cell on the day |
| `BreakdownLaws.PageviewsAddUp` | src/analytics/infrastructure/persistence/sqlite/SqliteRollupBuilder.ts:85-98 | For every dimension, pageviews added over the keys are the pageviews of the rows |
| `BreakdownLaws.BouncesAddUp` | src/analytics/infrastructure/persistence/sqlite/SqliteRollupBuilder.ts:79-105 | For every dimension, bounces added over the keys are the number of sessions with exactly one pageview |
| `BreakdownLaws.BouncesAreBounded` | src/analytics/infrastructure/persistence/sqlite/SqliteRollupBuilder.ts:99-114 | Per key, bounces exceed neither sessions nor pageviews |
| `BreakdownLaws.BounceJoinLosesNothing` | src/analytics/infrastructure/persistence/sqlite/SqliteRollupBuilder.ts:113-114 | Every bounce key has an aggregate row to join to, so the left join drops no bounce |
| `BreakdownLaws.VisitorsAddUp` | src/analytics/infrastructure/persistence/sqlite/SqliteRollupBuilder.ts:91-94 | Distinct visitors added over the keys are at least the distinct visitors, with equality if and only if the visitor determines the key |
| `BreakdownLaws.SessionsAddUp` | src/analytics/infrastructure/persistence/sqlite/SqliteRollupBuilder.ts:91-95 | The same for distinct sessions |
| `BreakdownLaws.EngagementAddsUp` | src/analytics/infrastructure/persistence/sqlite/SqliteRollupBuilder.ts:96-96 | Engagement added over the keys is the engagement of the rows |
| `Identities.RunKeepsIdentities` | src/analytics/application/RecordEvent.ts:110-182 | In every reachable state, interleaved or not, a session id belongs to one visitor and every event shows the client whose identity was hashed into its visitor id |
| `Identities.ClientDimensionsFollowVisitor` | src/analytics/application/RecordEvent.ts:123-131 | Short of a hash collision, in every reachable state a visitor id has one device, browser, operating system and country |
| `Identities.ClientDimensionsFollowSession` | src/analytics/application/RecordEvent.ts:135-142 | So does a session id |
| `QuerySiteMetrics.QuerySiteMetrics.Execute` | src/analytics/application/QuerySiteMetrics.ts:31-48 | Reads closed days from the rollups and the rest from the raw log and merges by key: the rows list exactly the two answers added key by key |
| `QuerySiteMetrics.QuerySiteScrollDepth.Execute` | src/analytics/application/QuerySiteScrollDepth.ts:30-47 | The same split for scroll depth |
| `QuerySiteMetrics.PartsPartitionTheRange` | src/analytics/application/QuerySiteMetrics.ts:33-45 | The two sub-ranges cover every instant of the range exactly once, closed days before today and raw reads from today on |
| `RangeReports.MetricsReportIsExact` | src/analytics/infrastructure/persistence/sqlite/SqliteMetricsRepository.ts:34-106 | With closed days current and today's rows in the log, the stitched report over any aligned range is, per key, the sum over its days of the report computed straight from that day's events |
| `RangeReports.ScrollReportIsExact` | src/analytics/infrastructure/persistence/sqlite/SqliteScrollDepthRepository.ts:29-74 | The same for scroll depth |
| `RangeReports.RollupAnswerIsDailyTotal` | src/analytics/infrastructure/persistence/sqlite/SqliteMetricsRepository.ts:34-56 | The rollup query over whole days is the sum of the daily rows the table stores |
| `Metrics.MergeRowsByKey` | src/analytics/domain/report/Metrics.ts:36-43 | The merging loop lists, per key, the left-to-right combination of that key's rows |
| `Metrics.MergedOfTwo` | src/analytics/domain/report/Metrics.ts:20-43 | Merging the concatenation of two listed reports adds the reports key by key |
| `TimeRange.CreateTimeRange` | src/analytics/domain/report/TimeRange.ts:21-35 | Refuses an empty or backward range; otherwise gives the least day-aligned range that covers the given one |
| `TimeRange.DayStartIs` | src/analytics/domain/report/TimeRange.ts:17-19 | The start of an instant's day is the last multiple of 86 400 seconds not after it |
| `TimeRange.DaysInRange` | src/analytics/domain/report/TimeRange.ts:40-46 | Lists the starts of the range's days, in order, DayCount of them when it is aligned |
| `Dashboard.QueryIsExactInEveryRun` | src/analytics/application/QuerySiteMetrics.ts:31-48 | End to end: in every run, over any aligned range each of whose closed days was rebuilt once settled or has no written event, both queries give the day-by-day reference computed from everything ever written |
| `Dashboard.ClosedAnswersNeverChange` | src/analytics/infrastructure/http/dashboardRoutes.ts:508-521 | Over days that are over and rebuilt, both queries answer the same in every later state, whatever the clock reads there |
| `CountedRanges.RowIsCountedInEveryRun` | src/analytics/infrastructure/persistence/sqlite/SqliteMetricsRepository.ts:34-106 | In every run, over an aligned range whose closed days it has kept, a key has a row if and only if some event written for the site with start <= ts < end shows it; its pageviews and engagement are those of all such events, and every column is the sum over the days of that day's pageviews, distinct visitors, distinct sessions, only views of their session, and engagement, each counted event by event |
| `CountedRanges.HeadlineIsCountedInEveryRun` | src/analytics/infrastructure/http/views/components.ts:32-46 | Under the same condition the headline made from any dimension shows as many pageviews as events were written for the site in the range with type pageview, and the engagement of all its events there |
| `CountedRanges.ScrollRowIsCountedInEveryRun` | src/analytics/infrastructure/persistence/sqlite/SqliteScrollDepthRepository.ts:29-74 | In every run, over such a range, a path has scroll data if and only if some scroll event was written for it in the range, and its row adds up, day by day, the distinct sessions and for each of them the deepest value it stored for the path that day |
| `CountedRanges.DepthSumIsTotal` | src/analytics/infrastructure/persistence/sqlite/SqliteRollupBuilder.ts:156-171 | The sum of per-session maxima is the total over the distinct sessions of any function that gives each session its greatest stored value, or 0 |
| `CountedRanges.TwoMilestonesCountOnce` | src/analytics/infrastructure/persistence/sqlite/SqliteScrollDepthRepository.ts:55-66 | A session that scrolls to 25 and then to 75 on one path counts once, with 75 |
| `CountedReports.DayRowIsCounted` | src/analytics/infrastructure/persistence/sqlite/SqliteMetricsRepository.ts:65-106 | A key's row of one day counts, of the events themselves: pageviews of the key, distinct visitors and sessions, pageviews that are their session's only one on the site that day, and engagement seconds |
| `CountedReports.DayKeyIff` | src/analytics/infrastructure/persistence/sqlite/SqliteMetricsRepository.ts:80-106 | A key has a row of the day if and only if some event of the site and day shows it, a missing value as the empty string |
| `Dashboard.HeadlineIsExactInEveryRun` | src/analytics/infrastructure/http/dashboardRoutes.ts:476-478 | Under the same condition on the run, the headline made from a dimension is, column by column, the sum over the days of that day's own numbers counted event by event: pageviews, bounced sessions and engagement for every dimension and even with colliding hashes, distinct visitors and distinct sessions for a client dimension and short of a collision |
| `Dashboard.DashboardRoutes.RenderOverview` | src/analytics/infrastructure/http/dashboardRoutes.ts:472-524 | Read from one state, the handler's headline is each column of the device report added up, and its chart has one point a day, the visitors of that day's own query, also when a one-day range reuses the headline's rows |
| `Dashboard.OverviewIsExactInEveryRun` | src/analytics/infrastructure/http/dashboardRoutes.ts:472-478 | In every run that keeps the range's days, and short of a collision, each headline number the overview shows is the sum over the days of that day's own, counted event by event, distinct visitors and sessions included |
| `Dashboard.ChartCountsVisitorsInEveryRun` | src/analytics/infrastructure/http/dashboardRoutes.ts:508-524 | Under the same conditions a chart point is the number of distinct visitors among the events written for the site that day |
| `Dashboard.SumMetricRows` | src/analytics/infrastructure/http/views/components.ts:32-46 | The totals loop; with SumOfListing, each total is its column's sum over the keys however the rows are ordered |
| `Dashboard.SumOfListing` | src/analytics/infrastructure/http/views/components.ts:32-46 | Each total of a listed report is that column added over the report's keys, whatever the row order |
| `Dashboard.AverageEngagementSeconds` | src/analytics/infrastructure/http/views/components.ts:52-54 | The average times the sessions is the engagement; 0 without sessions |
| `Dashboard.BuildTimeRange` | src/analytics/infrastructure/http/dashboardRoutes.ts:236-242 | The range is aligned, spans the key's number of days, contains now, and all its days but the last are closed |
| `ReachableReports.ReportsAreShown` | src/analytics/application/QuerySiteMetrics.ts:31-48 | In every reachable state, whatever the rollups hold and whatever the configuration, both queries over an aligned range are the key-by-key sum of what they show of each day: the stored rows of a day that is over, the log's own report of today |
| `ReachableReports.ChartAddsUpToHeadline` | src/analytics/infrastructure/http/dashboardRoutes.ts:508-524 | In every reachable state the chart's per-day values, each from its own query, add up to the headline's visitors, whether or not the days are rebuilt |
| `ReachableReports.RunKeepsRowsSound` | src/analytics/infrastructure/persistence/sqlite/SqliteRollupBuilder.ts:77-171 | No run ever stores a metrics row with more bounces than sessions, a scroll row without sessions or without a breakdown row of at least as many sessions for its path, or, when every scroll event written for that site, path and day carries a value between 25 and 100, a depth sum outside those bounds times its sessions |
| `ReachableReports.BounceRateIsAFractionInEveryRun` | src/analytics/infrastructure/http/views/components.ts:48-50 | In every reachable state, rebuilt days or not, for any dimension and even with colliding hashes, the bounce rate lies between 0 and 1 |
| `ReachableReports.ScrollTableIsSoundInEveryRun` | src/analytics/infrastructure/http/dashboardRoutes.ts:104-125 | In every reachable state, with both queries reading it, each path with scroll data has a breakdown row with at least as many sessions, and when every scroll event written for that path in the range carries a value between 25 and 100 so does its average, whatever other paths and sites hold |
| `BatchingEventRepository.BatchingEventRepository.SaveBatch` | src/analytics/infrastructure/persistence/sqlite/BatchingEventRepository.ts:42-50 | Log followed by buffer grows by exactly the batch, in order; the buffer stays below the limit; a non-empty buffer has a timer due within the interval of every buffered event's arrival; a failed flush loses exactly what was buffered |
| `BatchingEventRepository.BatchingEventRepository.Flush` | src/analytics/infrastructure/persistence/sqlite/BatchingEventRepository.ts:63-70 | Moves the buffer to the log and disarms the timer; contents are unchanged if and only if the delegate took the write |
| `BatchingEventRepository.BatchingEventRepository.FindLastEventForVisitor` | src/analytics/infrastructure/persistence/sqlite/BatchingEventRepository.ts:52-60 | The backward search answers with the latest buffered event of the visitor, else with the log's answer |
| `BatchingEventRepository.BatchingEventRepository.FlushTimerFires` | src/analytics/infrastructure/persistence/sqlite/BatchingEventRepository.ts:72-80 | When the timer fires the buffer is drained and no timer stays armed |
| `FlushTimer.NoEventWaitsLonger` | src/analytics/infrastructure/persistence/sqlite/BatchingEventRepository.ts:42-80 | In every run the armed timer is due one interval after the first buffered event was saved, and when it fires at most l late, every buffered event was saved at most the interval and l ago |
| `FlushTimer.DaySettlesInTime` | src/analytics/infrastructure/persistence/sqlite/BatchingEventRepository.ts:42-80 | If moreover each request is saved within h of the end of the second it began in, then from h, the interval and l after its midnight on a day is settled: none of its events is buffered or under way |
| `Sessions.BufferingKeepsTheAnswerIff` | src/analytics/infrastructure/persistence/sqlite/BatchingEventRepository.ts:52-60 | In any state whatever of log and buffer, a lookup through the buffer resolves the session that the log with the buffer written to it would, if and only if nothing of the visitor is buffered or its event saved last resolves like the latest one |
| `Sessions.BufferingKeepsTheAnswer` | src/analytics/infrastructure/persistence/sqlite/BatchingEventRepository.ts:52-60 | In every state of an orderly run that is so, whichever of several latest events the log would answer with |
| `WriteThrough.BatchingRefinesWritingThroughIff` | src/analytics/infrastructure/persistence/sqlite/BatchingEventRepository.ts:42-70 | For every run: a server that writes every event through can take the same steps; it has written, in the same order, exactly the events written or buffered here, and has the same ones under way, if and only if every accepted request found nothing of its visitor buffered, or its event saved last and its latest event held continue the same session, or neither continues one |
| `WriteThrough.BatchingRefinesWritingThrough` | src/analytics/infrastructure/persistence/sqlite/BatchingEventRepository.ts:42-70 | Every orderly run meets that condition |
| `WriteThrough.DisorderTellsThemApart` | src/analytics/infrastructure/persistence/sqlite/BatchingEventRepository.ts:52-60 | A run that fails the condition: when the saves of one visitor's two requests overtake each other, the buffer answers with the event saved last, the log with the latest, and the next request continues different sessions |
| `WriteThrough.OverlapIsUnaffected` | src/analytics/application/RecordEvent.ts:133-182 | The condition is weaker than being orderly: two overlapping first requests are not, and batching changes nothing in them |
| `EventRepository.Latest` | src/analytics/infrastructure/persistence/sqlite/SqliteEventRepository.ts:100-111 | An answer with the greatest timestamp among the visitor's events, or none exactly when there is none |
| `EventRepository.SqliteEventRepository.SaveBatch` | src/analytics/infrastructure/persistence/sqlite/SqliteEventRepository.ts:116-149 | The insert loop appends the batch in order |
| `EventRepository.SqliteEventRepository.DeleteOlderThan` | src/analytics/infrastructure/persistence/sqlite/SqliteEventRepository.ts:161-164 | Keeps exactly the rows at or after the cutoff, in order, and reports how many went |
| `EventRepository.RetainedKeepsEach` | src/analytics/infrastructure/persistence/sqlite/SqliteEventRepository.ts:113-113 | A purge keeps each row at or after the cutoff as often as it was there, and no other |
| `RecordEvent.RecordEvent.Execute` | src/analytics/application/RecordEvent.ts:110-186 | Refuses an unknown site, then an unknown type, changing nothing; otherwise saves exactly the event whose visitor, session and columns the input, the salt, the clock and the buffered lookup determine, or reports the failed flush |
| `RecordEvent.RecordEvent.Resolve` | src/analytics/application/RecordEvent.ts:110-177 | The part before the save: the refusals, or that event, with the stores unchanged |
| `RecordEvent.RecordEvent.Store` | src/analytics/application/RecordEvent.ts:179-185 | The save alone: the event joins the buffer, or the flush it triggers writes or loses the batch |
| `StoredEvents.AcceptedIff` | src/analytics/application/RecordEvent.ts:110-121 | A request is refused for its site first and its type second, and for nothing else |
| `StoredEvents.StoredColumns` | src/analytics/application/RecordEvent.ts:123-182 | Every column of the stored event, field by field: the path sanitized, the campaign columns and the referrer source read from the sanitized path, the visitor the first sixteen bytes of the hash of the four length-prefixed fields |
| `StoredEvents.SameVisitorIff` | src/analytics/application/RecordEvent.ts:123-131 | Short of a collision between the two, two accepted requests store one visitor, whenever they come, if and only if salt, site, address and user agent are the same |
| `StoredEvents.NewSaltNewVisitor` | src/analytics/infrastructure/http/server.ts:102-111 | Once the salt job has put another salt, the same client is stored as a new visitor, short of a collision |
| `StoredEvents.SessionContinuesForHalfAnHour` | src/analytics/domain/event/SessionId.ts:19-22 | In every orderly run a request continues the session of its visitor's latest saved event while the clock is at most 1 800 000 ms past that event's stored second, and otherwise gets the fresh id |
| `Sessions.EveryRunHasSessionRuns` | src/analytics/domain/event/SessionId.ts:19-22 | In every orderly run, overlapping requests included, each visitor's events fall into sessions whose neighbours are at most 1800 s of stored time apart, at least 1800 s apart across a boundary, and whose ids never return |
| `Sessions.SessionRunsIffOrderly` | src/analytics/application/RecordEvent.ts:133-182 | For every run that ends with nothing under way: the stored events fall into such session runs for every visitor if and only if each step of the run was orderly; for any other run, if and only if they do once what is under way has been saved in order |
| `Sessions.StepKeepsSessionsIff` | src/analytics/application/RecordEvent.ts:133-182 | One step keeps all visitors' sessions runs if and only if it is orderly: a lookup is not misled by unsaved events of its visitor, and a save overtakes only events of its own second |
| `Sessions.RunNeverRepairs` | src/analytics/application/RecordEvent.ts:133-182 | Sessions that are not runs at some moment are not at any later one: no later save, in whatever order, repairs them |
| `Sessions.ResolvedBehindUnsavedIff` | src/analytics/application/RecordEvent.ts:133-142 | A request resolved without seeing its visitor's unsaved events fits behind them if and only if the last of them has the session being continued or lies at least 1800 s back |
| `Sessions.SavedAheadIff` | src/analytics/application/RecordEvent.ts:178-182 | Saving an event ahead of earlier ones keeps the runs if and only if they began in its second |
| `Sessions.SessionsAreContiguous` | src/analytics/domain/event/SessionId.ts:19-22 | Two events of a session have only events of that session between them |
| `Sessions.ResolvedSessionExtendsRuns` | src/analytics/application/RecordEvent.ts:133-142 | Comparing a millisecond clock with floored seconds, and any tie-break among latest events, still extends the runs by one |
| `Sessions.OverlapSplitsSession` | src/analytics/application/RecordEvent.ts:133-182 | Two overlapping first requests of one visitor, both saved, leave two sessions in one second in the stored history |
| `PurgeExpiredData.PurgeExpiredData.Execute` | src/analytics/application/PurgeExpiredData.ts:36-43 | Deletes exactly the rows before the cutoff and reports their number |
| `PurgeExpiredData.CutoffIsExact` | src/analytics/application/PurgeExpiredData.ts:36-43 | For every date and every n the cutoff is the current second less the total length of the n calendar months before the current one |
| `PurgeExpiredData.RetentionBounds` | src/analytics/application/PurgeExpiredData.ts:36-43 | A purge removes nothing younger than 28n days and leaves nothing older than 31n |
| `PurgeExpiredData.CutoffMovesBackIff` | src/analytics/application/PurgeExpiredData.ts:36-43 | Twenty-four hours later the cutoff lies earlier if and only if a month ends that is two or more days longer than the one n months before |
| `PurgeExpiredData.CutoffFallsAtMidnightIff` | src/analytics/application/PurgeExpiredData.ts:36-43 | From the last second of a month to the next second the cutoff falls if and only if the month is longer than the one n months before |
| `PurgeExpiredData.CutoffIsMonotoneIff` | src/analytics/application/PurgeExpiredData.ts:36-43 | The cutoff never moves back as the clock goes forward if and only if no month is longer than the one n months before it, that is, if and only if n is a multiple of 4800 |
| `PurgeExpiredData.CutoffIsNotMonotone` | src/analytics/application/PurgeExpiredData.ts:12-12 | With the default 25 months it moves back from 31 March to 1 April 2026 |
| `Calendar.MonthStartIsStandard` | src/analytics/application/PurgeExpiredData.ts:38-39 | Months laid end to end from 1970 begin on exactly the days of the closed formula of section 21.4.1 of ECMA-262 |
| `Calendar.MonthsBackShift` | src/analytics/application/PurgeExpiredData.ts:38-39 | setUTCMonth with day overflow shifts an instant by whole months' lengths and nothing else |
| `VisitorId.DecodeInvertsPayload` | src/analytics/domain/event/VisitorId.ts:24-41 | A decoder recovers all four fields from the length-prefixed payload, for any byte strings below 2^32 |
| `VisitorId.PayloadIsInjective` | src/analytics/domain/event/VisitorId.ts:31-41 | Equal payloads have equal salts, sites, addresses and user agents |
| `VisitorId.PayloadOfShortFields` | src/analytics/domain/event/VisitorId.ts:24-37 | For fields below 256 bytes the hashed bytes are, in order, salt, site, address and user agent, each behind three zero bytes and its length |
| `VisitorId.IdsFollowFields` | src/analytics/domain/event/VisitorId.ts:32-40 | Unless two of the hashed payloads have digests with the same first sixteen bytes, two inputs have one visitor id if and only if they agree in salt, site, address and user agent |
| `VisitorId.LengthPrefixedBuffer` | src/analytics/domain/event/VisitorId.ts:24-29 | The four-byte buffer the code fills is the big-endian length |
| `Server.Server.Begin` | src/analytics/application/RecordEvent.ts:110-177 | On the shared objects, a request up to its save is the begin step of the state machine and its flush timer |
| `Server.Server.Save` | src/analytics/application/RecordEvent.ts:179-185 | The save of any request that awaits it, other requests having run in between, is the save step of the state machine and its flush timer; when the flush it triggers fails the request is rejected and exactly the batch is lost |
| `Server.Server.Collect` | src/analytics/infrastructure/http/server.ts:82-90 | A request that nothing interrupts is the record step of the state machine and its flush timer; when the flush it triggers fails it is rejected and exactly the batch is lost |
| `Server.Server.RollupBuild` | src/analytics/infrastructure/http/server.ts:112-121 | The rollup job is the state machine's rollup step: it rebuilds the UTC day before today |
| `Server.Server.SaltRotation` | src/analytics/infrastructure/http/server.ts:106-111 | The salt job is the state machine's salt step |
| `Server.Server.RetentionPurge` | src/analytics/infrastructure/http/server.ts:123-129 | The purge job is the state machine's purge step |
| `Server.Server.Flush` | src/analytics/infrastructure/persistence/sqlite/BatchingEventRepository.ts:63-80 | A flush is the flush step of the state machine and disarms its flush timer; when the write fails exactly the batch is lost |
| `Server.Server.constructor` | src/analytics/infrastructure/http/server.ts:64-100 | The wired objects start in the state machine's initial state, with no timer armed |
| `Server.ClosedDayIsRebuiltSoon` | src/analytics/infrastructure/scheduler/Scheduler.ts:105-130 | About scheduler events alone: if the rollup timer fires at most e late and each run succeeds within D, then an hour and e + 2D after any instant a run of the job begun since has succeeded |
| `Server.ClosedDayIsKept` | src/analytics/infrastructure/http/server.ts:112-121 | Linking the two timers to the tables: if each run of the rollup job is a rollup step at the instant it begins and succeeds only when its rebuild commits, every day has been rebuilt for good, with all its events in the log, an hour and e + 2D after the instant of FlushTimer.DaySettlesInTime, provided that falls before the next midnight |
| `RateLimit.TokenBucketRateLimiter.Consume` | src/analytics/infrastructure/http/rateLimit.ts:48-68 | One call sweeps, refills, spends and stores: answer and new buckets are those of the step function |
| `RateLimit.TokenBucketRateLimiter.Sweep` | src/analytics/infrastructure/http/rateLimit.ts:85-91 | The deletion loop keeps exactly the buckets not idle beyond the time to live |
| `RateLimit.EvictionUnobservableIff` | src/analytics/infrastructure/http/rateLimit.ts:48-91 | For all call sequences with a forward clock the sweeping limiter answers like one that never evicts, if and only if a bucket is kept at least as long as it takes to fill |
| `RateLimit.ShippedLimitersRefillInTime` | src/analytics/infrastructure/http/server.ts:41-44 | Both configurations the server builds, and the defaults, meet that condition |
| `RateLimit.NeverEvictingIsBounded` | src/analytics/infrastructure/http/rateLimit.ts:54-66 | For one key, the calls admitted in any window of any run number at most capacity plus window length times refill rate |
| `RateLimit.AdmitsIff` | src/analytics/infrastructure/http/rateLimit.ts:48-68 | Over every run of a never-evicting limiter under a forward clock, a call is admitted if and only if the capacity is at least 1 and every window from an earlier call of its key has room: capacity plus refill since then covers the admissions in it and one more |
| `RateLimit.SweepingIsExactIff` | src/analytics/infrastructure/http/rateLimit.ts:48-91 | The evicting limiter decides every call of every run by that same rule if and only if a bucket refills before it may be evicted |
| `RateLimit.KeysAreSeparate` | src/analytics/infrastructure/http/rateLimit.ts:80-83 | Two callers share a bucket if and only if they have the same site and the same address hash, the hash holding no colon |
| `RateLimit.SweepingIsBoundedIff` | src/analytics/infrastructure/http/rateLimit.ts:48-91 | With eviction that bound holds for all runs if and only if the same condition holds |
| `RateLimit.OtherKeysDoNotInterfere` | src/analytics/infrastructure/http/rateLimit.ts:52-67 | A call's answer is the answer after the calls of its own key alone |
| `Scheduler.Scheduler.Start` | src/analytics/infrastructure/scheduler/Scheduler.ts:71-78 | Starting sets the start time and one timer per job, and does nothing when running |
| `Scheduler.Scheduler.Stop` | src/analytics/infrastructure/scheduler/Scheduler.ts:86-92 | The cancelling loop removes exactly the timers whose handles are held |
| `Scheduler.Scheduler.BeginRun` | src/analytics/infrastructure/scheduler/Scheduler.ts:112-115 | A fired timer becomes a run in flight and marks the job as attempted |
| `Scheduler.Scheduler.FinishRun` | src/analytics/infrastructure/scheduler/Scheduler.ts:116-130 | A settled run records success or failure and sets the next timer only while running |
| `Scheduler.FirstTimersAreDue` | src/analytics/infrastructure/scheduler/Scheduler.ts:71-78 | Starting an idle scheduler sets one timer for each job, due one interval later |
| `Scheduler.NextTimerIsDue` | src/analytics/infrastructure/scheduler/Scheduler.ts:105-130 | When a run settles, succeeded or not, the job's only task is a timer due one interval later if the scheduler is running and none otherwise, and the other jobs' tasks stay as they are |
| `Scheduler.StopCancelsTimersOnly` | src/analytics/infrastructure/scheduler/Scheduler.ts:86-92 | A stop cancels every timer and leaves every run in flight |
| `Scheduler.Scheduler.GetJobStatuses` | src/analytics/infrastructure/scheduler/Scheduler.ts:95-103 | One status per job, in job order, each as StatusFollowsHistory describes it |
| `Scheduler.EachJobHasOneTask` | src/analytics/infrastructure/scheduler/Scheduler.ts:71-130 | In every run with distinct names and no restart during a run: a running scheduler has exactly one of timer and run in flight per job, so runs never overlap and none is dropped; a stopped one has no timer |
| `Scheduler.NeverTwoTasksIff` | src/analytics/infrastructure/scheduler/Scheduler.ts:71-130 | Over whole runs: no job has two timers or runs at once at any moment if and only if the scheduler is never restarted while a run from before its stop is in flight |
| `Scheduler.NothingBeginsAfterStop` | src/analytics/infrastructure/scheduler/Scheduler.ts:86-92 | After a stop no run begins until the next start |
| `Scheduler.AlwaysStopsCleanIff` | src/analytics/infrastructure/scheduler/Scheduler.ts:71-130 | Over whole runs: a stop, whenever it comes and whatever settles before or after it, leaves no timer until the next start if and only if the scheduler is never restarted while a run from before its stop is in flight |
| `Scheduler.StartKeepsInvIff` | src/analytics/infrastructure/scheduler/Scheduler.ts:71-92 | Restarting keeps that invariant if and only if nothing is in flight |
| `Scheduler.RestartInFlightDoublesTimers` | src/analytics/infrastructure/scheduler/Scheduler.ts:125-129 | Otherwise, for every such state, the run that settles leaves two live timers for its job and a stop cancels only one |
| `Scheduler.StatusFollowsHistory` | src/analytics/infrastructure/scheduler/Scheduler.ts:95-103 | Whatever was started, stopped or restarted, a status is what the history says: time of the last success, whether ever begun, whether the last settled run failed |
| `Scheduler.StartFollowsHistory` | src/analytics/infrastructure/scheduler/Scheduler.ts:71-92 | In every run the scheduler is running if and only if some start has not been followed by a stop, and its start time is that of the last start that did not find it running, none before the first |
| `JobStaleness.StaleIffNoRecentSuccess` | src/analytics/infrastructure/http/jobStaleness.ts:24-39 | At any instant of any run, a job is stale exactly when it has no success within two intervals and has either succeeded before or the scheduler's latest start, ignored ones aside, is that long ago |
| `JobStaleness.NeverStaleIff` | src/analytics/infrastructure/http/jobStaleness.ts:24-39 | Over all runs where timers fire at most e late and each run succeeds within D, the job is never stale at any instant if and only if e + D is at most the interval |
| `JobStaleness.SucceedsSoonAfter` | src/analytics/infrastructure/scheduler/Scheduler.ts:105-130 | In every such run, an interval and e + 2D after any instant a run begun since has succeeded |
| `ScrollTracker.Tracker.OnScroll` | tracker/tracker.ts:103-117 | One scroll event sends the newly crossed milestones and deepens the maximum; a page that cannot scroll sends nothing |
| `ScrollTracker.Tracker.TrackPageview` | tracker/tracker.ts:76-83 | A new path resets depth and timer and sends a pageview; the same path changes nothing |
| `ScrollTracker.PageSendsItsMilestones` | tracker/payload.ts:61-66 | For every increasing list of positive milestones and every scroll sequence, a page sends exactly those not above its deepest percentage, each once, in increasing order |
| `ScrollTracker.ShippedPageSends` | tracker/payload.ts:61-66 | So it does with the shipped list |
| `ScrollTracker.VisitsSend` | tracker/tracker.ts:66-83 | Over several visits the milestones sent are those up to the deepest visit |
| `ScrollTracker.PercentOfPage` | tracker/tracker.ts:106-109 | For every scroll position, above the top included: never over 100, 100 from the end of the page on, not negative below the top and not positive above it; none on a page that cannot scroll |
| `ScrollTracker.PercentIsNearest` | tracker/tracker.ts:106-109 | Short of 100 the percentage is the nearest whole one of what can be scrolled, halves up |
| `ScrollTracker.TimerReading` | tracker/payload.ts:78-97 | However often the page is hidden or shown, the timer reads the number of milliseconds at which it was visible and, for a page created hidden, all those up to its first visibility change as well |
| `ScrollTracker.TimerMeasuresVisibilityIff` | tracker/payload.ts:78-97 | So it measures visible time if and only if the page was visible when the timer was created, or its visibility changed at that instant, or no time has passed since |
| `ScrollTracker.HiddenHourReadsAnHour` | tracker/payload.ts:78-80 | A page opened in a background tab, or reached by a route change in one, and left hidden for an hour reads 3600 s |
| `ScrollTracker.EngagementTimer.Hide` | tracker/payload.ts:83-88 | Hiding adds the time since the page was shown, once |
| `ScrollTracker.EngagementTimer.Show` | tracker/payload.ts:89-91 | Showing starts a stretch unless one is running |
| `ScrollTracker.EngagementTimer.VisibleSeconds` | tracker/payload.ts:92-95 | The reading, a running stretch included, in whole seconds |
| `ScrollTracker.Tracker.FlushEngagement` | tracker/tracker.ts:70-74 | Sends the reading for the current page, and nothing when it rounds to no second |
| `ScrollTracker.ToSeconds` | tracker/payload.ts:92-95 | Visible time is sent as the nearest whole second |
| `ScrollDepth.SessionMaxIsLargestMilestoneIff` | src/analytics/infrastructure/persistence/sqlite/SqliteRollupBuilder.ts:159-171 | When a session's rows for a path hold only what its visits sent, in any order, multiplicity and however much of it was lost, their MAX(value) never exceeds the largest milestone not above its deepest visit, and is that milestone if and only if it was stored |
| `ScrollDepth.AverageScrollDepth` | src/analytics/domain/report/ScrollDepth.ts:54-56 | No average exactly when no session counts; otherwise the average times the sessions is the depth sum |
| `ScrollDepth.ToScrollDepthRows` | src/analytics/infrastructure/http/dashboardRoutes.ts:104-125 | One table row per aggregate that counts a session, in order, with the path's sessions or 0 |
| `ScrollDepth.DepthRowsShowAggregates` | src/analytics/infrastructure/http/dashboardRoutes.ts:104-125 | The table's rows are the aggregates that count a session, one for one and in order, each with its path, its sessions, an average that times them is the depth sum, and the path's sessions or 0 |
| `Credentials.RewriteCredentialLines` | src/analytics/cli/resetPassword.ts:58-98 | The loop with two flags computes the rewritten file |
| `Credentials.CredentialsAreOverwritten` | src/analytics/cli/resetPassword.ts:58-98 | Rewriting with one pair and then another gives the text that rewriting with the second alone gives, for every file and all newline-free values, the files whose empty last line turns into a final newline included |
| `Credentials.RewrittenFileHolds` | src/analytics/cli/resetPassword.ts:58-98 | The rewritten file has exactly the new hash line and the new salt line, no plaintext line, and every other line in its order |
| `Credentials.EnvFileHolds` | src/analytics/cli/resetPassword.ts:58-98 | The rewritten environment file in its own words: the lines beginning with the hash prefix are the new hash line alone, with the salt prefix the new salt line alone, none begins with the plaintext prefix, and the others are as they were, but for an empty last line that now stands for the final newline |
| `Credentials.LinesOfContent` | src/analytics/cli/resetPassword.ts:58-98 | A file is its lines joined by newlines, and a final newline exactly when it ended in one |
| `Credentials.ReplacedInPlace` | src/analytics/cli/resetPassword.ts:73-95 | The first credential line is replaced where it stands; without one the pair goes to the end |
| `Text.JoinInvertsSplit` | src/analytics/cli/resetPassword.ts:60-61 | Splitting on newlines and joining gives the text back |
| `Text.TrimIs` | src/analytics/infrastructure/i18n/Locale.ts:34-37 | Trimming takes whitespace off both ends and stops at the first character that is none |
| `EscapeHtml.FivePassesAreOne` | src/analytics/infrastructure/http/views/escapeHtml.ts:14-21 | The five replacements in a row are one substitution per character |
| `EscapeHtml.EscapeDistributes` | src/analytics/infrastructure/http/views/escapeHtml.ts:14-21 | Escaping distributes over concatenation |
| `EscapeHtml.DecoderInvertsEscapeHtml` | src/analytics/infrastructure/http/views/escapeHtml.ts:14-21 | A decoder recovers every value from its escaped form, which holds no bare special character |
| `EscapeHtml.EscapedIff` | src/analytics/infrastructure/http/views/escapeHtml.ts:14-21 | The escaped strings are exactly the strings without a bare special character |
| `EscapeHtml.Html` | src/analytics/infrastructure/http/views/escapeHtml.ts:83-95 | The tag interleaves fragments and rendered values, flattening arrays |
| `EscapeHtml.TemplateIsPrinted` | src/analytics/infrastructure/http/views/escapeHtml.ts:58-95 | However templates nest, the page is its leaves in document order: literal and trusted fragments verbatim, every plain value escaped exactly once |
| `EscapeHtml.MarkupComesFromAuthors` | src/analytics/infrastructure/http/views/escapeHtml.ts:58-95 | The angle brackets and quotes of a page are those of its literal and trusted fragments, in order: no plain value adds one |
| `Locale.ParseWeightedTags` | src/analytics/infrastructure/i18n/Locale.ts:31-56 | The two loops give the header's tags in order, each with its last valid quality or 1 |
| `Locale.NegotiateAcceptLanguage` | src/analytics/infrastructure/i18n/Locale.ts:65-85 | Filter, sort and scan return the supported language of greatest positive quality, earliest in the header on ties, and nothing exactly when no supported tag has positive quality |
| `Locale.QualityReadsThousandths` | src/analytics/infrastructure/i18n/Locale.ts:23-23 | A quality with none to three decimals is read as that many thousandths |
| `Locale.QualityParamIff` | src/analytics/infrastructure/i18n/Locale.ts:23-23 | A parameter gives a quality if and only if it is q or Q, =, a 0 or 1 and at most a point with one to three digits, and then that many thousandths |
| `Locale.TagsOfHeader` | src/analytics/infrastructure/i18n/Locale.ts:31-56 | The tags of a header joined from any parts are what the parts mean, in order, parts without a tag left out: a tag without a quality weighs 1, and of several qualities the last counts, whatever other parameters stand around it |
| `Locale.PlainPart` | src/analytics/infrastructure/i18n/Locale.ts:34-42 | A part without parameters is its trimmed text with quality 1, and nothing when that is empty |
| `Locale.PrimarySubtagIs` | src/analytics/infrastructure/i18n/Locale.ts:77-84 | The language of a tag is what stands before its first hyphen, in lower case |
| `Locale.SpanishBeforeHalfEnglish` | src/analytics/infrastructure/i18n/Locale.ts:65-85 | The header es, en;q=0.5 chooses es |
| `Locale.SortSorts` | src/analytics/infrastructure/i18n/Locale.ts:72-75 | The sort orders by quality and then position and keeps the same entries |
| `Locale.ChoiceIsUnique` | src/analytics/infrastructure/i18n/Locale.ts:77-84 | That choice is unique |

## Left out

- SQLite itself, pragmas, migrations and the site registry's row ids: tables are maps, a transaction is one atomic step, a site is its domain.
- Hash, scrypt and HMAC internals and random bytes: a hash parameter, a source of ids never issued before.
- `sanitizePagePath`, `createSiteId`, `resolveReferrerSource`, UTM extraction and screen buckets: pure function parameters of `RecordEvent`, where the loop over the UTM keys is one function.
- GeoIP and device detection: pure functions of the address and of the user agent.
- HTTP routes, cookies, login, headers, fonts, page layout, message tables and number formatting: input, output and user interface.
- The other commands (init, install, status, backup, restore, geoip) and the file handling around the credential rewrite: process plumbing whose branches would add easy members.
- `loadConfig`, `bindPort`, `compareVersions`, consent checks, `resolveLocale`: finite or single-branch facts.
- Floating-point rounding in the limiter, in stored values and in averages: scaled integers and reals.
- `Date`'s range limit and invalid dates: the calendar covers all integers, so a cutoff outside ECMA-262's time range is not singled out.
- Runs with a delegate write that fails: `Server`, `RecordEvent` and `BatchingEventRepository` state what each operation loses then; the theorems over whole runs assume writes succeed.
- Requests that arrive while the server shuts down: the machine speaks of events saved before the last flush.
- The meaning of engagement sums: the tracker sends the page's cumulative time on every flush, so stored values of one page overlap; the sums are of what was stored.
- Distinct visitors over several days: a range's visitors are, as in the code, the sum of each day's distinct visitors.
- Strings are sequences of Unicode characters rather than UTF-16 units, and a template's plain values are strings already; arrays inside interpolated arrays are not modelled.
- The JavaScript engine's sort: an insertion sort with the same comparison, which is total on numbered tags and so has one result.
- ToMetricRow: a NULL engagement sum in a raw row reads as 0, which is what every later addition makes of it.
- Dashboard.DashboardRoutes.RenderOverview: one instant and one state for all its queries, where the handler awaits between them; `Dashboard.ClosedAnswersNeverChange` shows that only days not yet closed and rebuilt can differ.
- ScrollDepth.SessionMaxIsLargestMilestoneIff: takes it as given that a session's stored values are ones its visits sent, since any client may send any value.
- Credentials.CredentialsAreOverwritten: assumes newline-free values, as the hex strings the command passes are.

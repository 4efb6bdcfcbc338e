# Verified models of the pganalytics collectors

This project models the stateful parts of the PostgreSQL monitoring system and proves what they
keep over all inputs and all runs. `dafny verify dfyconfig.toml` checks everything.

| files | what they model |
|---|---|
| `CStrings`, `Decimals`, `TextFormat` | C strings in buffers, C's decimal conversions, and a writer and reader of the Prometheus text format 0.0.4 (exposition formats document, "Text-based format") |
| `MetricsRecord`, `Exposition`, `RecordText`, `SecureExporter`, `FixedExporter`, `TenantNames` | the two metric exporters, the HTTP handler that sizes a buffer for the newer one, and the tenant name checks |
| `ConnectionPool`, `MetricsCache`, `SharedRecord` | the connection pool and the 10-second cache of the optimized collector, as code and as interleaved request threads |
| `TtlCache` | the Go TTL cache |
| `OtelClient`, `OtelRuns`, `OtelSpans` | the OpenTelemetry C client: bounded metric and span arrays, export and reset |
| `MultiTenant`, `TenantResponses` | the multi-tenant collector: slot reuse, attribution, response buffers |
| `BasicCollector`, `GroupedSessions` | the basic collector's records, and the grouped session counts of the enhanced one |
| `Calendar`, `Partitions` | the monthly partition scheduler |
| `Relations`, `Views`, `Summary`, `DatabaseCount` | the two reporting views |

Code that changes state is a class or a method proved against a specification function; what the
system promises is then proved about that function over whole runs. Runs are sequences of events,
and an interleaving is a sequence too, so "every run" is a statement over every sequence.

Where the code falls short of its intent, the exact condition under which it meets it is proved,
with a small run that fails:

- Pool: test and clear of a slot's flag are separate steps. Ownership is exclusive exactly when
  every clear still finds the flag set (`ExclusiveIffNoLateClear`, `TwoHolders`); one handler at a
  time between the two steps is enough (`OneChooserSuffices`).
- Cache: request threads keep the refresh rate exactly when nothing that was committed while a
  refresh was under way had begun less than ten seconds before it (`RateIffNotOvertaken`,
  `OverlapBreaksRate`). The record behind it is the row of one refresh exactly when that refresh is
  complete and no other one assigns a field after it (`WholeIffNotOverwritten`, `MixedRecord`).
- Spans: an end always closes the span started last, so bracketed runs are recorded correctly
  exactly when they are flat and short enough (`AgreesIffFlat`, `OuterNeverTimed`). The program
  nests its spans, so it records them correctly only before its first turn on a connection, or for
  49 turns without one (`ProgramSpansAgree`).
- Slots: a new database list relabels slots that keep old numbers. Whichever connections and queries
  fail, scrapes are right exactly when no list renames a slot that holds a number from another
  database (`AttributedIffStableSources`, `ShiftedListMisattributes`).
- Labels: database names are neither checked nor escaped; the body reads back exactly when no name
  needs an escape (`BodyReadsBack`, `QuotedNameLost`).
- Responses: the whole body arrives exactly when it has at most 4009 characters
  (`CompleteIffFits`). With ordinary numbers that can fail from eight databases on, and from thirty
  on the body can overflow its own buffer (`OneOrdinaryTenantMore`).
- Partitions: no row is refused between runs exactly when each run starts by the first instant the
  one before it did not provide for (`NoGapIffInTime`, `FiveMonthsLeaveAGap`).
- `total_databases`: CONCAT turns a missing database into an empty name, so the count is right
  exactly when every cluster has a monitored database and there is a cluster
  (`DatabaseCountTrueIff`, `NoClusterCountsOne`, `BareClusterCountsOne`).

The comment on the exporter's tenant check speaks of letters, digits and underscores; the code also
accepts '-', and the model follows the code.

Modelling choices: a C double is a sign and a real magnitude up to the largest finite double, or an
infinity, or NaN; printing rounds the exact value to nearest, ties to even. C strings are sequences of
characters without their NUL. Failures of `malloc`, `calloc`, `snprintf`, curl, connections and
queries, and all clock readings, are parameters. Numbers in tenant slots carry the database they were
queried from, which the code does not store. The rows of a table stand in an arbitrary physical
order, over which everything is quantified, so that ties are broken in every possible way.

## Model

| member | source | states |
|---|---|---|
| Decimals.ReadPrinted | export_metrics_prometheus_secure.c:58-129 | reading back a printed integer, fixed-point number, infinity or NaN gives that numeral, for every numeral |
| Decimals.ShownIsNearest | export_metrics_prometheus_secure.c:76-81 | `%.2f` shows the nearest number of hundredths and `%.0f` the nearest integer, ties to even, with the sign (also of -0.0) |
| Decimals.ShownExactly | export_metrics_prometheus_secure.c:58-129 | integers are shown exactly, infinities and NaN as such |
| TextFormat.ParseRendered | export_metrics_prometheus_secure.c:58-129 | sample lines with plain label values are parsed back one by one, with the name, the label and its value |
| TextFormat.LabelsSurvive | pganalytics-v2/monitoring/c-collector/main.c:179-202 | rendered samples are read back exactly when no label value needs an escape |
| MetricsRecord.NamesDiffer | export_metrics_prometheus_secure.c:58-129 | no two exported fields share a metric name |
| MetricsRecord.LookupSamples | export_metrics_prometheus_secure.c:58-129 | a field's value is found among the samples exactly when its guard passes |
| MetricsRecord.ShownWidth | export_metrics_prometheus_secure.c:58-129 | the widest text of each field that passes its guard |
| Exposition.RoundTrip | export_metrics_prometheus_secure.c:54-140 | for every record and accepted tenant, parsing the text gives its samples and no others: under the tenant, exactly the fields whose guards passed, with their printed values |
| Exposition.TextDetermines | export_metrics_prometheus_secure.c:54-140 | records with equal texts passed the same guards and show the same values |
| Exposition.TextWidth | export_metrics_prometheus_secure.c:28-52 | no record needs more than 2397 + 21·L characters for tenant length L |
| Exposition.TextWidthTight | export_metrics_prometheus_secure.c:28-52 | one record needs exactly that many, for every tenant |
| Exposition.FixedTextWidth | export_metrics_prometheus_fixed.c:6-84 | no record, not even with negative or non-finite numbers, makes the older exporter print more than 2998 + 21·L characters |
| Exposition.ExportersAgree | export_metrics_prometheus_fixed.c:6-88 | when all guards pass, both exporters emit the same sample lines in the same order and the older one fits its 4096 bytes for L up to 50 |
| RecordText.TextShowsRecord | export_metrics_prometheus_secure.c:54-140 | the parsed text is the written-out list: each field that passes its check, in order, under its literal name and the label `tenant`, with its own number |
| RecordText.FixedTextShowsRecord | export_metrics_prometheus_fixed.c:6-84 | the same list with all 21 fields, whatever they hold, for the older exporter |
| CStrings.Snprintf | export_metrics_prometheus_secure.c:42 | what `snprintf` leaves in a bounded buffer and the length it reports |
| CStrings.Strcat | pganalytics-v2/monitoring/c-collector/main.c:170-202 | appends to the C string in the buffer, or runs past its end exactly when it does not fit |
| SecureExporter.Scratch.Append | export_metrics_prometheus_secure.c:41-52 | an append extends the text and keeps offset below the size with NUL at the offset, or frees once and reports -5 or -6 |
| SecureExporter.CheckTenant | export_metrics_prometheus_secure.c:16-26 | which names pass, and the code for each refusal |
| SecureExporter.WriteConnections | export_metrics_prometheus_secure.c:58-70 | on success the section's guarded lines are appended, each field under its own name; it stops only when one of its appends fails |
| SecureExporter.WriteQueries | export_metrics_prometheus_secure.c:72-81 | the same for the query section |
| SecureExporter.WriteTransactions | export_metrics_prometheus_secure.c:83-89 | the same for the transaction section |
| SecureExporter.WriteSizes | export_metrics_prometheus_secure.c:91-97 | the same for the size section |
| SecureExporter.WriteLocks | export_metrics_prometheus_secure.c:99-108 | the same for the lock section |
| SecureExporter.WriteReplication | export_metrics_prometheus_secure.c:110-117 | the same for the replication section |
| SecureExporter.WriteCache | export_metrics_prometheus_secure.c:119-125 | the same for the cache section |
| SecureExporter.WriteStatus | export_metrics_prometheus_secure.c:127-129 | the same for the status section |
| SecureExporter.FillScratch | export_metrics_prometheus_secure.c:28-129 | all appends succeed exactly when none of those the record needs fails, and then hold the specified text; overflow cannot happen |
| SecureExporter.Export | export_metrics_prometheus_secure.c:8-144 | the status in every case; on success exactly the text and NUL, on error an untouched output; the scratch buffer is freed exactly once |
| SecureExporter.EstimateSuffices | monitoring/c-collector/main_optimized.c:186-188 | the text fits both the exporter's estimate and the caller's smaller one |
| SecureExporter.HandleMetricsRequest | monitoring/c-collector/main_optimized.c:164-209 | when a response is sent it is the whole text; statuses -1, -6 and -7 never come back |
| TenantNames.ChecksAgree | middleware/validation.go:46-53 | the Go check accepts exactly the names the exporter accepts |
| CStrings.Strncpy | export_metrics_prometheus_fixed.c:86 | copies up to the NUL and pads with NUL |
| FixedExporter.ExportFixed | export_metrics_prometheus_fixed.c:6-88 | the caller's buffer holds the text cut to the local buffer and to its own size, then NUL |
| FixedExporter.FixedDelivery | export_metrics_prometheus_fixed.c:6-88 | for tenants up to 50 characters no record whatever is cut by the local buffer, and it arrives whole exactly when the caller's buffer has room |
| ConnectionPool.Pool.constructor | monitoring/c-collector/main_optimized.c:39-58 | five distinct connections, available exactly where the attempt succeeded |
| ConnectionPool.FirstAvailable | monitoring/c-collector/main_optimized.c:60-68 | the lowest available slot, or none |
| ConnectionPool.Pool.Get | monitoring/c-collector/main_optimized.c:60-68 | hands out the first available connection and clears its flag, or nothing |
| ConnectionPool.Pool.Return | monitoring/c-collector/main_optimized.c:70-77 | sets the flag of the slot that holds the connection |
| ConnectionPool.StepAccounted | monitoring/c-collector/main_optimized.c:60-77 | a step of any handler keeps the accounting unless it clears a flag that is already clear, and then two handlers hold one connection |
| ConnectionPool.ExclusiveIffNoLateClear | monitoring/c-collector/main_optimized.c:60-77 | over every interleaving: no connection ever has two holders exactly when every clear finds its flag still set |
| ConnectionPool.OneChooserSuffices | monitoring/c-collector/main_optimized.c:60-77 | with at most one handler between test and clear at any time, ownership is always exclusive |
| ConnectionPool.TwoHolders | monitoring/c-collector/main_optimized.c:62-63 | two handlers testing before either clears get the same connection |
| ConnectionPool.UndisturbedGet | monitoring/c-collector/main_optimized.c:60-68 | a call that is not interrupted is the atomic one |
| ConnectionPool.AtomicRunAccounted | monitoring/c-collector/main_optimized.c:39-77 | with uninterrupted calls: at most one holder each, failed slots never handed out, available plus held is the number connected |
| MetricsCache.Service.Collect | monitoring/c-collector/main_optimized.c:92-143 | every exit restores the availability flags; the record changes only on success, field by field |
| MetricsCache.Service.GetCached | monitoring/c-collector/main_optimized.c:146-161 | one call of the cache as a function of its state |
| MetricsCache.RemembersLastRefresh | monitoring/c-collector/main_optimized.c:146-161 | over every run the cache is valid exactly after a refresh, and holds the time and the whole record of the last one |
| MetricsCache.HitIffRecentRefresh | monitoring/c-collector/main_optimized.c:146-161 | a call is a hit exactly when the last refresh began less than ten seconds before; a call that does not refresh changes nothing |
| MetricsCache.RefreshRate | monitoring/c-collector/main_optimized.c:146-161 | under a clock that never falls, n refreshes span at least 10·(n-1) seconds |
| MetricsCache.Freshness | monitoring/c-collector/main_optimized.c:146-161 | a hit or refresh returns data read less than ten seconds before |
| MetricsCache.TextShowsLastRow | monitoring/c-collector/main_optimized.c:101-138 | after a refresh the exported text, read back, shows each of the eleven columns of the last row under its literal metric name |
| MetricsCache.UninterruptedCalls | monitoring/c-collector/main_optimized.c:146-161 | a call cut into its decision and its commit does, when not interrupted, what the call does |
| MetricsCache.RateIffNotOvertaken | monitoring/c-collector/main_optimized.c:235-239 | over every interleaving of request threads, failed refreshes included, refreshes stay ten seconds apart exactly when none is overtaken by one that began less than ten seconds before it |
| MetricsCache.RateWithoutOverlap | monitoring/c-collector/main_optimized.c:235-239 | so they do when no refresh begins while another is under way |
| MetricsCache.OverlapBreaksRate | monitoring/c-collector/main_optimized.c:235-239 | two overlapping threads refresh in the same second |
| SharedRecord.WholeIffNotOverwritten | monitoring/c-collector/main_optimized.c:124-161 | over every interleaving of the assignments, the record is the row of one refresh exactly when that refresh is complete and no other one assigns a field after it |
| SharedRecord.AloneIsWhole | monitoring/c-collector/main_optimized.c:124-138 | so it is when only that refresh assigns from its first assignment on |
| SharedRecord.MixedRecord | monitoring/c-collector/main_optimized.c:124-138 | a refresh overtaken after its first assignment leaves a record that is no refresh's row |
| TtlCache.Cache.Set | pkg/metrics/cache.go:36-44 | stores the value with its expiry |
| TtlCache.Cache.Get | pkg/metrics/cache.go:46-56 | returns the value up to and including its expiry |
| TtlCache.Cache.RemoveExpired | pkg/metrics/cache.go:72-82 | in any key order, leaves exactly the entries that have not expired |
| TtlCache.EntryIsLastSet | pkg/metrics/cache.go:36-82 | an entry is the last set of its key; a missing key was never set or has expired |
| TtlCache.GetReturnsLastSetWithinTtl | pkg/metrics/cache.go:46-56 | over every interleaving under a clock that never falls, a get returns exactly the last set within the TTL |
| TtlCache.CleanupUnobservable | pkg/metrics/cache.go:58-82 | removing all cleanups from a run changes no get |
| TtlCache.CleanupLeavesLiveKeys | pkg/metrics/cache.go:72-82 | right after a cleanup exactly the keys set within the TTL remain |
| TtlCache.FallingClockExposesCleanup | pkg/metrics/cache.go:72-82 | with a clock that falls, a cleanup can be noticed |
| OtelClient.Sdk.RecordMetric | monitoring/collector-c-otel/main.c:62-72 | appends the clipped metric, or drops it when a hundred are buffered |
| OtelClient.Sdk.StartSpan | monitoring/collector-c-otel/main.c:74-84 | appends a span numbered by its place, unless fifty are recorded |
| OtelClient.Sdk.EndSpan | monitoring/collector-c-otel/main.c:86-94 | sets the duration of the last span in the array |
| OtelClient.Sdk.ExportMetrics | monitoring/collector-c-otel/main.c:97-188 | the payload is the buffer in order and the buffer is emptied, whether or not sending works, unless curl cannot be initialised |
| OtelClient.Sdk.ConnectPostgresql | monitoring/collector-c-otel/main.c:191-214 | the calls of a connection attempt, and its result |
| OtelClient.Sdk.CollectAndInstrument | monitoring/collector-c-otel/main.c:216-269 | the calls of a collection, simulated or on a connection |
| OtelRuns.BufferSize | monitoring/collector-c-otel/main.c:62-72 | the buffer holds the records since the last reset, up to a hundred |
| OtelRuns.Conservation | monitoring/collector-c-otel/main.c:62-187 | over every run the payloads in turn followed by the buffer are the kept metrics in recording order |
| OtelRuns.PointsConserved | monitoring/collector-c-otel/main.c:62-187 | over every run the points handed to curl, followed by those still buffered, are what the kept calls asked for: name, value and time in nanoseconds |
| OtelRuns.CollectionRecorded | monitoring/collector-c-otel/main.c:229-268 | a collection on a connection records the active, idle and total counts and the hit ratio, each under its own name and labels |
| OtelRuns.AttemptRecorded | monitoring/collector-c-otel/main.c:191-214 | a connection attempt records its outcome under the right name |
| OtelRuns.SimulationRecorded | monitoring/collector-c-otel/main.c:219-227 | a simulated one records its four fixed numbers |
| OtelRuns.RecordedIsKeptOrDropped | monitoring/collector-c-otel/main.c:62-72 | what was recorded is what was kept plus what was dropped |
| OtelRuns.NothingDroppedIffFits | monitoring/collector-c-otel/main.c:62-102 | nothing is dropped exactly when at most a hundred records are ever pending |
| OtelRuns.LoopRecords | monitoring/collector-c-otel/main.c:216-269 | how many metrics a collection records: four simulated ones, or three and one by the answers to its two queries |
| OtelRuns.ProgramFits | monitoring/collector-c-otel/main.c:271-296 | what is pending after any turns, from the answers since the last export that got through |
| OtelRuns.PendingBetweenLoops | monitoring/collector-c-otel/main.c:288-296 | the same bounded by the failed turns just before, and equal to that bound in simulated mode |
| OtelRuns.ProgramDropsNothing | monitoring/collector-c-otel/main.c:271-296 | the program drops nothing exactly when in every turn the records since the last export that got through stay within the capacity; while 1 + 4·n does, n failed turns in a row, they do, and in simulated mode exactly then |
| OtelRuns.FewFailuresDropNothing | monitoring/collector-c-otel/main.c:271-296 | the same as a bound: 24 failed turns in a row, 23 at the start |
| OtelSpans.SpanCount | monitoring/collector-c-otel/main.c:74-94 | the span count is the number of starts, up to fifty |
| OtelSpans.SpanFields | monitoring/collector-c-otel/main.c:74-94 | operation, ids, start and duration in milliseconds of a span that is ended next |
| OtelSpans.AgreesIffFlat | monitoring/collector-c-otel/main.c:74-94 | a bracketed run is recorded as bracketed exactly when no span is nested and at most fifty are started |
| OtelSpans.AgreesWithReference | monitoring/collector-c-otel/main.c:74-94 | then the array is what a tracer with a stack of open spans records |
| OtelSpans.EarlierSpansFrozen | monitoring/collector-c-otel/main.c:74-94 | the count never falls, and only the last span can still change |
| OtelSpans.OuterNeverTimed | monitoring/collector-c-otel/main.c:74-94 | a span with another started inside it keeps duration zero for good |
| OtelSpans.CollectionNeverTimed | monitoring/collector-c-otel/main.c:216-269 | so the outer span of a collection on a connection is never timed |
| OtelSpans.CollectionSpans | monitoring/collector-c-otel/main.c:216-269 | operation, start and duration of the three spans of a collection: the second query is measured up to the end of all |
| OtelSpans.ProgramSpansAgree | monitoring/collector-c-otel/main.c:271-296 | the program's spans are recorded as bracketed exactly before its first turn on a connection, or for up to 49 turns without one |
| MultiTenant.Collector.Discover | pganalytics-v2/monitoring/c-collector/main.c:73-107 | relabels slots from the front, keeps their numbers, or does nothing on failure |
| MultiTenant.Collector.UpdateTenant | pganalytics-v2/monitoring/c-collector/main.c:109-146 | what one update changes, by outcome of the connection and each query |
| MultiTenant.Collector.UpdatePass | pganalytics-v2/monitoring/c-collector/main.c:152-159 | updates every listed slot; each `database_connected` is the outcome of this attempt |
| MultiTenant.SlotsHoldLast | pganalytics-v2/monitoring/c-collector/main.c:109-146 | over every run each number of a slot is the last one its updates brought: all sessions, active ones, ratio, size, and the outcome of the last attempt |
| MultiTenant.LastListingShown | pganalytics-v2/monitoring/c-collector/main.c:84-103 | after any run the scraped slots carry the names of the last successful listing, in order, up to a hundred |
| MultiTenant.StableNamesAttribute | pganalytics-v2/monitoring/c-collector/main.c:84-103 | if no slot is ever renamed, every scrape at every point attributes correctly, whatever fails |
| MultiTenant.ExtendedListsAttribute | pganalytics-v2/monitoring/c-collector/main.c:84-161 | so it does if lists are only extended at the end |
| MultiTenant.AttributedIffStableSources | pganalytics-v2/monitoring/c-collector/main.c:84-161 | for all runs, whichever connections and queries fail, all scrapes are right exactly when no list renames a slot that holds a number from another database |
| MultiTenant.SuccessfulPassAttributes | pganalytics-v2/monitoring/c-collector/main.c:109-161 | after any history, an update pass in which everything succeeds makes scrapes right |
| MultiTenant.ShiftedListMisattributes | pganalytics-v2/monitoring/c-collector/main.c:84-103 | a list that loses its first database shows that database's numbers under the next name |
| TenantResponses.LinesFit | pganalytics-v2/monitoring/c-collector/main.c:168-202 | no line is cut by the 512-byte buffer, whatever the numbers |
| TenantResponses.AppendTenant | pganalytics-v2/monitoring/c-collector/main.c:179-202 | appends the five sample lines of a tenant through the 512-byte buffer, or runs past the body exactly when they do not fit |
| TenantResponses.BuildBody | pganalytics-v2/monitoring/c-collector/main.c:166-205 | the body is the two header lines and the samples of all listed tenants; it runs past its buffer exactly when that does not fit |
| TenantResponses.SendResponse | pganalytics-v2/monitoring/c-collector/main.c:52-62 | what is sent is header and body, cut to 4095 characters |
| TenantResponses.SentAnnounces | pganalytics-v2/monitoring/c-collector/main.c:54-60 | the Content-Length of what is sent reads back as the length of the body |
| TenantResponses.HandleMetricsRequest | pganalytics-v2/monitoring/c-collector/main.c:52-208 | the response to a scrape at any point, unless its body overflows |
| TenantResponses.BodyReadsBack | pganalytics-v2/monitoring/c-collector/main.c:166-205 | the whole body reads back, as the information sample and the five written-out samples of each tenant, exactly when no tenant name needs an escape |
| TenantResponses.QuotedNameLost | pganalytics-v2/monitoring/c-collector/main.c:179-202 | a database whose name holds a quote spoils the body |
| TenantResponses.CompleteIffFits | pganalytics-v2/monitoring/c-collector/main.c:52-62 | Content-Length announces the body, and is the number of characters after the blank line (section 8.6 of RFC 9110) exactly when the body has at most 4009 |
| TenantResponses.SixTenantsComplete | pganalytics-v2/monitoring/c-collector/main.c:52-62 | with up to six tenants every response is complete, by the widths of the types |
| TenantResponses.TwentySevenTenantsFit | pganalytics-v2/monitoring/c-collector/main.c:166-205 | with up to 27 tenants the body stays inside its buffer, by the widths of the types |
| TenantResponses.OrdinaryTenantsFit | pganalytics-v2/monitoring/c-collector/main.c:52-205 | with less than a million sessions and a petabyte per database, seven tenants get complete responses and 29 fit the body |
| TenantResponses.OneOrdinaryTenantMore | pganalytics-v2/monitoring/c-collector/main.c:52-205 | eight databases of 100 sessions and 10^10 bytes, with long different names, lose the end of the body, and thirty overflow it |
| TenantResponses.WidthsAreTight | pganalytics-v2/monitoring/c-collector/main.c:52-205 | as bounds by the widths of the types alone, six and 27 cannot be improved (the values that show it are not ones a server brings) |
| BasicCollector.Collector.CollectBasic | monitoring/c-collector/main.c:83-170 | the record is that of this collection alone; failed queries leave zeros |
| BasicCollector.Collector.Attempt | monitoring/c-collector/main.c:172-189 | one tenant's turn: a failed connection changes nothing |
| BasicCollector.RecordIsLastSuccess | monitoring/c-collector/main.c:83-189 | over every run each field is what its query answered in the last successful attempt, or zero, and the flag is set exactly if there ever was one |
| GroupedSessions.Metrics.CollectSessions | pganalytics-v2/monitoring/c-collector/main_enhanced.c:93-116 | for every multiset of sessions and every row order, the four fields are the direct counts, the three states never exceed the total, and a failed query changes nothing |
| GroupedSessions.GroupsCoverSessions | pganalytics-v2/monitoring/c-collector/main_enhanced.c:93-116 | the group counts add up to the number of sessions |
| GroupedSessions.GroupCount | pganalytics-v2/monitoring/c-collector/main_enhanced.c:108-114 | overwriting is sound: a state's row carries the number of sessions in it |
| Calendar.AddToFirst | monitoring/sql/005_create_table_metrics.sql:77-78 | truncating a date to its month and adding months gives the first day of that month, across year ends |
| Calendar.LeapDays | monitoring/sql/005_create_table_metrics.sql:77-78 | which years have a 29th of February |
| Calendar.StampOrder | monitoring/sql/005_create_table_metrics.sql:82-86 | dates are ordered by year, month and day |
| Calendar.MonthRange | monitoring/sql/005_create_table_metrics.sql:77-86 | the dates of the range are exactly those of the month |
| Calendar.MonthTextDetermines | monitoring/sql/005_create_table_metrics.sql:79 | different months have different names |
| Calendar.MonthTextReads | monitoring/sql/005_create_table_metrics.sql:79 | the text of a month reads back as its year and month |
| Partitions.Catalog.CreatePartition | monitoring/sql/005_create_table_metrics.sql:82-87 | refused exactly when the name exists or the range overlaps |
| Partitions.OverlapsIffShared | monitoring/sql/005_create_table_metrics.sql:82-86 | two ranges overlap exactly when some instant falls into both |
| Partitions.Catalog.CreateMonth | monitoring/sql/006_create_index_metrics.sql:61-84 | one turn of the loop adds the month if its name is free, as a whole month under the parent's literal name and the text of its lower bound, and never fails on a catalog of whole months |
| Partitions.Catalog.CreatePartitions | monitoring/sql/005_create_table_metrics.sql:68-105 | the month of the run and the two after it, or nothing at all |
| Partitions.Catalog.SystemMaintenance | monitoring/sql/007_create_views_functions.sql:115-126 | both families or nothing; on scheduled catalogs it succeeds exactly when the snapshot partitions do |
| Partitions.AbsentMonthFits | monitoring/sql/005_create_table_metrics.sql:81-87 | a month whose name is free overlaps nothing |
| Partitions.ExactlyOneTaker | monitoring/sql/005_create_table_metrics.sql:76-87 | an instant falls into at most one partition, and into one exactly when its month has been created |
| Partitions.EnsuredCovers | monitoring/sql/005_create_table_metrics.sql:76-103 | which months a run leaves covered, also when a name is taken by another table |
| Partitions.MaintainedCovers | monitoring/sql/007_create_views_functions.sql:118-123 | the same for a maintenance run, for both families |
| Partitions.SecondMaintenanceIdle | monitoring/sql/006_create_index_metrics.sql:60-85 | a second run in the same month changes nothing |
| Partitions.RunsScheduled | monitoring/sql/007_create_views_functions.sql:118-123 | after any runs in any order the partitions are whole months under their own names |
| Partitions.RunsWellNamed | monitoring/sql/006_create_index_metrics.sql:63-69 | after any runs every partition spans a calendar month and is named after its parent, year and month |
| Partitions.RunsCover | monitoring/sql/007_create_views_functions.sql:118-123 | a month is covered exactly when a run was in it or in one of the two before |
| Partitions.UndoneRunsLeaveNoTrace | monitoring/sql/007_create_views_functions.sql:118-126 | of a history in which some runs are undone, only those that succeeded count |
| Partitions.NoGapIffInTime | monitoring/sql/005_create_table_metrics.sql:76-103 | every instant from the first run to the last finds exactly one partition when it comes, exactly when each run starts no later than the first instant the previous one did not provide for |
| Partitions.TwoMonthsApartSuffices | monitoring/sql/006_create_index_metrics.sql:60-85 | runs at most two calendar months apart leave no gap |
| Partitions.FiveMonthsLeaveAGap | monitoring/sql/005_create_table_metrics.sql:76-103 | after a run in January, a row of the first of April is refused until the next run in June |
| Views.OneLatestPerDatabase | monitoring/sql/007_create_views_functions.sql:4-15 | the rows are exactly the table snapshots of the last hour that no other one of the same cluster and database comes before, one for each cluster and database with a recent one |
| Views.LatestIdsDiffer | monitoring/sql/007_create_views_functions.sql:4-15 | the latest snapshots differ in their ids |
| Views.CurrentStatsSum | monitoring/sql/007_create_views_functions.sql:3-40 | per cluster and database the view adds up to the current rows of visible clusters, each once |
| Summary.SummaryIsDirectTotal | monitoring/sql/007_create_views_functions.sql:43-70 | `total_tables` and `total_size_bytes` are the count and byte sum of the rows of such snapshots that belong to monitored databases in active clusters, each once |
| DatabaseCount.DatabaseCountFormula | monitoring/sql/007_create_views_functions.sql:51-58 | `total_databases` is the number of monitored databases plus one for each cluster without one, or one without clusters |
| DatabaseCount.DatabaseCountTrueIff | monitoring/sql/007_create_views_functions.sql:51-58 | it is the true number exactly when there is a cluster and every cluster has a monitored database |
| DatabaseCount.NoClusterCountsOne | monitoring/sql/007_create_views_functions.sql:51-58 | an organization without clusters is shown with one database |
| DatabaseCount.BareClusterCountsOne | monitoring/sql/007_create_views_functions.sql:51-58 | so is one whose only cluster has no monitored database |

## Left out

- MetricsCache.RateIffNotOvertaken: is about the times of refreshes, and takes the two assignments of a commit as one step.
- SharedRecord.WholeIffNotOverwritten: is about the record at one point; a handler that is overtaken while it prints can still mix two rows.
- OtelClient.Sdk.EndSpan: durations and nanosecond timestamps do not wrap around.
- MultiTenant.Collector.Discover: the connection string is modelled by the database it names; its cut to 255 characters is not.
- TenantResponses.BuildBody: does not say what happens after a write past the end of the buffer, which C leaves undefined.
- TenantResponses.SixTenantsComplete: is about numbers of the right sign (counts and sizes not negative, a ratio from 0 to 100).
- GroupedSessions.Metrics.CollectSessions: session counts stay within a C int.
- Partitions.Catalog.SystemMaintenance: whether the snapshot partitions are created is a parameter, as their function is not part of this model; the ANALYZE block and the index creation are left out.
- Partitions.NoGapIffInTime: is about the runs that succeed; it starts from a catalog in which no scheduled name is taken; partition bounds and current dates are in one time zone.
- Views.CurrentStatsSum: a statistics row is grouped by its own cluster and database, not by those of its snapshot.
- Averages and maxima of the summary view, row-level security, and `calculate_table_health_score`.
- Years before 1, and the exported text of bytes outside ASCII.
- Record fields that the exporters do not print, such as tuple and checkpoint counters.
- The bodies of the other handlers (health, 404), sockets, signal handling, Gin, JWT and bcrypt, and the Go OpenTelemetry collectors.

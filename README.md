# Toggl2Clockify transfer core, in Dafny

Toggl2Clockify is a background service that copies tracked time from a
source provider (Toggl) into a destination provider (Clockify). Each run
does the following:

- It works out a window. The window starts at the stored watermark, or
  `DefaultDaysSinceNow` days before now when there is none, and ends now.
- For every configured project mapping it fetches the time entries of each
  source project and buckets them into one entry per calendar day.
- It merges the buckets of the mapping's source projects, again one entry
  per day.
- It replaces the destination project's entries in the window. It queries
  the existing entries, deletes them, and creates one entry per day. Each
  created entry starts at midnight and lasts the exact work time, or the
  work time rounded to whole hours.
- After a complete pass it stores the end of the window as the new
  watermark.

The model follows the service class's own structure, one module per stage:

| module | file | models |
|---|---|---|
| `Wrappers` | `wrappers.dfy` | `Option`, for the nullable values of the source |
| `Models` | `time_report_entry.dfy` | the `TimeReportEntry` record and its `TotalHours` rounding; grouping by date and summing (the shared `GroupBy`/`Sum` pipeline) |
| `SourceReport` | `source_report.dfy` | `GetTogglTimeReport`: the listing query, the `Where`/`GroupBy`/`Select` bucketing, and the parse-failure path |
| `Aggregation` | `aggregation.dfy` | `ConcatTimeReports` |
| `Clockify` | `clockify.dfy` | the destination as a class `ClockifyClient` over a map of entries: query, delete and create, each able to fail; the pure `Step`/`Apply` semantics of a call trace and the replace-window reference `Replaced` |
| `Export` | `export.dfy` | `ExportToClockify`, as a method with a delete loop and a create loop |
| `Transfer` | `transfer.dfy` | `GetStartDate`, the loop over the mappings, and `TransferTimeReports` |

How the model represents the source's values:

- A timestamp is an integer number of seconds of local time.
- A calendar date is an integer day number: `DayOf(t) = t / 86400`,
  `DateTime.Date` is `Midnight(t)`.
- A duration is an integer number of seconds. `TotalHours` rounds to
  nearest with ties to even, computed exactly on integers.
- The source listing `list` and the timestamp parser `parse` are function
  parameters. Each answers `None` where the library call throws.
- The clock reads are parameters. So is the watermark, in both directions.
- `TransferTimeReports` is specified by reference functions:
  - `MappingStep` gives what one mapping does.
  - `PlanOf` gives how far the run gets and which exports it performs.
  - `Apply` gives what the sent requests do to the destination.

Where the code differs from the design intent, the model follows the code:

- A failed source listing (`List`, line 153) is outside the `try`. It throws
  out of the mapping loop, and the run ends without saving the watermark.
  Only a parse failure yields an empty report.
- A missing `DestinationProjectId` is detected after that mapping's
  fetches. It throws, which skips all later mappings and the watermark save.
- A failed destination query does not stop the creates. The guard at
  line 212 covers only the deletes.
- The doc comment of `GetTogglTimeReport` speaks of rounding to 30 minutes.
  The code rounds to whole hours, and only when building the create request
  (line 235).
- A day whose entries add up to zero seconds still gets a bucket and a
  created entry.

Two observations about the replace-window export:

- The deletion query uses the untruncated window `[startDate, endDate]`.
  The created entries start at midnight. So the first day's entry starts
  before `startDate` whenever `startDate` is not itself a midnight.
- If the destination selects entries by their start time, that entry is
  never deleted, and an identical second export stores it twice. This is
  `Clockify.CreatedOutsideWindowIsDuplicated`.

The outcome depends on how the destination's query filters entries, which
is not part of this model. So this is recorded as an observation, not as a
defect.

## Model

| member | source | states |
|---|---|---|
| Models.TotalHours | Toggl2ClockifyService/Models/TimeReportEntry.cs:13 | the result is a whole number of hours within half an hour of the work time; on an exact half-hour tie it is the even neighbour |
| Models.TotalHoursUnique | Toggl2ClockifyService/Models/TimeReportEntry.cs:13 | the contract of TotalHours determines a single integer, so it is the round-half-even of the hours and nothing else |
| Models.TotalHoursMonotone | Toggl2ClockifyService/Models/TimeReportEntry.cs:13 | more work time never gives fewer rounded hours |
| Models.TotalHoursOfWholeHours | Toggl2ClockifyService/Models/TimeReportEntry.cs:13 | a whole number of hours is returned unchanged |
| Models.TotalHoursExamples | Toggl2ClockifyService/Models/TimeReportEntry.cs:13 | 2h30m rounds to 2, 3h30m to 4 (ties to even), 2h15m to 2 |
| Models.DayOf | Toggl2ClockifyService/Services/Toggl2ClockifyTransferingService.cs:160 | the date part of a timestamp: the day whose 86400 seconds contain it |
| Models.Midnight | Toggl2ClockifyService/Services/Toggl2ClockifyTransferingService.cs:144 | `Date` of a timestamp is a midnight, not after the timestamp, less than a day before it |
| Models.GroupByDate | Toggl2ClockifyService/Services/Toggl2ClockifyTransferingService.cs:183-186 | grouping by date and summing gives one entry per date; it has exactly the dates of the input; each entry carries the input's sum on its date; the total is preserved; there are no more entries than inputs |
| Models.GroupByDateOfDistinct | Toggl2ClockifyService/Services/Toggl2ClockifyTransferingService.cs:183-186 | a collection with one entry per date is grouped into itself, order included |
| Models.GroupByDateIdempotent | Toggl2ClockifyService/Services/Toggl2ClockifyTransferingService.cs:183-186 | grouping twice is grouping once |
| Models.MergeDates | Toggl2ClockifyService/Services/Toggl2ClockifyTransferingService.cs:183 | adding an entry to a grouping keeps first-appearance order: a known date keeps its place, a new date goes last |
| SourceReport.SourceQuery | Toggl2ClockifyService/Services/Toggl2ClockifyTransferingService.cs:142-147 | the listing criteria start at the start date's midnight and end exactly one day after the end date; every timestamp on a day from the start's day through the end's day lies inside |
| SourceReport.KeyedEntriesSucceed | Toggl2ClockifyService/Services/Toggl2ClockifyTransferingService.cs:158-160 | keying fails exactly when some entry that has a duration has a start the parser rejects; entries without a duration are dropped before parsing |
| SourceReport.KeyedEntriesMeaning | Toggl2ClockifyService/Services/Toggl2ClockifyTransferingService.cs:158-161 | the keyed entries carry, date by date and in total, the seconds of the listed entries that have a duration; their dates are those entries' start dates |
| SourceReport.KeyedEntriesAppend | Toggl2ClockifyService/Services/Toggl2ClockifyTransferingService.cs:158-160 | keying a concatenation keys both parts and fails when either does |
| SourceReport.Bucket | Toggl2ClockifyService/Services/Toggl2ClockifyTransferingService.cs:155-170 | one entry per date; empty when a parse fails; otherwise a date is present iff some entry with a duration starts on it, each entry's seconds are the sum of those entries' durations, and the total is the sum of all durations |
| SourceReport.BucketIgnoresRunningEntries | Toggl2ClockifyService/Services/Toggl2ClockifyTransferingService.cs:159 | an entry without a duration, wherever it sits, changes nothing in the report, whatever its start text |
| SourceReport.GetTogglTimeReport | Toggl2ClockifyService/Services/Toggl2ClockifyTransferingService.cs:137-172 | fails exactly when the listing for the window's criteria fails; otherwise it returns the bucketing of the listed entries |
| Aggregation.FlattenSums | Toggl2ClockifyService/Services/Toggl2ClockifyTransferingService.cs:182-185 | the flattened reports carry, date by date and in total, the sums over all reports |
| Aggregation.FlattenDates | Toggl2ClockifyService/Services/Toggl2ClockifyTransferingService.cs:182-183 | a date occurs in the flattened reports iff it occurs in some report |
| Aggregation.ConcatTimeReports | Toggl2ClockifyService/Services/Toggl2ClockifyTransferingService.cs:179-187 | one entry per date; a date is present iff it occurs in some input report; each entry carries the sum over all reports of the seconds on its date; the total over all reports is preserved |
| Aggregation.CrossSumOfLoneDate | Toggl2ClockifyService/Services/Toggl2ClockifyTransferingService.cs:182-185 | a date found in only one report has that report's seconds as its cross-report sum |
| Aggregation.LoneDateKeepsDuration | Toggl2ClockifyService/Services/Toggl2ClockifyTransferingService.cs:182-186 | an entry of a report with one entry per date, whose date occurs in no other report, appears unchanged in the aggregate |
| Aggregation.ConcatOfSingleReport | Toggl2ClockifyService/Services/Toggl2ClockifyTransferingService.cs:179-187 | a mapping with one source project passes its report through unchanged |
| Aggregation.ConcatSameDayExample | Toggl2ClockifyService/Services/Toggl2ClockifyTransferingService.cs:179-187 | 3h and 1h on the same day from two projects give a single 4h entry |
| Clockify.ClockifyClient.constructor | Toggl2ClockifyService/Services/Toggl2ClockifyTransferingService.cs:207 | the client starts in the given valid destination state |
| Clockify.ClockifyClient.FindAllTimeEntriesForUser | Toggl2ClockifyService/Services/Toggl2ClockifyTransferingService.cs:210-211 | the query either fails, or lists each id of the project's entries that start in the window exactly once, with no null element and no other id; the state is unchanged |
| Clockify.ClockifyClient.DeleteTimeEntry | Toggl2ClockifyService/Services/Toggl2ClockifyTransferingService.cs:219-223 | a failed delete changes nothing; a successful one removes exactly that id, which was present |
| Clockify.ClockifyClient.CreateTimeEntry | Toggl2ClockifyService/Services/Toggl2ClockifyTransferingService.cs:238-242 | a failed create changes nothing; a successful one stores the entry under a fresh id |
| Clockify.ApplyAppend | Toggl2ClockifyService/Services/Toggl2ClockifyTransferingService.cs:209-243 | the effect of two call sequences in a row is the effect of their concatenation |
| Clockify.ApplyDeletes | Toggl2ClockifyService/Services/Toggl2ClockifyTransferingService.cs:214-225 | deletes that all succeed remove exactly the ids they name |
| Clockify.ApplyCreates | Toggl2ClockifyService/Services/Toggl2ClockifyTransferingService.cs:229-243 | creates that all succeed add their entries under consecutive fresh ids |
| Clockify.ApplyReplacesWindow | Toggl2ClockifyService/Services/Toggl2ClockifyTransferingService.cs:209-243 | deleting the window's ids and then creating the new entries, every call succeeding, is the replace-window state: entries outside the window as before, the old window gone, the new entries added |
| Clockify.ReplacedWindowHoldsCreated | Toggl2ClockifyService/Services/Toggl2ClockifyTransferingService.cs:209-243 | after a replace whose entries lie in the window, the window holds exactly the created entries, and everything outside it is unchanged |
| Clockify.ReplaceTwiceConverges | Toggl2ClockifyService/Services/Toggl2ClockifyTransferingService.cs:209-243 | when every created entry starts inside the window, a second identical replace keeps the entries outside the window, and the same set of (project, start, end) values in the same number |
| Clockify.ReplaceTwiceSameValues | Toggl2ClockifyService/Services/Toggl2ClockifyTransferingService.cs:209-243 | for any created entries, including ones starting outside the window, a second identical replace stores the same set of (project, start, end) values as the first |
| Clockify.CreatedOutsideWindowIsDuplicated | Toggl2ClockifyService/Services/Toggl2ClockifyTransferingService.cs:210-234 | an entry created outside the query window survives the next replace, so a second identical replace stores it twice |
| Export.ToRequest | Toggl2ClockifyService/Services/Toggl2ClockifyTransferingService.cs:231-236 | the request has the destination project and starts at midnight of the entry's date; without rounding it lasts exactly the work time; with rounding it lasts exactly `TotalHours` hours, which is whole hours within half an hour of the work time |
| Export.ToRequestExample | Toggl2ClockifyService/Services/Toggl2ClockifyTransferingService.cs:235 | 2h15m ends two hours after midnight with rounding and 2h15m after it without |
| Export.CreateRequests | Toggl2ClockifyService/Services/Toggl2ClockifyTransferingService.cs:229-236 | one request per aggregated entry, in input order |
| Export.SomeIds | Toggl2ClockifyService/Services/Toggl2ClockifyTransferingService.cs:214-216 | the ids attempted are exactly those of the non-null elements, and no more of them than elements |
| Export.DeletedIds | Toggl2ClockifyService/Services/Toggl2ClockifyTransferingService.cs:211-216 | no delete unless the query succeeded with data; otherwise exactly the non-null ids of the data |
| Export.DeletedIdsAreWindow | Toggl2ClockifyService/Services/Toggl2ClockifyTransferingService.cs:210-216 | when the query succeeds, the ids deleted are exactly the window's entries |
| Export.DeletesPrecedeCreates | Toggl2ClockifyService/Services/Toggl2ClockifyTransferingService.cs:209-243 | in the export's request sequence no delete follows a create |
| Export.DeleteEach | Toggl2ClockifyService/Services/Toggl2ClockifyTransferingService.cs:214-225 | one delete attempt per non-null element, in order, whatever earlier attempts returned; the new state is the effect of those calls |
| Export.CreateEach | Toggl2ClockifyService/Services/Toggl2ClockifyTransferingService.cs:229-243 | one create attempt per aggregated entry, in order, whatever earlier attempts returned; the new state is the effect of those calls |
| Export.ExportToClockify | Toggl2ClockifyService/Services/Toggl2ClockifyTransferingService.cs:200-245 | throws with no request sent iff a credential is missing; otherwise the query answers on the old state, and the requests are the deletes of what it returned followed by one create per entry; the new state is their effect; with the query and every call successful, the new state is the replace-window state |
| Export.ExportTwice | Toggl2ClockifyService/Services/Toggl2ClockifyTransferingService.cs:200-245 | two identical successful exports store the same set of (project, start, end) values as one export, wherever the entries start; when every created entry starts inside the window, also as many entries as one export |
| Transfer.StartDateChoice | Toggl2ClockifyService/Services/Toggl2ClockifyTransferingService.cs:101-110 | a stored watermark is the start whatever the clock and look-back; without one the start lies exactly the look-back days before the clock, 30 days by default |
| Transfer.FetchAll | Toggl2ClockifyService/Services/Toggl2ClockifyTransferingService.cs:66 | the reports of all source projects, in order, or a failure exactly when one listing fails |
| Transfer.Summarized | Toggl2ClockifyService/Services/Toggl2ClockifyTransferingService.cs:69 | the exported report has one entry per date, each carrying the cross-project sum |
| Transfer.PlanOf | Toggl2ClockifyService/Services/Toggl2ClockifyTransferingService.cs:56-85 | the run completes iff no mapping stops it, and performs at most one export per mapping |
| Transfer.PlanAppend | Toggl2ClockifyService/Services/Toggl2ClockifyTransferingService.cs:56-82 | the mappings after a prefix only run if that prefix completes |
| Transfer.RunStopsAt | Toggl2ClockifyService/Services/Toggl2ClockifyTransferingService.cs:89-92 | a mapping that stops the run removes all later exports and does not complete |
| Transfer.SkippedMappingIsIgnored | Toggl2ClockifyService/Services/Toggl2ClockifyTransferingService.cs:61 | a null mapping, or one whose SourceProjectIds is null, leaves the run as if it were not configured; an empty SourceProjectIds is not skipped |
| Transfer.EmptySourcesStillExport | Toggl2ClockifyService/Services/Toggl2ClockifyTransferingService.cs:61-78 | a mapping whose SourceProjectIds is set but empty, with a destination and credentials, is not skipped: it exports an empty report, so nothing is created and the window is still cleared |
| Transfer.MissingDestinationStopsRun | Toggl2ClockifyService/Services/Toggl2ClockifyTransferingService.cs:74-77 | a mapping without a destination id stops the run there: the run does not complete and its exports are those of the earlier mappings |
| Transfer.WellConfiguredMappingExports | Toggl2ClockifyService/Services/Toggl2ClockifyTransferingService.cs:61-78 | a mapping whose listings answer and whose destination is set exports to that destination |
| Transfer.WellConfiguredRunCompletes | Toggl2ClockifyService/Services/Toggl2ClockifyTransferingService.cs:56-85 | with credentials and every mapping well configured, the run completes with one export per mapping whose SourceProjectIds is set (possibly empty), in order, each to its destination |
| Transfer.ExportedRunsEach | Toggl2ClockifyService/Services/Toggl2ClockifyTransferingService.cs:56-82 | the per-run facts gathered export after export hold of every run, each on the destination state left by the runs before it |
| Transfer.TransferMapping | Toggl2ClockifyService/Services/Toggl2ClockifyTransferingService.cs:61-80 | one mapping's body: it stops the run, exports or does nothing exactly as MappingStep says; an export's query answers on the destination as the mapping found it, and the export sends the deletes of what it returned and then the creates of ExportToClockify |
| Transfer.TransferMappings | Toggl2ClockifyService/Services/Toggl2ClockifyTransferingService.cs:56-82 | the loop performs exactly the plan's exports, in order, and completes iff the plan does; each export's query answers on the destination as the earlier exports left it, and each sends the deletes of what its query returned then its creates; the destination's new state is the effect of all their requests |
| Transfer.TransferTimeReports | Toggl2ClockifyService/Services/Toggl2ClockifyTransferingService.cs:40-94 | the watermark becomes the end of the window iff the run completes, and stays as it was otherwise (also when no mappings are configured); the exports performed are the plan's; each export's query answers for the run's window on the destination as the earlier exports left it, and each export sends the deletes of what its query returned then one create per aggregated day; the destination's new state is the effect of all the requests |

## Left out

- The background scheduling loop, cancellation and delays (`Worker.cs`), and the host and dependency wiring (`Program.cs`). These are plumbing around one run.
- Reading and writing `history.json`, and the JSON (de)serialisation. The stored watermark is an input of `TransferTimeReports` and the watermark left behind is an output. A missing or unreadable file would end the run before any mapping; a failed write would leave the watermark as it was. Neither failure is modelled.
- The network calls to both providers, `IRestResponse` and `async`. They are abstracted:
  - the source listing is a function parameter;
  - the destination is the `ClockifyClient` class, whose calls fail nondeterministically.
- The query's selection rule and the single user and workspace. The destination store holds the entries of the one configured user, and a query selects those of the project whose start lies in `[start, end]`. The real service's filter is not part of this model.
- `DateTime.ParseExact` with the format `MM/dd/yyyy HH:mm:ss`. It is an uninterpreted partial function parameter.
- `DateTime.Now`, time zones and daylight saving. Local time is integer seconds. The two clock reads of a run, inside `GetStartDate` and for the end date, are two parameters.
- `double` and `TimeSpan` arithmetic, including `TotalSeconds` and `FromSeconds`. Durations are integer seconds and the rounding is exact, so precision loss is not modelled.
- Negative durations. The code does not filter them, and the model allows them.
- Logging, including the informational hour sum at line 71 and the error messages of failed calls.
- The Options classes beyond their fields and the defaults 30 / true / 8. `RunIntervalInHours` belongs to the scheduling loop.
- The query's answer is modelled as one complete, unpaged list of the window's entries (`Clockify.AnswersQuery`). `Export.DeletedIdsAreWindow`, `Clockify.ApplyReplacesWindow` and `Clockify.ReplaceTwiceConverges` depend on that. A paged or truncated answer would leave some window entries undeleted.
- Checked overflow. With unbounded `int`, the model has no arithmetic overflow. Two overflows in the source are not modelled:
  - The `long` `Sum` and `TimeSpan.FromSeconds` at line 161 are inside the `try`. An overflow there would give an empty report.
  - `TimeSpan.FromSeconds` at line 184 is outside `GetTogglTimeReport`'s `try`. An overflow there would reach the `try` of `TransferTimeReports` (lines 43-92), whose catch at line 89 ends the run without saving the watermark.

Some members have no contract of their own. Each is described through the rows of the lemmas and methods that name it:

- Transfer.GetStartDate (lines 101-110): `Transfer.StartDateChoice` states its behaviour.
- SourceReport.KeyedEntries (lines 158-160, the `Where` and the keying): described by `SourceReport.KeyedEntriesSucceed`, `KeyedEntriesMeaning` and `KeyedEntriesAppend`.
- Aggregation.Flatten (line 182, the `SelectMany`): described by `Aggregation.FlattenSums`, `Aggregation.FlattenDates` and `Aggregation.ConcatTimeReports`.
- Models.Merge (one step of `GroupBy` and `Sum`): described by `Models.MergeDates` and `Models.GroupByDate`.
- Transfer.MappingStep (lines 61-78): described by `Transfer.WellConfiguredMappingExports`, `Transfer.MissingDestinationStopsRun`, `Transfer.SkippedMappingIsIgnored` and `Transfer.TransferMapping`.
- Transfer.RunPlan (lines 50-54, the missing-mappings case): described by `Transfer.TransferTimeReports`.
- Export.HasCredentials (lines 202-204): described by `Export.ExportToClockify`, whose `thrown` is exactly its negation.

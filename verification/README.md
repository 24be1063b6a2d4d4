# BAM log analysis, modelled in Dafny

Four scripts watch a Solana validator that runs the Block Assembly
Marketplace (BAM) client. Each one reads the validator log line by line and
folds the lines into a state record, then reports on that record:

- `bam-connectivity.py` fills per-minute connection-health buckets from the
  `bam_connection-metrics` datapoint, records connection events by ordered
  first-match over its pattern table, tallies warnings and errors, and
  derives uptime and an overall status;
- `bam-leader-activity.py` sums bundle counters per minute, lists the slots
  frozen in each minute, collects announced leader slots, and merges the
  cost, broadcast and scheduler-timing records of each slot; its report
  finds skipped slots, estimates vote and user transactions, and flags rows
  20 % off the average;
- `bundle-txn-signatures.py` parses bundle-execution debug lines into
  base58 signatures and a classified result, stamps each bundle with the
  most recent bank slot, de-duplicates signatures and builds explorer links;
- `bam-hourly-summary.py` reads the log newest first back to a cutoff
  time, collects events, metric totals, anomalous metric lines, leader-slot
  lines and BAM error lines, restores time order, builds a capped text
  summary, and decides whether analysis is needed and which colour the
  report gets.

The project models each loop as a fold over `seq<string>`, defined on the
last element, so that properties are proved by induction over the log. The
pure post-passes are functions of the folded state. Regular expressions are
modelled as data (`Pattern`) with a leftmost search. Every regex the scripts
use is built from literals, digit groups, lazy gaps and greedy runs whose
class excludes the character that follows them, and the engine is exact for
those shapes, with one exception. In the `set_bam_url` pattern,
`old=\s*([^,]+),` puts a whitespace run in front of a non-comma run.
Whitespace is never a comma, so this matches exactly the lines that
`old=[^,]+,` matches, and the model uses that form. Only whether the line
matches is used; the captured text is not. Shared pieces are modelled once: timestamps (`Timestamp`), the
`name=(\d+)i` metric fields (`Fields`), lexicographic order and sorting
(`Order`), guarded percentages and the outlier indicator (`Stats`), and
list comprehensions (`Seqs`).

Outside input is passed in as parameters: the log lines (in the order the
scripts read them), and the hourly script's cutoff as a 19-character
timestamp.

## Model

| member | source | states |
|---|---|---|
| Timestamp.ParseLeading | bam-connectivity.py:32-42 | a line is timed exactly when it starts with `[` and a calendar-valid `YYYY-MM-DDTHH:MM:SS`, and then it is timed by those 19 characters |
| Timestamp.ParseLeadingRoundTrip | bam-leader-activity.py:32-43 | a line written as `[` + valid timestamp + anything parses back to that timestamp |
| Timestamp.ParseAnywhereLeftmost | bam-hourly-summary.py:113-122 | the hourly parser takes the leftmost timestamp-shaped text anywhere in the line; the line is untimed when that text is not a real date, even if a later one is |
| Timestamp.AnchoredAgreesWithSearch | bam-hourly-summary.py:76 | whenever the anchored parser times a line, the searching parser times it identically |
| Timestamp.MinuteKeyMonotone | bam-connectivity.py:283 | cutting timestamps to their minute keeps time order |
| Fields.FindFieldLeftmost | bam-connectivity.py:255-258 | a field is found exactly when `name=<digits>i` occurs, and its value is that of the leftmost occurrence |
| Connectivity.EarliestRuleWins | bam-connectivity.py:331-404 | when several patterns match a line, the event is of the kind of the earliest pattern that matches, in dictionary order |
| Connectivity.StepAppends | bam-connectivity.py:302-328 | a line appends at most one event, never one for a timestamped metrics line, stamped with the line's timestamp or `unknown` |
| Connectivity.MetricLineStep | bam-connectivity.py:282-301 | a timestamped metrics line adds one sample and each present field's value to its own minute's bucket, and changes no other bucket and no event list |
| Connectivity.BucketsAreMinuteSums | bam-connectivity.py:282-301 | after the scan, a bucket exists exactly for the minutes with a timestamped metrics line, and it holds their count and their field totals |
| Connectivity.TalliesFollowLevels | bam-connectivity.py:331-404 | warning and error tallies are keyed only by kinds of their level, count exactly the events of each kind, and sum to the number of warn and error events |
| Connectivity.StatusFollowsEvents | bam-connectivity.py:591-606 | the status is issues exactly when an error event was seen, mostly healthy exactly when a warning but no error was, and healthy otherwise |
| Connectivity.UptimeIsPercentage | bam-connectivity.py:566-573 | unhealthy minutes are active minutes, uptime lies between 0 and 100, and it is reported exactly when some bucket exists |
| Connectivity.DisconnectionsMatchTallies | bam-connectivity.py:559-564 | the disconnection count equals the not-healthy and connection-lost warnings plus the manual disconnects |
| Connectivity.DisplayEvents | bam-connectivity.py:456 | without `--verbose` the timeline shows exactly the warnings, errors and connect, disconnect and connection-lost events, once per occurrence; with it, every event |
| Connectivity.DisplayEventsInOrder | bam-connectivity.py:456 | the short timeline keeps log order: the timeline of two stretches of log is the first one's followed by the second one's, and one event shows exactly when it is significant |
| Connectivity.OutcomeCharacterised | bam-connectivity.py:408-419 | zero lines is fatal; lines that all leave no trace give the "no BAM activity" outcome; anything else gives the report |
| LeaderActivity.MetricsBranchFirst | bam-leader-activity.py:178-264 | a timed line with the metrics marker never enters another branch, whatever other markers it holds |
| LeaderActivity.EffectOf | bam-leader-activity.py:174-264 | a line without a leading timestamp contributes nothing; a line yields a metrics reading exactly when it is timed and its first marker is the metrics one, keyed by its minute |
| LeaderActivity.BucketsAreRunningSums | bam-leader-activity.py:187-212 | every column of a minute's bucket is the running sum of that minute's readings, and a bucket exists exactly for minutes with a reading |
| LeaderActivity.GlobalsAreColumnSums | bam-leader-activity.py:204-212 | the global heartbeat and unhealthy totals equal the sums of those columns over all buckets, minutes without bundles included |
| LeaderActivity.SlotRecordsMerge | bam-leader-activity.py:228-264 | per slot, cost fields and broadcast time are last-write-wins and receive and schedule times accumulate over all records of the slot |
| LeaderActivity.AnnouncedSlots | bam-leader-activity.py:221-226 | the announced slots are exactly the slots of the announcement lines |
| LeaderActivity.FrozenSlotsInOrder | bam-leader-activity.py:214-219 | the slots frozen in a minute are listed in log order with duplicates kept |
| Order.SortStrings | bam-leader-activity.py:273 | `sorted` of a set of minute keys lists each element once, in ascending order |
| LeaderReport.BamRowsInOrder | bam-leader-activity.py:273-329 | the bundle table has one row per minute with bundles, in time order |
| LeaderReport.BamTotalsCover | bam-leader-activity.py:331-340 | the bundle total counts every bundle in the log and no other table total exceeds its whole-log sum |
| LeaderReport.LeaderPeriodHealthWithinGlobal | bam-leader-activity.py:529-530 | heartbeats and unhealthy counts during leader periods never exceed the whole-log totals |
| LeaderReport.PctSent | bam-leader-activity.py:321 | the percent sent times the bundles is 100 times the results, it is 0 without bundles, and it is a percentage when results do not exceed bundles |
| LeaderReport.OverallPct | bam-leader-activity.py:356 | the overall send rate is results per bundle in percent over the listed minutes, and 0 without bundles |
| LeaderReport.RowIndicators | bam-leader-activity.py:346-348 | against the mean of the rows, a row's bundles are flagged up exactly when 5·bundles·rows > 6·total and down exactly when 5·bundles·rows < 4·total; its results likewise against the results total, and never when that total is 0 |
| Stats.IndicatorBands | bam-leader-activity.py:276-289 | a zero average flags nothing; otherwise a value is flagged up exactly when more than 20 % above the average and down exactly when more than 20 % below |
| Stats.BoundaryValuesAreNotFlagged | bam-leader-activity.py:283-288 | values exactly 20 % off the average, as in 80, 100, 120, 100, are not flagged |
| LeaderReport.FailureTotalsAreColumnSums | bam-leader-activity.py:362-388 | the corrected failures table totals every failure in the log and is shown exactly when some minute had bundles and some minute had a failure |
| LeaderReport.FailureTotalMissesInactiveMinutes | bam-leader-activity.py:362-388 | the table as written lists a failing minute without bundles but leaves its failures out of the total line |
| LeaderReport.SlotRowsInOrder | bam-leader-activity.py:396-415 | the slot table lists slots in ascending order and marks as skipped exactly the announced slots with no record |
| LeaderReport.SkippedIffAnnouncedOnly | bam-leader-activity.py:396 | a slot is skipped exactly when an announcement named it and no cost, broadcast or timing line did |
| LeaderReport.SlotCounts | bam-leader-activity.py:413-456 | the produced count is the number of slots with a record, the skipped count the announced slots without one, and they add up to the rows |
| LeaderReport.EstVotes | bam-leader-activity.py:430 | the vote estimate is the number of whole 3428-unit votes the vote cost pays for |
| LeaderReport.EstUser | bam-leader-activity.py:431 | the user estimate is never negative and never above the transaction count, and with the votes it covers every transaction |
| LeaderReport.SlotRowFromLog | bam-leader-activity.py:424-434 | a produced slot's time is the last broadcast time logged for it when positive, otherwise the sum of all its logged receive and schedule times; its transaction count is the last cost line's, 0 without one |
| LeaderReport.TallyCounts | bam-leader-activity.py:449-456 | the totals pass counts produced and skipped rows, and when every produced row's estimates cover its transactions, the totals cover the total transactions |
| LeaderReport.AveragesOf | bam-leader-activity.py:459-463 | averages are 0 without produced slots; otherwise each of the seven averages times the produced count gives back its total, time converted to milliseconds |
| LeaderReport.TimeIndicatorInMicroseconds | bam-leader-activity.py:463 | comparing milliseconds with the millisecond average flags the same slots as comparing microseconds with their mean |
| LeaderReport.ReportOf | bam-leader-activity.py:268-398 | the report is the fatal outcome exactly when there are no lines; the bundle table is present exactly when some minute had bundles, and its total counts every bundle; the failures table is present exactly when some minute had bundles and some had failures, its totals counting every failure; the slot table is present exactly when some slot was recorded or announced |
| LeaderReport.FailRate | bam-leader-activity.py:516-525 | the failure line reports no failures exactly when the bundle table's failure totals are zero, and otherwise a rate that is those failures per bundle in percent, 0 without bundles |
| LeaderReport.FailRateOfLog | bam-leader-activity.py:331-340 | the failure line counts every bundle of the log but only the failures of minutes with bundles, and reports failures exactly when those are not zero |
| LeaderReport.FailRateMatchesPrintedTable | bam-leader-activity.py:362-388 | whenever the printed failures table is shown, the failure line reports a rate over the same totals as that table's total line |
| BundleSignatures.TokensInOrder | bundle-txn-signatures.py:150-151 | the tokens are disjoint pieces of the text in left-to-right order, each greedy up to 88 characters |
| BundleSignatures.ExtractSignatures | bundle-txn-signatures.py:142-155 | every returned signature is 80 to 88 base58 characters |
| BundleSignatures.ExtractRoundTrip | bundle-txn-signatures.py:142-155 | extracting from the debug list `[s1, s2, ...]` of valid signatures gives the list back, in order, duplicates kept |
| BundleRecords.ClassifyFirstMarker | bundle-txn-signatures.py:158-174 | a result is each tag exactly when its marker is present and no earlier marker is; `Ok(` always means success and no marker means unknown |
| BundleRecords.OkUnitImpliesOk | bundle-txn-signatures.py:160-161 | a result holding `Ok(())` is a success |
| BundleRecords.ExecShape | bundle-txn-signatures.py:185-187 | the groups come from the leftmost match: at its start the line spells out the lead, the signature text, `, result: ` and the result text; the signature text is a bracketed single-line piece closed at the first `]` followed by `, result: ` and a non-comma; the result text is the whole non-empty comma-free run after it |
| BundleRecords.CloseTailIff | bundle-txn-signatures.py:186 | the tail `\], result: ([^,]+)` matches at a position exactly when `]`, `, result: ` and a non-comma start there |
| Pattern.Find | bundle-txn-signatures.py:219 | `re.search` finds a match at the leftmost position where the pattern matches, and none exactly when it matches nowhere |
| BundleRecords.GuardHolds | bundle-txn-signatures.py:215-222 | a line the bundle pattern matches always passes the substring guard |
| BundleRecords.ScanAccounts | bundle-txn-signatures.py:204-239 | the records are those of the bundle lines with a signature, the counters count them and their signatures, and the result counts sum to the bundle count |
| BundleRecords.RecordAccounting | bundle-txn-signatures.py:227-239 | the bundle count is the number of records, the transaction total their signature count, and the result counts sum to the bundle count |
| BundleRecords.CurrentSlotIsMostRecent | bundle-txn-signatures.py:209-212 | the current slot is that of the most recent bank-slot line, the current line included, and none before any such line |
| BundleRecords.OutcomeCharacterised | bundle-txn-signatures.py:243-256 | zero lines and zero bundles are the two fatal outcomes, decided by the lines alone |
| BundleRecords.UniqueProperties | bundle-txn-signatures.py:369-379 | de-duplication leaves no duplicates and the same elements, in first-occurrence order |
| BundleRecords.Dedup | bundle-txn-signatures.py:374-379 | the loop with a seen set computes the first-occurrence de-duplication |
| BundleRecords.LinkRoundTrip | bundle-txn-signatures.py:267-274 | a link gives back its signature, and its query is the cluster query whenever an explorer URL is set; that query is present exactly when the cluster is set and not `mainnet` |
| HourlySummary.MetricFieldsComplete | bam-hourly-summary.py:61-70 | every metric field is extracted, each once |
| HourlySummary.AddFieldsAdds | bam-hourly-summary.py:171-175 | the field loop adds each present field's leftmost value to its total and leaves absent ones unchanged |
| HourlySummary.AnomalyIff | bam-hourly-summary.py:177-182 | a metric line is kept as an anomaly, once, exactly when its unhealthy, outbound or scheduler field is above zero |
| HourlySummary.ErrorIff | bam-hourly-summary.py:189-190 | a line is an error line exactly when it holds ` ERROR ` and `bam` in any letter case |
| HourlySummary.WindowEnd | bam-hourly-summary.py:159-162 | the scan reads the lines before the first line timed earlier than the cutoff; untimed lines never stop it |
| HourlySummary.WindowIsFirstStop | bam-hourly-summary.py:159-162 | the window ends at a position exactly when no earlier line stops the scan and the line there, if any, does |
| HourlySummary.WindowOfNewestFirst | bam-hourly-summary.py:145-162 | for a log read newest first, the window holds exactly the timed lines stamped at or after the cutoff |
| HourlySummary.CollectLoop | bam-hourly-summary.py:159-195 | the loop with its break collects exactly the window and reverses the three lists |
| HourlySummary.CollectCharacterised | bam-hourly-summary.py:164-195 | events, anomalies and errors are the stripped selected window lines in time order; minutes and leader slots count window lines; totals are field sums over metric lines |
| HourlySummary.FailuresAreAnomalies | bam-hourly-summary.py:178-182 | a scheduler or outbound failure in the totals always comes with a kept anomaly line |
| HourlySummary.NeedsAnalysisOfWindow | bam-hourly-summary.py:434-446 | analysis is needed exactly when the window holds an event line or an anomaly line |
| HourlySummary.ColourBands | bam-hourly-summary.py:298-307 | green exactly without failures and events, red exactly with five events or more, amber otherwise |
| HourlySummary.GreenAnalysis | bam-hourly-summary.py:298-307 | an analysed report is green exactly when anomalies alone called for the analysis |
| HourlySummary.HeaderAligned | bam-hourly-summary.py:206-214 | every total in the header starts in column 27 and reads back as the total |
| HourlySummary.SectionListsItems | bam-hourly-summary.py:216-235 | a section lists the first items in order, at most the cap, each cut to 300 characters and otherwise unchanged |
| HourlySummary.SectionCountsRest | bam-hourly-summary.py:220-235 | the "... and N more" line appears exactly past the cap, and N plus the listed items is the list length |
| HourlySummary.SummaryListsEvents | bam-hourly-summary.py:216-222 | the first 30 events appear in the summary in time order right after the events title |
| HourlySummary.Truncate | bam-hourly-summary.py:318-319 | the description is at most 4000 characters, unchanged when short enough, and otherwise its first 3997 characters followed by `...` |
| HourlySummary.TruncateIdempotent | bam-hourly-summary.py:318-319 | a cut description is not cut again |

## Left out

- Reading the log: file reads, `journalctl`, the `tac` subprocess, and the checks that the log file or service exists. The hourly script's early return of the empty result when the log cannot be read is also left out. The lines are a parameter, given in the order the script reads them.
- `str.splitlines`: each line is given already split.
- Network and host helpers: `ping_host`, `extract_hostname_from_url`, and the startup-script URL discovery.
- The Claude API call, API-key and webhook lookup, and posting to Discord. The payload decisions before them are modelled.
- Rendering: table, CSV and JSON printing, ANSI colours, `isatty`, progress dots, the healthy embed's text, the JSON escaping of the summary, and the prompt text.
- `\d` is ASCII digits only. Python also accepts other Unicode decimal digits, which no log line is expected to hold.
- `str.lower` lowers ASCII letters only. Python lowers all of Unicode, and no other character lowers to `b`, `a` or `m`.
- Floating point: ratios, means and percentages are exact reals, so rounding of `float` is not modelled.
- Stats.IndicatorBands: a value exactly 20 % from the average is never flagged here, but Python's rounded quotient can land on either side of 0.2. Against the mean of 14, 14 and 7, the value 14 is exactly 20 % above, and Python's quotient 0.20000000000000007 flags it ▲. LeaderReport.RowIndicators, LeaderReport.TimeIndicatorInMicroseconds and Stats.IndicatorOfMean inherit this.
- LeaderReport.ReportOf: the failures table in the report is the corrected one of the findings below, with totals summed over its rows. The table the script prints is LeaderReport.FailureTableAsWritten, which differs from it only in the totals and in when it is shown, as LeaderReport.FailureTotalMissesInactiveMinutes exhibits.
- The hourly cutoff is a whole-second timestamp compared as a string. The fractional seconds of `now - hours` are not modelled. For a log of four-digit years, string order is time order.
- Connectivity event messages: their f-string text and 50-character cuts are not modelled. Each event's kind, level and timestamp are.
- HourlySummary.FirstAnomaly: states that the field found is watched and above zero, not that it is the first such one. The line is appended the same way whichever field breaks the loop.

## Findings

| source | as written | input that shows it | evidently intended | confidence | as-written member | corrected member |
|---|---|---|---|---|---|---|
| bam-leader-activity.py:331-388 | failure totals are summed over minutes with bundles only, but the failures table lists every failing minute, and the table is shown only when those partial totals are positive | minute a: 1 bundle, 1 scheduler failure; minute b: no bundles, 5 scheduler failures; the table shows both rows (6 failures) over a total line of 1 | totals over the rows the table lists, so the total line equals the sum of its rows | not executed | LeaderReport.FailureTotalMissesInactiveMinutes | LeaderReport.FailureTotalsAreColumnSums |

# Dafny model of the E2E test-result summarizer

`summarize_test_results.py` reads one JSON artifact per end-to-end test run
(a directory of them, one per test of each matrix branch), tallies them into a
summary and renders that summary as a Markdown report for a GitHub job
summary: an overview of failures against runs, an alert for systematic
failures, tables of failures per test, per code location, per special
(infrastructure) failure and per matrix branch / Kubernetes version / Postgres
version / platform, and two tables of the longest and shortest durations.

This project models that pipeline as pure functions and proves what it does:

- **Records** (`records.dfy`): the presence check of the 15 required fields,
  the parsed artifact and its normalization (`pg_version` = kind, dash,
  version). **Classifier**: failed / external / special / ginkgo-report /
  normal failures.
- **Durations** (`durations.dfy`): the tagged test names, the trackability
  checks on timestamps, the running minimum, maximum and slowest branch of
  each test, the earliest start and latest end of each (platform, branch)
  suite, the per-platform reduction of suite spans, and `format_duration`.
- **Aggregation** (`aggregation.dfy`): the per-record steps
  (`count_bucketed_by_test`, `_by_code`, `_by_special_failures`,
  `count_bucketized_stats`), the loop of `compute_test_summary` as a fold over
  the normalized records, `compute_bucketized_summary` and `compile_overview`.
- **SummaryProperties** (`summary_properties.dfy`): a reference definition of
  what every map of the summary holds, by counting records (`Count`, `Tally`,
  `Collected`), and the proofs that the fold computes exactly that.
- **InsertionOrder** (`insertion_order.dfy`): the key order of every
  dictionary of the summary, and the order of every breakdown list, as the
  order in which the records first contributed each entry (`FirstSeen`).
- **Sorting** (`sorting.dfy`): Python's stable `sorted(..., reverse=True)` on
  dictionary items by value, with its permutation, order and stability proved.
- **Report** (`report.dfy`): `format_alerts`, the rows of every table, the
  escaping of error text, and which sections the full and abridged reports
  print, in which order. **ReportProperties** (`report_properties.dfy`): the
  tables read back in terms of the input records (which rows, their counts,
  the order of rows of equal count and of the names in each row), and the
  reference scenario of the repository's unit test, generalised.

Supporting modules: `wrappers.dfy` (Option), `ordered_maps.dfy`
(insertion-ordered dictionaries, the model of Python `dict`s; a dict used as a
set is a duplicate-free sequence) and `text.dfy` (split, join, one-character
replace, decimal rendering).

The directory listing is the input sequence of parsed documents, in listing
order. Timestamp parsing (`datetime.fromisoformat`) is a parameter
`clock: string -> int` giving whole seconds, since the source reads only the
part before the dot. The report is a `Document`: the list of section kinds it
prints, in order, and the summary each section is rendered from; each section
holds the rows of its table rather than its text.

Some docstrings and comments of the source describe a check more narrowly than
the code performs it; the model follows the code:

- The docstring of `is_special_error` (`summarize_test_results.py:84-85`)
  says it checks whether the test *failed* due to a well-known error, but the
  code (87-91) looks only at the error text, not at the state; likewise
  `is_ginkgo_report_failure` (95-99). A passing record with a special error
  text is therefore "special" for the name tagging of durations
  (`SpecialErrorIgnoresState`).
- The comment above the special-failure dictionaries (376-378) says special
  failures are not due to the test having failed, yet `total_special_fails`
  (409-410) is incremented for every record that is not a normal failure,
  passing records included (`FoldTotals`: it equals the special failures plus
  the records that did not fail). It still only decides whether the
  special-failure table is printed.

Two further details of the code:

- The failures-by-test table counts every failure except the ginkgo-report
  pseudo test, external and special failures included.
- In `count_bucketed_by_code` (244) the `error == ""` guard restricts the
  by-code table to failures with an error text, while the `ignoreFailed` guard
  never matters, since a normal failure has state `failed`. The model keeps
  both guards and proves what they amount to: a count and collect step exactly
  for normal failures with a non-empty error (`ByCodeStep`).
- The `"error" in` guards of `is_special_error` and `is_ginkgo_report_failure`
  (91, 99) always hold once the presence check has passed, so the model leaves
  them out.

## Model

| member | source | states |
|---|---|---|
| Records.HasAll | summarize_test_results.py:112-133 | the field loop answers true exactly when every listed field is present |
| Records.IsTestArtifact | summarize_test_results.py:112-133 | an artifact is valid exactly when each of the 15 required fields is a key |
| Records.ParseArtifact | summarize_test_results.py:112-133 | parsing succeeds exactly for valid artifacts, and every field of the result is the document's value for that key |
| Records.CombinePostgresData | summarize_test_results.py:136-144 | the record keeps every artifact field, and `pg_version` is the kind, a dash and the version, each recoverable by position |
| Records.NormalizeOne | summarize_test_results.py:400-403 | a document yields one record exactly when it passes the presence check, else none |
| Records.Normalize | summarize_test_results.py:394-403 | normalization never yields more records than documents |
| Records.NormalizeSingle | summarize_test_results.py:400-403 | the normalization of one document is that document's own contribution |
| Records.NormalizeAppend | summarize_test_results.py:394-403 | documents are normalized independently: normalizing a concatenation concatenates the results |
| Records.FlatMapAppend | summarize_test_results.py:394-403 | the per-document loop distributes over concatenated listings |
| Records.FlatMapShort | summarize_test_results.py:394-403 | a loop emitting at most one record per document emits at most as many records as documents |
| Classifier.IsExternalFailure | summarize_test_results.py:74-80 | external failure iff the state is none of passed, skipped, ignoreFailed, failed |
| Classifier.IsNormalFailure | summarize_test_results.py:102-109 | normal failure iff the state is "failed", the error is not a special error and the test is not the ginkgo-report one; it is then failed and not external |
| Classifier.PassingIsNoFailure | summarize_test_results.py:62-109 | a passed, skipped or ignored record is never failed, an external failure or a normal failure |
| Classifier.SpecialErrorIgnoresState | summarize_test_results.py:83-91 | a passed record with a special error text is still a special error, though not failed |
| Durations.Tagged | summarize_test_results.py:154-159 | the tagged name is three characters longer than tag and name, with the tag after the bracket and the name at the end |
| Durations.TaggedName | summarize_test_results.py:152-159 | the name is left untagged exactly for records neither external nor special; external failures are tagged with the state, else special errors with the error, and the name always ends the result |
| Durations.Observe | summarize_test_results.py:179-192 | an observation lies between the new minimum and maximum, the extremes only widen, and the slowest branch changes only on a strictly longer duration |
| Durations.ObserveAll | summarize_test_results.py:179-192 | a test has extremes exactly when it was observed, with minimum at most maximum |
| Durations.ObserveAllExtremes | summarize_test_results.py:179-192 | the extremes are the least and greatest durations observed, and the slowest branch is that of the first observation reaching the maximum (ties keep the earlier branch) |
| Durations.Widen | summarize_test_results.py:196-209 | the widened span covers both the old span and the new start and end, and each bound is one of them |
| Durations.SpanAll | summarize_test_results.py:196-209 | a branch has a span exactly when some record of it was tracked |
| Durations.SpanAllBounds | summarize_test_results.py:196-209 | the span starts at the earliest start and ends at the latest end of the branch's records |
| Durations.EmptyTimings | summarize_test_results.py:388-389 | the initial duration dictionaries are empty and well formed |
| Durations.TrackTimeTakenTests | summarize_test_results.py:161-192 | an untrackable record changes nothing; a trackable one updates only its tagged name's entry, by one observation of its duration and branch |
| Durations.TrackTimeTakenValid | summarize_test_results.py:147-209 | tracking keeps the duration dictionaries well formed |
| Durations.TrackTimeTakenSuites | summarize_test_results.py:161-209 | only the record's own (platform, branch) span changes, widened by its start and end |
| Durations.SpanDurations | summarize_test_results.py:748-752 | a platform's branch durations are its spans' lengths in branch order |
| Durations.ReduceSuiteDurations | summarize_test_results.py:743-765 | the reduction keeps a well-formed dictionary with a row only for listed platforms |
| Durations.ReduceSuiteDurationsLast | summarize_test_results.py:748-765 | the last platform of the loop writes only its own row, and the extremes of its branches |
| Durations.ReduceSuiteDurationsRows | summarize_test_results.py:743-765 | each platform's row holds the extremes of exactly its own branch durations |
| Durations.ReduceSuiteDurationsPrefix | summarize_test_results.py:748-765 | the reduction reads the suite spans only of the platforms it visits |
| Durations.DaySeconds | summarize_test_results.py:699-703 | `timedelta.seconds` is the duration modulo a day, unchanged for a duration within a day |
| Durations.FormatDuration | summarize_test_results.py:699-703 | the text is "m min s sec" with s below 60 and m·60+s the in-day seconds |
| Durations.FormatDurationMinutes | summarize_test_results.py:699-703 | 150 seconds render as "2 min 30 sec" |
| Durations.FormatDurationWraps | summarize_test_results.py:699-703 | a negative duration of one second renders as the last second of a day, "1439 min 59 sec" |
| Aggregation.SpecialLabel | summarize_test_results.py:275-279 | the label is the error text for a special error or a ginkgo-report failure (this wins), otherwise the state of an external failure |
| Aggregation.EmptySummary | summarize_test_results.py:357-389 | the initial summary is well formed with all totals zero |
| Aggregation.Step | summarize_test_results.py:405-433 | one loop iteration adds one run, one failure exactly for a failed record, and one special count exactly for a record that is not a normal failure |
| Aggregation.Fold | summarize_test_results.py:394-433 | the run total is the number of records and neither other total exceeds it |
| Aggregation.ByTestStepOk | summarize_test_results.py:212-236 | the by-test step keeps its maps well formed and failures within runs |
| Aggregation.ByCodeStepOk | summarize_test_results.py:239-264 | the by-code step keeps its maps well formed, with an error text for every counted location |
| Aggregation.BySpecialStepOk | summarize_test_results.py:267-301 | the by-special step keeps its maps well formed |
| Aggregation.BucketsStepOk | summarize_test_results.py:304-316 | a bucketing step keeps each failed bucket a run bucket |
| Aggregation.StepWellFormed | summarize_test_results.py:405-433 | one loop iteration keeps every lookup the report performs defined |
| Aggregation.FoldWellFormed | summarize_test_results.py:394-433 | the summary of any records is well formed |
| Aggregation.ComputeTestSummary | summarize_test_results.py:333-448 | the summary of a listing is well formed and counts one run per document passing the presence check |
| Aggregation.ComputeBucketizedSummary | summarize_test_results.py:319-330 | the pair is (distinct failed buckets, distinct buckets), the first at most the second |
| Aggregation.BucketCountBounds | summarize_test_results.py:319-330 | a well-formed bucketing has no more failed buckets than buckets |
| Aggregation.CompileOverview | summarize_test_results.py:451-472 | the overview holds the three totals and, per bucketing, distinct failed buckets at most distinct buckets |
| SummaryProperties.TallyAtMostCount | summarize_test_results.py:304-316 | no bucket counts more records than are counted overall |
| SummaryProperties.CountStepKeeps | summarize_test_results.py:212-316 | incrementing a count map for one more record keeps it counting exactly the records meeting its condition, per key |
| SummaryProperties.CollectStepKeeps | summarize_test_results.py:228-236 | adding one record's value to a breakdown map keeps it holding exactly the distinct values of the counted records, per key |
| SummaryProperties.ByTestStep | summarize_test_results.py:212-236 | the by-test step counts every run and, for names other than the ginkgo-report test, every failure with its versions and platform |
| SummaryProperties.ByCodeStep | summarize_test_results.py:239-264 | the by-code step counts exactly the normal failures with an error text, keyed by file:line |
| SummaryProperties.BySpecialGuard | summarize_test_results.py:267-301 | the by-special step changes its maps exactly for a failed record that is not a normal failure, under its label |
| SummaryProperties.BySpecialStep | summarize_test_results.py:267-301 | the by-special step counts exactly the special failures per label and collects their test, versions and platform |
| SummaryProperties.BucketsStep | summarize_test_results.py:304-316 | a bucketing step counts every run and every failure under the record's field value |
| SummaryProperties.StepCounter | summarize_test_results.py:413-431 | each count map of the loop body takes exactly one counting step for its own condition and key |
| SummaryProperties.StepSet | summarize_test_results.py:413-431 | each breakdown map of the loop body takes exactly one collecting step |
| SummaryProperties.FoldCounts | summarize_test_results.py:394-433 | every count map of the summary holds, per key, exactly the number of records meeting its condition, and no empty bucket |
| SummaryProperties.FoldCollects | summarize_test_results.py:394-433 | every breakdown map holds, per key, exactly the distinct values of the counted records |
| SummaryProperties.FoldTotalsCount | summarize_test_results.py:405-410 | the three totals count runs, failed records and records that are not normal failures |
| SummaryProperties.CountPartition | summarize_test_results.py:62-109 | every failed record is either a normal or a special failure, never both |
| SummaryProperties.FoldTotals | summarize_test_results.py:405-410 | runs are the records, failures the failed records, and the special total is the special failures plus the records that did not fail |
| SummaryProperties.FailedAtMostAlways | summarize_test_results.py:304-316 | a bucket never counts more failures than runs |
| SummaryProperties.FailedWithin | summarize_test_results.py:304-316 | every failed bucket is a run bucket with no more failures than runs |
| SummaryProperties.BucketsCount | summarize_test_results.py:304-316 | a bucketing's failures sit within its runs, runs add up to the records and failures to the failed records |
| SummaryProperties.FoldBuckets | summarize_test_results.py:304-316 | each of the four bucketings counts runs and failures per field value |
| SummaryProperties.DimensionBuckets | summarize_test_results.py:304-316 | a bucket's runs are the records with that value, its failures the failed ones, and they add up to the totals |
| SummaryProperties.ByTestBuckets | summarize_test_results.py:212-236 | per name, runs and non-ginkgo failures of the records; the ginkgo-report test never has a failed bucket |
| SummaryProperties.ByTestWhere | summarize_test_results.py:228-236 | the by-test version and platform sets hold exactly the values of the counted failures |
| SummaryProperties.NoGinkgoTally | summarize_test_results.py:221 | no failure of the ginkgo-report test is ever counted by name |
| SummaryProperties.ByCodeBuckets | summarize_test_results.py:239-264 | per location, the count and the test names of exactly the normal failures with an error text |
| SummaryProperties.ByCodeErrorStep | summarize_test_results.py:263-264 | one step records an error text only at a location with none yet |
| SummaryProperties.ByCodeFirstErrorWins | summarize_test_results.py:263-264 | each location keeps the error text of the first record counted there |
| SummaryProperties.BySpecialBuckets | summarize_test_results.py:267-301 | per label, the count and test names of exactly the special failures |
| SummaryProperties.FoldTestDurations | summarize_test_results.py:147-192 | each tagged test's extremes are those of exactly the durations of its trackable records, in order |
| SummaryProperties.FoldSuiteSpans | summarize_test_results.py:147-209 | each (platform, branch) span covers exactly its trackable records' starts and ends |
| SummaryProperties.UntrackableKeepsDurations | summarize_test_results.py:161-166 | a record with a null timestamp leaves both duration tables unchanged |
| SummaryProperties.NormalizeSkips | summarize_test_results.py:400-402 | a document failing the presence check drops out of normalization wherever it is listed |
| SummaryProperties.SkipInvalidArtifact | summarize_test_results.py:400-402 | inserting such a document anywhere in a listing leaves the whole summary unchanged |
| Sorting.InsertDesc | summarize_test_results.py:567-569 | insertion adds exactly one element, keeping the rest as a multiset |
| Sorting.InsertDescMembers | summarize_test_results.py:567-569 | insertion adds the new key and nothing else |
| Sorting.InsertDescSorted | summarize_test_results.py:567-569 | inserting into a descending list keeps it descending |
| Sorting.SortDesc | summarize_test_results.py:567-569 | the sort is a permutation of the keys, in descending order of value |
| Sorting.InsertDescStable | summarize_test_results.py:567-569 | the inserted key goes in front of the keys of equal value, which keep their order |
| Sorting.SortDescStable | summarize_test_results.py:567-569 | keys of equal value keep their dictionary order |
| Sorting.SortDescKeys | summarize_test_results.py:567-569 | the same keys, most valuable first, ties in dictionary order |
| Sorting.WithValueMembers | summarize_test_results.py:567-569 | the keys of one value are exactly the listed keys having that value |
| Sorting.WithValueKeepsBefore | summarize_test_results.py:567-569 | picking out the keys of one value keeps the order of any two of them |
| Sorting.WithValueBefore | summarize_test_results.py:567-569 | two keys of one value stand in the order they have in the whole list |
| Sorting.SortDescTies | summarize_test_results.py:567-569 | of two keys of equal value, the one sorted first came first in the dictionary |
| Report.AlertLinesExact | summarize_test_results.py:511-524 | a metric's lines are exactly its failed buckets that failed in every run, more than once, with their counts |
| Report.MetricNameInjective | summarize_test_results.py:503-508 | the four metrics have distinct titles |
| Report.AlertGroupsExact | summarize_test_results.py:511-527 | a metric's group holds exactly its alert lines, and no group is empty |
| Report.AlertSelection | summarize_test_results.py:493-527 | the all-failed alert is given exactly when every run failed; otherwise a line is printed exactly for a systematic bucket of its metric |
| Report.AlertsOmitted | summarize_test_results.py:493-527 | nothing is said exactly when some run passed and no bucket of any metric failed systematically |
| Report.AlertGroupMetric | summarize_test_results.py:503-524 | every group is titled by one of the inspected metrics |
| Report.EscapeErrorText | summarize_test_results.py:681-685 | the escaped text holds no newline and no pipe, grows by five characters per newline, and is the text itself when it had neither |
| Report.EscapePieces | summarize_test_results.py:683-684 | escaping works character by character: a newline becomes `<br />`, a pipe an em dash, any other character stays, and escaping a concatenation concatenates the escaped parts |
| Report.OpeningSafe | summarize_test_results.py:686 | the cell's opening markup holds no newline and no pipe |
| Report.ClosingSafe | summarize_test_results.py:686 | the cell's closing markup holds no newline and no pipe |
| Report.ErrorCell | summarize_test_results.py:681-686 | the collapsible error cell cannot break a table row |
| Report.BucketRowsCover | summarize_test_results.py:550-574 | one row per failed bucket, each with failures at most runs |
| Report.BucketRowsOrder | summarize_test_results.py:567-572 | rows go by decreasing failures, ties in the failed dictionary's insertion order (see `ReportProperties.BucketTableTies` for what that order is) |
| Report.BucketRowsOrdered | summarize_test_results.py:550-574 | one row per failed bucket with its failures and runs, most failures first, ties in the failed dictionary's insertion order |
| Report.TestRowsOrder | summarize_test_results.py:587-593 | rows go by decreasing failures, ties in the failed dictionary's insertion order (see `ReportProperties.TestTableTies`) |
| Report.TestRowsOrdered | summarize_test_results.py:577-612 | one row per failed test, with failures at most runs, most failures first |
| Report.SpecialRowsOrder | summarize_test_results.py:625-631 | rows go by decreasing count, ties in the total dictionary's insertion order (see `ReportProperties.SpecialTableTies`) |
| Report.SpecialRowsOrdered | summarize_test_results.py:615-657 | one row per special label, most frequent first |
| Report.CodeRowsOrder | summarize_test_results.py:670-676 | rows go by decreasing count, ties in the total dictionary's insertion order (see `ReportProperties.CodeTableOrder`) |
| Report.CodeRowsOrdered | summarize_test_results.py:660-696 | one row per failing location, most failures first, every error cell safe for a table |
| Report.DurationRowsOrder | summarize_test_results.py:716-718 | rows go by decreasing longest duration, ties in the dictionary's insertion order (see `ReportProperties.TestTimesTies`) |
| Report.DurationRowsOrdered | summarize_test_results.py:706-727 | one row per name, longest first, ties in the dictionary's insertion order |
| Report.OverviewRowsBounded | summarize_test_results.py:891-901 | for a well-formed summary with no more failures than runs, no overview row shows more failures than its total |
| Report.FailurePlanHas | summarize_test_results.py:781-859 | the failure tables are by test, by code and the four bucketings, with the special table exactly when some record counted as special |
| Report.PlanHas | summarize_test_results.py:862-943 | exactly which parts the full report holds for given failures, special count and alerts |
| Report.PlanEnds | summarize_test_results.py:862-943 | the notice opens the report and the suite and test timing tables close it |
| Report.IndexPlanned | summarize_test_results.py:874-887 | the index is printed exactly when something failed |
| Report.NoFailuresPlanned | summarize_test_results.py:907-915 | the "no failures" text is printed exactly when nothing failed |
| Report.SpecialPlanned | summarize_test_results.py:781-915 | the special table is printed exactly when something failed and some record counted as special |
| Report.ByTestPlanned | summarize_test_results.py:781-915 | the by-test table is printed exactly when something failed |
| Report.ByCodePlanned | summarize_test_results.py:781-915 | the by-code table is printed exactly when something failed |
| Report.BucketPlanned | summarize_test_results.py:781-915 | each bucket table is printed exactly when something failed |
| Report.AlertsPlanned | summarize_test_results.py:904-905 | the alerts are printed exactly when there are any |
| Report.PlanSelection | summarize_test_results.py:862-943 | all of the above for one plan, which has at least four parts |
| Report.SectionSelection | summarize_test_results.py:862-943 | the full report of a summary holds each part exactly under the source's condition, notice first and timing tables last |
| Report.ShortPlanHas | summarize_test_results.py:946-975 | the abridged report opens with its notice, then holds the overview and, exactly when there are alerts, the alerts |
| Report.ShortPlanKept | summarize_test_results.py:946-975 | past its notice, the abridged report holds exactly the alerts and overview parts of the full report |
| Report.ShortSummaryAbridges | summarize_test_results.py:946-975 | the abridged report renders the same summary and keeps exactly the full report's alerts and overview |
| ReportProperties.CountedKeys | summarize_test_results.py:304-316 | a count map holds exactly the keys some counted record carries |
| ReportProperties.BucketTableTallies | summarize_test_results.py:550-574 | a bucket table has a row exactly for each value some failed record carries, with its failed and total record counts, most failures first |
| ReportProperties.TestTableTallies | summarize_test_results.py:577-612 | the by-test table has a row exactly for each test with a counted failure, never for the ginkgo-report test, with its record counts |
| ReportProperties.ComputedOverviewBounded | summarize_test_results.py:891-901 | the overview of any listing never shows more failures than runs |
| ReportProperties.UniformTally | summarize_test_results.py:304-316 | when every record shares a value, that value's bucket counts them all and no other bucket counts any |
| ReportProperties.UniformCounts | summarize_test_results.py:304-316 | a count map over records sharing one value holds that value alone, when anything was counted |
| ReportProperties.UniformBuckets | test_summary.py:22-64 | records sharing one value in a bucketing give one run bucket with every run and one failed bucket with every failure, if any |
| ReportProperties.OneBucketRows | summarize_test_results.py:550-574 | a bucketing with a single bucket gives one table row, or none when nothing failed |
| InsertionOrder.FirstSeenMembersStep | summarize_test_results.py:394-433 | one more record keeps the first-seen listing holding exactly the contributed values |
| InsertionOrder.FirstSeenOrderStep | summarize_test_results.py:394-433 | one more record keeps the first-seen listing in order of first contribution |
| InsertionOrder.FirstSeenOrder | summarize_test_results.py:394-433 | the first-seen listing has no duplicate, holds exactly the contributed values, and orders them by their first contributing record |
| InsertionOrder.FirstSeenBefore | summarize_test_results.py:394-433 | a value listed before another was first contributed by an earlier record |
| InsertionOrder.CountStepOrder | summarize_test_results.py:218-229 | counting one more record appends its key exactly when the key is new |
| InsertionOrder.FoldCounterOrder | summarize_test_results.py:394-433 | every count map of the summary lists its keys in the order of their first counted record |
| InsertionOrder.CollectStepOrder | summarize_test_results.py:224-236 | collecting one more record appends its key and its value exactly when they are new |
| InsertionOrder.FoldSetOrder | summarize_test_results.py:394-433 | every breakdown map lists its keys by first counted record, and each key's values by the first counted record carrying them |
| InsertionOrder.FoldValuesOrder | summarize_test_results.py:394-433 | every breakdown list is in the order its values first appeared among the key's counted records |
| InsertionOrder.TrackTimeTakenOrder | summarize_test_results.py:181-201 | tracking one record appends its tagged name and its platform exactly when new, and every platform keeps at least one branch |
| InsertionOrder.FoldTimingsOrder | summarize_test_results.py:394-433 | the timing dictionaries list tagged names and platforms in the order of their first trackable record |
| InsertionOrder.ReduceKeepsPlatforms | summarize_test_results.py:748-765 | when every platform has a branch, the reduction keeps every platform, in order |
| InsertionOrder.SuitePlatformsOrder | summarize_test_results.py:743-768 | the suite reduction lists the platforms in the order of their first trackable record |
| ReportProperties.TieFirstSeen | summarize_test_results.py:567-569 | of two sorted entries of equal value from a first-seen listing, the first was contributed first |
| ReportProperties.BucketTies | summarize_test_results.py:567-572 | a bucket table over a first-seen dictionary keeps buckets of equal failures in first-seen order |
| ReportProperties.BucketTableTies | summarize_test_results.py:567-572 | buckets with as many failures are listed in the order of their first failed record |
| ReportProperties.TestTies | summarize_test_results.py:587-595 | a by-test table over a first-seen dictionary keeps tests of equal failures in first-seen order |
| ReportProperties.TestTableTies | summarize_test_results.py:587-595 | tests with as many failures are listed in the order of their first counted failure |
| ReportProperties.TestTableLists | summarize_test_results.py:596-601 | each by-test row lists the versions and platforms in the order the test first failed on them |
| ReportProperties.SpecialTies | summarize_test_results.py:625-633 | a special table over a first-seen dictionary keeps labels of equal count in first-seen order |
| ReportProperties.SpecialTableTies | summarize_test_results.py:625-633 | labels seen as often are listed in the order of their first special failure |
| ReportProperties.SpecialRowLists | summarize_test_results.py:633-645 | one special row's tests, versions and platforms are the label's first-seen lists |
| ReportProperties.SpecialLists | summarize_test_results.py:633-645 | every special row's tests, versions and platforms are the label's first-seen lists |
| ReportProperties.SpecialTableLists | summarize_test_results.py:633-645 | each special row lists tests, versions and platforms in the order the label first met them |
| ReportProperties.CodeTies | summarize_test_results.py:670-678 | a by-code table over a first-seen dictionary keeps locations of equal count in first-seen order |
| ReportProperties.CodeTableOrder | summarize_test_results.py:670-679 | locations failing as often are listed by first failure, and each row's tests in the order they first failed there |
| ReportProperties.DurationTies | summarize_test_results.py:716-720 | a timing table over a first-seen dictionary keeps names of equal longest duration in first-seen order |
| ReportProperties.TestTimesTies | summarize_test_results.py:716-720 | test names of equal longest duration are listed in the order of their first trackable run |
| ReportProperties.SuiteTimesTies | summarize_test_results.py:767-771 | platforms of equal longest span are listed in the order of their first trackable run |
| ReportProperties.SingleBucket | test_summary.py:22-64 | the unit test's scenario generalised: records sharing one branch, version or platform give the single bucket holding all runs and all failures, and a one-row table exactly when something failed |
| OrderedMaps.Put | summarize_test_results.py:212-316 | dict assignment: a new key goes last, an existing key keeps its place |
| OrderedMaps.Incr | summarize_test_results.py:221-316 | `m[k] = 1 + m.get(k, 0)` raises that key's count by one and appends a new key |
| OrderedMaps.IncrSum | summarize_test_results.py:221-316 | each increment adds one to the sum of the counts |
| OrderedMaps.Insert | summarize_test_results.py:228-300 | a dict used as a set gains the element once, keeping its order |
| OrderedMaps.PutIfAbsent | summarize_test_results.py:263-264 | the first value written for a key stays; a new key goes last; other keys, their values and the order are untouched |
| OrderedMaps.AddTo | summarize_test_results.py:224-236 | the key's list gains the value at its end unless already there, a new key goes last, other keys are untouched, and validity and distinctness are kept |
| OrderedMaps.ValidSize | summarize_test_results.py:319-330 | a dict has as many entries as keys |
| Text.Split | summarize_test_results.py:170-176 | `split` gives one more piece than separators, none holding a separator |
| Text.JoinSplit | summarize_test_results.py:170-176 | joining the pieces of a split gives back the string |
| Text.SplitJoin | summarize_test_results.py:170-176 | splitting a join of separator-free pieces gives back the pieces |
| Text.TwoPieces | summarize_test_results.py:170-176 | a timestamp splits into two pieces exactly when it has one dot, around it |
| Text.ReplaceChar | summarize_test_results.py:683-684 | replacing a character removes it and adds only replacement text |
| Text.ReplaceCharLength | summarize_test_results.py:683-684 | the length changes by the replacement's extra length per occurrence of the pattern |
| Text.ReplaceAbsent | summarize_test_results.py:683-684 | replacing an absent character changes nothing |
| Text.ReplaceCharPieces | summarize_test_results.py:683-684 | `replace` of one character maps the pattern to the replacement and keeps every other character, and distributes over concatenation |
| Text.NatToString | summarize_test_results.py:699-703 | an integer renders as digits without a leading zero |
| Text.ParseNatToString | summarize_test_results.py:699-703 | the decimal rendering of a number reads back as that number |

## Left out

- Reading the directory, filtering on `.json` and `json.load` are input: the
  model starts from the parsed documents in listing order. A file that is not
  valid JSON, which the source does not handle, is not modelled.
- `datetime.fromisoformat` is the parameter `clock`; its `ValueError` on a
  malformed timestamp is not modelled (the source does not catch it either).
  Durations are whole seconds, as in the source once the fraction is cut off.
- The report's text is not produced: no PrettyTable layout, headers, titles,
  anchors, index links, job-summary wording, or the `", ".join` of names (rows
  hold the name lists). The model keeps which sections are printed, in which
  order, and the rows of each table.
- The plain-text form of `format_alerts` (`embed=False`) is not modelled; the
  report uses the embedded form only.
- `main` (978-1027): argument parsing, the environment variable that selects
  the output file, and the size check that switches to the abridged report,
  which depends on `os.stat`; both reports are modelled, not the choice.
- Lookups that would raise `KeyError` on a malformed summary read a default
  instead; on summaries built by `compute_test_summary` they never do, which
  `WellFormed` states and `ComputeTestSummary` proves.
- Every field of a document is taken to be its JSON string text
  (`RawArtifact` maps names to strings). A `null` or non-string value, which
  the source does not guard against and which makes it raise (`.split` at
  169 on a non-string `start_time`, `.replace` at 682-684 on a `null` error
  of a counted location), is outside the model; a numeric `error_line` is
  taken as its decimal text, as the f-string at 253 renders it.
- Integers are unbounded, like Python's. `timedelta.seconds` is modelled
  exactly as the duration modulo a day (`DaySeconds`).
- `test_summary.py` is used as a reference scenario (`SingleBucket`), not
  modelled as a test; its concrete file names and timestamps are not replayed.
- Aggregation.Fold: states the totals' bounds only; what every map holds is
  stated by the lemmas of SummaryProperties about `Fold`.

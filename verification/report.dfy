/**
 The decisions the Markdown report makes, as data: which alerts are raised,
 which rows each table holds and in what order, how error text is escaped for
 a table cell, and which sections the full and the abridged report contain.
 Table layout and the exact text around the data are not modelled.
 */
module Report {
  import opened OrderedMaps
  import opened Text
  import opened Durations
  import opened Aggregation
  import opened Sorting

  // ---------------------------------------------------------------- alerts

  /** The bucketings `format_alerts` inspects, in the order it inspects them. */
  datatype AlertMetric = TestAlerts | K8sAlerts | PostgresAlerts | PlatformAlerts

  const AlertMetrics: seq<AlertMetric> := [TestAlerts, K8sAlerts, PostgresAlerts, PlatformAlerts]

  function MetricName(m: AlertMetric): string {
    match m
    case TestAlerts => "Tests"
    case K8sAlerts => "Kubernetes versions"
    case PostgresAlerts => "Postgres versions"
    case PlatformAlerts => "Platforms"
  }

  /** The runs and failures per bucket that a metric reads. */
  function MetricCounts(s: Summary, m: AlertMetric): Buckets {
    match m
    case TestAlerts => Buckets(s.byTest.total, s.byTest.failed)
    case K8sAlerts => s.byK8s
    case PostgresAlerts => s.byPostgres
    case PlatformAlerts => s.byPlatform
  }

  /** Every run failed, and more than one did. */
  predicate IsSystematic(failures: nat, runs: nat) {
    failures == runs && failures > 1
  }

  /** `- {bucket}: ({failures} out of {runs} tests failed)` */
  datatype AlertLine = AlertLine(bucket: string, failures: nat, runs: nat)

  /** `{metric} with systematic failures:` followed by its lines. */
  datatype AlertGroup = AlertGroup(metric: string, lines: seq<AlertLine>)

  /** What `format_alerts` prints: nothing, the all-failed alert, or the systematic failures. */
  datatype Alerts = NoAlerts | AllCombinationsFailed | SystematicFailures(groups: seq<AlertGroup>)

  /** The line `b`'s bucket `l.bucket` deserves: a failed bucket whose every run failed, more than once. */
  ghost predicate SystematicLine(b: Buckets, l: AlertLine) {
    && l.bucket in b.failed.keys
    && l.failures == Get(b.failed, l.bucket, 0)
    && l.runs == Get(b.total, l.bucket, 0)
    && IsSystematic(l.failures, l.runs)
  }

  /** The alert lines of one metric, visiting the failed buckets in insertion order. */
  function AlertLines(keys: seq<string>, b: Buckets): seq<AlertLine> {
    if |keys| == 0 then []
    else
      var k := keys[0];
      var failures := Get(b.failed, k, 0);
      var runs := Get(b.total, k, 0);
      (if IsSystematic(failures, runs) then [AlertLine(k, failures, runs)] else [])
        + AlertLines(keys[1..], b)
  }

  /** One group per metric that has at least one alert line. */
  function AlertGroups(s: Summary, ms: seq<AlertMetric>): seq<AlertGroup> {
    if |ms| == 0 then []
    else
      var b := MetricCounts(s, ms[0]);
      var lines := AlertLines(b.failed.keys, b);
      (if lines == [] then [] else [AlertGroup(MetricName(ms[0]), lines)]) + AlertGroups(s, ms[1..])
  }

  /** `format_alerts` (embedded form). */
  function FormatAlerts(s: Summary): Alerts {
    if s.totalRun == s.totalFailed then AllCombinationsFailed
    else
      var groups := AlertGroups(s, AlertMetrics);
      if groups == [] then NoAlerts else SystematicFailures(groups)
  }

  /** Line `l` appears under metric `m` in the alerts. */
  ghost predicate Alerted(a: Alerts, m: AlertMetric, l: AlertLine) {
    a.SystematicFailures? && exists g :: g in a.groups && g.metric == MetricName(m) && l in g.lines
  }

  /** Exactly the buckets of `keys` that failed systematically get a line, with their counts. */
  lemma {:induction false} AlertLinesExact(keys: seq<string>, b: Buckets, l: AlertLine)
    ensures l in AlertLines(keys, b) <==>
      l.bucket in keys && l.failures == Get(b.failed, l.bucket, 0) && l.runs == Get(b.total, l.bucket, 0)
      && IsSystematic(l.failures, l.runs)
  {
    if |keys| > 0 {
      AlertLinesExact(keys[1..], b, l);
      assert keys == [keys[0]] + keys[1..];
    }
  }

  lemma MetricNameInjective(m: AlertMetric, n: AlertMetric)
    ensures MetricName(m) == MetricName(n) <==> m == n
  {
    if m != n {
      assert |MetricName(m)| != |MetricName(n)|;
    }
  }

  /** A metric's group holds exactly its alert lines; metrics without lines get no group. */
  lemma {:induction false} AlertGroupsExact(s: Summary, ms: seq<AlertMetric>, m: AlertMetric, l: AlertLine)
    ensures (exists g :: g in AlertGroups(s, ms) && g.metric == MetricName(m) && l in g.lines)
        <==> m in ms && l in AlertLines(MetricCounts(s, m).failed.keys, MetricCounts(s, m))
    ensures forall g :: g in AlertGroups(s, ms) ==> g.lines != []
  {
    if |ms| > 0 {
      AlertGroupsExact(s, ms[1..], m, l);
      MetricNameInjective(ms[0], m);
      assert ms == [ms[0]] + ms[1..];
    }
  }

  /**
   When every run failed, that is the only alert (also when nothing ran);
   otherwise a line for bucket `l.bucket` of metric `m` is printed exactly when
   the bucket failed in all of its runs and more than once.
   */
  lemma AlertSelection(s: Summary, m: AlertMetric, l: AlertLine)
    ensures FormatAlerts(s) == AllCombinationsFailed <==> s.totalRun == s.totalFailed
    ensures Alerted(FormatAlerts(s), m, l) <==>
      s.totalRun != s.totalFailed && SystematicLine(MetricCounts(s, m), l)
  {
    var b := MetricCounts(s, m);
    AlertGroupsExact(s, AlertMetrics, m, l);
    AlertLinesExact(b.failed.keys, b, l);
    assert m in AlertMetrics;
  }

  /** The alerts section is left out exactly when some run passed and no bucket failed systematically. */
  lemma AlertsOmitted(s: Summary)
    ensures FormatAlerts(s) == NoAlerts <==>
      s.totalRun != s.totalFailed
      && forall m: AlertMetric, k :: k in MetricCounts(s, m).failed.keys ==>
           !IsSystematic(Get(MetricCounts(s, m).failed, k, 0), Get(MetricCounts(s, m).total, k, 0))
  {
    if s.totalRun != s.totalFailed {
      var groups := AlertGroups(s, AlertMetrics);
      if groups != [] {
        var g := groups[0];
        AlertGroupsExact(s, AlertMetrics, TestAlerts, AlertLine("", 0, 0));
        assert g.lines != [];
        var l := g.lines[0];
        var m :| m in AlertMetrics && MetricName(m) == g.metric by {
          assert g in groups;
          AlertGroupMetric(s, AlertMetrics, g);
        }
        AlertGroupsExact(s, AlertMetrics, m, l);
        var b := MetricCounts(s, m);
        AlertLinesExact(b.failed.keys, b, l);
      } else {
        forall m: AlertMetric, k | k in MetricCounts(s, m).failed.keys
          ensures !IsSystematic(Get(MetricCounts(s, m).failed, k, 0), Get(MetricCounts(s, m).total, k, 0))
        {
          var b := MetricCounts(s, m);
          var l := AlertLine(k, Get(b.failed, k, 0), Get(b.total, k, 0));
          AlertGroupsExact(s, AlertMetrics, m, l);
          AlertLinesExact(b.failed.keys, b, l);
          assert m in AlertMetrics;
        }
      }
    }
  }

  /** Every group is named after one of the inspected metrics. */
  lemma {:induction false} AlertGroupMetric(s: Summary, ms: seq<AlertMetric>, g: AlertGroup)
    requires g in AlertGroups(s, ms)
    ensures exists m :: m in ms && MetricName(m) == g.metric
  {
    var b := MetricCounts(s, ms[0]);
    var lines := AlertLines(b.failed.keys, b);
    if lines != [] && g == AlertGroup(MetricName(ms[0]), lines) {
      assert ms[0] in ms;
    } else {
      AlertGroupMetric(s, ms[1..], g);
      var m :| m in ms[1..] && MetricName(m) == g.metric;
      assert m in ms;
    }
  }

  // ---------------------------------------------------------------- tables

  /** A counter dictionary as the value function its items are sorted by. */
  function CountOf(m: OMap<nat>): Value {
    k => Get(m, k, 0)
  }

  /** `[failed, total, bucket]` of `format_bucket_table`. */
  datatype BucketRow = BucketRow(failed: nat, total: nat, bucket: string)

  /** `format_bucket_table`: one row per failed bucket, most failures first. */
  function BucketRows(b: Buckets): seq<BucketRow> {
    var ks := SortDesc(b.failed.keys, CountOf(b.failed));
    seq(|ks|, i requires 0 <= i < |ks| => BucketRow(Get(b.failed, ks[i], 0), Get(b.total, ks[i], 0), ks[i]))
  }

  /** `[failed, total, failed K8s, failed PG, failed platforms, test]` of `format_by_test`. */
  datatype TestRow = TestRow(
    failed: nat, total: nat, k8s: seq<string>, pg: seq<string>, platforms: seq<string>, test: string)

  /** `format_by_test`: one row per test that failed, most failures first. */
  function TestRows(b: ByTest): seq<TestRow> {
    var ks := SortDesc(b.failed.keys, CountOf(b.failed));
    seq(|ks|, i requires 0 <= i < |ks| =>
      TestRow(Get(b.failed, ks[i], 0), Get(b.total, ks[i], 0),
        Get(b.k8sFailed, ks[i], []), Get(b.pgFailed, ks[i], []), Get(b.platformsFailed, ks[i], []), ks[i]))
  }

  /** `[count, failure, failed tests, failed K8s, failed PG, failed platforms]` of `format_by_special_failure`. */
  datatype SpecialRow = SpecialRow(
    count: nat, failure: string, tests: seq<string>, k8s: seq<string>, pg: seq<string>, platforms: seq<string>)

  /** `format_by_special_failure`: one row per special-failure label, most frequent first. */
  function SpecialRows(b: BySpecial): seq<SpecialRow> {
    var ks := SortDesc(b.total.keys, CountOf(b.total));
    seq(|ks|, i requires 0 <= i < |ks| =>
      SpecialRow(Get(b.total, ks[i], 0), ks[i], Get(b.testsFailed, ks[i], []),
        Get(b.k8sFailed, ks[i], []), Get(b.pgFailed, ks[i], []), Get(b.platformsFailed, ks[i], [])))
  }

  /** `[count, location, tests, error cell]` of `format_by_code`. */
  datatype CodeRow = CodeRow(count: nat, location: string, tests: seq<string>, errorCell: string)

  /** The em dash that stands in for a pipe in error text. */
  const EmDash: char := '\U{2014}'

  /**
   Newlines become `<br />` and pipes become an em dash, so that an error
   message cannot break a Markdown table row. Text with neither is kept as is.
   */
  function EscapeErrorText(e: string): (r: string)
    ensures CellSafe(r)
    ensures |r| == |e| + 5 * Occurrences(e, '\n')
    ensures '\n' !in e && '|' !in e ==> r == e
  {
    var noNewlines := ReplaceChar(e, '\n', "<br />");
    var r := ReplaceChar(noNewlines, '|', [EmDash]);
    ReplaceCharLength(e, '\n', "<br />");
    ReplaceCharLength(noNewlines, '|', [EmDash]);
    if '\n' !in e && '|' !in e then
      ReplaceAbsent(e, '\n', "<br />");
      ReplaceAbsent(noNewlines, '|', [EmDash]);
      r
    else r
  }

  /**
   The escaping works one character at a time: a newline becomes `<br />`, a
   pipe becomes an em dash, any other character stays, and escaping a
   concatenation escapes each part.
   */
  lemma EscapePieces(a: string, b: string)
    ensures forall x :: EscapeErrorText([x]) == if x == '\n' then "<br />" else if x == '|' then [EmDash] else [x]
    ensures EscapeErrorText(a + b) == EscapeErrorText(a) + EscapeErrorText(b)
  {
    ReplaceCharPieces(a, b, '\n', "<br />");
    var na, nb := ReplaceChar(a, '\n', "<br />"), ReplaceChar(b, '\n', "<br />");
    ReplaceCharPieces(na, nb, '|', [EmDash]);
    forall x ensures EscapeErrorText([x]) == if x == '\n' then "<br />" else if x == '|' then [EmDash] else [x] {
      ReplaceCharPieces([x], [], '\n', "<br />");
      ReplaceCharPieces([x], [], '|', [EmDash]);
      if x == '\n' {
        ReplaceAbsent("<br />", '|', [EmDash]);
      }
    }
  }

  /** Text that cannot break a Markdown table row. */
  predicate CellSafe(s: string) {
    '\n' !in s && '|' !in s
  }

  /** `<details><summary>Click to expand</summary><span>` */
  const CellOpening: string := "<details>" + "<summary>" + "Click to" + " expand" + "</summary>" + "<span>"
  /** `</span></details>` */
  const CellClosing: string := "</span>" + "</details>"

  lemma OpeningSafe()
    ensures CellSafe(CellOpening)
  {
    assert CellSafe("<details>") && CellSafe("<summary>") && CellSafe("Click to");
    assert CellSafe(" expand") && CellSafe("</summary>") && CellSafe("<span>");
  }

  lemma ClosingSafe()
    ensures CellSafe(CellClosing)
  {
    assert CellSafe("</span>") && CellSafe("</details>");
  }

  /** The collapsible error cell; like the escaped text it holds no newline and no pipe. */
  function ErrorCell(e: string): (cell: string)
    ensures CellSafe(cell)
  {
    OpeningSafe();
    ClosingSafe();
    CellOpening + EscapeErrorText(e) + CellClosing
  }

  /** `format_by_code`: one row per failing code location, most failures first. */
  function CodeRows(b: ByCode): seq<CodeRow> {
    var ks := SortDesc(b.total.keys, CountOf(b.total));
    seq(|ks|, i requires 0 <= i < |ks| =>
      CodeRow(Get(b.total, ks[i], 0), ks[i], Get(b.tests, ks[i], []), ErrorCell(Get(b.errors, ks[i], ""))))
  }

  /** `[longest, shortest, slowest branch, name]` of the two timing tables. */
  datatype DurationRow = DurationRow(longest: string, shortest: string, branch: string, name: string)

  /** The extremes recorded for `k`. */
  function ExtremesOf(t: OMap<Extremes>, k: string): Extremes {
    if k in t.vals then t.vals[k] else Extremes(0, 0, "")
  }

  /** A durations dictionary as the value function its items are sorted by: the longest duration. */
  function MaxOf(t: OMap<Extremes>): Value {
    k => ExtremesOf(t, k).max
  }

  /** `format_durations_table`: one row per name, longest duration first. */
  function DurationRows(t: OMap<Extremes>): seq<DurationRow> {
    var ks := SortDesc(t.keys, MaxOf(t));
    seq(|ks|, i requires 0 <= i < |ks| =>
      var e := ExtremesOf(t, ks[i]);
      DurationRow(FormatDuration(e.max), FormatDuration(e.min), e.slowest, ks[i]))
  }

  /** `format_suite_durations_table`: the per-platform reduction of the suite spans, longest first. */
  function SuiteRows(suites: OMap<OMap<Span>>): seq<DurationRow> {
    DurationRows(ReduceSuiteDurations(suites.keys, suites.vals))
  }

  // ---------------------------------------------------------------- table properties

  function BucketColumn(rows: seq<BucketRow>): (ks: seq<string>)
    ensures |ks| == |rows| && forall i :: 0 <= i < |rows| ==> ks[i] == rows[i].bucket
  {
    seq(|rows|, i requires 0 <= i < |rows| => rows[i].bucket)
  }

  /** Row `i` of a bucket table describes the `i`-th bucket in sorted order. */
  lemma BucketRowsShape(b: Buckets)
    ensures var rows := BucketRows(b);
      && BucketColumn(rows) == SortDesc(b.failed.keys, CountOf(b.failed))
      && forall i :: 0 <= i < |rows| ==>
           rows[i].failed == Get(b.failed, rows[i].bucket, 0) && rows[i].total == Get(b.total, rows[i].bucket, 0)
  {
  }

  lemma BucketRowsCover(b: Buckets)
    requires BucketsOk(b)
    ensures var rows := BucketRows(b);
      && |rows| == |b.failed.keys|
      && (forall k :: k in BucketColumn(rows) <==> k in b.failed.vals)
      && (forall i :: 0 <= i < |rows| ==>
            rows[i].failed == Get(b.failed, rows[i].bucket, 0) && rows[i].total == Get(b.total, rows[i].bucket, 0)
            && rows[i].failed <= rows[i].total)
  {
    var rows := BucketRows(b);
    BucketRowsShape(b);
    SortDescKeys(b.failed.keys, CountOf(b.failed));
    forall i | 0 <= i < |rows| ensures rows[i].failed <= rows[i].total {
      assert rows[i].bucket in BucketColumn(rows);
    }
  }

  lemma BucketRowsOrder(b: Buckets)
    ensures var rows := BucketRows(b);
      && (forall i, j :: 0 <= i < j < |rows| ==> rows[i].failed >= rows[j].failed)
      && (forall v :: WithValue(BucketColumn(rows), CountOf(b.failed), v) == WithValue(b.failed.keys, CountOf(b.failed), v))
  {
    var value := CountOf(b.failed);
    var rows := BucketRows(b);
    BucketRowsShape(b);
    SortDescKeys(b.failed.keys, value);
    var ks := BucketColumn(rows);
    forall i, j | 0 <= i < j < |rows| ensures rows[i].failed >= rows[j].failed {
      assert value(ks[i]) >= value(ks[j]);
    }
  }

  /**
   A bucket table has one row per failed bucket, with that bucket's failures
   and runs, most failures first and ties in the order the buckets first failed.
   */
  lemma BucketRowsOrdered(b: Buckets)
    requires BucketsOk(b)
    ensures var rows := BucketRows(b);
      && |rows| == |b.failed.keys|
      && (forall k :: k in BucketColumn(rows) <==> k in b.failed.vals)
      && (forall i :: 0 <= i < |rows| ==>
            rows[i].failed == Get(b.failed, rows[i].bucket, 0) && rows[i].total == Get(b.total, rows[i].bucket, 0)
            && rows[i].failed <= rows[i].total)
      && (forall i, j :: 0 <= i < j < |rows| ==> rows[i].failed >= rows[j].failed)
      && (forall v :: WithValue(BucketColumn(rows), CountOf(b.failed), v) == WithValue(b.failed.keys, CountOf(b.failed), v))
  {
    BucketRowsCover(b);
    BucketRowsOrder(b);
  }

  function TestColumn(rows: seq<TestRow>): (ks: seq<string>)
    ensures |ks| == |rows| && forall i :: 0 <= i < |rows| ==> ks[i] == rows[i].test
  {
    seq(|rows|, i requires 0 <= i < |rows| => rows[i].test)
  }

  lemma TestRowsShape(b: ByTest)
    ensures var rows := TestRows(b);
      && TestColumn(rows) == SortDesc(b.failed.keys, CountOf(b.failed))
      && forall i :: 0 <= i < |rows| ==> rows[i].failed == Get(b.failed, rows[i].test, 0) && rows[i].total == Get(b.total, rows[i].test, 0) && rows[i].k8s == Get(b.k8sFailed, rows[i].test, []) && rows[i].pg == Get(b.pgFailed, rows[i].test, []) && rows[i].platforms == Get(b.platformsFailed, rows[i].test, [])
  {
  }

  lemma TestRowsOrder(b: ByTest)
    ensures var rows := TestRows(b);
      && (forall i, j :: 0 <= i < j < |rows| ==> rows[i].failed >= rows[j].failed)
      && (forall v :: WithValue(TestColumn(rows), CountOf(b.failed), v) == WithValue(b.failed.keys, CountOf(b.failed), v))
  {
    var value := CountOf(b.failed);
    var rows := TestRows(b);
    TestRowsShape(b);
    SortDescKeys(b.failed.keys, value);
    var ks := TestColumn(rows);
    forall i, j | 0 <= i < j < |rows| ensures rows[i].failed >= rows[j].failed {
      assert value(ks[i]) >= value(ks[j]);
    }
  }

  /**
   The failures-by-test table has one row per test that failed, with its failures,
   runs and where it failed, most failures first and ties in first-failure order.
   */
  lemma TestRowsOrdered(b: ByTest)
    requires ByTestOk(b)
    ensures var rows := TestRows(b);
      && |rows| == |b.failed.keys|
      && (forall k :: k in TestColumn(rows) <==> k in b.failed.vals)
      && (forall i :: 0 <= i < |rows| ==> rows[i].failed == Get(b.failed, rows[i].test, 0) && rows[i].total == Get(b.total, rows[i].test, 0) && rows[i].k8s == Get(b.k8sFailed, rows[i].test, []) && rows[i].pg == Get(b.pgFailed, rows[i].test, []) && rows[i].platforms == Get(b.platformsFailed, rows[i].test, []))
      && (forall i, j :: 0 <= i < j < |rows| ==> rows[i].failed >= rows[j].failed)
      && (forall v :: WithValue(TestColumn(rows), CountOf(b.failed), v) == WithValue(b.failed.keys, CountOf(b.failed), v))
  {
    TestRowsShape(b);
    SortDescKeys(b.failed.keys, CountOf(b.failed));
    TestRowsOrder(b);
  }

  function SpecialColumn(rows: seq<SpecialRow>): (ks: seq<string>)
    ensures |ks| == |rows| && forall i :: 0 <= i < |rows| ==> ks[i] == rows[i].failure
  {
    seq(|rows|, i requires 0 <= i < |rows| => rows[i].failure)
  }

  lemma SpecialRowsShape(b: BySpecial)
    ensures var rows := SpecialRows(b);
      && SpecialColumn(rows) == SortDesc(b.total.keys, CountOf(b.total))
      && forall i :: 0 <= i < |rows| ==> rows[i].count == Get(b.total, rows[i].failure, 0) && rows[i].tests == Get(b.testsFailed, rows[i].failure, []) && rows[i].k8s == Get(b.k8sFailed, rows[i].failure, []) && rows[i].pg == Get(b.pgFailed, rows[i].failure, []) && rows[i].platforms == Get(b.platformsFailed, rows[i].failure, [])
  {
  }

  lemma SpecialRowsOrder(b: BySpecial)
    ensures var rows := SpecialRows(b);
      && (forall i, j :: 0 <= i < j < |rows| ==> rows[i].count >= rows[j].count)
      && (forall v :: WithValue(SpecialColumn(rows), CountOf(b.total), v) == WithValue(b.total.keys, CountOf(b.total), v))
  {
    var value := CountOf(b.total);
    var rows := SpecialRows(b);
    SpecialRowsShape(b);
    SortDescKeys(b.total.keys, value);
    var ks := SpecialColumn(rows);
    forall i, j | 0 <= i < j < |rows| ensures rows[i].count >= rows[j].count {
      assert value(ks[i]) >= value(ks[j]);
    }
  }

  /**
   The special-failures table has one row per special-failure label, with its
   count and where it struck, most frequent first and ties in first-seen order.
   */
  lemma SpecialRowsOrdered(b: BySpecial)
    requires BySpecialOk(b)
    ensures var rows := SpecialRows(b);
      && |rows| == |b.total.keys|
      && (forall k :: k in SpecialColumn(rows) <==> k in b.total.vals)
      && (forall i :: 0 <= i < |rows| ==> rows[i].count == Get(b.total, rows[i].failure, 0) && rows[i].tests == Get(b.testsFailed, rows[i].failure, []) && rows[i].k8s == Get(b.k8sFailed, rows[i].failure, []) && rows[i].pg == Get(b.pgFailed, rows[i].failure, []) && rows[i].platforms == Get(b.platformsFailed, rows[i].failure, []))
      && (forall i, j :: 0 <= i < j < |rows| ==> rows[i].count >= rows[j].count)
      && (forall v :: WithValue(SpecialColumn(rows), CountOf(b.total), v) == WithValue(b.total.keys, CountOf(b.total), v))
  {
    SpecialRowsShape(b);
    SortDescKeys(b.total.keys, CountOf(b.total));
    SpecialRowsOrder(b);
  }

  function CodeColumn(rows: seq<CodeRow>): (ks: seq<string>)
    ensures |ks| == |rows| && forall i :: 0 <= i < |rows| ==> ks[i] == rows[i].location
  {
    seq(|rows|, i requires 0 <= i < |rows| => rows[i].location)
  }

  lemma CodeRowsShape(b: ByCode)
    ensures var rows := CodeRows(b);
      && CodeColumn(rows) == SortDesc(b.total.keys, CountOf(b.total))
      && forall i :: 0 <= i < |rows| ==> rows[i].count == Get(b.total, rows[i].location, 0) && rows[i].tests == Get(b.tests, rows[i].location, []) && rows[i].errorCell == ErrorCell(Get(b.errors, rows[i].location, "")) && CellSafe(rows[i].errorCell)
  {
  }

  lemma CodeRowsOrder(b: ByCode)
    ensures var rows := CodeRows(b);
      && (forall i, j :: 0 <= i < j < |rows| ==> rows[i].count >= rows[j].count)
      && (forall v :: WithValue(CodeColumn(rows), CountOf(b.total), v) == WithValue(b.total.keys, CountOf(b.total), v))
  {
    var value := CountOf(b.total);
    var rows := CodeRows(b);
    CodeRowsShape(b);
    SortDescKeys(b.total.keys, value);
    var ks := CodeColumn(rows);
    forall i, j | 0 <= i < j < |rows| ensures rows[i].count >= rows[j].count {
      assert value(ks[i]) >= value(ks[j]);
    }
  }

  /**
   The failures-by-code table has one row per failing code location, with its
   count, its tests and its escaped error text, most failures first and ties in
   first-seen order.
   */
  lemma CodeRowsOrdered(b: ByCode)
    requires ByCodeOk(b)
    ensures var rows := CodeRows(b);
      && |rows| == |b.total.keys|
      && (forall k :: k in CodeColumn(rows) <==> k in b.total.vals)
      && (forall i :: 0 <= i < |rows| ==> rows[i].count == Get(b.total, rows[i].location, 0) && rows[i].tests == Get(b.tests, rows[i].location, []) && rows[i].errorCell == ErrorCell(Get(b.errors, rows[i].location, "")) && CellSafe(rows[i].errorCell))
      && (forall i, j :: 0 <= i < j < |rows| ==> rows[i].count >= rows[j].count)
      && (forall v :: WithValue(CodeColumn(rows), CountOf(b.total), v) == WithValue(b.total.keys, CountOf(b.total), v))
  {
    CodeRowsShape(b);
    SortDescKeys(b.total.keys, CountOf(b.total));
    CodeRowsOrder(b);
  }

  function DurationColumn(rows: seq<DurationRow>): (ks: seq<string>)
    ensures |ks| == |rows| && forall i :: 0 <= i < |rows| ==> ks[i] == rows[i].name
  {
    seq(|rows|, i requires 0 <= i < |rows| => rows[i].name)
  }

  lemma DurationRowsShape(t: OMap<Extremes>)
    ensures var rows := DurationRows(t);
      && DurationColumn(rows) == SortDesc(t.keys, MaxOf(t))
      && forall i :: 0 <= i < |rows| ==> rows[i].longest == FormatDuration(ExtremesOf(t, rows[i].name).max) && rows[i].shortest == FormatDuration(ExtremesOf(t, rows[i].name).min) && rows[i].branch == ExtremesOf(t, rows[i].name).slowest
  {
  }

  lemma DurationRowsOrder(t: OMap<Extremes>)
    ensures var rows := DurationRows(t);
      && (forall i, j :: 0 <= i < j < |rows| ==> ExtremesOf(t, rows[i].name).max >= ExtremesOf(t, rows[j].name).max)
      && (forall v :: WithValue(DurationColumn(rows), MaxOf(t), v) == WithValue(t.keys, MaxOf(t), v))
  {
    var value := MaxOf(t);
    var rows := DurationRows(t);
    DurationRowsShape(t);
    SortDescKeys(t.keys, value);
    var ks := DurationColumn(rows);
    forall i, j | 0 <= i < j < |rows| ensures ExtremesOf(t, rows[i].name).max >= ExtremesOf(t, rows[j].name).max {
      assert value(ks[i]) >= value(ks[j]);
      assert ks[i] == rows[i].name && ks[j] == rows[j].name;
      assert value(ks[i]) == ExtremesOf(t, ks[i]).max && value(ks[j]) == ExtremesOf(t, ks[j]).max;
    }
  }

  /**
   A timing table has one row per name, with its longest and shortest duration
   and slowest branch, longest first and ties in first-seen order.
   */
  lemma DurationRowsOrdered(t: OMap<Extremes>)
    requires Valid(t)
    ensures var rows := DurationRows(t);
      && |rows| == |t.keys|
      && (forall k :: k in DurationColumn(rows) <==> k in t.vals)
      && (forall i :: 0 <= i < |rows| ==> rows[i].longest == FormatDuration(ExtremesOf(t, rows[i].name).max) && rows[i].shortest == FormatDuration(ExtremesOf(t, rows[i].name).min) && rows[i].branch == ExtremesOf(t, rows[i].name).slowest)
      && (forall i, j :: 0 <= i < j < |rows| ==> ExtremesOf(t, rows[i].name).max >= ExtremesOf(t, rows[j].name).max)
      && (forall v :: WithValue(DurationColumn(rows), MaxOf(t), v) == WithValue(t.keys, MaxOf(t), v))
  {
    DurationRowsShape(t);
    SortDescKeys(t.keys, MaxOf(t));
    DurationRowsOrder(t);
  }

  // ---------------------------------------------------------------- overview and sections

  /** `[failed, out of, label]` of `format_overview`. */
  datatype OverviewRow = OverviewRow(failed: nat, outOf: nat, what: string)

  /** The six rows of the overview table, in the order `format_test_summary` lists them. */
  function OverviewRows(o: Overview): seq<OverviewRow> {
    [ OverviewRow(o.totalFailed, o.totalRun, "test combinations"),
      OverviewRow(o.uniqueFailed, o.uniqueRun, "unique tests"),
      OverviewRow(o.matrixFailed, o.matrixRun, "matrix branches"),
      OverviewRow(o.k8sFailed, o.k8sRun, "k8s versions"),
      OverviewRow(o.postgresFailed, o.postgresRun, "postgres versions"),
      OverviewRow(o.platformFailed, o.platformRun, "platforms") ]
  }

  /** Given that no more runs failed than ran, no overview row shows more failures than its total. */
  lemma OverviewRowsBounded(s: Summary)
    requires WellFormed(s) && s.totalFailed <= s.totalRun
    ensures forall row :: row in OverviewRows(CompileOverview(s)) ==> row.failed <= row.outOf
  {
    var o := CompileOverview(s);
    assert o.uniqueFailed <= o.uniqueRun && o.k8sFailed <= o.k8sRun && o.postgresFailed <= o.postgresRun;
    assert o.matrixFailed <= o.matrixRun && o.platformFailed <= o.platformRun;
    OverviewBounded(o);
  }

  lemma OverviewBounded(o: Overview)
    requires o.totalFailed <= o.totalRun && o.uniqueFailed <= o.uniqueRun && o.matrixFailed <= o.matrixRun
    requires o.k8sFailed <= o.k8sRun && o.postgresFailed <= o.postgresRun && o.platformFailed <= o.platformRun
    ensures forall row :: row in OverviewRows(o) ==> row.failed <= row.outOf
  {
  }

  /** The parts of the Markdown report. */
  datatype Section =
    | Notice
    | AbridgedNotice
    | Index
    | AlertsSection(alerts: Alerts)
    | OverviewTable(overview: seq<OverviewRow>)
    | NoFailures
    | SpecialTable(specialRows: seq<SpecialRow>)
    | ByTestTable(testRows: seq<TestRow>)
    | ByCodeTable(codeRows: seq<CodeRow>)
    | BucketTable(dim: Dim, bucketRows: seq<BucketRow>)
    | SuiteTimes(suiteRows: seq<DurationRow>)
    | TestTimes(timeRows: seq<DurationRow>)

  /** Which part a section is, without its contents. */
  datatype Kind =
    | NoticeKind | AbridgedNoticeKind | IndexKind | AlertsKind | OverviewKind | NoFailuresKind
    | SpecialKind | ByTestKind | ByCodeKind | BucketKind(d: Dim) | SuiteTimesKind | TestTimesKind

  /** `format_test_failures`: the special-failure table only when some record counted as special. */
  function FailurePlan(specialFails: nat): seq<Kind> {
    (if specialFails > 0 then [SpecialKind] else [])
    + [ByTestKind, ByCodeKind, BucketKind(ByMatrix), BucketKind(ByK8s), BucketKind(ByPostgres), BucketKind(ByPlatform)]
  }

  /** The parts `format_test_summary` prints, in order. */
  function FullPlan(failed: nat, specialFails: nat, alerts: bool): seq<Kind> {
    [NoticeKind]
    + (if failed != 0 then [IndexKind] else [])
    + (if alerts then [AlertsKind] else [])
    + [OverviewKind]
    + (if failed == 0 then [NoFailuresKind] else FailurePlan(specialFails))
    + [SuiteTimesKind, TestTimesKind]
  }

  /** The parts `format_short_test_summary` prints, in order. */
  function ShortPlan(alerts: bool): seq<Kind> {
    [AbridgedNoticeKind] + (if alerts then [AlertsKind] else []) + [OverviewKind]
  }

  /** The contents of one part of the report. */
  function Render(s: Summary, k: Kind): Section
  {
    match k
    case NoticeKind => Notice
    case AbridgedNoticeKind => AbridgedNotice
    case IndexKind => Index
    case AlertsKind => AlertsSection(FormatAlerts(s))
    case OverviewKind => OverviewTable(OverviewRows(CompileOverview(s)))
    case NoFailuresKind => NoFailures
    case SpecialKind => SpecialTable(SpecialRows(s.bySpecial))
    case ByTestKind => ByTestTable(TestRows(s.byTest))
    case ByCodeKind => ByCodeTable(CodeRows(s.byCode))
    case BucketKind(d) => BucketTable(d, BucketRows(s.Dimension(d)))
    case SuiteTimesKind => SuiteTimes(SuiteRows(s.timings.suites))
    case TestTimesKind => TestTimes(DurationRows(s.timings.tests))
  }

  /**
   A report: the parts it prints, in order, and the summary they are rendered
   from. Part `i` reads `Render(summary, plan[i])`.
   */
  datatype Document = Document(plan: seq<Kind>, summary: Summary) {
    function Sections(): (xs: seq<Section>)
      ensures |xs| == |plan|
    {
      seq(|plan|, i requires 0 <= i < |plan| => Render(summary, plan[i]))
    }
  }

  /** `format_test_summary`. */
  function FormatTestSummary(s: Summary): Document {
    Document(FullPlan(s.totalFailed, s.totalSpecialFails, FormatAlerts(s) != NoAlerts), s)
  }

  /** `format_short_test_summary`: the fallback when the full report is too large. */
  function FormatShortTestSummary(s: Summary): Document {
    Document(ShortPlan(FormatAlerts(s) != NoAlerts), s)
  }

  /**
   The index and the failure tables appear exactly when something failed, the
   "no failures" sentence exactly when nothing did, the special-failure table
   only when additionally some record counted as special, the alerts exactly
   when `format_alerts` has something to say; the timing tables always close
   the report.
   */
  lemma SectionSelection(s: Summary)
    ensures var ks := FormatTestSummary(s).plan;
      && (IndexKind in ks <==> s.totalFailed != 0)
      && (NoFailuresKind in ks <==> s.totalFailed == 0)
      && (SpecialKind in ks <==> s.totalFailed != 0 && s.totalSpecialFails > 0)
      && (ByTestKind in ks <==> s.totalFailed != 0)
      && (ByCodeKind in ks <==> s.totalFailed != 0)
      && (forall d :: BucketKind(d) in ks <==> s.totalFailed != 0)
      && (AlertsKind in ks <==> FormatAlerts(s) != NoAlerts)
      && ks[0] == NoticeKind && ks[|ks| - 2] == SuiteTimesKind && ks[|ks| - 1] == TestTimesKind
  {
    PlanSelection(s.totalFailed, s.totalSpecialFails, FormatAlerts(s) != NoAlerts);
  }

  /** Membership in the failure tables' plan. */
  lemma FailurePlanHas(specialFails: nat, k: Kind)
    ensures k in FailurePlan(specialFails) <==>
      (k == SpecialKind && specialFails > 0) || k == ByTestKind || k == ByCodeKind || k.BucketKind?
  {
    var tail := [ByTestKind, ByCodeKind, BucketKind(ByMatrix), BucketKind(ByK8s), BucketKind(ByPostgres), BucketKind(ByPlatform)];
    assert FailurePlan(specialFails) == (if specialFails > 0 then [SpecialKind] else []) + tail;
    if k.BucketKind? {
      match k.d
      case ByMatrix => assert tail[2] == k;
      case ByK8s => assert tail[3] == k;
      case ByPostgres => assert tail[4] == k;
      case ByPlatform => assert tail[5] == k;
    }
  }

  /** Membership in the full plan, one level deep. */
  lemma FullPlanHas(failed: nat, specialFails: nat, alerts: bool, k: Kind)
    ensures k in FullPlan(failed, specialFails, alerts) <==>
      || k == NoticeKind || k == OverviewKind || k == SuiteTimesKind || k == TestTimesKind
      || (k == IndexKind && failed != 0)
      || (k == AlertsKind && alerts)
      || (k == NoFailuresKind && failed == 0)
      || (failed != 0 && k in FailurePlan(specialFails))
  {
  }

  /** Exactly which parts the full plan holds. */
  lemma PlanHas(failed: nat, specialFails: nat, alerts: bool, k: Kind)
    ensures k in FullPlan(failed, specialFails, alerts) <==>
      || k == NoticeKind || k == OverviewKind || k == SuiteTimesKind || k == TestTimesKind
      || (k == IndexKind && failed != 0)
      || (k == AlertsKind && alerts)
      || (k == NoFailuresKind && failed == 0)
      || (failed != 0 && ((k == SpecialKind && specialFails > 0) || k == ByTestKind || k == ByCodeKind || k.BucketKind?))
  {
    FullPlanHas(failed, specialFails, alerts, k);
    FailurePlanHas(specialFails, k);
  }

  /** The notice opens the report and the two timing tables close it. */
  lemma PlanEnds(failed: nat, specialFails: nat, alerts: bool)
    ensures var ks := FullPlan(failed, specialFails, alerts);
      && |ks| >= 4 && ks[0] == NoticeKind && ks[|ks| - 2] == SuiteTimesKind && ks[|ks| - 1] == TestTimesKind
  {
    var front := [NoticeKind]
      + (if failed != 0 then [IndexKind] else [])
      + (if alerts then [AlertsKind] else [])
      + [OverviewKind]
      + (if failed == 0 then [NoFailuresKind] else FailurePlan(specialFails));
    assert FullPlan(failed, specialFails, alerts) == front + [SuiteTimesKind, TestTimesKind];
  }

  lemma IndexPlanned(failed: nat, specialFails: nat, alerts: bool)
    ensures IndexKind in FullPlan(failed, specialFails, alerts) <==> failed != 0
  {
    PlanHas(failed, specialFails, alerts, IndexKind);
  }

  lemma NoFailuresPlanned(failed: nat, specialFails: nat, alerts: bool)
    ensures NoFailuresKind in FullPlan(failed, specialFails, alerts) <==> failed == 0
  {
    PlanHas(failed, specialFails, alerts, NoFailuresKind);
  }

  lemma SpecialPlanned(failed: nat, specialFails: nat, alerts: bool)
    ensures SpecialKind in FullPlan(failed, specialFails, alerts) <==> failed != 0 && specialFails > 0
  {
    PlanHas(failed, specialFails, alerts, SpecialKind);
  }

  lemma ByTestPlanned(failed: nat, specialFails: nat, alerts: bool)
    ensures ByTestKind in FullPlan(failed, specialFails, alerts) <==> failed != 0
  {
    PlanHas(failed, specialFails, alerts, ByTestKind);
  }

  lemma ByCodePlanned(failed: nat, specialFails: nat, alerts: bool)
    ensures ByCodeKind in FullPlan(failed, specialFails, alerts) <==> failed != 0
  {
    PlanHas(failed, specialFails, alerts, ByCodeKind);
  }

  lemma BucketPlanned(failed: nat, specialFails: nat, alerts: bool, d: Dim)
    ensures BucketKind(d) in FullPlan(failed, specialFails, alerts) <==> failed != 0
  {
    PlanHas(failed, specialFails, alerts, BucketKind(d));
  }

  lemma AlertsPlanned(failed: nat, specialFails: nat, alerts: bool)
    ensures AlertsKind in FullPlan(failed, specialFails, alerts) <==> alerts
  {
    PlanHas(failed, specialFails, alerts, AlertsKind);
  }

  lemma PlanSelection(failed: nat, specialFails: nat, alerts: bool)
    ensures var ks := FullPlan(failed, specialFails, alerts);
      && (IndexKind in ks <==> failed != 0)
      && (NoFailuresKind in ks <==> failed == 0)
      && (SpecialKind in ks <==> failed != 0 && specialFails > 0)
      && (ByTestKind in ks <==> failed != 0)
      && (ByCodeKind in ks <==> failed != 0)
      && (forall d :: BucketKind(d) in ks <==> failed != 0)
      && (AlertsKind in ks <==> alerts)
      && |ks| >= 4 && ks[0] == NoticeKind && ks[|ks| - 2] == SuiteTimesKind && ks[|ks| - 1] == TestTimesKind
  {
    IndexPlanned(failed, specialFails, alerts);
    NoFailuresPlanned(failed, specialFails, alerts);
    SpecialPlanned(failed, specialFails, alerts);
    ByTestPlanned(failed, specialFails, alerts);
    ByCodePlanned(failed, specialFails, alerts);
    AlertsPlanned(failed, specialFails, alerts);
    forall d ensures BucketKind(d) in FullPlan(failed, specialFails, alerts) <==> failed != 0 {
      BucketPlanned(failed, specialFails, alerts, d);
    }
    PlanEnds(failed, specialFails, alerts);
  }

  /** The kinds of section the abridged report keeps. */
  predicate Kept(k: Kind) {
    k == AlertsKind || k == OverviewKind
  }

  /** Membership in the short plan past its notice. */
  lemma ShortPlanHas(alerts: bool, k: Kind)
    ensures |ShortPlan(alerts)| >= 2 && ShortPlan(alerts)[0] == AbridgedNoticeKind
    ensures k in ShortPlan(alerts)[1..] <==> k == OverviewKind || (k == AlertsKind && alerts)
  {
    assert ShortPlan(alerts)[1..] == (if alerts then [AlertsKind] else []) + [OverviewKind];
  }

  /** Past its notice, the short plan is the kept part of the full plan. */
  lemma ShortPlanKept(failed: nat, specialFails: nat, alerts: bool)
    ensures var short := ShortPlan(alerts);
      && |short| >= 2 && short[0] == AbridgedNoticeKind
      && (forall k :: k in short[1..] <==> k in FullPlan(failed, specialFails, alerts) && Kept(k))
  {
    ShortPlanHas(alerts, OverviewKind);
    forall k ensures k in ShortPlan(alerts)[1..] <==> k in FullPlan(failed, specialFails, alerts) && Kept(k) {
      ShortPlanHas(alerts, k);
      PlanHas(failed, specialFails, alerts, k);
    }
  }

  /**
   The abridged report is the full report's alerts and overview under its own
   notice: it renders the same summary, and past its notice it holds exactly
   the alerts and overview parts of the full report.
   */
  lemma ShortSummaryAbridges(s: Summary)
    ensures var short := FormatShortTestSummary(s);
      && short.summary == FormatTestSummary(s).summary
      && |short.plan| >= 2 && short.plan[0] == AbridgedNoticeKind
      && (forall k :: k in short.plan[1..] <==> k in FormatTestSummary(s).plan && Kept(k))
  {
    ShortPlanKept(s.totalFailed, s.totalSpecialFails, FormatAlerts(s) != NoAlerts);
  }
}

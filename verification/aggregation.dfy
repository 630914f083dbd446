/**
 The single pass of `compute_test_summary`: each valid record is folded into
 the counters, bucket maps and duration tables, and the bucket maps are later
 reduced to failed/total pairs for the overview.
 */
module Aggregation {
  import opened Wrappers
  import opened OrderedMaps
  import opened Records
  import opened Classifier
  import opened Durations

  /** `{"total": {...}, "failed": {...}}`: runs and failed runs per bucket value. */
  datatype Buckets = Buckets(total: OMap<nat>, failed: OMap<nat>)

  /** `by_test`: runs per test name, failures per test name and where they failed. */
  datatype ByTest = ByTest(
    total: OMap<nat>, failed: OMap<nat>,
    k8sFailed: OMap<seq<string>>, pgFailed: OMap<seq<string>>, platformsFailed: OMap<seq<string>>)

  /** `by_code`: normal failures per failing code location, their tests and first error text. */
  datatype ByCode = ByCode(total: OMap<nat>, tests: OMap<seq<string>>, errors: OMap<string>)

  /** `by_special_failures`: infrastructure failures per label and where they struck. */
  datatype BySpecial = BySpecial(
    total: OMap<nat>, testsFailed: OMap<seq<string>>,
    k8sFailed: OMap<seq<string>>, pgFailed: OMap<seq<string>>, platformsFailed: OMap<seq<string>>)

  /** The four plain bucketings, `by_matrix`, `by_k8s`, `by_postgres`, `by_platform`. */
  datatype Dim = ByMatrix | ByK8s | ByPostgres | ByPlatform

  /** The record field each plain bucketing is keyed by. */
  function DimAttr(d: Dim): Attr {
    match d
    case ByMatrix => Matrix
    case ByK8s => K8s
    case ByPostgres => Postgres
    case ByPlatform => Platform
  }

  /** The dictionary `compute_test_summary` returns. */
  datatype Summary = Summary(
    totalRun: nat, totalFailed: nat, totalSpecialFails: nat,
    byTest: ByTest, byCode: ByCode, bySpecial: BySpecial,
    byMatrix: Buckets, byK8s: Buckets, byPostgres: Buckets, byPlatform: Buckets,
    timings: Timings)
  {
    function Dimension(d: Dim): Buckets {
      match d
      case ByMatrix => byMatrix
      case ByK8s => byK8s
      case ByPostgres => byPostgres
      case ByPlatform => byPlatform
    }
  }

  /** Every failed bucket is also a run bucket, with no more failures than runs. */
  ghost predicate FailedWithinTotal(total: OMap<nat>, failed: OMap<nat>) {
    forall k :: k in failed.vals ==> k in total.vals && failed.vals[k] <= total.vals[k]
  }

  ghost predicate BucketsOk(b: Buckets) {
    && Valid(b.total) && Valid(b.failed)
    && FailedWithinTotal(b.total, b.failed)
  }

  ghost predicate ByTestOk(b: ByTest) {
    && Valid(b.total) && Valid(b.failed)
    && Valid(b.k8sFailed) && Valid(b.pgFailed) && Valid(b.platformsFailed)
    && FailedWithinTotal(b.total, b.failed)
    && (forall k :: k in b.failed.vals ==>
          k in b.k8sFailed.vals && k in b.pgFailed.vals && k in b.platformsFailed.vals)
  }

  ghost predicate ByCodeOk(b: ByCode) {
    && Valid(b.total) && Valid(b.tests) && Valid(b.errors)
    && (forall k :: k in b.total.vals ==> k in b.tests.vals && k in b.errors.vals)
  }

  ghost predicate BySpecialOk(b: BySpecial) {
    && Valid(b.total) && Valid(b.testsFailed)
    && Valid(b.k8sFailed) && Valid(b.pgFailed) && Valid(b.platformsFailed)
    && (forall k :: k in b.total.vals ==>
          k in b.testsFailed.vals && k in b.k8sFailed.vals
          && k in b.pgFailed.vals && k in b.platformsFailed.vals)
  }

  /** What the rendering relies on: every lookup it performs finds its key. */
  ghost predicate WellFormed(s: Summary) {
    && ByTestOk(s.byTest) && ByCodeOk(s.byCode) && BySpecialOk(s.bySpecial)
    && BucketsOk(s.byMatrix) && BucketsOk(s.byK8s)
    && BucketsOk(s.byPostgres) && BucketsOk(s.byPlatform)
    && TimingsValid(s.timings)
  }

  /** `count_bucketed_by_test`. */
  function CountBucketedByTest(b: ByTest, r: TestRecord): ByTest {
    var name := r.name;
    var total := Incr(b.total, name);
    if IsFailed(r) && !IsGinkgoReportFailure(r) then
      ByTest(
        total, Incr(b.failed, name),
        AddTo(b.k8sFailed, name, r.k8sVersion),
        AddTo(b.pgFailed, name, r.pgVersion),
        AddTo(b.platformsFailed, name, r.platform))
    else
      ByTest(total, b.failed, b.k8sFailed, b.pgFailed, b.platformsFailed)
  }

  /** The `by_code` key: the failing file and line joined by a colon. */
  function CodeLocation(r: TestRecord): string {
    r.errorFile + ":" + r.errorLine
  }

  /** `count_bucketed_by_code`: only normal failures with an error text, keyed by location. */
  function CountBucketedByCode(b: ByCode, r: TestRecord): ByCode {
    if r.error == "" || r.state == "ignoreFailed" then b
    else if !IsNormalFailure(r) then b
    else
      var key := CodeLocation(r);
      ByCode(Incr(b.total, key), AddTo(b.tests, key, r.name), PutIfAbsent(b.errors, key, r.error))
  }

  /**
   The `by_special_failures` label of a record: the error for a special error
   or report failure (this wins), otherwise the state for an external failure.
   */
  function SpecialLabel(r: TestRecord): (tag: string)
    ensures IsSpecialError(r) || IsGinkgoReportFailure(r) ==> tag == r.error
    ensures IsFailed(r) && !IsNormalFailure(r) && !IsSpecialError(r) && !IsGinkgoReportFailure(r)
      ==> tag == r.state
  {
    var failure := if IsExternalFailure(r) then r.state else "";
    if IsSpecialError(r) || IsGinkgoReportFailure(r) then r.error else failure
  }

  /** `count_bucketed_by_special_failures`: only failed records that are not normal failures. */
  function CountBucketedBySpecialFailures(b: BySpecial, r: TestRecord): BySpecial {
    if !IsFailed(r) || IsNormalFailure(r) then b
    else
      var failure := SpecialLabel(r);
      BySpecial(
        Incr(b.total, failure),
        AddTo(b.testsFailed, failure, r.name),
        AddTo(b.k8sFailed, failure, r.k8sVersion),
        AddTo(b.pgFailed, failure, r.pgVersion),
        AddTo(b.platformsFailed, failure, r.platform))
  }

  /** `count_bucketized_stats`: one more run for the record's bucket, and one more failure if it failed. */
  function CountBucketizedStats(b: Buckets, r: TestRecord, a: Attr): Buckets {
    var bucket := AttrOf(r, a);
    var total := Incr(b.total, bucket);
    if IsFailed(r) then Buckets(total, Incr(b.failed, bucket)) else Buckets(total, b.failed)
  }

  function EmptySummary(): (s: Summary)
    ensures WellFormed(s)
    ensures s.totalRun == 0 && s.totalFailed == 0 && s.totalSpecialFails == 0
  {
    var none := Buckets(Empty(), Empty());
    Summary(
      0, 0, 0,
      ByTest(Empty(), Empty(), Empty(), Empty(), Empty()),
      ByCode(Empty(), Empty(), Empty()),
      BySpecial(Empty(), Empty(), Empty(), Empty(), Empty()),
      none, none, none, none,
      EmptyTimings())
  }

  /** The loop body of `compute_test_summary` for one valid, normalized record. */
  function Step(clock: Clock, s: Summary, r: TestRecord): (s': Summary)
    ensures s'.totalRun == s.totalRun + 1
    ensures s'.totalFailed == s.totalFailed + (if IsFailed(r) then 1 else 0)
    ensures s'.totalSpecialFails == s.totalSpecialFails + (if IsNormalFailure(r) then 0 else 1)
  {
    Summary(
      1 + s.totalRun,
      if IsFailed(r) then 1 + s.totalFailed else s.totalFailed,
      if !IsNormalFailure(r) then 1 + s.totalSpecialFails else s.totalSpecialFails,
      CountBucketedByTest(s.byTest, r),
      CountBucketedByCode(s.byCode, r),
      CountBucketedBySpecialFailures(s.bySpecial, r),
      CountBucketizedStats(s.byMatrix, r, Matrix),
      CountBucketizedStats(s.byK8s, r, K8s),
      CountBucketizedStats(s.byPostgres, r, Postgres),
      CountBucketizedStats(s.byPlatform, r, Platform),
      TrackTimeTaken(clock, s.timings, r))
  }

  /** The fold over the valid records, in the order they are read. */
  function Fold(clock: Clock, rs: seq<TestRecord>): (s: Summary)
    ensures s.totalRun == |rs|
    ensures s.totalFailed <= s.totalRun && s.totalSpecialFails <= s.totalRun
  {
    if |rs| == 0 then EmptySummary()
    else Step(clock, Fold(clock, rs[..|rs| - 1]), rs[|rs| - 1])
  }

  lemma ByTestStepOk(b: ByTest, r: TestRecord)
    requires ByTestOk(b)
    ensures ByTestOk(CountBucketedByTest(b, r))
  {
  }

  lemma ByCodeStepOk(b: ByCode, r: TestRecord)
    requires ByCodeOk(b)
    ensures ByCodeOk(CountBucketedByCode(b, r))
  {
  }

  lemma BySpecialStepOk(b: BySpecial, r: TestRecord)
    requires BySpecialOk(b)
    ensures BySpecialOk(CountBucketedBySpecialFailures(b, r))
  {
  }

  lemma BucketsStepOk(b: Buckets, r: TestRecord, a: Attr)
    requires BucketsOk(b)
    ensures BucketsOk(CountBucketizedStats(b, r, a))
  {
  }

  /** Each step keeps every lookup the rendering performs defined. */
  lemma StepWellFormed(clock: Clock, s: Summary, r: TestRecord)
    requires WellFormed(s)
    ensures WellFormed(Step(clock, s, r))
  {
    ByTestStepOk(s.byTest, r);
    ByCodeStepOk(s.byCode, r);
    BySpecialStepOk(s.bySpecial, r);
    BucketsStepOk(s.byMatrix, r, Matrix);
    BucketsStepOk(s.byK8s, r, K8s);
    BucketsStepOk(s.byPostgres, r, Postgres);
    BucketsStepOk(s.byPlatform, r, Platform);
    TrackTimeTakenValid(clock, s.timings, r);
  }

  lemma {:induction false} FoldWellFormed(clock: Clock, rs: seq<TestRecord>)
    ensures WellFormed(Fold(clock, rs))
  {
    if |rs| > 0 {
      FoldWellFormed(clock, rs[..|rs| - 1]);
      StepWellFormed(clock, Fold(clock, rs[..|rs| - 1]), rs[|rs| - 1]);
    }
  }

  /**
   `compute_test_summary` over the artifacts of a directory in listing order:
   documents missing a required field are skipped.
   */
  function ComputeTestSummary(clock: Clock, raws: seq<RawArtifact>): (s: Summary)
    ensures WellFormed(s)
    ensures s.totalRun == |Normalize(raws)|
  {
    FoldWellFormed(clock, Normalize(raws));
    Fold(clock, Normalize(raws))
  }

  /** The flat record `compile_overview` returns. */
  datatype Overview = Overview(
    totalRun: nat, totalFailed: nat, totalSpecialFails: nat,
    uniqueRun: nat, uniqueFailed: nat, k8sRun: nat, k8sFailed: nat,
    postgresRun: nat, postgresFailed: nat, matrixRun: nat, matrixFailed: nat,
    platformRun: nat, platformFailed: nat)

  /**
   `compute_bucketized_summary`: (number of buckets with a failure, number of
   buckets), i.e. distinct bucket values, not runs.
   */
  function ComputeBucketizedSummary(total: OMap<nat>, failed: OMap<nat>): (r: (nat, nat))
    ensures Valid(total) && Valid(failed) ==> r.0 == |failed.vals| && r.1 == |total.vals|
    ensures Valid(total) && Valid(failed) && FailedWithinTotal(total, failed) ==> r.0 <= r.1
  {
    BucketCountBounds(total, failed);
    (|failed.keys|, |total.keys|)
  }

  lemma BucketCountBounds(total: OMap<nat>, failed: OMap<nat>)
    ensures Valid(total) && Valid(failed) ==> |failed.keys| == |failed.vals| && |total.keys| == |total.vals|
    ensures Valid(total) && Valid(failed) && FailedWithinTotal(total, failed) ==> |failed.keys| <= |total.keys|
  {
    if Valid(total) && Valid(failed) {
      ValidSize(total);
      ValidSize(failed);
      if FailedWithinTotal(total, failed) {
        DistinctSubsetLength(failed.keys, total.keys);
      }
    }
  }

  /** `compile_overview`: the three totals and the failed/total bucket counts of five bucketings. */
  function CompileOverview(s: Summary): (o: Overview)
    ensures o.totalRun == s.totalRun && o.totalFailed == s.totalFailed
    ensures o.totalSpecialFails == s.totalSpecialFails
    ensures WellFormed(s) ==> o.uniqueFailed <= o.uniqueRun && o.uniqueRun == |s.byTest.total.vals|
    ensures WellFormed(s) ==> o.k8sFailed <= o.k8sRun && o.k8sRun == |s.byK8s.total.vals|
    ensures WellFormed(s) ==> o.postgresFailed <= o.postgresRun && o.postgresRun == |s.byPostgres.total.vals|
    ensures WellFormed(s) ==> o.matrixFailed <= o.matrixRun && o.matrixRun == |s.byMatrix.total.vals|
    ensures WellFormed(s) ==> o.platformFailed <= o.platformRun && o.platformRun == |s.byPlatform.total.vals|
  {
    var (uniqueFailed, uniqueRun) := ComputeBucketizedSummary(s.byTest.total, s.byTest.failed);
    var (k8sFailed, k8sRun) := ComputeBucketizedSummary(s.byK8s.total, s.byK8s.failed);
    var (postgresFailed, postgresRun) := ComputeBucketizedSummary(s.byPostgres.total, s.byPostgres.failed);
    var (matrixFailed, matrixRun) := ComputeBucketizedSummary(s.byMatrix.total, s.byMatrix.failed);
    var (platformFailed, platformRun) := ComputeBucketizedSummary(s.byPlatform.total, s.byPlatform.failed);
    Overview(
      s.totalRun, s.totalFailed, s.totalSpecialFails,
      uniqueRun, uniqueFailed, k8sRun, k8sFailed,
      postgresRun, postgresFailed, matrixRun, matrixFailed,
      platformRun, platformFailed)
  }
}

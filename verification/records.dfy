/**
 One test-result artifact: the raw key/value document, the presence check that
 admits it, and the typed record with the derived `pg_version` field.
 */
module Records {
  import opened Wrappers

  /** A parsed JSON artifact: field name to field value. */
  type RawArtifact = map<string, string>

  /** The 15 fields every artifact must carry, in the order they are checked. */
  const RequiredFields: seq<string> := [
    "name", "state", "start_time", "end_time", "error", "error_file", "error_line",
    "platform", "postgres_kind", "matrix_id", "postgres_version", "k8s_version",
    "workflow_id", "repo", "branch"
  ]

  /** An artifact that passed the presence check. */
  datatype Artifact = Artifact(
    name: string, state: string, startTime: string, endTime: string,
    error: string, errorFile: string, errorLine: string, platform: string,
    postgresKind: string, matrixId: string, postgresVersion: string,
    k8sVersion: string, workflowId: string, repo: string, branch: string)

  /** An artifact after normalization: it also carries `pg_version`. */
  datatype TestRecord = TestRecord(
    name: string, state: string, startTime: string, endTime: string,
    error: string, errorFile: string, errorLine: string, platform: string,
    postgresKind: string, matrixId: string, postgresVersion: string,
    k8sVersion: string, workflowId: string, repo: string, branch: string,
    pgVersion: string)

  /** The record fields a bucket or a breakdown column is keyed by. */
  datatype Attr = Name | Matrix | K8s | Postgres | Platform

  function AttrOf(r: TestRecord, a: Attr): string {
    match a
    case Name => r.name
    case Matrix => r.matrixId
    case K8s => r.k8sVersion
    case Postgres => r.pgVersion
    case Platform => r.platform
  }

  /** The field-by-field loop of `is_test_artifact`: false at the first missing field. */
  function HasAll(raw: RawArtifact, fields: seq<string>): (b: bool)
    ensures b <==> forall i :: 0 <= i < |fields| ==> fields[i] in raw
  {
    if |fields| == 0 then true
    else if fields[0] !in raw then false
    else HasAll(raw, fields[1..])
  }

  /** `is_test_artifact`: every one of the 15 required fields is present. */
  function IsTestArtifact(raw: RawArtifact): (b: bool)
    ensures b <==>
      && "name" in raw && "state" in raw && "start_time" in raw
      && "end_time" in raw && "error" in raw && "error_file" in raw
      && "error_line" in raw && "platform" in raw && "postgres_kind" in raw
      && "matrix_id" in raw && "postgres_version" in raw && "k8s_version" in raw
      && "workflow_id" in raw && "repo" in raw && "branch" in raw
  {
    RequiredFieldsListed();
    HasAll(raw, RequiredFields)
  }

  /** The positions of the required fields, for reading `HasAll` of them field by field. */
  lemma RequiredFieldsListed()
    ensures |RequiredFields| == 15
    ensures RequiredFields[0] == "name" && RequiredFields[1] == "state"
    ensures RequiredFields[2] == "start_time" && RequiredFields[3] == "end_time"
    ensures RequiredFields[4] == "error" && RequiredFields[5] == "error_file"
    ensures RequiredFields[6] == "error_line" && RequiredFields[7] == "platform"
    ensures RequiredFields[8] == "postgres_kind" && RequiredFields[9] == "matrix_id"
    ensures RequiredFields[10] == "postgres_version" && RequiredFields[11] == "k8s_version"
    ensures RequiredFields[12] == "workflow_id" && RequiredFields[13] == "repo"
    ensures RequiredFields[14] == "branch"
  {
  }

  /**
   The presence check turned into a parse: a typed artifact exactly when every
   required field is present, holding the document's values.
   */
  function ParseArtifact(raw: RawArtifact): (r: Option<Artifact>)
    ensures r.Some? <==> IsTestArtifact(raw)
    ensures r.Some? ==> (
      && r.value.name == raw["name"] && r.value.state == raw["state"]
      && r.value.startTime == raw["start_time"] && r.value.endTime == raw["end_time"]
      && r.value.error == raw["error"] && r.value.errorFile == raw["error_file"]
      && r.value.errorLine == raw["error_line"] && r.value.platform == raw["platform"]
      && r.value.postgresKind == raw["postgres_kind"] && r.value.matrixId == raw["matrix_id"]
      && r.value.postgresVersion == raw["postgres_version"]
      && r.value.k8sVersion == raw["k8s_version"] && r.value.workflowId == raw["workflow_id"]
      && r.value.repo == raw["repo"] && r.value.branch == raw["branch"])
  {
    if !IsTestArtifact(raw) then None
    else
      Some(Artifact(
        raw["name"], raw["state"], raw["start_time"], raw["end_time"],
        raw["error"], raw["error_file"], raw["error_line"], raw["platform"],
        raw["postgres_kind"], raw["matrix_id"], raw["postgres_version"],
        raw["k8s_version"], raw["workflow_id"], raw["repo"], raw["branch"]))
  }

  /** `combine_postgres_data`: adds `pg_version`, the kind and version joined by a dash. */
  function CombinePostgresData(a: Artifact): (r: TestRecord)
    ensures r.name == a.name && r.state == a.state && r.startTime == a.startTime
      && r.endTime == a.endTime && r.error == a.error && r.errorFile == a.errorFile
      && r.errorLine == a.errorLine && r.platform == a.platform
      && r.postgresKind == a.postgresKind && r.matrixId == a.matrixId
      && r.postgresVersion == a.postgresVersion && r.k8sVersion == a.k8sVersion
      && r.workflowId == a.workflowId && r.repo == a.repo && r.branch == a.branch
    ensures |r.pgVersion| == |a.postgresKind| + 1 + |a.postgresVersion|
    ensures r.pgVersion[..|a.postgresKind|] == a.postgresKind
    ensures r.pgVersion[|a.postgresKind|] == '-'
    ensures r.pgVersion[|a.postgresKind| + 1..] == a.postgresVersion
  {
    TestRecord(
      a.name, a.state, a.startTime, a.endTime, a.error, a.errorFile, a.errorLine,
      a.platform, a.postgresKind, a.matrixId, a.postgresVersion, a.k8sVersion,
      a.workflowId, a.repo, a.branch,
      a.postgresKind + "-" + a.postgresVersion)
  }

  /** One document's contribution: its normalized record if it passes the presence check, else nothing. */
  function NormalizeOne(raw: RawArtifact): (rs: seq<TestRecord>)
    ensures |rs| <= 1
    ensures |rs| == 1 <==> IsTestArtifact(raw)
  {
    match ParseArtifact(raw)
    case None => []
    case Some(a) => [CombinePostgresData(a)]
  }

  /** `f` applied to every element, the results concatenated in order. */
  function FlatMap<A, B>(f: A -> seq<B>, xs: seq<A>): seq<B> {
    if |xs| == 0 then [] else f(xs[0]) + FlatMap(f, xs[1..])
  }

  lemma {:induction false} FlatMapAppend<A, B>(f: A -> seq<B>, xs: seq<A>, ys: seq<A>)
    ensures FlatMap(f, xs + ys) == FlatMap(f, xs) + FlatMap(f, ys)
  {
    if |xs| > 0 {
      FlatMapAppend(f, xs[1..], ys);
      assert (xs + ys)[1..] == xs[1..] + ys;
      assert (xs + ys)[0] == xs[0];
    } else {
      assert xs + ys == ys;
    }
  }

  lemma {:induction false} FlatMapShort<A, B>(f: A -> seq<B>, xs: seq<A>)
    requires forall x :: |f(x)| <= 1
    ensures |FlatMap(f, xs)| <= |xs|
  {
    if |xs| > 0 {
      FlatMapShort(f, xs[1..]);
    }
  }

  /** The artifacts that pass the presence check, normalized, in input order. */
  function Normalize(raws: seq<RawArtifact>): (rs: seq<TestRecord>)
    ensures |rs| <= |raws|
  {
    FlatMapShort(NormalizeOne, raws);
    FlatMap(NormalizeOne, raws)
  }

  lemma NormalizeSingle(raw: RawArtifact)
    ensures Normalize([raw]) == NormalizeOne(raw)
  {
    assert [raw][1..] == [];
    assert FlatMap(NormalizeOne, [raw]) == NormalizeOne(raw) + FlatMap(NormalizeOne, []);
  }

  /** Normalization treats each document on its own. */
  lemma NormalizeAppend(a: seq<RawArtifact>, b: seq<RawArtifact>)
    ensures Normalize(a + b) == Normalize(a) + Normalize(b)
  {
    FlatMapAppend(NormalizeOne, a, b);
  }
}

/**
 The outcome predicates of a record. Two quirks of the program are kept:
 the special-error and report-failure checks do not look at the state, so a
 passing record can satisfy them; and their guard on the presence of `error`
 always holds for a record that passed the presence check.
 */
module Classifier {
  import opened Records

  /** Error texts that mark an infrastructure failure. */
  const SpecialErrors: set<string> := {"operator was restarted", "operator was renamed"}

  /** The test name under which an unreadable ginkgo report is recorded. */
  const GinkgoReportName: string := "Open Ginkgo report"

  /** `is_failed`: any state other than the three passing ones. */
  predicate IsFailed(r: TestRecord) {
    r.state != "passed" && r.state != "skipped" && r.state != "ignoreFailed"
  }

  /** `is_external_failure`: failed, with a state other than "failed" (e.g. interrupted). */
  function IsExternalFailure(r: TestRecord): (b: bool)
    ensures b <==> r.state !in {"passed", "skipped", "ignoreFailed", "failed"}
  {
    IsFailed(r) && r.state != "failed"
  }

  /** `is_special_error`: the error is a known infrastructure error, whatever the state. */
  predicate IsSpecialError(r: TestRecord) {
    r.error in SpecialErrors
  }

  /** `is_ginkgo_report_failure`: the record is the report-reading pseudo test, whatever the state. */
  predicate IsGinkgoReportFailure(r: TestRecord) {
    r.name == GinkgoReportName
  }

  /**
   `is_normal_failure`: failed and none of the special kinds; since an external
   failure is any failing state other than "failed", this means the state is
   exactly "failed".
   */
  function IsNormalFailure(r: TestRecord): (b: bool)
    ensures b <==> r.state == "failed" && r.error !in SpecialErrors && r.name != GinkgoReportName
    ensures b ==> IsFailed(r) && !IsExternalFailure(r)
  {
    IsFailed(r) && !IsSpecialError(r) && !IsExternalFailure(r) && !IsGinkgoReportFailure(r)
  }

  /** A passed, skipped or ignored record is never failed, an external failure or a normal failure. */
  lemma PassingIsNoFailure(r: TestRecord)
    requires r.state in {"passed", "skipped", "ignoreFailed"}
    ensures !IsFailed(r) && !IsExternalFailure(r) && !IsNormalFailure(r)
  {
  }

  /** The special-error check does not look at the state: a passing record can meet it. */
  lemma SpecialErrorIgnoresState(r: TestRecord)
    requires r.state == "passed" && r.error == "operator was restarted"
    ensures IsSpecialError(r) && !IsFailed(r) && !IsNormalFailure(r)
  {
  }
}

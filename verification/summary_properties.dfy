/**
 What the summary means in terms of the records folded into it. Every count
 map of the summary is a tally of the records meeting one condition, keyed by
 one key; every breakdown set collects one field of those records. Each
 step of the fold is shown to update its maps exactly as one more record of
 the tally would, so the whole fold meets the characterisation.
 */
module SummaryProperties {
  import opened Wrappers
  import opened OrderedMaps
  import opened Records
  import opened Classifier
  import opened Durations
  import opened Aggregation

  /** Which records a count map counts. */
  datatype Pred = Always | Failed | NormalFailure | TestFailure | CodeFailure | SpecialFailure

  predicate Holds(p: Pred, r: TestRecord) {
    match p
    case Always => true
    case Failed => IsFailed(r)
    case NormalFailure => IsNormalFailure(r)
    case TestFailure => IsFailed(r) && !IsGinkgoReportFailure(r)
    case CodeFailure => IsNormalFailure(r) && r.error != ""
    case SpecialFailure => IsFailed(r) && !IsNormalFailure(r)
  }

  /** What a count map is keyed by. */
  datatype KeyFn = ByAttr(a: Attr) | ByLocation | ByLabel

  function KeyOf(kf: KeyFn, r: TestRecord): string {
    match kf
    case ByAttr(a) => AttrOf(r, a)
    case ByLocation => CodeLocation(r)
    case ByLabel => SpecialLabel(r)
  }

  /** Number of records meeting `p`. */
  ghost function Count(rs: seq<TestRecord>, p: Pred): nat {
    if |rs| == 0 then 0
    else Count(rs[..|rs| - 1], p) + (if Holds(p, rs[|rs| - 1]) then 1 else 0)
  }

  /** Number of records meeting `p` whose key is `k`. */
  ghost function Tally(rs: seq<TestRecord>, p: Pred, kf: KeyFn, k: string): nat {
    if |rs| == 0 then 0
    else
      var r := rs[|rs| - 1];
      Tally(rs[..|rs| - 1], p, kf, k) + (if Holds(p, r) && KeyOf(kf, r) == k then 1 else 0)
  }

  /** Field `a` of the records meeting `p` whose key is `k`. */
  ghost function Collected(rs: seq<TestRecord>, p: Pred, kf: KeyFn, a: Attr, k: string): set<string> {
    if |rs| == 0 then {}
    else
      var r := rs[|rs| - 1];
      Collected(rs[..|rs| - 1], p, kf, a, k) + (if Holds(p, r) && KeyOf(kf, r) == k then {AttrOf(r, a)} else {})
  }

  lemma {:induction false} TallyAtMostCount(rs: seq<TestRecord>, p: Pred, kf: KeyFn, k: string)
    ensures Tally(rs, p, kf, k) <= Count(rs, p)
  {
    if |rs| > 0 {
      TallyAtMostCount(rs[..|rs| - 1], p, kf, k);
    }
  }

  ghost predicate TalliesMatch(m: OMap<nat>, rs: seq<TestRecord>, p: Pred, kf: KeyFn) {
    forall k :: Get(m, k, 0) == Tally(rs, p, kf, k)
  }

  ghost predicate NoEmptyBucket(m: OMap<nat>) {
    forall k :: k in m.vals ==> m.vals[k] > 0
  }

  /** `m` counts, per key, the records meeting `p`, and holds no empty bucket. */
  ghost predicate Counts(m: OMap<nat>, rs: seq<TestRecord>, p: Pred, kf: KeyFn) {
    && Valid(m)
    && TalliesMatch(m, rs, p, kf)
    && NoEmptyBucket(m)
    && Sum(m) == Count(rs, p)
  }

  ghost predicate KeysCounted<V>(m: OMap<V>, rs: seq<TestRecord>, p: Pred, kf: KeyFn) {
    forall k :: k in m.vals <==> Tally(rs, p, kf, k) > 0
  }

  ghost predicate DistinctValues(m: OMap<seq<string>>) {
    forall k :: k in m.vals ==> Distinct(m.vals[k])
  }

  ghost predicate ValuesCollected(m: OMap<seq<string>>, rs: seq<TestRecord>, p: Pred, kf: KeyFn, a: Attr) {
    forall k, x :: x in Get(m, k, []) <==> x in Collected(rs, p, kf, a, k)
  }

  /** `m` holds, per key with a counted record, the distinct values of field `a` of those records. */
  ghost predicate Collects(m: OMap<seq<string>>, rs: seq<TestRecord>, p: Pred, kf: KeyFn, a: Attr) {
    && Valid(m)
    && KeysCounted(m, rs, p, kf)
    && DistinctValues(m)
    && ValuesCollected(m, rs, p, kf, a)
  }

  /** One more record for a count map. */
  function CountStep(m: OMap<nat>, p: Pred, kf: KeyFn, r: TestRecord): OMap<nat> {
    if Holds(p, r) then Incr(m, KeyOf(kf, r)) else m
  }

  /** One more record for a breakdown map. */
  function CollectStep(m: OMap<seq<string>>, p: Pred, kf: KeyFn, a: Attr, r: TestRecord): OMap<seq<string>> {
    if Holds(p, r) then AddTo(m, KeyOf(kf, r), AttrOf(r, a)) else m
  }

  lemma LastOf(rs: seq<TestRecord>, r: TestRecord)
    ensures (rs + [r])[..|rs|] == rs && (rs + [r])[|rs|] == r
  {
  }

  lemma CountSnoc(rs: seq<TestRecord>, r: TestRecord, p: Pred)
    ensures Count(rs + [r], p) == Count(rs, p) + (if Holds(p, r) then 1 else 0)
  {
    LastOf(rs, r);
  }

  lemma TallySnoc(rs: seq<TestRecord>, r: TestRecord, p: Pred, kf: KeyFn, k: string)
    ensures Tally(rs + [r], p, kf, k) == Tally(rs, p, kf, k) + (if Holds(p, r) && KeyOf(kf, r) == k then 1 else 0)
  {
    LastOf(rs, r);
  }

  lemma CollectedSnoc(rs: seq<TestRecord>, r: TestRecord, p: Pred, kf: KeyFn, a: Attr, k: string)
    ensures Collected(rs + [r], p, kf, a, k)
      == Collected(rs, p, kf, a, k) + (if Holds(p, r) && KeyOf(kf, r) == k then {AttrOf(r, a)} else {})
  {
    LastOf(rs, r);
  }

  lemma CountStepValues(m: OMap<nat>, rs: seq<TestRecord>, p: Pred, kf: KeyFn, r: TestRecord)
    requires TalliesMatch(m, rs, p, kf) && NoEmptyBucket(m)
    ensures TalliesMatch(CountStep(m, p, kf, r), rs + [r], p, kf) && NoEmptyBucket(CountStep(m, p, kf, r))
  {
    forall k ensures Get(CountStep(m, p, kf, r), k, 0) == Tally(rs + [r], p, kf, k) {
      TallySnoc(rs, r, p, kf, k);
    }
  }

  lemma CountStepSum(m: OMap<nat>, rs: seq<TestRecord>, p: Pred, kf: KeyFn, r: TestRecord)
    requires Valid(m) && Sum(m) == Count(rs, p)
    ensures Valid(CountStep(m, p, kf, r)) && Sum(CountStep(m, p, kf, r)) == Count(rs + [r], p)
  {
    CountSnoc(rs, r, p);
    if Holds(p, r) {
      IncrSum(m, KeyOf(kf, r));
    }
  }

  lemma {:induction false} CountStepKeeps(m: OMap<nat>, rs: seq<TestRecord>, p: Pred, kf: KeyFn, r: TestRecord)
    requires Counts(m, rs, p, kf)
    ensures Counts(CountStep(m, p, kf, r), rs + [r], p, kf)
  {
    CountStepValues(m, rs, p, kf, r);
    CountStepSum(m, rs, p, kf, r);
  }

  lemma CollectStepShape(m: OMap<seq<string>>, p: Pred, kf: KeyFn, a: Attr, r: TestRecord)
    requires Valid(m) && DistinctValues(m)
    ensures Valid(CollectStep(m, p, kf, a, r)) && DistinctValues(CollectStep(m, p, kf, a, r))
  {
    if Holds(p, r) {
      var key := KeyOf(kf, r);
      var m' := AddTo(m, key, AttrOf(r, a));
      assert Distinct(Get(m, key, []));
      assert m'.vals == m.vals[key := Insert(Get(m, key, []), AttrOf(r, a))];
    }
  }

  lemma CollectStepKeys(m: OMap<seq<string>>, rs: seq<TestRecord>, p: Pred, kf: KeyFn, a: Attr, r: TestRecord)
    requires KeysCounted(m, rs, p, kf)
    ensures KeysCounted(CollectStep(m, p, kf, a, r), rs + [r], p, kf)
  {
    forall k ensures k in CollectStep(m, p, kf, a, r).vals <==> Tally(rs + [r], p, kf, k) > 0 {
      TallySnoc(rs, r, p, kf, k);
    }
  }

  lemma CollectStepValues(m: OMap<seq<string>>, rs: seq<TestRecord>, p: Pred, kf: KeyFn, a: Attr, r: TestRecord)
    requires ValuesCollected(m, rs, p, kf, a)
    ensures ValuesCollected(CollectStep(m, p, kf, a, r), rs + [r], p, kf, a)
  {
    forall k, x ensures x in Get(CollectStep(m, p, kf, a, r), k, []) <==> x in Collected(rs + [r], p, kf, a, k) {
      CollectedSnoc(rs, r, p, kf, a, k);
    }
  }

  lemma {:induction false} CollectStepKeeps(m: OMap<seq<string>>, rs: seq<TestRecord>, p: Pred, kf: KeyFn,
                                            a: Attr, r: TestRecord)
    requires Collects(m, rs, p, kf, a)
    ensures Collects(CollectStep(m, p, kf, a, r), rs + [r], p, kf, a)
  {
    CollectStepShape(m, p, kf, a, r);
    CollectStepKeys(m, rs, p, kf, a, r);
    CollectStepValues(m, rs, p, kf, a, r);
  }

  /** The count maps of the summary. */
  datatype CounterField = TestTotal | TestFailed | CodeTotal | SpecialTotal | DimTotal(d: Dim) | DimFailed(d: Dim)

  function CounterOf(s: Summary, f: CounterField): OMap<nat> {
    match f
    case TestTotal => s.byTest.total
    case TestFailed => s.byTest.failed
    case CodeTotal => s.byCode.total
    case SpecialTotal => s.bySpecial.total
    case DimTotal(d) => s.Dimension(d).total
    case DimFailed(d) => s.Dimension(d).failed
  }

  function CounterPred(f: CounterField): Pred {
    match f
    case TestTotal => Always
    case TestFailed => TestFailure
    case CodeTotal => CodeFailure
    case SpecialTotal => SpecialFailure
    case DimTotal(_) => Always
    case DimFailed(_) => Failed
  }

  function CounterKey(f: CounterField): KeyFn {
    match f
    case TestTotal => ByAttr(Name)
    case TestFailed => ByAttr(Name)
    case CodeTotal => ByLocation
    case SpecialTotal => ByLabel
    case DimTotal(d) => ByAttr(DimAttr(d))
    case DimFailed(d) => ByAttr(DimAttr(d))
  }

  /** The breakdown maps of the summary. */
  datatype SetField =
    | TestK8s | TestPg | TestPlatforms | CodeTests
    | SpecialTests | SpecialK8s | SpecialPg | SpecialPlatforms

  function SetOf(s: Summary, f: SetField): OMap<seq<string>> {
    match f
    case TestK8s => s.byTest.k8sFailed
    case TestPg => s.byTest.pgFailed
    case TestPlatforms => s.byTest.platformsFailed
    case CodeTests => s.byCode.tests
    case SpecialTests => s.bySpecial.testsFailed
    case SpecialK8s => s.bySpecial.k8sFailed
    case SpecialPg => s.bySpecial.pgFailed
    case SpecialPlatforms => s.bySpecial.platformsFailed
  }

  function SetPred(f: SetField): Pred {
    match f
    case TestK8s | TestPg | TestPlatforms => TestFailure
    case CodeTests => CodeFailure
    case _ => SpecialFailure
  }

  function SetKey(f: SetField): KeyFn {
    match f
    case TestK8s | TestPg | TestPlatforms => ByAttr(Name)
    case CodeTests => ByLocation
    case _ => ByLabel
  }

  function SetAttr(f: SetField): Attr {
    match f
    case TestK8s | SpecialK8s => K8s
    case TestPg | SpecialPg => Postgres
    case TestPlatforms | SpecialPlatforms => Platform
    case CodeTests | SpecialTests => Name
  }

  lemma ByTestStep(b: ByTest, r: TestRecord)
    ensures CountBucketedByTest(b, r).total == CountStep(b.total, Always, ByAttr(Name), r)
    ensures CountBucketedByTest(b, r).failed == CountStep(b.failed, TestFailure, ByAttr(Name), r)
    ensures CountBucketedByTest(b, r).k8sFailed == CollectStep(b.k8sFailed, TestFailure, ByAttr(Name), K8s, r)
    ensures CountBucketedByTest(b, r).pgFailed == CollectStep(b.pgFailed, TestFailure, ByAttr(Name), Postgres, r)
    ensures CountBucketedByTest(b, r).platformsFailed
         == CollectStep(b.platformsFailed, TestFailure, ByAttr(Name), Platform, r)
  {
    if Holds(TestFailure, r) {
      assert KeyOf(ByAttr(Name), r) == r.name;
    } else {
      assert !IsFailed(r) || IsGinkgoReportFailure(r);
    }
  }

  /** The code bucketing's own guards amount to "a normal failure with an error text". */
  lemma ByCodeStep(b: ByCode, r: TestRecord)
    ensures CountBucketedByCode(b, r).total == CountStep(b.total, CodeFailure, ByLocation, r)
    ensures CountBucketedByCode(b, r).tests == CollectStep(b.tests, CodeFailure, ByLocation, Name, r)
  {
  }

  lemma BySpecialStep(b: BySpecial, r: TestRecord)
    ensures CountBucketedBySpecialFailures(b, r).total == CountStep(b.total, SpecialFailure, ByLabel, r)
    ensures CountBucketedBySpecialFailures(b, r).testsFailed
         == CollectStep(b.testsFailed, SpecialFailure, ByLabel, Name, r)
    ensures CountBucketedBySpecialFailures(b, r).k8sFailed
         == CollectStep(b.k8sFailed, SpecialFailure, ByLabel, K8s, r)
    ensures CountBucketedBySpecialFailures(b, r).pgFailed
         == CollectStep(b.pgFailed, SpecialFailure, ByLabel, Postgres, r)
    ensures CountBucketedBySpecialFailures(b, r).platformsFailed
         == CollectStep(b.platformsFailed, SpecialFailure, ByLabel, Platform, r)
  {
    BySpecialGuard(b, r);
  }

  /** The special bucketing updates its maps exactly when its guard lets the record through. */
  lemma BySpecialGuard(b: BySpecial, r: TestRecord)
    ensures var c := CountBucketedBySpecialFailures(b, r);
      if Holds(SpecialFailure, r) then
        && KeyOf(ByLabel, r) == SpecialLabel(r)
        && c == BySpecial(
          Incr(b.total, KeyOf(ByLabel, r)),
          AddTo(b.testsFailed, KeyOf(ByLabel, r), AttrOf(r, Name)),
          AddTo(b.k8sFailed, KeyOf(ByLabel, r), AttrOf(r, K8s)),
          AddTo(b.pgFailed, KeyOf(ByLabel, r), AttrOf(r, Postgres)),
          AddTo(b.platformsFailed, KeyOf(ByLabel, r), AttrOf(r, Platform)))
      else c == b
  {
    var c := CountBucketedBySpecialFailures(b, r);
    if !IsFailed(r) || IsNormalFailure(r) {
      assert c == b;
      assert !Holds(SpecialFailure, r);
    } else {
      var l := SpecialLabel(r);
      assert Holds(SpecialFailure, r);
      assert KeyOf(ByLabel, r) == l;
      assert AttrOf(r, Name) == r.name && AttrOf(r, K8s) == r.k8sVersion;
      assert AttrOf(r, Postgres) == r.pgVersion && AttrOf(r, Platform) == r.platform;
      assert c == BySpecial(Incr(b.total, l), AddTo(b.testsFailed, l, r.name), AddTo(b.k8sFailed, l, r.k8sVersion),
        AddTo(b.pgFailed, l, r.pgVersion), AddTo(b.platformsFailed, l, r.platform));
    }
  }

  lemma BucketsStep(b: Buckets, r: TestRecord, a: Attr)
    ensures CountBucketizedStats(b, r, a).total == CountStep(b.total, Always, ByAttr(a), r)
    ensures CountBucketizedStats(b, r, a).failed == CountStep(b.failed, Failed, ByAttr(a), r)
  {
  }

  lemma StepDimension(clock: Clock, s: Summary, r: TestRecord, d: Dim)
    ensures Step(clock, s, r).Dimension(d) == CountBucketizedStats(s.Dimension(d), r, DimAttr(d))
  {
  }

  /** Each count map of the loop body takes exactly one tally step. */
  lemma StepCounter(clock: Clock, s: Summary, r: TestRecord, f: CounterField)
    ensures CounterOf(Step(clock, s, r), f) == CountStep(CounterOf(s, f), CounterPred(f), CounterKey(f), r)
  {
    match f
    case TestTotal => ByTestStep(s.byTest, r);
    case TestFailed => ByTestStep(s.byTest, r);
    case CodeTotal => ByCodeStep(s.byCode, r);
    case SpecialTotal => BySpecialStep(s.bySpecial, r);
    case DimTotal(d) =>
      StepDimension(clock, s, r, d);
      BucketsStep(s.Dimension(d), r, DimAttr(d));
    case DimFailed(d) =>
      StepDimension(clock, s, r, d);
      BucketsStep(s.Dimension(d), r, DimAttr(d));
  }

  /** Each breakdown map of the loop body takes exactly one collection step. */
  lemma StepSet(clock: Clock, s: Summary, r: TestRecord, f: SetField)
    ensures SetOf(Step(clock, s, r), f) == CollectStep(SetOf(s, f), SetPred(f), SetKey(f), SetAttr(f), r)
  {
    match f
    case TestK8s | TestPg | TestPlatforms => ByTestStep(s.byTest, r);
    case CodeTests => ByCodeStep(s.byCode, r);
    case _ => BySpecialStep(s.bySpecial, r);
  }

  /** The fold takes its last record as one more step. */
  lemma FoldSnoc(clock: Clock, rs: seq<TestRecord>, r: TestRecord)
    ensures Fold(clock, rs + [r]) == Step(clock, Fold(clock, rs), r)
  {
    LastOf(rs, r);
  }

  lemma FoldCountsStep(clock: Clock, rs: seq<TestRecord>, r: TestRecord, f: CounterField)
    requires Counts(CounterOf(Fold(clock, rs), f), rs, CounterPred(f), CounterKey(f))
    ensures Counts(CounterOf(Fold(clock, rs + [r]), f), rs + [r], CounterPred(f), CounterKey(f))
  {
    FoldSnoc(clock, rs, r);
    StepCounter(clock, Fold(clock, rs), r, f);
    CountStepKeeps(CounterOf(Fold(clock, rs), f), rs, CounterPred(f), CounterKey(f), r);
  }

  /** Every count map of the folded summary counts exactly its records. */
  lemma {:induction false} FoldCounts(clock: Clock, rs: seq<TestRecord>, f: CounterField)
    ensures Counts(CounterOf(Fold(clock, rs), f), rs, CounterPred(f), CounterKey(f))
  {
    if |rs| > 0 {
      var init, r := rs[..|rs| - 1], rs[|rs| - 1];
      assert init + [r] == rs;
      FoldCounts(clock, init, f);
      FoldCountsStep(clock, init, r, f);
    }
  }

  lemma FoldCollectsStep(clock: Clock, rs: seq<TestRecord>, r: TestRecord, f: SetField)
    requires Collects(SetOf(Fold(clock, rs), f), rs, SetPred(f), SetKey(f), SetAttr(f))
    ensures Collects(SetOf(Fold(clock, rs + [r]), f), rs + [r], SetPred(f), SetKey(f), SetAttr(f))
  {
    FoldSnoc(clock, rs, r);
    StepSet(clock, Fold(clock, rs), r, f);
    CollectStepKeeps(SetOf(Fold(clock, rs), f), rs, SetPred(f), SetKey(f), SetAttr(f), r);
  }

  /** Every breakdown map of the folded summary collects exactly its records' values. */
  lemma {:induction false} FoldCollects(clock: Clock, rs: seq<TestRecord>, f: SetField)
    ensures Collects(SetOf(Fold(clock, rs), f), rs, SetPred(f), SetKey(f), SetAttr(f))
  {
    if |rs| > 0 {
      var init, r := rs[..|rs| - 1], rs[|rs| - 1];
      assert init + [r] == rs;
      FoldCollects(clock, init, f);
      FoldCollectsStep(clock, init, r, f);
    }
  }

  ghost predicate TotalsCount(s: Summary, rs: seq<TestRecord>) {
    && s.totalFailed == Count(rs, Failed)
    && s.totalSpecialFails + Count(rs, NormalFailure) == |rs|
  }

  lemma TotalsStep(clock: Clock, rs: seq<TestRecord>, r: TestRecord)
    requires TotalsCount(Fold(clock, rs), rs)
    ensures TotalsCount(Fold(clock, rs + [r]), rs + [r])
  {
    FoldSnoc(clock, rs, r);
    LastOf(rs, r);
  }

  lemma {:induction false} FoldTotalsCount(clock: Clock, rs: seq<TestRecord>)
    ensures TotalsCount(Fold(clock, rs), rs)
  {
    if |rs| > 0 {
      var init, r := rs[..|rs| - 1], rs[|rs| - 1];
      FoldTotalsCount(clock, init);
      TotalsStep(clock, init, r);
      assert init + [r] == rs;
    }
  }

  /** Every record is exactly one of: not failed, a normal failure, a special failure. */
  lemma {:induction false} CountPartition(rs: seq<TestRecord>)
    ensures Count(rs, NormalFailure) + Count(rs, SpecialFailure) == Count(rs, Failed)
    ensures Count(rs, Failed) <= |rs|
  {
    if |rs| > 0 {
      CountPartition(rs[..|rs| - 1]);
    }
  }

  /**
   The three totals: every record is a run, every failing record a failure,
   and every record that is not a normal failure, passing ones included, a
   "special" failure.
   */
  lemma FoldTotals(clock: Clock, rs: seq<TestRecord>)
    ensures Fold(clock, rs).totalRun == |rs|
    ensures Fold(clock, rs).totalFailed == Count(rs, Failed)
    ensures Fold(clock, rs).totalSpecialFails == |rs| - Count(rs, NormalFailure)
    ensures Fold(clock, rs).totalSpecialFails == Count(rs, SpecialFailure) + (|rs| - Count(rs, Failed))
  {
    FoldTotalsCount(clock, rs);
    CountPartition(rs);
  }

  lemma {:induction false} FailedAtMostAlways(rs: seq<TestRecord>, p: Pred, a: Attr, k: string)
    requires p == Failed || p == TestFailure
    ensures Tally(rs, p, ByAttr(a), k) <= Tally(rs, Always, ByAttr(a), k)
  {
    if |rs| > 0 {
      FailedAtMostAlways(rs[..|rs| - 1], p, a, k);
    }
  }

  lemma {:induction false} CountAlways(rs: seq<TestRecord>)
    ensures Count(rs, Always) == |rs|
  {
    if |rs| > 0 {
      CountAlways(rs[..|rs| - 1]);
    }
  }

  /** A map counting failures per key sits inside the map counting runs per key. */
  lemma FailedWithin(total: OMap<nat>, failed: OMap<nat>, rs: seq<TestRecord>, p: Pred, a: Attr)
    requires p == Failed || p == TestFailure
    requires Counts(total, rs, Always, ByAttr(a)) && Counts(failed, rs, p, ByAttr(a))
    ensures forall k :: k in failed.vals ==> k in total.vals && failed.vals[k] <= total.vals[k]
  {
    forall k | k in failed.vals ensures k in total.vals && failed.vals[k] <= total.vals[k] {
      FailedAtMostAlways(rs, p, a, k);
      assert Get(failed, k, 0) == Tally(rs, p, ByAttr(a), k);
      assert Get(total, k, 0) == Tally(rs, Always, ByAttr(a), k);
    }
  }

  /** What the run and failure count maps of one bucketing say together. */
  lemma BucketsCount(b: Buckets, rs: seq<TestRecord>, a: Attr)
    requires Counts(b.total, rs, Always, ByAttr(a)) && Counts(b.failed, rs, Failed, ByAttr(a))
    ensures forall k :: k in b.failed.vals ==> k in b.total.vals && b.failed.vals[k] <= b.total.vals[k]
    ensures Sum(b.total) == |rs| && Sum(b.failed) == Count(rs, Failed)
  {
    CountAlways(rs);
    FailedWithin(b.total, b.failed, rs, Failed, a);
  }

  lemma DimensionCounters(s: Summary, rs: seq<TestRecord>, d: Dim)
    requires Counts(CounterOf(s, DimTotal(d)), rs, Always, ByAttr(DimAttr(d)))
    requires Counts(CounterOf(s, DimFailed(d)), rs, Failed, ByAttr(DimAttr(d)))
    ensures Counts(s.Dimension(d).total, rs, Always, ByAttr(DimAttr(d)))
    ensures Counts(s.Dimension(d).failed, rs, Failed, ByAttr(DimAttr(d)))
  {
    assert CounterOf(s, DimTotal(d)) == s.Dimension(d).total;
    assert CounterOf(s, DimFailed(d)) == s.Dimension(d).failed;
  }

  lemma FoldBuckets(clock: Clock, rs: seq<TestRecord>, d: Dim)
    ensures Counts(Fold(clock, rs).Dimension(d).total, rs, Always, ByAttr(DimAttr(d)))
    ensures Counts(Fold(clock, rs).Dimension(d).failed, rs, Failed, ByAttr(DimAttr(d)))
  {
    FoldCounts(clock, rs, DimTotal(d));
    FoldCounts(clock, rs, DimFailed(d));
    DimensionCounters(Fold(clock, rs), rs, d);
  }

  /**
   The four plain bucketings: a bucket's runs are the records with that value,
   its failures the failing ones among them (of any kind); failed buckets are
   run buckets with no more failures than runs, and the runs add up to the
   number of records.
   */
  lemma DimensionBuckets(clock: Clock, rs: seq<TestRecord>, d: Dim)
    ensures var b := Fold(clock, rs).Dimension(d);
      && (forall k :: Get(b.total, k, 0) == Tally(rs, Always, ByAttr(DimAttr(d)), k))
      && (forall k :: Get(b.failed, k, 0) == Tally(rs, Failed, ByAttr(DimAttr(d)), k))
      && (forall k :: k in b.failed.vals ==> k in b.total.vals && b.failed.vals[k] <= b.total.vals[k])
      && Sum(b.total) == |rs|
      && Sum(b.failed) == Fold(clock, rs).totalFailed
  {
    FoldBuckets(clock, rs, d);
    FoldTotals(clock, rs);
    BucketsCount(Fold(clock, rs).Dimension(d), rs, DimAttr(d));
  }

  /**
   `by_test`: runs per name; failures per name count every failure except the
   ginkgo-report pseudo test (special and external failures included), which
   therefore never has a failed bucket; the breakdown sets hold the versions
   and platforms of exactly those failures.
   */
  lemma ByTestBuckets(clock: Clock, rs: seq<TestRecord>)
    ensures var b := Fold(clock, rs).byTest;
      && (forall n :: Get(b.total, n, 0) == Tally(rs, Always, ByAttr(Name), n))
      && (forall n :: Get(b.failed, n, 0) == Tally(rs, TestFailure, ByAttr(Name), n))
      && (forall n :: n in b.failed.vals ==> n in b.total.vals && b.failed.vals[n] <= b.total.vals[n])
      && GinkgoReportName !in b.failed.vals
      && Sum(b.total) == |rs|
  {
    var b := Fold(clock, rs).byTest;
    FoldCounts(clock, rs, TestTotal);
    FoldCounts(clock, rs, TestFailed);
    CountAlways(rs);
    FailedWithin(b.total, b.failed, rs, TestFailure, Name);
    NoGinkgoTally(rs);
    assert Get(b.failed, GinkgoReportName, 0) == 0;
  }

  /** The `by_test` breakdown sets hold the versions and platforms of exactly the counted failures. */
  lemma ByTestWhere(clock: Clock, rs: seq<TestRecord>)
    ensures var b := Fold(clock, rs).byTest;
      && (forall n, x :: x in Get(b.k8sFailed, n, []) <==> x in Collected(rs, TestFailure, ByAttr(Name), K8s, n))
      && (forall n, x :: x in Get(b.pgFailed, n, []) <==> x in Collected(rs, TestFailure, ByAttr(Name), Postgres, n))
      && (forall n, x :: x in Get(b.platformsFailed, n, []) <==> x in Collected(rs, TestFailure, ByAttr(Name), Platform, n))
  {
    FoldCollects(clock, rs, TestK8s);
    FoldCollects(clock, rs, TestPg);
    FoldCollects(clock, rs, TestPlatforms);
  }

  lemma {:induction false} NoGinkgoTally(rs: seq<TestRecord>)
    ensures Tally(rs, TestFailure, ByAttr(Name), GinkgoReportName) == 0
  {
    if |rs| > 0 {
      NoGinkgoTally(rs[..|rs| - 1]);
    }
  }

  /**
   `by_code`: a location's count is the number of normal failures with an
   error text at that location (the explicit `ignoreFailed` guard never
   matters, since a normal failure has state "failed"); the counts add up to
   the number of such records.
   */
  lemma ByCodeBuckets(clock: Clock, rs: seq<TestRecord>)
    ensures var b := Fold(clock, rs).byCode;
      && (forall loc :: Get(b.total, loc, 0) == Tally(rs, CodeFailure, ByLocation, loc))
      && (forall loc, n :: n in Get(b.tests, loc, []) <==> n in Collected(rs, CodeFailure, ByLocation, Name, loc))
      && Sum(b.total) == Count(rs, CodeFailure)
  {
    FoldCounts(clock, rs, CodeTotal);
    FoldCollects(clock, rs, CodeTests);
  }

  /** The error text of the earliest record counted at location `loc`. */
  ghost function FirstCodeError(rs: seq<TestRecord>, loc: string): Option<string> {
    if |rs| == 0 then None
    else if Holds(CodeFailure, rs[0]) && CodeLocation(rs[0]) == loc then Some(rs[0].error)
    else FirstCodeError(rs[1..], loc)
  }

  lemma {:induction false} FirstCodeErrorAppend(rs: seq<TestRecord>, r: TestRecord, loc: string)
    ensures FirstCodeError(rs + [r], loc) ==
      if FirstCodeError(rs, loc).Some? then FirstCodeError(rs, loc)
      else if Holds(CodeFailure, r) && CodeLocation(r) == loc then Some(r.error)
      else None
  {
    if |rs| > 0 {
      assert (rs + [r])[1..] == rs[1..] + [r];
      FirstCodeErrorAppend(rs[1..], r, loc);
    } else {
      assert [r][1..] == [];
    }
  }

  /** One step of `by_code` records an error text only at a location with none yet. */
  lemma ByCodeErrorStep(b: ByCode, r: TestRecord, loc: string)
    ensures Lookup(CountBucketedByCode(b, r).errors, loc) ==
      if Lookup(b.errors, loc).Some? then Lookup(b.errors, loc)
      else if Holds(CodeFailure, r) && CodeLocation(r) == loc then Some(r.error)
      else None
  {
    if Holds(CodeFailure, r) {
      assert CountBucketedByCode(b, r).errors == PutIfAbsent(b.errors, CodeLocation(r), r.error);
    } else {
      assert CountBucketedByCode(b, r) == b;
    }
  }

  lemma FirstErrorStep(clock: Clock, rs: seq<TestRecord>, r: TestRecord)
    requires forall loc :: Lookup(Fold(clock, rs).byCode.errors, loc) == FirstCodeError(rs, loc)
    ensures forall loc :: Lookup(Fold(clock, rs + [r]).byCode.errors, loc) == FirstCodeError(rs + [r], loc)
  {
    FoldSnoc(clock, rs, r);
    var b := Fold(clock, rs).byCode;
    assert Fold(clock, rs + [r]).byCode == CountBucketedByCode(b, r);
    forall loc ensures Lookup(Fold(clock, rs + [r]).byCode.errors, loc) == FirstCodeError(rs + [r], loc) {
      FirstCodeErrorAppend(rs, r, loc);
      ByCodeErrorStep(b, r, loc);
    }
  }

  /** `by_code` keeps, per location, the error text of the first record seen there: never overwritten. */
  lemma {:induction false} ByCodeFirstErrorWins(clock: Clock, rs: seq<TestRecord>)
    ensures forall loc :: Lookup(Fold(clock, rs).byCode.errors, loc) == FirstCodeError(rs, loc)
  {
    if |rs| > 0 {
      var init, r := rs[..|rs| - 1], rs[|rs| - 1];
      assert init + [r] == rs;
      ByCodeFirstErrorWins(clock, init);
      FirstErrorStep(clock, init, r);
    }
  }

  /**
   `by_special_failures`: a label's count is the number of failed, non-normal
   records with that label; they add up to all such records.
   */
  lemma BySpecialBuckets(clock: Clock, rs: seq<TestRecord>)
    ensures var b := Fold(clock, rs).bySpecial;
      && (forall l :: Get(b.total, l, 0) == Tally(rs, SpecialFailure, ByLabel, l))
      && (forall l, n :: n in Get(b.testsFailed, l, []) <==> n in Collected(rs, SpecialFailure, ByLabel, Name, l))
      && Sum(b.total) == Count(rs, SpecialFailure)
  {
    FoldCounts(clock, rs, SpecialTotal);
    FoldCollects(clock, rs, SpecialTests);
  }

  /** The durations observed for tagged test name `n`, in record order. */
  ghost function TestObs(clock: Clock, rs: seq<TestRecord>, n: string): seq<Obs> {
    if |rs| == 0 then []
    else
      var r := rs[|rs| - 1];
      TestObs(clock, rs[..|rs| - 1], n)
        + (if Trackable(r) && TaggedName(r) == n then [Obs(Duration(clock, r), r.matrixId)] else [])
  }

  /** The (start, end) readings of branch `m` on platform `p`, in record order. */
  ghost function SuiteObs(clock: Clock, rs: seq<TestRecord>, p: string, m: string): seq<Span> {
    if |rs| == 0 then []
    else
      var r := rs[|rs| - 1];
      SuiteObs(clock, rs[..|rs| - 1], p, m)
        + (if Trackable(r) && r.platform == p && r.matrixId == m
           then [Span(StartSeconds(clock, r), EndSeconds(clock, r))] else [])
  }

  lemma ObserveAllAppend(obs: seq<Obs>, o: Obs)
    ensures ObserveAll(obs + [o]) == Some(Observe(ObserveAll(obs), o))
  {
    assert (obs + [o])[..|obs|] == obs;
  }

  lemma SpanAllAppend(obs: seq<Span>, o: Span)
    ensures SpanAll(obs + [o]) == Some(Widen(SpanAll(obs), o.start, o.end))
  {
    assert (obs + [o])[..|obs|] == obs;
  }

  lemma TestDurationsStep(clock: Clock, rs: seq<TestRecord>, r: TestRecord)
    requires forall n :: Lookup(Fold(clock, rs).timings.tests, n) == ObserveAll(TestObs(clock, rs, n))
    ensures forall n :: Lookup(Fold(clock, rs + [r]).timings.tests, n) == ObserveAll(TestObs(clock, rs + [r], n))
  {
    FoldSnoc(clock, rs, r);
    LastOf(rs, r);
    TrackTimeTakenTests(clock, Fold(clock, rs).timings, r);
    forall n ensures Lookup(Fold(clock, rs + [r]).timings.tests, n) == ObserveAll(TestObs(clock, rs + [r], n)) {
      if Trackable(r) && TaggedName(r) == n {
        ObserveAllAppend(TestObs(clock, rs, n), Obs(Duration(clock, r), r.matrixId));
      } else {
        assert TestObs(clock, rs + [r], n) == TestObs(clock, rs, n);
      }
    }
  }

  /**
   The per-test duration entry of a tagged name holds the extremes of that
   name's trackable runs (see `ObserveAllExtremes`); names with none have no entry.
   */
  lemma {:induction false} FoldTestDurations(clock: Clock, rs: seq<TestRecord>)
    ensures forall n :: Lookup(Fold(clock, rs).timings.tests, n) == ObserveAll(TestObs(clock, rs, n))
  {
    if |rs| > 0 {
      var init, r := rs[..|rs| - 1], rs[|rs| - 1];
      assert init + [r] == rs;
      FoldTestDurations(clock, init);
      TestDurationsStep(clock, init, r);
    }
  }

  lemma SuiteSpansStep(clock: Clock, rs: seq<TestRecord>, r: TestRecord, p: string, m: string)
    requires SuiteSpan(Fold(clock, rs).timings, p, m) == SpanAll(SuiteObs(clock, rs, p, m))
    ensures SuiteSpan(Fold(clock, rs + [r]).timings, p, m) == SpanAll(SuiteObs(clock, rs + [r], p, m))
  {
    FoldSnoc(clock, rs, r);
    LastOf(rs, r);
    TrackTimeTakenSuites(clock, Fold(clock, rs).timings, r, p, m);
    if Trackable(r) && r.platform == p && r.matrixId == m {
      SpanAllAppend(SuiteObs(clock, rs, p, m), Span(StartSeconds(clock, r), EndSeconds(clock, r)));
    } else {
      assert SuiteObs(clock, rs + [r], p, m) == SuiteObs(clock, rs, p, m);
    }
  }

  /**
   The span of a (platform, branch) pair runs from the earliest start to the
   latest end of its trackable runs (see `SpanAllBounds`).
   */
  lemma {:induction false} FoldSuiteSpans(clock: Clock, rs: seq<TestRecord>, p: string, m: string)
    ensures SuiteSpan(Fold(clock, rs).timings, p, m) == SpanAll(SuiteObs(clock, rs, p, m))
  {
    if |rs| > 0 {
      var init, r := rs[..|rs| - 1], rs[|rs| - 1];
      assert init + [r] == rs;
      FoldSuiteSpans(clock, init, p, m);
      SuiteSpansStep(clock, init, r, p, m);
    }
  }

  /** A record with a null or fraction-less timestamp leaves both duration tables as they were. */
  lemma UntrackableKeepsDurations(clock: Clock, rs: seq<TestRecord>, r: TestRecord)
    requires r.startTime == NullTimestamp || r.endTime == NullTimestamp
          || |Text.Split(r.startTime, '.')| != 2 || |Text.Split(r.endTime, '.')| != 2
    ensures Fold(clock, rs + [r]).timings == Fold(clock, rs).timings
  {
    FoldSnoc(clock, rs, r);
    TrackTimeTakenTests(clock, Fold(clock, rs).timings, r);
  }

  /** A document missing a required field changes nothing, wherever it is in the listing. */
  lemma SkipInvalidArtifact(clock: Clock, before: seq<RawArtifact>, bad: RawArtifact, after: seq<RawArtifact>)
    requires !IsTestArtifact(bad)
    ensures ComputeTestSummary(clock, before + [bad] + after) == ComputeTestSummary(clock, before + after)
  {
    NormalizeSkips(before, bad, after);
  }

  /** Normalization drops a document that fails the presence check. */
  lemma NormalizeSkips(before: seq<RawArtifact>, bad: RawArtifact, after: seq<RawArtifact>)
    requires !IsTestArtifact(bad)
    ensures Normalize(before + [bad] + after) == Normalize(before + after)
  {
    NormalizeAppend(before + [bad], after);
    NormalizeAppend(before, [bad]);
    NormalizeAppend(before, after);
    NormalizeSingle(bad);
    assert NormalizeOne(bad) == [];
  }
}

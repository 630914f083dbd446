/**
 The report's tables read back in terms of the records that were folded into
 the summary: a bucket table lists exactly the buckets some record failed in,
 with that bucket's failures and runs; the failures-by-test table lists exactly
 the tests with an ordinary failure and never the report-reading pseudo test;
 and the overview of any computed summary never shows more failures than runs.
 */
module ReportProperties {
  import opened OrderedMaps
  import opened Records
  import opened Classifier
  import opened Durations
  import opened Aggregation
  import opened Sorting
  import opened SummaryProperties
  import opened InsertionOrder
  import opened Report

  /** A count map that counts `p` keyed by `kf` holds exactly the keys with a positive tally. */
  lemma CountedKeys(m: OMap<nat>, rs: seq<TestRecord>, p: Pred, kf: KeyFn)
    requires Counts(m, rs, p, kf)
    ensures forall k :: k in m.vals <==> Tally(rs, p, kf, k) > 0
  {
    forall k ensures k in m.vals <==> Tally(rs, p, kf, k) > 0 {
      assert Get(m, k, 0) == Tally(rs, p, kf, k);
    }
  }

  /**
   The bucket table of dimension `d`: a row for exactly the values some failed
   record carries, each with the number of failed and of all records carrying it.
   */
  lemma BucketTableTallies(clock: Clock, rs: seq<TestRecord>, d: Dim)
    ensures var rows := BucketRows(Fold(clock, rs).Dimension(d));
      && (forall k :: k in BucketColumn(rows) <==> Tally(rs, Failed, ByAttr(DimAttr(d)), k) > 0)
      && (forall i :: 0 <= i < |rows| ==>
            && rows[i].failed == Tally(rs, Failed, ByAttr(DimAttr(d)), rows[i].bucket)
            && rows[i].total == Tally(rs, Always, ByAttr(DimAttr(d)), rows[i].bucket))
      && (forall i, j :: 0 <= i < j < |rows| ==> rows[i].failed >= rows[j].failed)
  {
    var b := Fold(clock, rs).Dimension(d);
    FoldBuckets(clock, rs, d);
    DimensionBuckets(clock, rs, d);
    CountedKeys(b.failed, rs, Failed, ByAttr(DimAttr(d)));
    assert BucketsOk(b);
    BucketRowsOrdered(b);
  }

  /**
   The failures-by-test table: a row for exactly the tests with a failure that
   is not the report-reading pseudo test, each with its failures and runs; the
   pseudo test never gets a row.
   */
  lemma TestTableTallies(clock: Clock, rs: seq<TestRecord>)
    ensures var rows := TestRows(Fold(clock, rs).byTest);
      && (forall n :: n in TestColumn(rows) <==> Tally(rs, TestFailure, ByAttr(Name), n) > 0)
      && GinkgoReportName !in TestColumn(rows)
      && (forall i :: 0 <= i < |rows| ==>
            && rows[i].failed == Tally(rs, TestFailure, ByAttr(Name), rows[i].test)
            && rows[i].total == Tally(rs, Always, ByAttr(Name), rows[i].test))
  {
    var b := Fold(clock, rs).byTest;
    FoldCounts(clock, rs, TestFailed);
    assert CounterOf(Fold(clock, rs), TestFailed) == b.failed;
    CountedKeys(b.failed, rs, TestFailure, ByAttr(Name));
    ByTestBuckets(clock, rs);
    TestRowsShape(b);
    SortDescKeys(b.failed.keys, CountOf(b.failed));
    NoGinkgoTally(rs);
  }

  /** No overview row of a computed summary shows more failures than its total. */
  lemma ComputedOverviewBounded(clock: Clock, raws: seq<RawArtifact>)
    ensures forall row :: row in OverviewRows(CompileOverview(ComputeTestSummary(clock, raws))) ==> row.failed <= row.outOf
  {
    OverviewRowsBounded(ComputeTestSummary(clock, raws));
  }

  /** Every record carries `v` in field `a`. */
  ghost predicate Uniform(rs: seq<TestRecord>, a: Attr, v: string) {
    forall i :: 0 <= i < |rs| ==> AttrOf(rs[i], a) == v
  }

  lemma {:induction false} UniformTally(rs: seq<TestRecord>, p: Pred, a: Attr, v: string, k: string)
    requires Uniform(rs, a, v)
    ensures Tally(rs, p, ByAttr(a), k) == if k == v then Count(rs, p) else 0
  {
    if |rs| > 0 {
      var init := rs[..|rs| - 1];
      assert Uniform(init, a, v) by {
        forall i | 0 <= i < |init| ensures AttrOf(init[i], a) == v {
          assert init[i] == rs[i];
        }
      }
      UniformTally(init, p, a, v, k);
    }
  }

  /** A duplicate-free list whose only element is `v` is `[v]`. */
  lemma OnlyElement(s: seq<string>, v: string)
    requires Distinct(s)
    requires forall x :: x in s <==> x == v
    ensures s == [v]
  {
    DistinctCard(s);
    assert ToSet(s) == {v};
    assert s[0] in s;
  }

  /** With every record carrying `v` in dimension `d`, both count maps hold `v` alone. */
  lemma UniformBuckets(clock: Clock, rs: seq<TestRecord>, d: Dim, v: string)
    requires |rs| > 0 && Uniform(rs, DimAttr(d), v)
    ensures var s := Fold(clock, rs);
      && Valid(s.Dimension(d).total) && Valid(s.Dimension(d).failed)
      && (forall k :: k in s.Dimension(d).total.vals <==> k == v)
      && Get(s.Dimension(d).total, v, 0) == |rs|
      && (forall k :: k in s.Dimension(d).failed.vals <==> k == v && s.totalFailed > 0)
      && Get(s.Dimension(d).failed, v, 0) == s.totalFailed
  {
    var b := Fold(clock, rs).Dimension(d);
    FoldBuckets(clock, rs, d);
    FoldTotals(clock, rs);
    CountAlways(rs);
    UniformCounts(b.total, rs, Always, DimAttr(d), v);
    UniformCounts(b.failed, rs, Failed, DimAttr(d), v);
  }

  /** A count map keyed by a field every record shares holds that one value's count alone. */
  lemma UniformCounts(m: OMap<nat>, rs: seq<TestRecord>, p: Pred, a: Attr, v: string)
    requires Counts(m, rs, p, ByAttr(a)) && Uniform(rs, a, v)
    ensures Valid(m)
    ensures Get(m, v, 0) == Count(rs, p)
    ensures forall k :: k in m.vals <==> k == v && Count(rs, p) > 0
  {
    UniformTally(rs, p, a, v, v);
    assert Get(m, v, 0) == Tally(rs, p, ByAttr(a), v);
    forall k ensures k in m.vals <==> k == v && Count(rs, p) > 0 {
      UniformTally(rs, p, a, v, k);
      assert Get(m, k, 0) == Tally(rs, p, ByAttr(a), k);
    }
  }

  /**
   When every record carries the same value `v` in dimension `d`, the bucketing
   has the single bucket `v` holding every run and every failure, and the bucket
   table has one row for it exactly when something failed.
   */
  lemma SingleBucket(clock: Clock, rs: seq<TestRecord>, d: Dim, v: string)
    requires |rs| > 0 && Uniform(rs, DimAttr(d), v)
    ensures var s := Fold(clock, rs);
      && s.Dimension(d).total.keys == [v] && s.Dimension(d).total.vals[v] == |rs|
      && Get(s.Dimension(d).failed, v, 0) == s.totalFailed
      && BucketRows(s.Dimension(d)) == if s.totalFailed == 0 then [] else [BucketRow(s.totalFailed, |rs|, v)]
  {
    UniformBuckets(clock, rs, d, v);
    OneBucketRows(Fold(clock, rs).Dimension(d), v, |rs|, Fold(clock, rs).totalFailed);
  }

  /** The table of a bucketing with the one bucket `v`. */
  lemma OneBucketRows(b: Buckets, v: string, runs: nat, failed: nat)
    requires Valid(b.total) && Valid(b.failed)
    requires (forall k :: k in b.total.vals <==> k == v) && Get(b.total, v, 0) == runs
    requires (forall k :: k in b.failed.vals <==> k == v && failed > 0) && Get(b.failed, v, 0) == failed
    ensures b.total.keys == [v] && b.total.vals[v] == runs
    ensures BucketRows(b) == if failed == 0 then [] else [BucketRow(failed, runs, v)]
  {
    OnlyElement(b.total.keys, v);
    BucketRowsShape(b);
    if failed == 0 {
      assert b.failed.keys == [] by {
        assert forall x :: x !in b.failed.keys;
      }
    } else {
      OnlyElement(b.failed.keys, v);
      assert SortDesc([v], CountOf(b.failed)) == [v];
      assert BucketRows(b)[0] == BucketRow(failed, runs, v);
    }
  }

  // ---------------------------------------------------------------- ties

  /** Two sorted keys of equal value, taken from a first-seen listing, stand in the order they were first seen. */
  lemma TieFirstSeen(rs: seq<TestRecord>, l: Listing, value: Value, i: int, j: int)
    requires 0 <= i < j < |FirstSeen(rs, l)|
    requires var sorted := SortDesc(FirstSeen(rs, l), value); value(sorted[i]) == value(sorted[j])
    ensures var sorted := SortDesc(FirstSeen(rs, l), value); SeenBefore(rs, l, sorted[i], sorted[j])
  {
    var sorted := SortDesc(FirstSeen(rs, l), value);
    assert Before(sorted, sorted[i], sorted[j]);
    SortDescTies(FirstSeen(rs, l), value, sorted[i], sorted[j]);
    FirstSeenBefore(rs, l, sorted[i], sorted[j]);
  }

  /** A bucket table over a first-seen listing keeps buckets of equal failures in first-seen order. */
  lemma BucketTies(b: Buckets, rs: seq<TestRecord>, l: Listing)
    requires b.failed.keys == FirstSeen(rs, l)
    ensures var rows := BucketRows(b);
      forall i, j :: 0 <= i < j < |rows| && rows[i].failed == rows[j].failed ==> SeenBefore(rs, l, rows[i].bucket, rows[j].bucket)
  {
    var rows := BucketRows(b);
    BucketRowsShape(b);
    forall i, j | 0 <= i < j < |rows| && rows[i].failed == rows[j].failed
      ensures SeenBefore(rs, l, rows[i].bucket, rows[j].bucket)
    {
      TieFirstSeen(rs, l, CountOf(b.failed), i, j);
    }
  }

  /** Buckets of dimension `d` with as many failures are listed in the order of their first failure. */
  lemma BucketTableTies(clock: Clock, rs: seq<TestRecord>, d: Dim)
    ensures var rows := BucketRows(Fold(clock, rs).Dimension(d));
      forall i, j :: 0 <= i < j < |rows| && rows[i].failed == rows[j].failed ==>
        SeenBefore(rs, KeysOf(Failed, ByAttr(DimAttr(d))), rows[i].bucket, rows[j].bucket)
  {
    FoldCounterOrder(clock, rs, DimFailed(d));
    BucketTies(Fold(clock, rs).Dimension(d), rs, KeysOf(Failed, ByAttr(DimAttr(d))));
  }

  /** A failures-by-test table over a first-seen listing keeps tests of equal failures in first-seen order. */
  lemma TestTies(b: ByTest, rs: seq<TestRecord>, l: Listing)
    requires b.failed.keys == FirstSeen(rs, l)
    ensures var rows := TestRows(b);
      forall i, j :: 0 <= i < j < |rows| && rows[i].failed == rows[j].failed ==> SeenBefore(rs, l, rows[i].test, rows[j].test)
  {
    var rows := TestRows(b);
    TestRowsShape(b);
    forall i, j | 0 <= i < j < |rows| && rows[i].failed == rows[j].failed
      ensures SeenBefore(rs, l, rows[i].test, rows[j].test)
    {
      TieFirstSeen(rs, l, CountOf(b.failed), i, j);
    }
  }

  /** Tests with as many failures are listed in the order of their first failure. */
  lemma TestTableTies(clock: Clock, rs: seq<TestRecord>)
    ensures var rows := TestRows(Fold(clock, rs).byTest);
      forall i, j :: 0 <= i < j < |rows| && rows[i].failed == rows[j].failed ==>
        SeenBefore(rs, KeysOf(TestFailure, ByAttr(Name)), rows[i].test, rows[j].test)
  {
    FoldCounterOrder(clock, rs, TestFailed);
    TestTies(Fold(clock, rs).byTest, rs, KeysOf(TestFailure, ByAttr(Name)));
  }

  /** A breakdown list in first-seen order, read for key `k`. */
  lemma ListOf(m: OMap<seq<string>>, rs: seq<TestRecord>, f: SetField, k: string)
    requires ValuesInOrder(m, rs, SetPred(f), SetKey(f), SetAttr(f))
    ensures Get(m, k, []) == FirstSeen(rs, ValuesOf(SetPred(f), SetKey(f), SetAttr(f), k))
  {
  }

  /** Each row of the failures-by-test table lists versions and platforms in the order the test first failed on them. */
  lemma TestTableLists(clock: Clock, rs: seq<TestRecord>)
    ensures var rows := TestRows(Fold(clock, rs).byTest);
      forall i :: 0 <= i < |rows| ==>
        && rows[i].k8s == FirstSeen(rs, ValuesOf(TestFailure, ByAttr(Name), K8s, rows[i].test))
        && rows[i].pg == FirstSeen(rs, ValuesOf(TestFailure, ByAttr(Name), Postgres, rows[i].test))
        && rows[i].platforms == FirstSeen(rs, ValuesOf(TestFailure, ByAttr(Name), Platform, rows[i].test))
  {
    var b := Fold(clock, rs).byTest;
    var rows := TestRows(b);
    FoldValuesOrder(clock, rs, TestK8s);
    FoldValuesOrder(clock, rs, TestPg);
    FoldValuesOrder(clock, rs, TestPlatforms);
    TestRowsShape(b);
    forall i | 0 <= i < |rows|
      ensures && rows[i].k8s == FirstSeen(rs, ValuesOf(TestFailure, ByAttr(Name), K8s, rows[i].test))
              && rows[i].pg == FirstSeen(rs, ValuesOf(TestFailure, ByAttr(Name), Postgres, rows[i].test))
              && rows[i].platforms == FirstSeen(rs, ValuesOf(TestFailure, ByAttr(Name), Platform, rows[i].test))
    {
      ListOf(b.k8sFailed, rs, TestK8s, rows[i].test);
      ListOf(b.pgFailed, rs, TestPg, rows[i].test);
      ListOf(b.platformsFailed, rs, TestPlatforms, rows[i].test);
    }
  }

  /** A special-failures table over a first-seen listing keeps labels of equal count in first-seen order. */
  lemma SpecialTies(b: BySpecial, rs: seq<TestRecord>, l: Listing)
    requires b.total.keys == FirstSeen(rs, l)
    ensures var rows := SpecialRows(b);
      forall i, j :: 0 <= i < j < |rows| && rows[i].count == rows[j].count ==> SeenBefore(rs, l, rows[i].failure, rows[j].failure)
  {
    var rows := SpecialRows(b);
    SpecialRowsShape(b);
    forall i, j | 0 <= i < j < |rows| && rows[i].count == rows[j].count
      ensures SeenBefore(rs, l, rows[i].failure, rows[j].failure)
    {
      TieFirstSeen(rs, l, CountOf(b.total), i, j);
    }
  }

  /** Special-failure labels seen as often are listed in the order of their first occurrence. */
  lemma SpecialTableTies(clock: Clock, rs: seq<TestRecord>)
    ensures var rows := SpecialRows(Fold(clock, rs).bySpecial);
      forall i, j :: 0 <= i < j < |rows| && rows[i].count == rows[j].count ==>
        SeenBefore(rs, KeysOf(SpecialFailure, ByLabel), rows[i].failure, rows[j].failure)
  {
    FoldCounterOrder(clock, rs, SpecialTotal);
    SpecialTies(Fold(clock, rs).bySpecial, rs, KeysOf(SpecialFailure, ByLabel));
  }

  /** The breakdown lists of row `i` of a special-failures table whose maps are in first-seen order. */
  lemma SpecialRowLists(b: BySpecial, rs: seq<TestRecord>, i: int)
    requires ValuesInOrder(b.testsFailed, rs, SpecialFailure, ByLabel, Name)
    requires ValuesInOrder(b.k8sFailed, rs, SpecialFailure, ByLabel, K8s)
    requires ValuesInOrder(b.pgFailed, rs, SpecialFailure, ByLabel, Postgres)
    requires ValuesInOrder(b.platformsFailed, rs, SpecialFailure, ByLabel, Platform)
    requires 0 <= i < |SpecialRows(b)|
    ensures var row := SpecialRows(b)[i];
      && row.tests == FirstSeen(rs, ValuesOf(SpecialFailure, ByLabel, Name, row.failure))
      && row.k8s == FirstSeen(rs, ValuesOf(SpecialFailure, ByLabel, K8s, row.failure))
      && row.pg == FirstSeen(rs, ValuesOf(SpecialFailure, ByLabel, Postgres, row.failure))
      && row.platforms == FirstSeen(rs, ValuesOf(SpecialFailure, ByLabel, Platform, row.failure))
  {
    var row := SpecialRows(b)[i];
    assert row.tests == Get(b.testsFailed, row.failure, []) && row.k8s == Get(b.k8sFailed, row.failure, []);
    assert row.pg == Get(b.pgFailed, row.failure, []) && row.platforms == Get(b.platformsFailed, row.failure, []);
    ListOf(b.testsFailed, rs, SpecialTests, row.failure);
    ListOf(b.k8sFailed, rs, SpecialK8s, row.failure);
    ListOf(b.pgFailed, rs, SpecialPg, row.failure);
    ListOf(b.platformsFailed, rs, SpecialPlatforms, row.failure);
  }

  /** The breakdown lists of a special-failures table whose maps are in first-seen order. */
  lemma SpecialLists(b: BySpecial, rs: seq<TestRecord>)
    requires ValuesInOrder(b.testsFailed, rs, SpecialFailure, ByLabel, Name)
    requires ValuesInOrder(b.k8sFailed, rs, SpecialFailure, ByLabel, K8s)
    requires ValuesInOrder(b.pgFailed, rs, SpecialFailure, ByLabel, Postgres)
    requires ValuesInOrder(b.platformsFailed, rs, SpecialFailure, ByLabel, Platform)
    ensures var rows := SpecialRows(b);
      forall i :: 0 <= i < |rows| ==>
        && rows[i].tests == FirstSeen(rs, ValuesOf(SpecialFailure, ByLabel, Name, rows[i].failure))
        && rows[i].k8s == FirstSeen(rs, ValuesOf(SpecialFailure, ByLabel, K8s, rows[i].failure))
        && rows[i].pg == FirstSeen(rs, ValuesOf(SpecialFailure, ByLabel, Postgres, rows[i].failure))
        && rows[i].platforms == FirstSeen(rs, ValuesOf(SpecialFailure, ByLabel, Platform, rows[i].failure))
  {
    var rows := SpecialRows(b);
    forall i | 0 <= i < |rows|
      ensures && rows[i].tests == FirstSeen(rs, ValuesOf(SpecialFailure, ByLabel, Name, rows[i].failure))
              && rows[i].k8s == FirstSeen(rs, ValuesOf(SpecialFailure, ByLabel, K8s, rows[i].failure))
              && rows[i].pg == FirstSeen(rs, ValuesOf(SpecialFailure, ByLabel, Postgres, rows[i].failure))
              && rows[i].platforms == FirstSeen(rs, ValuesOf(SpecialFailure, ByLabel, Platform, rows[i].failure))
    {
      SpecialRowLists(b, rs, i);
    }
  }

  /** Each row of the special-failures table lists tests, versions and platforms in the order the label first met them. */
  lemma SpecialTableLists(clock: Clock, rs: seq<TestRecord>)
    ensures var rows := SpecialRows(Fold(clock, rs).bySpecial);
      forall i :: 0 <= i < |rows| ==>
        && rows[i].tests == FirstSeen(rs, ValuesOf(SpecialFailure, ByLabel, Name, rows[i].failure))
        && rows[i].k8s == FirstSeen(rs, ValuesOf(SpecialFailure, ByLabel, K8s, rows[i].failure))
        && rows[i].pg == FirstSeen(rs, ValuesOf(SpecialFailure, ByLabel, Postgres, rows[i].failure))
        && rows[i].platforms == FirstSeen(rs, ValuesOf(SpecialFailure, ByLabel, Platform, rows[i].failure))
  {
    FoldValuesOrder(clock, rs, SpecialTests);
    FoldValuesOrder(clock, rs, SpecialK8s);
    FoldValuesOrder(clock, rs, SpecialPg);
    FoldValuesOrder(clock, rs, SpecialPlatforms);
    SpecialLists(Fold(clock, rs).bySpecial, rs);
  }

  /** A failures-by-code table over a first-seen listing keeps locations of equal count in first-seen order. */
  lemma CodeTies(b: ByCode, rs: seq<TestRecord>, l: Listing)
    requires b.total.keys == FirstSeen(rs, l)
    ensures var rows := CodeRows(b);
      forall i, j :: 0 <= i < j < |rows| && rows[i].count == rows[j].count ==> SeenBefore(rs, l, rows[i].location, rows[j].location)
  {
    var rows := CodeRows(b);
    CodeRowsShape(b);
    forall i, j | 0 <= i < j < |rows| && rows[i].count == rows[j].count
      ensures SeenBefore(rs, l, rows[i].location, rows[j].location)
    {
      TieFirstSeen(rs, l, CountOf(b.total), i, j);
    }
  }

  /**
   The failures-by-code table lists locations failing as often in the order of
   their first failure, and each row's tests in the order they first failed there.
   */
  lemma CodeTableOrder(clock: Clock, rs: seq<TestRecord>)
    ensures var rows := CodeRows(Fold(clock, rs).byCode);
      && (forall i, j :: 0 <= i < j < |rows| && rows[i].count == rows[j].count ==>
            SeenBefore(rs, KeysOf(CodeFailure, ByLocation), rows[i].location, rows[j].location))
      && (forall i :: 0 <= i < |rows| ==>
            rows[i].tests == FirstSeen(rs, ValuesOf(CodeFailure, ByLocation, Name, rows[i].location)))
  {
    var b := Fold(clock, rs).byCode;
    var rows := CodeRows(b);
    FoldCounterOrder(clock, rs, CodeTotal);
    FoldValuesOrder(clock, rs, CodeTests);
    CodeTies(b, rs, KeysOf(CodeFailure, ByLocation));
    CodeRowsShape(b);
    forall i | 0 <= i < |rows| ensures rows[i].tests == FirstSeen(rs, ValuesOf(CodeFailure, ByLocation, Name, rows[i].location)) {
      ListOf(b.tests, rs, CodeTests, rows[i].location);
    }
  }

  /** A timing table over a first-seen listing keeps names of equal longest duration in first-seen order. */
  lemma DurationTies(t: OMap<Extremes>, rs: seq<TestRecord>, l: Listing)
    requires t.keys == FirstSeen(rs, l)
    ensures var rows := DurationRows(t);
      forall i, j :: 0 <= i < j < |rows| && ExtremesOf(t, rows[i].name).max == ExtremesOf(t, rows[j].name).max ==>
        SeenBefore(rs, l, rows[i].name, rows[j].name)
  {
    var rows := DurationRows(t);
    DurationRowsShape(t);
    forall i, j | 0 <= i < j < |rows| && ExtremesOf(t, rows[i].name).max == ExtremesOf(t, rows[j].name).max
      ensures SeenBefore(rs, l, rows[i].name, rows[j].name)
    {
      TieFirstSeen(rs, l, MaxOf(t), i, j);
    }
  }

  /** The per-test timing table lists names of equal longest duration in the order of their first trackable run. */
  lemma TestTimesTies(clock: Clock, rs: seq<TestRecord>)
    ensures var t := Fold(clock, rs).timings.tests;
      var rows := DurationRows(t);
      forall i, j :: 0 <= i < j < |rows| && ExtremesOf(t, rows[i].name).max == ExtremesOf(t, rows[j].name).max ==>
        SeenBefore(rs, TrackedNames, rows[i].name, rows[j].name)
  {
    FoldTimingsOrder(clock, rs);
    DurationTies(Fold(clock, rs).timings.tests, rs, TrackedNames);
  }

  /** The suite timing table lists platforms of equal longest span in the order of their first trackable run. */
  lemma SuiteTimesTies(clock: Clock, rs: seq<TestRecord>)
    ensures var suites := Fold(clock, rs).timings.suites;
      var t := ReduceSuiteDurations(suites.keys, suites.vals);
      var rows := SuiteRows(suites);
      forall i, j :: 0 <= i < j < |rows| && ExtremesOf(t, rows[i].name).max == ExtremesOf(t, rows[j].name).max ==>
        SeenBefore(rs, TrackedPlatforms, rows[i].name, rows[j].name)
  {
    var suites := Fold(clock, rs).timings.suites;
    SuitePlatformsOrder(clock, rs);
    DurationTies(ReduceSuiteDurations(suites.keys, suites.vals), rs, TrackedPlatforms);
  }
}

/**
 The order of the summary's dictionaries. A Python dictionary lists its keys
 in the order they were first written, and the fold writes a key when it meets
 the first record that carries it; so every count map, breakdown map and
 timing map lists its keys, and every breakdown list its values, in the order
 of the first record that contributed them. This is the order the report's
 tables fall back on for rows of equal value.
 */
module InsertionOrder {
  import opened OrderedMaps
  import opened Records
  import opened Durations
  import opened Aggregation
  import opened Sorting
  import opened SummaryProperties

  /** What a dictionary of the summary lists, and for which records. */
  datatype Listing =
    | KeysOf(p: Pred, kf: KeyFn)                         // the keys of a count or breakdown map
    | ValuesOf(p: Pred, kf: KeyFn, a: Attr, k: string)   // the breakdown list of key `k`
    | TrackedNames                                       // the tagged names of the per-test timings
    | TrackedPlatforms                                   // the platforms of the suite timings

  /** Whether record `r` contributes to listing `l`. */
  predicate Lists(l: Listing, r: TestRecord) {
    match l
    case KeysOf(p, _) => Holds(p, r)
    case ValuesOf(p, kf, _, k) => Holds(p, r) && KeyOf(kf, r) == k
    case TrackedNames => Trackable(r)
    case TrackedPlatforms => Trackable(r)
  }

  /** What record `r` contributes to listing `l`. */
  function Listed(l: Listing, r: TestRecord): string {
    match l
    case KeysOf(_, kf) => KeyOf(kf, r)
    case ValuesOf(_, _, a, _) => AttrOf(r, a)
    case TrackedNames => TaggedName(r)
    case TrackedPlatforms => r.platform
  }

  /** Record `y` of `rs` contributes `v` to listing `l`. */
  ghost predicate ListedAt(rs: seq<TestRecord>, l: Listing, v: string, y: int) {
    0 <= y < |rs| && Lists(l, rs[y]) && Listed(l, rs[y]) == v
  }

  /** The values the records contribute to `l`, each once, in the order of the first record contributing it. */
  ghost function FirstSeen(rs: seq<TestRecord>, l: Listing): seq<string> {
    if |rs| == 0 then []
    else
      var r := rs[|rs| - 1];
      var seen := FirstSeen(rs[..|rs| - 1], l);
      if Lists(l, r) then Insert(seen, Listed(l, r)) else seen
  }

  /** `a` was contributed before `b`: every record contributing `b` comes after one contributing `a`. */
  ghost predicate SeenBefore(rs: seq<TestRecord>, l: Listing, a: string, b: string) {
    forall y :: ListedAt(rs, l, b, y) ==> exists x :: 0 <= x < y && ListedAt(rs, l, a, x)
  }

  lemma FirstSeenSnoc(rs: seq<TestRecord>, r: TestRecord, l: Listing)
    ensures FirstSeen(rs + [r], l) == if Lists(l, r) then Insert(FirstSeen(rs, l), Listed(l, r)) else FirstSeen(rs, l)
  {
    LastOf(rs, r);
  }

  /** The first-seen listing of `rs + [r]`, given that of `rs`: which values occur. */
  lemma FirstSeenMembersStep(rs: seq<TestRecord>, r: TestRecord, l: Listing)
    requires forall v :: v in FirstSeen(rs, l) <==> exists y :: ListedAt(rs, l, v, y)
    ensures forall v :: v in FirstSeen(rs + [r], l) <==> exists y :: ListedAt(rs + [r], l, v, y)
  {
    FirstSeenSnoc(rs, r, l);
    LastOf(rs, r);
    var rs' := rs + [r];
    forall v ensures v in FirstSeen(rs', l) <==> exists y :: ListedAt(rs', l, v, y) {
      if v in FirstSeen(rs', l) {
        if v in FirstSeen(rs, l) {
          var y :| ListedAt(rs, l, v, y);
          assert ListedAt(rs', l, v, y);
        } else {
          assert ListedAt(rs', l, v, |rs|);
        }
      } else {
        forall y | 0 <= y < |rs'| ensures !ListedAt(rs', l, v, y) {
          if y < |rs| && ListedAt(rs', l, v, y) {
            assert ListedAt(rs, l, v, y);
          }
        }
      }
    }
  }

  /** The first-seen listing of `rs + [r]`, given that of `rs`: the order of first contributions. */
  lemma FirstSeenOrderStep(rs: seq<TestRecord>, r: TestRecord, l: Listing)
    requires forall v :: v in FirstSeen(rs, l) <==> exists y :: ListedAt(rs, l, v, y)
    requires forall i, j :: 0 <= i < j < |FirstSeen(rs, l)| ==> SeenBefore(rs, l, FirstSeen(rs, l)[i], FirstSeen(rs, l)[j])
    ensures forall i, j :: 0 <= i < j < |FirstSeen(rs + [r], l)| ==>
      SeenBefore(rs + [r], l, FirstSeen(rs + [r], l)[i], FirstSeen(rs + [r], l)[j])
  {
    FirstSeenSnoc(rs, r, l);
    LastOf(rs, r);
    var rs', seen, seen' := rs + [r], FirstSeen(rs, l), FirstSeen(rs + [r], l);
    forall i, j | 0 <= i < j < |seen'| ensures SeenBefore(rs', l, seen'[i], seen'[j]) {
      var a, b := seen'[i], seen'[j];
      assert a == seen[i];
      forall y | ListedAt(rs', l, b, y) ensures exists x :: 0 <= x < y && ListedAt(rs', l, a, x) {
        if j < |seen| {
          assert b == seen[j];
          var y0 := y;
          if y == |rs| {
            assert b in seen;
            y0 :| ListedAt(rs, l, b, y0);
          } else {
            assert ListedAt(rs, l, b, y);
          }
          var x :| 0 <= x < y0 && ListedAt(rs, l, a, x);
          assert ListedAt(rs', l, a, x);
        } else {
          assert b == Listed(l, r) && b !in seen;
          if y < |rs| {
            assert ListedAt(rs, l, b, y);
            assert false;
          }
          assert a in seen;
          var x :| ListedAt(rs, l, a, x);
          assert ListedAt(rs', l, a, x);
        }
      }
    }
  }

  /**
   The first-seen listing holds no value twice, holds exactly the values some
   record contributes, and lists them in the order of their first contribution.
   */
  lemma {:induction false} FirstSeenOrder(rs: seq<TestRecord>, l: Listing)
    ensures Distinct(FirstSeen(rs, l))
    ensures forall v :: v in FirstSeen(rs, l) <==> exists y :: ListedAt(rs, l, v, y)
    ensures forall i, j :: 0 <= i < j < |FirstSeen(rs, l)| ==> SeenBefore(rs, l, FirstSeen(rs, l)[i], FirstSeen(rs, l)[j])
  {
    if |rs| > 0 {
      var init, r := rs[..|rs| - 1], rs[|rs| - 1];
      assert init + [r] == rs;
      FirstSeenOrder(init, l);
      FirstSeenSnoc(init, r, l);
      FirstSeenMembersStep(init, r, l);
      FirstSeenOrderStep(init, r, l);
    }
  }

  /** Standing earlier in the first-seen listing means being contributed earlier. */
  lemma FirstSeenBefore(rs: seq<TestRecord>, l: Listing, a: string, b: string)
    requires Before(FirstSeen(rs, l), a, b)
    ensures SeenBefore(rs, l, a, b)
  {
    FirstSeenOrder(rs, l);
  }

  // ---------------------------------------------------------------- count and breakdown maps

  lemma CountStepOrder(m: OMap<nat>, rs: seq<TestRecord>, p: Pred, kf: KeyFn, r: TestRecord)
    requires Valid(m) && m.keys == FirstSeen(rs, KeysOf(p, kf))
    ensures Valid(CountStep(m, p, kf, r)) && CountStep(m, p, kf, r).keys == FirstSeen(rs + [r], KeysOf(p, kf))
  {
    FirstSeenSnoc(rs, r, KeysOf(p, kf));
  }

  /** Every count map of the folded summary lists its keys in the order of their first counted record. */
  lemma {:induction false} FoldCounterOrder(clock: Clock, rs: seq<TestRecord>, f: CounterField)
    ensures Valid(CounterOf(Fold(clock, rs), f))
    ensures CounterOf(Fold(clock, rs), f).keys == FirstSeen(rs, KeysOf(CounterPred(f), CounterKey(f)))
  {
    if |rs| > 0 {
      var init, r := rs[..|rs| - 1], rs[|rs| - 1];
      assert init + [r] == rs;
      FoldCounterOrder(clock, init, f);
      FoldSnoc(clock, init, r);
      StepCounter(clock, Fold(clock, init), r, f);
      CountStepOrder(CounterOf(Fold(clock, init), f), init, CounterPred(f), CounterKey(f), r);
    }
  }

  /** Every list of a breakdown map is in first-seen order. */
  ghost predicate ValuesInOrder(m: OMap<seq<string>>, rs: seq<TestRecord>, p: Pred, kf: KeyFn, a: Attr) {
    forall k :: Get(m, k, []) == FirstSeen(rs, ValuesOf(p, kf, a, k))
  }

  /** A breakdown map whose keys and lists are in first-seen order. */
  ghost predicate ListsInOrder(m: OMap<seq<string>>, rs: seq<TestRecord>, p: Pred, kf: KeyFn, a: Attr) {
    && Valid(m)
    && m.keys == FirstSeen(rs, KeysOf(p, kf))
    && ValuesInOrder(m, rs, p, kf, a)
  }

  lemma CollectStepOrder(m: OMap<seq<string>>, rs: seq<TestRecord>, p: Pred, kf: KeyFn, a: Attr, r: TestRecord)
    requires ListsInOrder(m, rs, p, kf, a)
    ensures ListsInOrder(CollectStep(m, p, kf, a, r), rs + [r], p, kf, a)
  {
    FirstSeenSnoc(rs, r, KeysOf(p, kf));
    forall k ensures Get(CollectStep(m, p, kf, a, r), k, []) == FirstSeen(rs + [r], ValuesOf(p, kf, a, k)) {
      FirstSeenSnoc(rs, r, ValuesOf(p, kf, a, k));
    }
  }

  /**
   Every breakdown map of the folded summary lists its keys in the order of
   their first counted record, and each key's values in the order of the first
   counted record carrying them.
   */
  lemma {:induction false} FoldSetOrder(clock: Clock, rs: seq<TestRecord>, f: SetField)
    ensures ListsInOrder(SetOf(Fold(clock, rs), f), rs, SetPred(f), SetKey(f), SetAttr(f))
  {
    if |rs| > 0 {
      var init, r := rs[..|rs| - 1], rs[|rs| - 1];
      assert init + [r] == rs;
      FoldSetOrder(clock, init, f);
      FoldSnoc(clock, init, r);
      StepSet(clock, Fold(clock, init), r, f);
      CollectStepOrder(SetOf(Fold(clock, init), f), init, SetPred(f), SetKey(f), SetAttr(f), r);
    }
  }

  /** The lists of every breakdown map of the folded summary, read on their own. */
  lemma FoldValuesOrder(clock: Clock, rs: seq<TestRecord>, f: SetField)
    ensures ValuesInOrder(SetOf(Fold(clock, rs), f), rs, SetPred(f), SetKey(f), SetAttr(f))
  {
    FoldSetOrder(clock, rs, f);
  }

  // ---------------------------------------------------------------- timing maps

  /** The timing maps in first-seen order, every platform with at least one branch. */
  ghost predicate TimingsInOrder(t: Timings, rs: seq<TestRecord>) {
    && TimingsValid(t)
    && t.tests.keys == FirstSeen(rs, TrackedNames)
    && t.suites.keys == FirstSeen(rs, TrackedPlatforms)
    && forall p :: p in t.suites.vals ==> |t.suites.vals[p].keys| > 0
  }

  lemma TrackTimeTakenOrder(clock: Clock, t: Timings, rs: seq<TestRecord>, r: TestRecord)
    requires TimingsInOrder(t, rs)
    ensures TimingsInOrder(TrackTimeTaken(clock, t, r), rs + [r])
  {
    FirstSeenSnoc(rs, r, TrackedNames);
    FirstSeenSnoc(rs, r, TrackedPlatforms);
    TrackTimeTakenValid(clock, t, r);
    if Trackable(r) {
      var inner := Get(t.suites, r.platform, Empty());
      var t' := TrackTimeTaken(clock, t, r);
      assert t'.suites.vals[r.platform].keys == Put(inner, r.matrixId, Widen(Lookup(inner, r.matrixId), StartSeconds(clock, r), EndSeconds(clock, r))).keys;
    }
  }

  /** The timing maps of the folded summary list names and platforms in the order of their first trackable record. */
  lemma {:induction false} FoldTimingsOrder(clock: Clock, rs: seq<TestRecord>)
    ensures TimingsInOrder(Fold(clock, rs).timings, rs)
  {
    if |rs| > 0 {
      var init, r := rs[..|rs| - 1], rs[|rs| - 1];
      assert init + [r] == rs;
      FoldTimingsOrder(clock, init);
      FoldSnoc(clock, init, r);
      TrackTimeTakenOrder(clock, Fold(clock, init).timings, init, r);
    } else {
      assert Fold(clock, rs).timings == EmptyTimings();
    }
  }

  /** A platform with a branch always gets its row, so the reduction keeps every platform, in order. */
  lemma {:induction false} ReduceKeepsPlatforms(keys: seq<string>, suites: map<string, OMap<Span>>)
    requires Distinct(keys)
    requires forall p :: p in keys ==> p in suites && |suites[p].keys| > 0
    ensures ReduceSuiteDurations(keys, suites).keys == keys
  {
    if |keys| > 0 {
      var init, p := keys[..|keys| - 1], keys[|keys| - 1];
      assert init + [p] == keys;
      assert forall q :: q in init ==> q in keys;
      ReduceKeepsPlatforms(init, suites);
      assert |PlatformObs(suites[p])| > 0;
      assert p !in init;
    }
  }

  /** The suite table reduces every platform of the folded summary, in the order of its first trackable record. */
  lemma SuitePlatformsOrder(clock: Clock, rs: seq<TestRecord>)
    ensures var suites := Fold(clock, rs).timings.suites;
      ReduceSuiteDurations(suites.keys, suites.vals).keys == FirstSeen(rs, TrackedPlatforms)
  {
    var suites := Fold(clock, rs).timings.suites;
    FoldTimingsOrder(clock, rs);
    ReduceKeepsPlatforms(suites.keys, suites.vals);
  }
}

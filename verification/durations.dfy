/**
 Duration tracking: the per-test shortest/longest run with the branch of the
 longest, the per-(platform, matrix branch) wall-clock span, the per-platform
 reduction of those spans, and the rendering of a duration.

 Timestamps stay strings; `Clock` stands for the whole-second ISO-8601 parse
 of the part before the fractional dot, giving seconds on one time line.
 */
module Durations {
  import opened Wrappers
  import opened OrderedMaps
  import opened Text
  import opened Records
  import opened Classifier

  /** The zero-value timestamp that means "unavailable". */
  const NullTimestamp: string := "0001-01-01T00:00:00Z"

  /** The whole-second reading of a timestamp prefix, in seconds. */
  type Clock = string -> int

  /** Shortest and longest duration seen, and the branch that first reached the longest. */
  datatype Extremes = Extremes(min: int, max: int, slowest: string)

  /** One observed duration and the matrix branch it was observed on. */
  datatype Obs = Obs(duration: int, branch: string)

  /**
   One observation: the first initializes all three values; afterwards only a
   strictly longer duration moves the maximum and the slowest branch, and only
   a strictly shorter one moves the minimum.
   */
  function Observe(e: Option<Extremes>, o: Obs): (r: Extremes)
    ensures (e.None? || e.value.min <= e.value.max) ==> r.min <= o.duration <= r.max
    ensures e.Some? ==> r.min <= e.value.min && e.value.max <= r.max
    ensures e.Some? && o.duration <= e.value.max ==> r.slowest == e.value.slowest
  {
    match e
    case None => Extremes(o.duration, o.duration, o.branch)
    case Some(x) =>
      var mx := if o.duration > x.max then o.duration else x.max;
      var slowest := if o.duration > x.max then o.branch else x.slowest;
      var mn := if o.duration < x.min then o.duration else x.min;
      Extremes(mn, mx, slowest)
  }

  /** The extremes of a sequence of observations taken in order. */
  function ObserveAll(obs: seq<Obs>): (r: Option<Extremes>)
    ensures r.Some? <==> |obs| > 0
    ensures r.Some? ==> r.value.min <= r.value.max
  {
    if |obs| == 0 then None else Some(Observe(ObserveAll(obs[..|obs| - 1]), obs[|obs| - 1]))
  }

  /**
   The extremes of observations are their least and greatest durations, and
   the slowest branch is that of the FIRST observation reaching the greatest.
   */
  lemma {:induction false} ObserveAllExtremes(obs: seq<Obs>)
    requires |obs| > 0
    ensures var e := ObserveAll(obs).value;
      && (forall i :: 0 <= i < |obs| ==> e.min <= obs[i].duration <= e.max)
      && (exists i :: 0 <= i < |obs| && obs[i].duration == e.min)
      && (exists i :: 0 <= i < |obs| && obs[i].duration == e.max && obs[i].branch == e.slowest
            && forall j :: 0 <= j < i ==> obs[j].duration < e.max)
  {
    var n := |obs|;
    var e := ObserveAll(obs).value;
    var o := obs[n - 1];
    if n == 1 {
      assert obs[0].duration == e.min && obs[0].duration == e.max && obs[0].branch == e.slowest;
    } else {
      var init := obs[..n - 1];
      ObserveAllExtremes(init);
      var p := ObserveAll(init).value;
      assert e == Observe(Some(p), o);
      forall i | 0 <= i < n ensures e.min <= obs[i].duration <= e.max {
        if i < n - 1 {
          assert obs[i] == init[i];
        }
      }
      if o.duration < p.min {
        assert obs[n - 1].duration == e.min;
      } else {
        var i :| 0 <= i < |init| && init[i].duration == p.min;
        assert obs[i].duration == e.min;
      }
      if o.duration > p.max {
        assert obs[n - 1].duration == e.max && obs[n - 1].branch == e.slowest;
        forall j | 0 <= j < n - 1 ensures obs[j].duration < e.max {
          assert obs[j] == init[j];
        }
      } else {
        var i :| 0 <= i < |init| && init[i].duration == p.max && init[i].branch == p.slowest
                 && forall j :: 0 <= j < i ==> init[j].duration < p.max;
        assert obs[i].duration == e.max && obs[i].branch == e.slowest;
        forall j | 0 <= j < i ensures obs[j].duration < e.max {
          assert obs[j] == init[j];
        }
      }
    }
  }

  /** Earliest start and latest end seen on one matrix branch of one platform. */
  datatype Span = Span(start: int, end: int)

  /** First write initializes; afterwards only a strictly earlier start or later end moves a bound. */
  function Widen(sp: Option<Span>, start: int, end: int): (r: Span)
    ensures r.start <= start && end <= r.end
    ensures sp.Some? ==> r.start <= sp.value.start && sp.value.end <= r.end
    ensures r.start == start || (sp.Some? && r.start == sp.value.start)
    ensures r.end == end || (sp.Some? && r.end == sp.value.end)
  {
    match sp
    case None => Span(start, end)
    case Some(s) =>
      Span(if start < s.start then start else s.start, if s.end < end then end else s.end)
  }

  /** The span of a sequence of (start, end) readings taken in order. */
  function SpanAll(obs: seq<Span>): (r: Option<Span>)
    ensures r.Some? <==> |obs| > 0
  {
    if |obs| == 0 then None
    else Some(Widen(SpanAll(obs[..|obs| - 1]), obs[|obs| - 1].start, obs[|obs| - 1].end))
  }

  /** A branch's span starts at its earliest reading's start and ends at its latest reading's end. */
  lemma {:induction false} SpanAllBounds(obs: seq<Span>)
    requires |obs| > 0
    ensures var s := SpanAll(obs).value;
      && (forall i :: 0 <= i < |obs| ==> s.start <= obs[i].start && obs[i].end <= s.end)
      && (exists i :: 0 <= i < |obs| && obs[i].start == s.start)
      && (exists i :: 0 <= i < |obs| && obs[i].end == s.end)
  {
    var n := |obs|;
    var s := SpanAll(obs).value;
    if n > 1 {
      var init := obs[..n - 1];
      SpanAllBounds(init);
      var p := SpanAll(init).value;
      forall i | 0 <= i < n ensures s.start <= obs[i].start && obs[i].end <= s.end {
        if i < n - 1 {
          assert obs[i] == init[i];
        }
      }
      if s.start != obs[n - 1].start {
        var i :| 0 <= i < |init| && init[i].start == p.start;
        assert obs[i].start == s.start;
      }
      if s.end != obs[n - 1].end {
        var i :| 0 <= i < |init| && init[i].end == p.end;
        assert obs[i].end == s.end;
      }
    }
  }

  /**
   `test_durations` (one entry per tagged test name: its three dicts are always
   written together) and `suite_durations` (platform, then matrix branch, to the
   branch's span: its start and end dicts are always written together).
   */
  datatype Timings = Timings(tests: OMap<Extremes>, suites: OMap<OMap<Span>>)

  ghost predicate TimingsValid(t: Timings) {
    && Valid(t.tests)
    && Valid(t.suites)
    && (forall p :: p in t.suites.vals ==> Valid(t.suites.vals[p]))
  }

  function EmptyTimings(): (t: Timings)
    ensures TimingsValid(t)
    ensures t.tests.vals == map[] && t.suites.vals == map[]
  {
    Timings(Empty(), Empty())
  }

  /**
   The name a record's duration is keyed by: tagged with the state for an
   external failure, else with the error for a special error.
   */
  function TaggedName(r: TestRecord): (n: string)
    ensures n == r.name <==> !IsExternalFailure(r) && !IsSpecialError(r)
    ensures |n| >= |r.name| && n[|n| - |r.name|..] == r.name
    ensures IsExternalFailure(r) ==> |n| > |r.state| + 1 && n[1..|r.state| + 1] == r.state
    ensures !IsExternalFailure(r) && IsSpecialError(r) ==> |n| > |r.error| + 1 && n[1..|r.error| + 1] == r.error
  {
    if IsExternalFailure(r) then Tagged(r.state, r.name)
    else if IsSpecialError(r) then Tagged(r.error, r.name)
    else r.name
  }

  /** `f"[{tag}] {name}"` */
  function Tagged(tag: string, name: string): (n: string)
    ensures |n| == |tag| + |name| + 3
    ensures n[1..|tag| + 1] == tag && n[|n| - |name|..] == name
  {
    var n := "[" + tag + "] " + name;
    assert n[1..|tag| + 1] == tag;
    assert n[|n| - |name|..] == name;
    n
  }

  /**
   Whether duration tracking takes a record into account: neither timestamp is
   the null one, and each splits on "." into exactly two pieces.
   */
  predicate Trackable(r: TestRecord) {
    && r.startTime != NullTimestamp
    && r.endTime != NullTimestamp
    && |Split(r.startTime, '.')| == 2
    && |Split(r.endTime, '.')| == 2
  }

  /** The whole-second start of a trackable record: the part before the dot. */
  function StartSeconds(clock: Clock, r: TestRecord): int
    requires Trackable(r)
  {
    clock(Split(r.startTime, '.')[0])
  }

  function EndSeconds(clock: Clock, r: TestRecord): int
    requires Trackable(r)
  {
    clock(Split(r.endTime, '.')[0])
  }

  /** `end_time - start_time` in whole seconds; negative if the record ends before it starts. */
  function Duration(clock: Clock, r: TestRecord): int
    requires Trackable(r)
  {
    EndSeconds(clock, r) - StartSeconds(clock, r)
  }

  /**
   `track_time_taken`: a record that is not trackable changes nothing;
   otherwise its tagged test entry observes its duration on its branch and its
   (platform, branch) span widens to cover it. No other entry changes.
   */
  function TrackTimeTaken(clock: Clock, t: Timings, r: TestRecord): Timings {
    var name := TaggedName(r);
    if r.startTime == NullTimestamp || r.endTime == NullTimestamp then t
    else
      var startFrags := Split(r.startTime, '.');
      if |startFrags| != 2 then t
      else
        var endFrags := Split(r.endTime, '.');
        if |endFrags| != 2 then t
        else
          var start := clock(startFrags[0]);
          var end := clock(endFrags[0]);
          var tests := Put(t.tests, name, Observe(Lookup(t.tests, name), Obs(end - start, r.matrixId)));
          var inner := Get(t.suites, r.platform, Empty());
          var inner' := Put(inner, r.matrixId, Widen(Lookup(inner, r.matrixId), start, end));
          Timings(tests, Put(t.suites, r.platform, inner'))
  }

  lemma TrackTimeTakenTests(clock: Clock, t: Timings, r: TestRecord)
    ensures !Trackable(r) ==> TrackTimeTaken(clock, t, r) == t
    ensures Trackable(r) ==>
      && Lookup(TrackTimeTaken(clock, t, r).tests, TaggedName(r))
           == Some(Observe(Lookup(t.tests, TaggedName(r)), Obs(Duration(clock, r), r.matrixId)))
      && (forall n :: n != TaggedName(r) ==> Lookup(TrackTimeTaken(clock, t, r).tests, n) == Lookup(t.tests, n))
  {
  }

  lemma TrackTimeTakenValid(clock: Clock, t: Timings, r: TestRecord)
    requires TimingsValid(t)
    ensures TimingsValid(TrackTimeTaken(clock, t, r))
  {
  }

  /** The span recorded for branch `m` of platform `p`, if any. */
  function SuiteSpan(t: Timings, p: string, m: string): Option<Span> {
    match Lookup(t.suites, p)
    case None => None
    case Some(inner) => Lookup(inner, m)
  }

  lemma TrackTimeTakenSuites(clock: Clock, t: Timings, r: TestRecord, p: string, m: string)
    ensures !Trackable(r) || p != r.platform || m != r.matrixId ==>
      SuiteSpan(TrackTimeTaken(clock, t, r), p, m) == SuiteSpan(t, p, m)
    ensures Trackable(r) && p == r.platform && m == r.matrixId ==>
      SuiteSpan(TrackTimeTaken(clock, t, r), p, m)
        == Some(Widen(SuiteSpan(t, p, m), StartSeconds(clock, r), EndSeconds(clock, r)))
  {
  }

  /** A platform's branch spans as durations, in branch insertion order. */
  function SpanDurations(keys: seq<string>, spans: map<string, Span>): (obs: seq<Obs>)
    ensures |obs| == |keys|
    ensures forall i :: 0 <= i < |keys| ==> obs[i].branch == keys[i]
    ensures forall i :: 0 <= i < |keys| && keys[i] in spans ==>
      obs[i].duration == spans[keys[i]].end - spans[keys[i]].start
  {
    if |keys| == 0 then []
    else
      var k := keys[|keys| - 1];
      var sp := if k in spans then spans[k] else Span(0, 0);
      SpanDurations(keys[..|keys| - 1], spans) + [Obs(sp.end - sp.start, k)]
  }

  function PlatformObs(inner: OMap<Span>): seq<Obs> {
    SpanDurations(inner.keys, inner.vals)
  }

  /**
   The per-platform reduction of `format_suite_durations_table`: for each
   platform in insertion order, the shortest and longest branch span and the
   branch that first reached the longest; a platform with no branch gets no row.
   */
  function ReduceSuiteDurations(keys: seq<string>, suites: map<string, OMap<Span>>): (r: OMap<Extremes>)
    ensures Distinct(keys) ==> Valid(r)
    ensures forall p :: p in r.vals ==> p in keys
  {
    if |keys| == 0 then Empty()
    else
      var init := ReduceSuiteDurations(keys[..|keys| - 1], suites);
      var p := keys[|keys| - 1];
      var inner := if p in suites then suites[p] else Empty();
      match ObserveAll(PlatformObs(inner))
      case None => init
      case Some(e) => Put(init, p, e)
  }

  /** The last platform listed only ever writes its own row. */
  lemma ReduceSuiteDurationsLast(keys: seq<string>, suites: map<string, OMap<Span>>, p: string)
    requires |keys| > 0
    ensures var last := keys[|keys| - 1];
      && (p != last ==> Lookup(ReduceSuiteDurations(keys, suites), p)
                         == Lookup(ReduceSuiteDurations(keys[..|keys| - 1], suites), p))
      && (p == last && p !in ReduceSuiteDurations(keys[..|keys| - 1], suites).vals ==>
            Lookup(ReduceSuiteDurations(keys, suites), p)
              == (if p in suites then ObserveAll(PlatformObs(suites[p])) else None))
  {
    var last := keys[|keys| - 1];
    var inner := if last in suites then suites[last] else Empty();
    if last !in suites {
      assert PlatformObs(inner) == [];
    }
  }

  /** Each platform's row holds the extremes of its own branch spans, and only those. */
  lemma {:induction false} ReduceSuiteDurationsRows(keys: seq<string>, suites: map<string, OMap<Span>>, p: string)
    requires Distinct(keys)
    requires forall k :: k in suites ==> k in keys
    ensures Lookup(ReduceSuiteDurations(keys, suites), p)
      == (if p in suites then ObserveAll(PlatformObs(suites[p])) else None)
  {
    if |keys| > 0 {
      var init := keys[..|keys| - 1];
      var last := keys[|keys| - 1];
      assert keys == init + [last];
      assert Distinct(init) by {
        forall i, j | 0 <= i < j < |init| ensures init[i] != init[j] {
          assert init[i] == keys[i] && init[j] == keys[j];
        }
      }
      assert last !in init by {
        forall i | 0 <= i < |init| ensures init[i] != last {
          assert init[i] == keys[i];
        }
      }
      ReduceSuiteDurationsLast(keys, suites, p);
      if p != last {
        var sub := map k | k in suites && k != last :: suites[k];
        forall k | k in sub ensures k in init {
          assert k in keys;
        }
        ReduceSuiteDurationsPrefix(init, suites, sub);
        ReduceSuiteDurationsRows(init, sub, p);
      } else {
        NotKeyNoRow(init, suites, last);
      }
    } else {
      assert p !in suites;
    }
  }

  lemma {:induction false} NotKeyNoRow(keys: seq<string>, suites: map<string, OMap<Span>>, p: string)
    requires p !in keys
    ensures p !in ReduceSuiteDurations(keys, suites).vals
  {
  }

  /** Only the platforms listed matter to the reduction. */
  lemma {:induction false} ReduceSuiteDurationsPrefix(keys: seq<string>, suites: map<string, OMap<Span>>,
                                                      sub: map<string, OMap<Span>>)
    requires forall k :: k in keys ==> (k in suites <==> k in sub) && (k in sub ==> sub[k] == suites[k])
    ensures ReduceSuiteDurations(keys, suites) == ReduceSuiteDurations(keys, sub)
  {
    if |keys| > 0 {
      ReduceSuiteDurationsPrefix(keys[..|keys| - 1], suites, sub);
    }
  }

  const SecondsPerDay: nat := 86400

  /**
   `timedelta.seconds`: the duration reduced into one day, so a negative
   duration wraps to the end of the day.
   */
  function DaySeconds(d: int): (s: nat)
    ensures s < SecondsPerDay
    ensures (d - s) % SecondsPerDay == 0
    ensures 0 <= d < SecondsPerDay ==> s == d
  {
    d % SecondsPerDay
  }

  /** `format_duration`: "{minutes} min {seconds} sec" of the in-day seconds. */
  function FormatDuration(d: int): (text: string)
    ensures exists m: nat, s: nat ::
      (s < 60 && m * 60 + s == DaySeconds(d) && text == NatToString(m) + " min " + NatToString(s) + " sec")
  {
    var secs := DaySeconds(d);
    var text := NatToString(secs / 60) + " min " + NatToString(secs % 60) + " sec";
    assert secs % 60 < 60 && (secs / 60) * 60 + secs % 60 == secs;
    text
  }

  /** Two and a half minutes render as such. */
  lemma FormatDurationMinutes()
    ensures FormatDuration(150) == "2 min 30 sec"
  {
    assert DaySeconds(150) == 150;
    assert 150 / 60 == 2 && 150 % 60 == 30;
    assert NatToString(30) == NatToString(3) + [DigitChar(0)];
  }

  /** A duration of minus one second wraps to the last second of a day. */
  lemma FormatDurationWraps()
    ensures FormatDuration(-1) == "1439 min 59 sec"
  {
    assert DaySeconds(-1) == 86399;
    assert 86399 / 60 == 1439 && 86399 % 60 == 59;
    LastMinuteDigits();
  }

  lemma LastMinuteDigits()
    ensures NatToString(1439) == "1439" && NatToString(59) == "59"
  {
    assert 1439 / 10 == 143 && 143 / 10 == 14 && 14 / 10 == 1;
    assert NatToString(14) == "14";
    assert NatToString(143) == "143";
  }
}

/** lib/dataProcessor.ts: one sort, stride sampling, a single pass that fills
    the hourly, daily and weekday tables, the subset used by large charts,
    and fixed-window bucketing. */
module DataProcessor {
  import opened Wrappers
  import opened JsStrings
  import opened JsDates
  import opened SeqMath
  import opened Groups
  import opened DataPoints

  datatype HourBucket = HourBucket(count: nat, avgValue: real, values: seq<real>)
  datatype DayBucket = DayBucket(count: nat, avgValue: real, timestamp: Option<int>)
  datatype WeekBucket = WeekBucket(count: nat, avgValue: real)

  /** The result of processLargeDataset. Each `Map` is an insertion-ordered
      list of entries. */
  datatype ProcessedDatasets = ProcessedDatasets(
    full: seq<DataPoint>,
    sampled: seq<DataPoint>,
    hourly: seq<(int, HourBucket)>,
    daily: seq<(string, DayBucket)>,
    weekly: seq<(int, WeekBucket)>)

  // ---------------------------------------------------------------------
  // Sampling
  // ---------------------------------------------------------------------

  /** `Math.max(1, Math.floor(n / 500))`. */
  function SampleRate(n: nat): (r: nat)
    ensures r >= 1
  {
    if n / 500 > 1 then n / 500 else 1
  }

  /** The sampled series: the whole sorted list at rate 1, otherwise every
      rate-th element. */
  function Sampled(sorted: seq<DataPoint>): seq<DataPoint> {
    var rate := SampleRate(|sorted|);
    if rate == 1 then sorted else EveryNth(sorted, rate)
  }

  /** The sample holds the elements at multiples of the rate, in order, and
      there are ceil(n / rate) of them. */
  lemma SampledShape(sorted: seq<DataPoint>)
    ensures var rate := SampleRate(|sorted|);
            |Sampled(sorted)| == CeilDiv(|sorted|, rate)
            && forall j :: 0 <= j < |Sampled(sorted)| ==> j * rate < |sorted| && Sampled(sorted)[j] == sorted[j * rate]
  {
    EveryNthShape(sorted, SampleRate(|sorted|));
    if SampleRate(|sorted|) == 1 {
      DivExact(|sorted| + 1 - 1, 1, |sorted|, 0);
    }
  }

  /** Fewer than 1000 points are never thinned. */
  lemma SmallNotSampled(sorted: seq<DataPoint>)
    requires |sorted| < 1000
    ensures Sampled(sorted) == sorted
  {
    DivMonotone(|sorted|, 999, 500);
  }

  // ---------------------------------------------------------------------
  // Keys and bucket tables
  // ---------------------------------------------------------------------

  function HourKeys(env: Env, s: seq<DataPoint>): (ks: seq<int>)
    ensures |ks| == |s| && forall i :: 0 <= i < |s| ==> ks[i] == Hours(env, s[i].timestamp)
  {
    seq(|s|, i requires 0 <= i < |s| => Hours(env, s[i].timestamp))
  }

  /** `timestamp.toISOString().split('T')[0]`. */
  function DayKey(t: Instant): string {
    Split(IsoString(t), 'T')[0]
  }

  function DayKeys(s: seq<DataPoint>): (ks: seq<string>)
    ensures |ks| == |s| && forall i :: 0 <= i < |s| ==> ks[i] == DayKey(s[i].timestamp)
  {
    seq(|s|, i requires 0 <= i < |s| => DayKey(s[i].timestamp))
  }

  function WeekKeys(env: Env, s: seq<DataPoint>): (ks: seq<int>)
    ensures |ks| == |s| && forall i :: 0 <= i < |s| ==> ks[i] == WeekDay(env, s[i].timestamp)
  {
    seq(|s|, i requires 0 <= i < |s| => WeekDay(env, s[i].timestamp))
  }

  /** Whether a record falls in local hour `h`. */
  function AtHour(env: Env, h: int): DataPoint -> bool {
    (p: DataPoint) => Hours(env, p.timestamp) == h
  }

  /** Whether a record falls on local weekday `d`. */
  function OnWeekday(env: Env, d: int): DataPoint -> bool {
    (p: DataPoint) => WeekDay(env, p.timestamp) == d
  }

  /** The records of hour `h` are as many as the occurrences of `h` among the
      records' hours. */
  lemma AtHourCount(env: Env, data: seq<DataPoint>, h: int)
    ensures |Filter(data, AtHour(env, h))| == Occ(HourKeys(env, data), h)
  {
    FilterOcc(data, AtHour(env, h), HourKeys(env, data), h);
  }

  /** The records of weekday `d` are as many as the occurrences of `d` among
      the records' weekdays. */
  lemma OnWeekdayCount(env: Env, data: seq<DataPoint>, d: int)
    ensures |Filter(data, OnWeekday(env, d))| == Occ(WeekKeys(env, data), d)
  {
    FilterOcc(data, OnWeekday(env, d), WeekKeys(env, data), d);
  }

  /** The mean, or 0 for no values (the bucket's initial average). */
  function Avg(vs: seq<real>): real {
    if vs == [] then 0.0 else Mean(vs)
  }

  /** The hourly table holds one bucket per group: its count, its values and
      (once `finished`) their mean; before the averaging pass the average is 0. */
  predicate HourlyIs(hourly: seq<(int, HourBucket)>, g: seq<(int, seq<real>)>, finished: bool) {
    |hourly| == |g|
    && forall j :: 0 <= j < |g| ==>
         hourly[j] == (g[j].0, HourBucket(|g[j].1|, if finished then Avg(g[j].1) else 0.0, g[j].1))
  }

  /** `new Date(day)` for a daily key. */
  function DayStart(env: Env, day: string): Option<int> {
    env.parse(day)
  }

  predicate DailyIs(env: Env, daily: seq<(string, DayBucket)>, g: seq<(string, seq<real>)>) {
    |daily| == |g|
    && forall j :: 0 <= j < |g| ==> daily[j] == (g[j].0, DayBucket(|g[j].1|, Avg(g[j].1), DayStart(env, g[j].0)))
  }

  predicate WeeklyIs(weekly: seq<(int, WeekBucket)>, g: seq<(int, seq<real>)>) {
    |weekly| == |g|
    && forall j :: 0 <= j < |g| ==> weekly[j] == (g[j].0, WeekBucket(|g[j].1|, Avg(g[j].1)))
  }

  // ---------------------------------------------------------------------
  // processLargeDataset
  // ---------------------------------------------------------------------

  /** The hourly step: open the bucket if needed, then `count++` and
      `values.push(value)`. */
  method AddHour(hourly: seq<(int, HourBucket)>, hour: int, value: real, ghost g: seq<(int, seq<real>)>)
    returns (r: seq<(int, HourBucket)>)
    requires HourlyIs(hourly, g, false)
    ensures HourlyIs(r, AddTo(g, hour, value), false)
  {
    KeyIndexSameKeys(hourly, g, hour);
    var i := KeyIndex(hourly, hour);
    r := hourly;
    if i == |r| {
      r := r + [(hour, HourBucket(0, 0.0, []))];
    }
    var b := r[i].1;
    r := r[i := (hour, HourBucket(b.count + 1, b.avgValue, b.values + [value]))];
    ghost var g2 := AddTo(g, hour, value);
    AddToAt(g, hour, value);
    forall j | 0 <= j < |g2| ensures r[j] == (g2[j].0, HourBucket(|g2[j].1|, 0.0, g2[j].1)) {
      if j != i {
        assert r[j] == hourly[j];
      }
    }
  }

  /** The daily step: open the bucket if needed, `count++`, and fold the value
      into the running average. */
  method AddDay(env: Env, daily: seq<(string, DayBucket)>, day: string, value: real, ghost g: seq<(string, seq<real>)>)
    returns (r: seq<(string, DayBucket)>)
    requires DailyIs(env, daily, g)
    ensures DailyIs(env, r, AddTo(g, day, value))
  {
    KeyIndexSameKeys(daily, g, day);
    var i := KeyIndex(daily, day);
    r := daily;
    if i == |r| {
      r := r + [(day, DayBucket(0, 0.0, DayStart(env, day)))];
    }
    var b := r[i].1;
    var count := b.count + 1;
    r := r[i := (day, DayBucket(count, RunningMean(b.avgValue, count, value), b.timestamp))];
    MeanStep(if i < |g| then g[i].1 else [], value, b.avgValue);
    ghost var g2 := AddTo(g, day, value);
    AddToAt(g, day, value);
    forall j | 0 <= j < |g2| ensures r[j] == (g2[j].0, DayBucket(|g2[j].1|, Avg(g2[j].1), DayStart(env, g2[j].0))) {
      if j != i {
        assert r[j] == daily[j];
      }
    }
  }

  /** The weekday step, with the same running average. */
  method AddWeekDay(weekly: seq<(int, WeekBucket)>, weekDay: int, value: real, ghost g: seq<(int, seq<real>)>)
    returns (r: seq<(int, WeekBucket)>)
    requires WeeklyIs(weekly, g)
    ensures WeeklyIs(r, AddTo(g, weekDay, value))
  {
    KeyIndexSameKeys(weekly, g, weekDay);
    var i := KeyIndex(weekly, weekDay);
    r := weekly;
    if i == |r| {
      r := r + [(weekDay, WeekBucket(0, 0.0))];
    }
    var b := r[i].1;
    var count := b.count + 1;
    r := r[i := (weekDay, WeekBucket(count, RunningMean(b.avgValue, count, value)))];
    MeanStep(if i < |g| then g[i].1 else [], value, b.avgValue);
    ghost var g2 := AddTo(g, weekDay, value);
    AddToAt(g, weekDay, value);
    forall j | 0 <= j < |g2| ensures r[j] == (g2[j].0, WeekBucket(|g2[j].1|, Avg(g2[j].1))) {
      if j != i {
        assert r[j] == weekly[j];
      }
    }
  }

  /** `hourly.forEach(h => h.avgValue = sum(h.values) / h.values.length)`. */
  method FinishHourly(hourly: seq<(int, HourBucket)>, ghost g: seq<(int, seq<real>)>)
    returns (r: seq<(int, HourBucket)>)
    requires HourlyIs(hourly, g, false)
    requires forall j :: 0 <= j < |g| ==> |g[j].1| >= 1
    ensures HourlyIs(r, g, true)
  {
    r := hourly;
    for j := 0 to |r|
      invariant |r| == |g|
      invariant forall k :: 0 <= k < j ==> r[k] == (g[k].0, HourBucket(|g[k].1|, Avg(g[k].1), g[k].1))
      invariant forall k :: j <= k < |r| ==> r[k] == hourly[k]
    {
      var b := r[j].1;
      r := r[j := (r[j].0, HourBucket(b.count, Sum(b.values) / (|b.values| as real), b.values))];
    }
  }

  /** The three table updates for one point, in the order the pass makes them. */
  method AddPoint(env: Env, point: DataPoint,
                  hourly: seq<(int, HourBucket)>, daily: seq<(string, DayBucket)>, weekly: seq<(int, WeekBucket)>,
                  ghost gh: seq<(int, seq<real>)>, ghost gd: seq<(string, seq<real>)>, ghost gw: seq<(int, seq<real>)>)
    returns (hourly': seq<(int, HourBucket)>, daily': seq<(string, DayBucket)>, weekly': seq<(int, WeekBucket)>)
    requires HourlyIs(hourly, gh, false) && DailyIs(env, daily, gd) && WeeklyIs(weekly, gw)
    ensures HourlyIs(hourly', AddTo(gh, Hours(env, point.timestamp), point.value), false)
    ensures DailyIs(env, daily', AddTo(gd, DayKey(point.timestamp), point.value))
    ensures WeeklyIs(weekly', AddTo(gw, WeekDay(env, point.timestamp), point.value))
  {
    var hour := Hours(env, point.timestamp);
    var day := Split(IsoString(point.timestamp), 'T')[0];
    var weekDay := WeekDay(env, point.timestamp);
    hourly' := AddHour(hourly, hour, point.value, gh);
    daily' := AddDay(env, daily, day, point.value, gd);
    weekly' := AddWeekDay(weekly, weekDay, point.value, gw);
  }

  /** One iteration of the pass: the tables for the first `i` points become
      the tables for the first `i + 1`. */
  method FillStep(env: Env, sortedData: seq<DataPoint>, i: nat,
                  hourly: seq<(int, HourBucket)>, daily: seq<(string, DayBucket)>, weekly: seq<(int, WeekBucket)>)
    returns (hourly': seq<(int, HourBucket)>, daily': seq<(string, DayBucket)>, weekly': seq<(int, WeekBucket)>)
    requires i < |sortedData|
    requires HourlyIs(hourly, GroupBy(HourKeys(env, sortedData)[..i], ValuesOf(sortedData)[..i]), false)
    requires DailyIs(env, daily, GroupBy(DayKeys(sortedData)[..i], ValuesOf(sortedData)[..i]))
    requires WeeklyIs(weekly, GroupBy(WeekKeys(env, sortedData)[..i], ValuesOf(sortedData)[..i]))
    ensures HourlyIs(hourly', GroupBy(HourKeys(env, sortedData)[..i + 1], ValuesOf(sortedData)[..i + 1]), false)
    ensures DailyIs(env, daily', GroupBy(DayKeys(sortedData)[..i + 1], ValuesOf(sortedData)[..i + 1]))
    ensures WeeklyIs(weekly', GroupBy(WeekKeys(env, sortedData)[..i + 1], ValuesOf(sortedData)[..i + 1]))
  {
    var hk, dk, wk, vs := HourKeys(env, sortedData), DayKeys(sortedData), WeekKeys(env, sortedData), ValuesOf(sortedData);
    GroupByPrefix(hk, vs, i);
    GroupByPrefix(dk, vs, i);
    GroupByPrefix(wk, vs, i);
    hourly', daily', weekly' := AddPoint(env, sortedData[i], hourly, daily, weekly,
                                         GroupBy(hk[..i], vs[..i]), GroupBy(dk[..i], vs[..i]), GroupBy(wk[..i], vs[..i]));
  }

  /** The single pass of processLargeDataset over the sorted points, before
      the hourly averages are computed. */
  method FillTables(env: Env, sortedData: seq<DataPoint>)
    returns (hourly: seq<(int, HourBucket)>, daily: seq<(string, DayBucket)>, weekly: seq<(int, WeekBucket)>)
    ensures HourlyIs(hourly, GroupBy(HourKeys(env, sortedData), ValuesOf(sortedData)), false)
    ensures DailyIs(env, daily, GroupBy(DayKeys(sortedData), ValuesOf(sortedData)))
    ensures WeeklyIs(weekly, GroupBy(WeekKeys(env, sortedData), ValuesOf(sortedData)))
  {
    hourly, daily, weekly := [], [], [];
    for i := 0 to |sortedData|
      invariant HourlyIs(hourly, GroupBy(HourKeys(env, sortedData)[..i], ValuesOf(sortedData)[..i]), false)
      invariant DailyIs(env, daily, GroupBy(DayKeys(sortedData)[..i], ValuesOf(sortedData)[..i]))
      invariant WeeklyIs(weekly, GroupBy(WeekKeys(env, sortedData)[..i], ValuesOf(sortedData)[..i]))
    {
      hourly, daily, weekly := FillStep(env, sortedData, i, hourly, daily, weekly);
    }
    TakeAll(HourKeys(env, sortedData));
    TakeAll(DayKeys(sortedData));
    TakeAll(WeekKeys(env, sortedData));
    TakeAll(ValuesOf(sortedData));
  }

  /** processLargeDataset: the sorted list, its sample, and the three tables
      filled in one pass over the sorted list. */
  method ProcessLargeDataset(env: Env, data: seq<DataPoint>) returns (r: ProcessedDatasets)
    ensures r.full == SortByTime(data)
    ensures r.sampled == Sampled(r.full)
    ensures HourlyIs(r.hourly, GroupBy(HourKeys(env, r.full), ValuesOf(r.full)), true)
    ensures DailyIs(env, r.daily, GroupBy(DayKeys(r.full), ValuesOf(r.full)))
    ensures WeeklyIs(r.weekly, GroupBy(WeekKeys(env, r.full), ValuesOf(r.full)))
  {
    var sortedData := SortByTime(data);
    var sampleRate := SampleRate(|sortedData|);
    var sampled := if sampleRate == 1 then sortedData else EveryNth(sortedData, sampleRate);
    var hourly, daily, weekly := FillTables(env, sortedData);
    ghost var g := GroupBy(HourKeys(env, sortedData), ValuesOf(sortedData));
    assert HourlyIs(hourly, g, false);
    forall j | 0 <= j < |g| ensures |g[j].1| >= 1 {
      GroupByEntry(HourKeys(env, sortedData), ValuesOf(sortedData), j);
    }
    hourly := FinishHourly(hourly, g);
    r := ProcessedDatasets(sortedData, sampled, hourly, daily, weekly);
  }

  // ---------------------------------------------------------------------
  // What the tables promise
  // ---------------------------------------------------------------------

  function HourCounts(hourly: seq<(int, HourBucket)>): (cs: seq<nat>)
    ensures |cs| == |hourly| && forall j :: 0 <= j < |hourly| ==> cs[j] == hourly[j].1.count
  {
    seq(|hourly|, j requires 0 <= j < |hourly| => hourly[j].1.count)
  }

  function DayCounts(daily: seq<(string, DayBucket)>): (cs: seq<nat>)
    ensures |cs| == |daily| && forall j :: 0 <= j < |daily| ==> cs[j] == daily[j].1.count
  {
    seq(|daily|, j requires 0 <= j < |daily| => daily[j].1.count)
  }

  function WeekCounts(weekly: seq<(int, WeekBucket)>): (cs: seq<nat>)
    ensures |cs| == |weekly| && forall j :: 0 <= j < |weekly| ==> cs[j] == weekly[j].1.count
  {
    seq(|weekly|, j requires 0 <= j < |weekly| => weekly[j].1.count)
  }

  /** Hourly buckets: one per hour that occurs, hours in 0..23, counts at
      least 1 and adding up to n; each holds that hour's values in order and
      their mean. */
  lemma HourlyBuckets(env: Env, full: seq<DataPoint>, hourly: seq<(int, HourBucket)>)
    requires HourlyIs(hourly, GroupBy(HourKeys(env, full), ValuesOf(full)), true)
    ensures SumNat(HourCounts(hourly)) == |full|
    ensures forall j :: 0 <= j < |hourly| ==>
              0 <= hourly[j].0 < 24 && hourly[j].1.count >= 1
              && hourly[j].1.count == |hourly[j].1.values|
              && hourly[j].1.values == Groups.Select(HourKeys(env, full), ValuesOf(full), hourly[j].0)
              && hourly[j].1.avgValue == Mean(hourly[j].1.values)
    ensures forall i, j :: 0 <= i < j < |hourly| ==> hourly[i].0 != hourly[j].0
  {
    var keys := HourKeys(env, full);
    var g := GroupBy(keys, ValuesOf(full));
    GroupByShape(keys, ValuesOf(full));
    GroupBySizes(keys, ValuesOf(full));
    assert HourCounts(hourly) == Sizes(g);
    forall j | 0 <= j < |hourly|
      ensures 0 <= hourly[j].0 < 24 && hourly[j].1.count >= 1
              && hourly[j].1.values == Groups.Select(keys, ValuesOf(full), hourly[j].0)
    {
      GroupByEntry(keys, ValuesOf(full), j);
      var i :| 0 <= i < |keys| && keys[i] == g[j].0;
    }
  }

  /** Daily buckets: one per UTC date that occurs, counts at least 1 and
      adding up to n, each average the mean of that date's values, each
      timestamp the date read back as a `Date`. */
  lemma DailyBuckets(env: Env, full: seq<DataPoint>, daily: seq<(string, DayBucket)>)
    requires DailyIs(env, daily, GroupBy(DayKeys(full), ValuesOf(full)))
    ensures SumNat(DayCounts(daily)) == |full|
    ensures forall j :: 0 <= j < |daily| ==>
              daily[j].1.count >= 1
              && daily[j].1.count == |Groups.Select(DayKeys(full), ValuesOf(full), daily[j].0)|
              && daily[j].1.avgValue == Mean(Groups.Select(DayKeys(full), ValuesOf(full), daily[j].0))
              && daily[j].1.timestamp == env.parse(daily[j].0)
    ensures forall i, j :: 0 <= i < j < |daily| ==> daily[i].0 != daily[j].0
  {
    DailySizes(env, full, daily);
    var keys := DayKeys(full);
    forall j | 0 <= j < |daily|
      ensures daily[j].1.count >= 1
              && daily[j].1.count == |Groups.Select(keys, ValuesOf(full), daily[j].0)|
              && daily[j].1.avgValue == Mean(Groups.Select(keys, ValuesOf(full), daily[j].0))
    {
      DailyBucketAt(env, full, daily, j);
    }
  }

  lemma DailySizes(env: Env, full: seq<DataPoint>, daily: seq<(string, DayBucket)>)
    requires DailyIs(env, daily, GroupBy(DayKeys(full), ValuesOf(full)))
    ensures SumNat(DayCounts(daily)) == |full|
    ensures forall i, j :: 0 <= i < j < |daily| ==> daily[i].0 != daily[j].0
  {
    var keys := DayKeys(full);
    var g := GroupBy(keys, ValuesOf(full));
    GroupByShape(keys, ValuesOf(full));
    GroupBySizes(keys, ValuesOf(full));
    assert DayCounts(daily) == Sizes(g);
  }

  lemma DailyBucketAt(env: Env, full: seq<DataPoint>, daily: seq<(string, DayBucket)>, j: nat)
    requires DailyIs(env, daily, GroupBy(DayKeys(full), ValuesOf(full))) && j < |daily|
    ensures daily[j].1.count >= 1
            && daily[j].1.count == |Groups.Select(DayKeys(full), ValuesOf(full), daily[j].0)|
            && daily[j].1.avgValue == Mean(Groups.Select(DayKeys(full), ValuesOf(full), daily[j].0))
  {
    GroupByEntry(DayKeys(full), ValuesOf(full), j);
  }

  /** The daily key is the UTC date part of the ISO text, so two points share
      a day bucket exactly when they fall on the same UTC day, whatever the
      local zone (unlike the hour and weekday keys). */
  lemma DayKeyIsUtcDay(t1: Instant, t2: Instant)
    ensures DayKey(t1) == IsoDatePart(t1)
    ensures DayKey(t1) == DayKey(t2) <==> t1 / MsPerDay == t2 / MsPerDay
  {
    IsoSplitDate(t1);
    IsoSplitDate(t2);
    IsoDatePartIsDayKey(t1, t2);
  }

  /** Weekday buckets: weekdays in 0..6, counts at least 1 and adding up to
      n, each average the mean of that weekday's values. */
  lemma WeeklyBuckets(env: Env, full: seq<DataPoint>, weekly: seq<(int, WeekBucket)>)
    requires WeeklyIs(weekly, GroupBy(WeekKeys(env, full), ValuesOf(full)))
    ensures SumNat(WeekCounts(weekly)) == |full|
    ensures forall j :: 0 <= j < |weekly| ==>
              0 <= weekly[j].0 < 7 && weekly[j].1.count >= 1
              && weekly[j].1.count == |Groups.Select(WeekKeys(env, full), ValuesOf(full), weekly[j].0)|
              && weekly[j].1.avgValue == Mean(Groups.Select(WeekKeys(env, full), ValuesOf(full), weekly[j].0))
    ensures forall i, j :: 0 <= i < j < |weekly| ==> weekly[i].0 != weekly[j].0
  {
    WeeklySizes(env, full, weekly);
    forall j | 0 <= j < |weekly|
      ensures 0 <= weekly[j].0 < 7 && weekly[j].1.count >= 1
              && weekly[j].1.count == |Groups.Select(WeekKeys(env, full), ValuesOf(full), weekly[j].0)|
              && weekly[j].1.avgValue == Mean(Groups.Select(WeekKeys(env, full), ValuesOf(full), weekly[j].0))
    {
      WeeklyBucketAt(env, full, weekly, j);
    }
  }

  lemma WeeklySizes(env: Env, full: seq<DataPoint>, weekly: seq<(int, WeekBucket)>)
    requires WeeklyIs(weekly, GroupBy(WeekKeys(env, full), ValuesOf(full)))
    ensures SumNat(WeekCounts(weekly)) == |full|
    ensures forall i, j :: 0 <= i < j < |weekly| ==> weekly[i].0 != weekly[j].0
  {
    var keys := WeekKeys(env, full);
    var g := GroupBy(keys, ValuesOf(full));
    GroupByShape(keys, ValuesOf(full));
    GroupBySizes(keys, ValuesOf(full));
    assert WeekCounts(weekly) == Sizes(g);
  }

  lemma WeeklyBucketAt(env: Env, full: seq<DataPoint>, weekly: seq<(int, WeekBucket)>, j: nat)
    requires WeeklyIs(weekly, GroupBy(WeekKeys(env, full), ValuesOf(full))) && j < |weekly|
    ensures 0 <= weekly[j].0 < 7 && weekly[j].1.count >= 1
            && weekly[j].1.count == |Groups.Select(WeekKeys(env, full), ValuesOf(full), weekly[j].0)|
            && weekly[j].1.avgValue == Mean(Groups.Select(WeekKeys(env, full), ValuesOf(full), weekly[j].0))
  {
    var keys := WeekKeys(env, full);
    GroupByEntry(keys, ValuesOf(full), j);
    var i :| 0 <= i < |keys| && keys[i] == weekly[j].0;
  }

  // ---------------------------------------------------------------------
  // getDataSubset
  // ---------------------------------------------------------------------

  /** getDataSubset(data, maxPoints). With `maxPoints` 0 the step is
      `Infinity`, and only index 0 satisfies `index % Infinity === 0`. */
  function DataSubset<T>(data: seq<T>, maxPoints: nat): seq<T> {
    if |data| <= maxPoints then data
    else if maxPoints == 0 then [data[0]]
    else EveryNth(data, CeilDiv(|data|, maxPoints))
  }

  /** The subset is the input when it is small enough; otherwise it keeps the
      elements at multiples of the step, in order, starting with the first,
      and has at most `maxPoints` elements. */
  lemma DataSubsetShape<T>(data: seq<T>, maxPoints: nat)
    requires maxPoints > 0
    ensures |data| <= maxPoints ==> DataSubset(data, maxPoints) == data
    ensures |DataSubset(data, maxPoints)| <= maxPoints
    ensures |data| > maxPoints ==>
              var step := CeilDiv(|data|, maxPoints);
              |DataSubset(data, maxPoints)| >= 1 && DataSubset(data, maxPoints)[0] == data[0]
              && forall j :: 0 <= j < |DataSubset(data, maxPoints)| ==>
                   j * step < |data| && DataSubset(data, maxPoints)[j] == data[j * step]
  {
    var n := |data|;
    if n > maxPoints {
      var step := CeilDiv(n, maxPoints);
      EveryNthShape(data, step);
      var c := CeilDiv(n, step);
      assert n <= maxPoints * step;
      if c > maxPoints {
        MulMonotone(step, maxPoints, c - 1);
      }
    }
  }

  // ---------------------------------------------------------------------
  // aggregateByTimeWindow
  // ---------------------------------------------------------------------

  /** `Math.floor(t / windowMs) * windowMs`. */
  function WindowOf(t: int, windowMs: nat): int
    requires windowMs > 0
  {
    t / windowMs * windowMs
  }

  lemma WindowBounds(t: int, windowMs: nat)
    requires windowMs > 0
    ensures WindowOf(t, windowMs) <= t < WindowOf(t, windowMs) + windowMs
    ensures WindowOf(t, windowMs) % windowMs == 0
  {
    assert t == windowMs * (t / windowMs) + t % windowMs;
    DivExact(WindowOf(t, windowMs), windowMs, t / windowMs, 0);
  }

  lemma WindowMonotone(t1: int, t2: int, windowMs: nat)
    requires windowMs > 0 && t1 <= t2
    ensures WindowOf(t1, windowMs) <= WindowOf(t2, windowMs)
  {
    DivMonotone(t1, t2, windowMs);
    MulMonotone(windowMs, t1 / windowMs, t2 / windowMs);
  }

  /** A run of consecutive points in the same window. */
  datatype Run = Run(window: int, times: seq<int>, values: seq<real>)

  /** The points cut into maximal runs of equal window. */
  function Runs(s: seq<DataPoint>, windowMs: nat): (rs: seq<Run>)
    requires windowMs > 0
    ensures s != [] ==> rs != [] && rs[|rs| - 1].values != []
  {
    if s == [] then []
    else Extend(Runs(s[..|s| - 1], windowMs), s[|s| - 1], windowMs)
  }

  /** Adds one point to the runs: it joins the last run when it falls in the
      same window, and opens a new run otherwise. */
  function Extend(prev: seq<Run>, p: DataPoint, windowMs: nat): (rs: seq<Run>)
    requires windowMs > 0
    ensures rs != [] && rs[|rs| - 1].values != []
  {
    var w := WindowOf(p.timestamp, windowMs);
    if prev != [] && prev[|prev| - 1].window == w then
      var last := prev[|prev| - 1];
      prev[..|prev| - 1] + [Run(w, last.times + [p.timestamp], last.values + [p.value])]
    else prev + [Run(w, [p.timestamp], [p.value])]
  }

  lemma RunsStep(s: seq<DataPoint>, p: DataPoint, windowMs: nat)
    requires windowMs > 0
    ensures Runs(s + [p], windowMs) == Extend(Runs(s, windowMs), p, windowMs)
  {
    assert (s + [p])[..|s|] == s;
  }

  datatype WindowSummary = WindowSummary(timestamp: int, value: real, count: nat)

  function Summary(run: Run): WindowSummary {
    WindowSummary(run.window, Avg(run.values), |run.values|)
  }

  function Summaries(rs: seq<Run>): (out: seq<WindowSummary>)
    ensures |out| == |rs| && forall i :: 0 <= i < |rs| ==> out[i] == Summary(rs[i])
  {
    seq(|rs|, i requires 0 <= i < |rs| => Summary(rs[i]))
  }

  /** The running state of aggregateByTimeWindow after some points: the
      closed runs are summarised in `result`, and the open run is described
      by `currentWindow`, `currentSum` and `currentCount`. */
  ghost predicate AggregateState(prefix: seq<DataPoint>, windowMs: nat, result: seq<WindowSummary>,
                                 currentWindow: int, currentSum: real, currentCount: nat)
    requires windowMs > 0
  {
    var rs := Runs(prefix, windowMs);
    if prefix == [] then result == [] && currentSum == 0.0 && currentCount == 0
    else
      var open := rs[|rs| - 1];
      result == Summaries(rs[..|rs| - 1])
      && currentWindow == open.window && currentSum == Sum(open.values) && currentCount == |open.values|
  }

  /** One iteration of the loop of aggregateByTimeWindow. */
  method AggregateStep(ghost prefix: seq<DataPoint>, point: DataPoint, windowMs: nat, result: seq<WindowSummary>,
                       currentWindow: int, currentSum: real, currentCount: nat)
    returns (result': seq<WindowSummary>, currentWindow': int, currentSum': real, currentCount': nat)
    requires windowMs > 0
    requires AggregateState(prefix, windowMs, result, currentWindow, currentSum, currentCount)
    requires prefix == [] ==> currentWindow == WindowOf(point.timestamp, windowMs)
    ensures AggregateState(prefix + [point], windowMs, result', currentWindow', currentSum', currentCount')
  {
    var pointWindow := WindowOf(point.timestamp, windowMs);
    result', currentWindow', currentSum', currentCount' := result, currentWindow, currentSum, currentCount;
    if pointWindow != currentWindow {
      if currentCount > 0 {
        result' := result + [WindowSummary(currentWindow, currentSum / (currentCount as real), currentCount)];
      }
      currentWindow' := pointWindow;
      currentSum' := point.value;
      currentCount' := 1;
      NewWindowState(prefix, point, windowMs, result, currentWindow, currentSum, currentCount);
    } else {
      currentSum' := currentSum + point.value;
      currentCount' := currentCount + 1;
      SameWindowState(prefix, point, windowMs, result, currentWindow, currentSum, currentCount);
    }
  }

  /** A point in a new window closes the open run and opens a run of its own. */
  lemma NewWindowState(prefix: seq<DataPoint>, point: DataPoint, windowMs: nat, result: seq<WindowSummary>,
                       currentWindow: int, currentSum: real, currentCount: nat)
    requires windowMs > 0
    requires AggregateState(prefix, windowMs, result, currentWindow, currentSum, currentCount)
    requires prefix == [] ==> currentWindow == WindowOf(point.timestamp, windowMs)
    requires WindowOf(point.timestamp, windowMs) != currentWindow
    ensures AggregateState(prefix + [point], windowMs,
                           if currentCount > 0
                           then result + [WindowSummary(currentWindow, currentSum / (currentCount as real), currentCount)]
                           else result,
                           WindowOf(point.timestamp, windowMs), point.value, 1)
  {
    var w := WindowOf(point.timestamp, windowMs);
    var prev := Runs(prefix, windowMs);
    AggregateFinish(prefix, windowMs, result, currentWindow, currentSum, currentCount);
    assert prefix != [] && prev[|prev| - 1].window == currentWindow;
    RunsStep(prefix, point, windowMs);
    var rs := Runs(prefix + [point], windowMs);
    assert rs == prev + [Run(w, [point.timestamp], [point.value])];
    assert rs[..|rs| - 1] == prev;
    assert Sum([point.value]) == point.value by { assert [point.value][..0] == []; }
  }

  /** A point in the open run's window joins that run. */
  lemma SameWindowState(prefix: seq<DataPoint>, point: DataPoint, windowMs: nat, result: seq<WindowSummary>,
                        currentWindow: int, currentSum: real, currentCount: nat)
    requires windowMs > 0
    requires AggregateState(prefix, windowMs, result, currentWindow, currentSum, currentCount)
    requires WindowOf(point.timestamp, windowMs) == currentWindow
    ensures AggregateState(prefix + [point], windowMs, result, currentWindow, currentSum + point.value, currentCount + 1)
  {
    RunsStep(prefix, point, windowMs);
    var prev := Runs(prefix, windowMs);
    if prefix == [] {
      assert Sum([point.value]) == point.value by { assert [point.value][..0] == []; }
    } else {
      SumAppend(prev[|prev| - 1].values, point.value);
      var rs := Runs(prefix + [point], windowMs);
      assert rs[..|rs| - 1] == prev[..|prev| - 1];
    }
  }

  /** aggregateByTimeWindow(data, windowMs). */
  method AggregateByTimeWindow(data: seq<DataPoint>, windowMs: nat) returns (result: seq<WindowSummary>)
    requires windowMs > 0
    ensures result == Summaries(Runs(SortByTime(data), windowMs))
  {
    if |data| == 0 {
      return [];
    }
    var sorted := SortByTime(data);
    result := AggregateSorted(sorted, windowMs);
  }

  /** The loop of aggregateByTimeWindow over the time-ordered points. */
  method AggregateSorted(sorted: seq<DataPoint>, windowMs: nat) returns (result: seq<WindowSummary>)
    requires windowMs > 0 && sorted != []
    ensures result == Summaries(Runs(sorted, windowMs))
  {
    result := [];
    var currentWindow := WindowOf(sorted[0].timestamp, windowMs);
    var currentSum := 0.0;
    var currentCount := 0;
    for i := 0 to |sorted|
      invariant AggregateState(sorted[..i], windowMs, result, currentWindow, currentSum, currentCount)
      invariant i == 0 ==> currentWindow == WindowOf(sorted[0].timestamp, windowMs)
    {
      assert sorted[..i + 1] == sorted[..i] + [sorted[i]];
      result, currentWindow, currentSum, currentCount :=
        AggregateStep(sorted[..i], sorted[i], windowMs, result, currentWindow, currentSum, currentCount);
    }
    assert sorted[..|sorted|] == sorted;
    AggregateFinish(sorted, windowMs, result, currentWindow, currentSum, currentCount);
    if currentCount > 0 {
      result := result + [WindowSummary(currentWindow, currentSum / (currentCount as real), currentCount)];
    }
  }

  /** After the loop, flushing the open run completes the summaries. */
  lemma AggregateFinish(s: seq<DataPoint>, windowMs: nat, result: seq<WindowSummary>,
                        currentWindow: int, currentSum: real, currentCount: nat)
    requires windowMs > 0
    requires AggregateState(s, windowMs, result, currentWindow, currentSum, currentCount)
    ensures currentCount > 0 <==> s != []
    ensures (if currentCount > 0 then result + [WindowSummary(currentWindow, currentSum / (currentCount as real), currentCount)]
             else result) == Summaries(Runs(s, windowMs))
  {
    if s != [] {
      var rs := Runs(s, windowMs);
      var open := rs[|rs| - 1];
      assert Summary(open) == WindowSummary(currentWindow, currentSum / (currentCount as real), currentCount);
      SummariesAppend(rs[..|rs| - 1], open);
      assert rs[..|rs| - 1] + [open] == rs;
    }
  }

  lemma SummariesAppend(rs: seq<Run>, run: Run)
    ensures Summaries(rs + [run]) == Summaries(rs) + [Summary(run)]
  {
  }

  /** The run sizes, in order. */
  function RunSizes(rs: seq<Run>): (ns: seq<nat>)
    ensures |ns| == |rs| && forall i :: 0 <= i < |rs| ==> ns[i] == |rs[i].values|
  {
    seq(|rs|, i requires 0 <= i < |rs| => |rs[i].values|)
  }

  /** A run is non-empty and every one of its points falls in its window. */
  predicate RunOk(run: Run, windowMs: nat)
    requires windowMs > 0
  {
    |run.times| == |run.values| && run.values != []
    && forall k :: 0 <= k < |run.times| ==> WindowOf(run.times[k], windowMs) == run.window
  }

  /** A point of a run's window keeps the run well formed when it joins it. */
  lemma JoinedRunOk(last: Run, p: DataPoint, windowMs: nat)
    requires windowMs > 0 && RunOk(last, windowMs) && last.window == WindowOf(p.timestamp, windowMs)
    ensures RunOk(Run(last.window, last.times + [p.timestamp], last.values + [p.value]), windowMs)
  {
    var times := last.times + [p.timestamp];
    forall k | 0 <= k < |times| ensures WindowOf(times[k], windowMs) == last.window {
      if k < |last.times| {
        assert times[k] == last.times[k];
      }
    }
  }

  lemma ExtendFacts(prev: seq<Run>, p: DataPoint, windowMs: nat)
    requires windowMs > 0
    requires forall i :: 0 <= i < |prev| ==> RunOk(prev[i], windowMs)
    ensures var rs := Extend(prev, p, windowMs);
            (forall i :: 0 <= i < |rs| ==> RunOk(rs[i], windowMs))
            && SumNat(RunSizes(rs)) == SumNat(RunSizes(prev)) + 1
  {
    var rs := Extend(prev, p, windowMs);
    var w := WindowOf(p.timestamp, windowMs);
    if prev != [] && prev[|prev| - 1].window == w {
      var init, last := prev[..|prev| - 1], prev[|prev| - 1];
      var joined := Run(w, last.times + [p.timestamp], last.values + [p.value]);
      assert rs == init + [joined];
      assert prev == init + [last];
      RunSizesAppend(init, last);
      RunSizesAppend(init, joined);
      JoinedRunOk(last, p, windowMs);
      forall i | 0 <= i < |rs| ensures RunOk(rs[i], windowMs) {
        if i < |init| {
          assert rs[i] == prev[i];
        }
      }
    } else {
      var started := Run(w, [p.timestamp], [p.value]);
      assert rs == prev + [started];
      RunSizesAppend(prev, started);
    }
  }

  /** One more run adds its size to the total. */
  lemma RunSizesAppend(rs: seq<Run>, r: Run)
    ensures SumNat(RunSizes(rs + [r])) == SumNat(RunSizes(rs)) + |r.values|
  {
    assert RunSizes(rs + [r]) == RunSizes(rs) + [|r.values|];
    SumNatAppend(RunSizes(rs), [|r.values|]);
  }

  /** What the windows promise: every run is non-empty, all its points fall
      in its window, and the run sizes add up to n. */
  lemma {:induction false} RunsFacts(s: seq<DataPoint>, windowMs: nat)
    requires windowMs > 0
    ensures var rs := Runs(s, windowMs);
            (forall i :: 0 <= i < |rs| ==> RunOk(rs[i], windowMs))
            && SumNat(RunSizes(rs)) == |s|
    decreases |s|
  {
    if s != [] {
      RunsFacts(s[..|s| - 1], windowMs);
      ExtendFacts(Runs(s[..|s| - 1], windowMs), s[|s| - 1], windowMs);
    }
  }

  /** Each window starts at a multiple of `windowMs` and its points lie in
      `[window, window + windowMs)`. */
  lemma RunBounds(run: Run, windowMs: nat)
    requires windowMs > 0 && RunOk(run, windowMs)
    ensures run.window % windowMs == 0
    ensures forall k :: 0 <= k < |run.times| ==> run.window <= run.times[k] < run.window + windowMs
  {
    WindowBounds(run.times[0], windowMs);
    forall k | 0 <= k < |run.times| ensures run.window <= run.times[k] < run.window + windowMs {
      WindowBounds(run.times[k], windowMs);
    }
  }

  /** On time-ordered input the windows strictly increase, the last one
      being the window of the last point. */
  lemma {:induction false} RunsIncreasing(s: seq<DataPoint>, windowMs: nat)
    requires windowMs > 0 && SortedByTime(s)
    ensures var rs := Runs(s, windowMs);
            (forall i, j :: 0 <= i < j < |rs| ==> rs[i].window < rs[j].window)
            && (s != [] ==> rs[|rs| - 1].window == WindowOf(s[|s| - 1].timestamp, windowMs))
    decreases |s|
  {
    if s != [] {
      var init := s[..|s| - 1];
      RunsIncreasing(init, windowMs);
      if init != [] {
        WindowMonotone(init[|init| - 1].timestamp, s[|s| - 1].timestamp, windowMs);
      }
      ExtendIncreasing(Runs(init, windowMs), s[|s| - 1], windowMs);
    }
  }

  /** A point no earlier than the last run's window keeps the windows
      increasing and ends in its own window. */
  lemma ExtendIncreasing(prev: seq<Run>, p: DataPoint, windowMs: nat)
    requires windowMs > 0
    requires forall i, j :: 0 <= i < j < |prev| ==> prev[i].window < prev[j].window
    requires prev != [] ==> prev[|prev| - 1].window <= WindowOf(p.timestamp, windowMs)
    ensures var rs := Extend(prev, p, windowMs);
            (forall i, j :: 0 <= i < j < |rs| ==> rs[i].window < rs[j].window)
            && rs[|rs| - 1].window == WindowOf(p.timestamp, windowMs)
  {
  }
}

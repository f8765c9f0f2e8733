/** src/index.ts: the stand-alone visualiser's loading filter, its summary
    statistics and the counting behind its charts. */
module Visualizer {
  import opened Wrappers
  import opened JsStrings
  import opened JsDates
  import opened Records
  import opened SeqMath
  import Stats
  import Tally

  // ---------------------------------------------------------------------
  // Loading
  // ---------------------------------------------------------------------

  /** A loaded record: the CSV row with every field, plus the parsed `date`. */
  datatype Loaded = Loaded(row: Row, date: Instant)

  /** The filter/map/filter chain applied to one row. */
  function LoadRow(env: Env, row: Row): (r: seq<Loaded>)
    ensures |r| <= 1
  {
    var ts := Get(row, "@timestamp");
    if !Truthy(ts) then []
    else match NewDateFromValue(env, ts)
      case None => []
      case Some(t) => [Loaded(row, t)]
  }

  function LoadRows(env: Env, rows: seq<Row>): seq<Loaded> {
    FlatMap(rows, (row: Row) => LoadRow(env, row))
  }

  /** The loaded records are the rows, in file order, whose `@timestamp` is
      truthy and gives a valid `Date`, each with that instant attached; every
      such row is loaded. */
  lemma LoadRowsSelect(env: Env, rows: seq<Row>) returns (idx: seq<nat>)
    ensures |idx| == |LoadRows(env, rows)|
    ensures forall k :: 0 <= k < |idx| ==> idx[k] < |rows|
    ensures forall k, l :: 0 <= k < l < |idx| ==> idx[k] < idx[l]
    ensures forall k :: 0 <= k < |idx| ==>
              var row := rows[idx[k]];
              Truthy(Get(row, "@timestamp"))
              && NewDateFromValue(env, Get(row, "@timestamp")) == Some(LoadRows(env, rows)[k].date)
              && LoadRows(env, rows)[k].row == row
    ensures forall i :: (0 <= i < |rows| && Truthy(Get(rows[i], "@timestamp"))
                         && NewDateFromValue(env, Get(rows[i], "@timestamp")).Some?) ==> i in idx
  {
    var f := (row: Row) => LoadRow(env, row);
    idx := FlatMapSelect(rows, f);
    forall i | 0 <= i < |rows| && Truthy(Get(rows[i], "@timestamp"))
      && NewDateFromValue(env, Get(rows[i], "@timestamp")).Some?
      ensures i in idx
    {
      assert f(rows[i]) != [];
    }
    forall k | 0 <= k < |idx|
      ensures var row := rows[idx[k]];
              Truthy(Get(row, "@timestamp"))
              && NewDateFromValue(env, Get(row, "@timestamp")) == Some(LoadRows(env, rows)[k].date)
              && LoadRows(env, rows)[k].row == row
    {
      assert [LoadRows(env, rows)[k]] == f(rows[idx[k]]);
    }
  }

  /** The `date` of every record, in load order. */
  function DatesOf(data: seq<Loaded>): (ds: seq<Instant>)
    ensures |ds| == |data| && forall i :: 0 <= i < |data| ==> ds[i] == data[i].date
  {
    seq(|data|, i requires 0 <= i < |data| => data[i].date)
  }

  // ---------------------------------------------------------------------
  // Summary statistics
  // ---------------------------------------------------------------------

  /** The figures of the summary card. */
  datatype Summary = Summary(
    totalRecords: nat, minDate: int, maxDate: int, timeRange: int,
    avgInterval: real, intervals: seq<int>, medianInterval: real)

  function SumInt(s: seq<int>): int {
    if s == [] then 0 else SumInt(s[..|s| - 1]) + s[|s| - 1]
  }

  function Reals(s: seq<int>): (r: seq<real>)
    ensures |r| == |s| && forall i :: 0 <= i < |s| ==> r[i] == s[i] as real
  {
    seq(|s|, i requires 0 <= i < |s| => s[i] as real)
  }

  /** `d3.median(intervals) || 0`: the median, or 0 without intervals. */
  function MedianOr0(xs: seq<int>): real {
    if xs == [] then 0.0 else Stats.MedianOfSorted(SortReal(Reals(xs)))
  }

  /** What the card shows for the dates `ds`, in load order. */
  predicate Describes(ds: seq<int>, s: Summary) {
    var n := |ds|;
    n >= 1 && s.totalRecords == n
    && s.minDate in ds && s.maxDate in ds
    && (forall i :: 0 <= i < n ==> s.minDate <= ds[i] <= s.maxDate)
    && s.timeRange == s.maxDate - s.minDate
    && (n == 1 ==> s.avgInterval == 0.0)
    && (n > 1 ==> s.avgInterval == (s.timeRange as real) / ((n - 1) as real))
    && |s.intervals| == n - 1
    && (forall i :: 0 <= i < n - 1 ==> s.intervals[i] == ds[i + 1] - ds[i])
    && s.medianInterval == MedianOr0(s.intervals)
  }

  /** The visualiser and the records it last loaded. */
  class TimestampVisualizer {
    var data: seq<Loaded>

    constructor()
      ensures data == []
    {
      data := [];
    }

    /** loadDataFromText: the parsed rows replace the loaded records. */
    method LoadDataFromText(env: Env, rows: seq<Row>)
      modifies this
      ensures data == LoadRows(env, rows)
    {
      data := LoadRows(env, rows);
    }

    /** displayStatistics: nothing for no records; otherwise the count, the
        earliest and latest dates, the range, the average interval and the
        intervals between consecutive records in load order with their
        median. */
    method DisplayStatistics() returns (r: Option<Summary>)
      ensures r.None? <==> data == []
      ensures r.Some? ==> Describes(DatesOf(data), r.value)
    {
      if |data| == 0 {
        return None;
      }
      var dates: seq<int> := DatesOf(data);
      var n := |dates|;
      var minDate: int := dates[FirstMinIndex(dates)];
      var maxDate: int := dates[FirstMaxIndex(dates)];
      var timeRange := maxDate - minDate;
      var avgInterval := if n > 1 then (timeRange as real) / ((n - 1) as real) else 0.0;
      var intervals: seq<int> := [];
      var i := 1;
      while i < n
        invariant 1 <= i <= n
        invariant |intervals| == i - 1
        invariant forall j :: 0 <= j < i - 1 ==> intervals[j] == dates[j + 1] - dates[j]
      {
        intervals := intervals + [dates[i] - dates[i - 1]];
        i := i + 1;
      }
      r := Some(Summary(n, minDate, maxDate, timeRange, avgInterval, intervals, MedianOr0(intervals)));
    }
  }

  /** Consecutive differences add up to the last date minus the first. */
  lemma {:induction false} Telescope(ds: seq<int>, xs: seq<int>)
    requires |ds| >= 1 && |xs| == |ds| - 1
    requires forall i :: 0 <= i < |xs| ==> xs[i] == ds[i + 1] - ds[i]
    ensures SumInt(xs) == ds[|ds| - 1] - ds[0]
    decreases |xs|
  {
    if xs != [] {
      Telescope(ds[..|ds| - 1], xs[..|xs| - 1]);
    }
  }

  /** The range and the average interval are never negative, and the
      intervals add up to the last date minus the first. */
  lemma SummaryFacts(ds: seq<int>, s: Summary)
    requires Describes(ds, s)
    ensures s.timeRange >= 0 && s.avgInterval >= 0.0
    ensures SumInt(s.intervals) == ds[|ds| - 1] - ds[0]
  {
    assert s.minDate <= ds[0] <= s.maxDate;
    if |ds| > 1 {
      QuotientNonNegative(s.timeRange as real, (|ds| - 1) as real);
    }
    Telescope(ds, s.intervals);
  }

  lemma QuotientNonNegative(a: real, b: real)
    requires a >= 0.0 && b > 0.0
    ensures a / b >= 0.0
  {
  }

  /** For records loaded in time order the range runs from the first to the
      last record, every interval is non-negative, and the average interval
      is the mean of the intervals. */
  lemma SortedSummary(ds: seq<int>, s: Summary)
    requires Describes(ds, s) && |ds| > 1
    requires forall i, j :: 0 <= i <= j < |ds| ==> ds[i] <= ds[j]
    ensures s.minDate == ds[0] && s.maxDate == ds[|ds| - 1]
    ensures forall i :: 0 <= i < |s.intervals| ==> s.intervals[i] >= 0
    ensures s.avgInterval == (SumInt(s.intervals) as real) / (|s.intervals| as real)
  {
    Telescope(ds, s.intervals);
    forall i | 0 <= i < |s.intervals| ensures s.intervals[i] >= 0 {
      assert ds[i] <= ds[i + 1];
    }
  }

  /** The median interval lies between the shortest and the longest one. */
  lemma MedianIntervalBounds(xs: seq<int>)
    requires xs != []
    ensures xs[FirstMinIndex(xs)] as real <= MedianOr0(xs) <= xs[FirstMaxIndex(xs)] as real
  {
    var vs := Reals(xs);
    Stats.StatisticsFacts(vs);
    var st := Stats.CalculateStatistics(vs).value;
    var lo, hi := FirstMinIndex(xs), FirstMaxIndex(xs);
    assert st.min <= vs[lo] && vs[hi] <= st.max;
    var a :| 0 <= a < |vs| && vs[a] == st.min;
    var b :| 0 <= b < |vs| && vs[b] == st.max;
    assert xs[lo] <= xs[a] && xs[b] <= xs[hi];
  }

  // ---------------------------------------------------------------------
  // Durations and times of day
  // ---------------------------------------------------------------------

  /** The parts formatDuration shows. */
  datatype Duration =
    | WithHours(hours: int, minutes: int, seconds: int)
    | WithMinutes(minutes: int, seconds: int)
    | SecondsOnly(seconds: int)

  /** formatDuration's arithmetic: whole seconds, minutes and hours, each
      rounded down, and the largest non-zero unit decides the form. */
  function DurationOf(ms: real): Duration {
    var seconds := (ms / 1000.0).Floor;
    var minutes := seconds / 60;
    var hours := minutes / 60;
    if hours > 0 then WithHours(hours, minutes % 60, seconds % 60)
    else if minutes > 0 then WithMinutes(minutes, seconds % 60)
    else SecondsOnly(seconds)
  }

  function TotalSeconds(d: Duration): int {
    match d
    case WithHours(h, m, s) => 3600 * h + 60 * m + s
    case WithMinutes(m, s) => 60 * m + s
    case SecondsOnly(s) => s
  }

  /** formatDuration. */
  function FormatDuration(ms: real): string {
    match DurationOf(ms)
    case WithHours(h, m, s) => IntToString(h) + "h " + IntToString(m) + "m " + IntToString(s) + "s"
    case WithMinutes(m, s) => IntToString(m) + "m " + IntToString(s) + "s"
    case SecondsOnly(s) => IntToString(s) + "s"
  }

  /** The shown parts add back up to the whole seconds of the duration; hours
      are shown from one hour on, minutes from one minute on, and the smaller
      units then stay below 60. */
  lemma DurationFacts(ms: real)
    ensures var sec, d := (ms / 1000.0).Floor, DurationOf(ms);
            TotalSeconds(d) == sec
            && (d.WithHours? <==> sec >= 3600)
            && (d.WithMinutes? <==> 60 <= sec < 3600)
            && (d.WithHours? ==> d.hours >= 1 && 0 <= d.minutes < 60 && 0 <= d.seconds < 60)
            && (d.WithMinutes? ==> 1 <= d.minutes < 60 && 0 <= d.seconds < 60)
  {
    var sec := (ms / 1000.0).Floor;
    var minutes := sec / 60;
    assert sec == 60 * minutes + sec % 60;
    assert minutes == 60 * (minutes / 60) + minutes % 60;
  }

  /** timeFormat for the axis ticks, which are whole non-negative minutes. */
  function TimeFormat(minutes: nat): string {
    PadStart2(NatToString(minutes / 60)) + ":" + PadStart2(NatToString(minutes % 60))
  }

  /** The tick values of the time-of-day axis. */
  const TickMinutes: seq<nat> := [0, 180, 360, 540, 720, 900, 1080, 1260, 1440]

  /** Below 100 hours the label is "HH:MM", and reading it back gives the
      minutes. */
  lemma TimeFormatRoundTrip(minutes: nat)
    requires minutes < 6000
    ensures var r := TimeFormat(minutes);
            |r| == 5 && r[2] == ':' && AllDigits(r[..2]) && AllDigits(r[3..])
            && DigitsValue(r[3..]) < 60
            && 60 * DigitsValue(r[..2]) + DigitsValue(r[3..]) == minutes
  {
    PadStartOfSmallNat(minutes / 60);
    PadStartOfSmallNat(minutes % 60);
    var r := TimeFormat(minutes);
    assert r[..2] == TwoDigits(minutes / 60);
    assert r[3..] == TwoDigits(minutes % 60);
  }

  // ---------------------------------------------------------------------
  // Weekdays and weekends
  // ---------------------------------------------------------------------

  function WeekdayCount(env: Env, ds: seq<int>): nat {
    CountWhere(ds, (t: int) => 1 <= WeekDay(env, t) <= 5)
  }

  function WeekendCount(env: Env, ds: seq<int>): nat {
    CountWhere(ds, (t: int) => WeekDay(env, t) == 0 || WeekDay(env, t) == 6)
  }

  /** A bar of the weekday/weekend comparison. */
  datatype DayTypeBar = DayTypeBar(kind: string, count: nat, avg: real)

  function DayTypeBars(env: Env, ds: seq<int>): seq<DayTypeBar> {
    var weekday, weekend := WeekdayCount(env, ds), WeekendCount(env, ds);
    [DayTypeBar("Weekday", weekday, weekday as real / 5.0),
     DayTypeBar("Weekend", weekend, weekend as real / 2.0)]
  }

  /** Every record is either on a weekday or on a weekend day. */
  lemma {:induction false} WeekSplit(env: Env, ds: seq<int>)
    ensures WeekdayCount(env, ds) + WeekendCount(env, ds) == |ds|
    decreases |ds|
  {
    if ds != [] {
      WeekSplit(env, ds[..|ds| - 1]);
    }
  }

  /** The two bars count every record once, and each average is per day of
      its kind. */
  lemma DayTypeBarsFacts(env: Env, ds: seq<int>)
    ensures var bars := DayTypeBars(env, ds);
            |bars| == 2 && bars[0].count + bars[1].count == |ds|
            && bars[0].avg * 5.0 == bars[0].count as real
            && bars[1].avg * 2.0 == bars[1].count as real
  {
    WeekSplit(env, ds);
  }

  // ---------------------------------------------------------------------
  // Hourly activity with a rolling average
  // ---------------------------------------------------------------------

  /** `d3.timeHour(date)`: the start of the local hour holding `t`. */
  function HourStart(env: Env, t: int): (h: int)
    ensures h <= t < h + MsPerHour
  {
    t - LocalTime(env, t) % MsPerHour
  }

  /** The rollup per local hour, sorted by hour. */
  function HourlyData(env: Env, ds: seq<int>): Tally.Counts {
    Tally.Tally(seq(|ds|, i requires 0 <= i < |ds| => HourStart(env, ds[i])))
  }

  const WindowSize: nat := 3

  /** The slice bounds of the rolling window around position `i`. */
  function Window(i: nat, len: nat): (w: (nat, nat))
    requires i < len
    ensures w.0 <= i < w.1 <= len && w.1 - w.0 <= WindowSize
  {
    var half := WindowSize / 2;
    (if i >= half then i - half else 0, if i + half + 1 <= len then i + half + 1 else len)
  }

  /** The rolling average of the hourly counts. */
  function RollingAverages(counts: seq<nat>): (r: seq<real>)
    ensures |r| == |counts|
  {
    seq(|counts|, i requires 0 <= i < |counts| =>
      var w := Window(i, |counts|);
      Mean(NatReals(counts[w.0..w.1])))
  }

  function NatReals(s: seq<nat>): (r: seq<real>)
    ensures |r| == |s| && forall i :: 0 <= i < |s| ==> r[i] == s[i] as real
  {
    seq(|s|, i requires 0 <= i < |s| => s[i] as real)
  }

  /** The hours are listed once each, in ascending order, and their counts
      add up to the number of records. */
  lemma HourlyDataFacts(env: Env, ds: seq<int>)
    ensures var h := HourlyData(env, ds);
            Tally.Ascending(h) && Tally.Positive(h)
            && SumNat(Tally.CountsOnly(h)) == |ds|
  {
    var keys := seq(|ds|, i requires 0 <= i < |ds| => HourStart(env, ds[i]));
    Tally.TallyFacts(keys);
    Tally.TotalCountIsSum(Tally.Tally(keys));
  }

  /** A rolling average lies within the bounds of the counts it averages: the
      window holds at most the neighbours of `i`. */
  lemma RollingAverageBounds(counts: seq<nat>, i: nat, lo: nat, hi: nat)
    requires i < |counts|
    requires forall j :: 0 <= j < |counts| && i <= j + 1 && j <= i + 1 ==> lo <= counts[j] <= hi
    ensures lo as real <= RollingAverages(counts)[i] <= hi as real
  {
    var w := Window(i, |counts|);
    var vs := NatReals(counts[w.0..w.1]);
    forall k | 0 <= k < |vs| ensures lo as real <= vs[k] <= hi as real {
      assert vs[k] == counts[w.0 + k] as real;
    }
    MeanBounds(vs, lo as real, hi as real);
  }

  // ---------------------------------------------------------------------
  // Monthly distribution
  // ---------------------------------------------------------------------

  const MonthNames: seq<string> :=
    ["Jan", "Feb", "Mar", "Apr", "May", "Jun", "Jul", "Aug", "Sep", "Oct", "Nov", "Dec"]

  datatype MonthBar = MonthBar(month: string, count: nat)

  function Months(env: Env, ds: seq<int>): (ms: seq<int>)
    ensures |ms| == |ds| && InRange(ms, 12)
  {
    seq(|ds|, i requires 0 <= i < |ds| => Month(env, ds[i]))
  }

  /** The monthly bars, January to December, with 0 for a month without
      records. */
  function MonthlyData(env: Env, ds: seq<int>): (r: seq<MonthBar>)
    ensures |r| == 12
  {
    var counts := Hist(Months(env, ds), 12);
    seq(12, i requires 0 <= i < 12 => MonthBar(MonthNames[i], counts[i]))
  }

  function BarCounts(bars: seq<MonthBar>): (r: seq<nat>)
    ensures |r| == |bars| && forall i :: 0 <= i < |bars| ==> r[i] == bars[i].count
  {
    seq(|bars|, i requires 0 <= i < |bars| => bars[i].count)
  }

  /** Bar `i` is month `i` with the number of records in it, and the bars add
      up to the number of records. */
  lemma MonthlyFacts(env: Env, ds: seq<int>)
    ensures var r := MonthlyData(env, ds);
            (forall i :: 0 <= i < 12 ==> r[i].month == MonthNames[i] && r[i].count == Occ(Months(env, ds), i))
            && SumNat(BarCounts(r)) == |ds|
  {
    var r := MonthlyData(env, ds);
    HistSum(Months(env, ds), 12);
    assert BarCounts(r) == Hist(Months(env, ds), 12);
  }
}

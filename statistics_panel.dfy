/** components/StatisticsPanel.tsx: which summary the panel shows and the
    figures of its time-based summary. */
module StatisticsPanel {
  import opened Wrappers
  import opened JsStrings
  import opened JsDates
  import opened SeqMath
  import opened Stats
  import opened DataPoints

  /** What the panel renders. `avgIntervalSeconds` is `None` where the
      source divides zero by zero (a single event, shown as "NaNs");
      `eventsPerHour` is `None` where it divides by a zero duration. */
  datatype Panel =
    | TimePanel(totalEvents: nat, firstEvent: string, lastEvent: string,
                durationMs: int, avgIntervalSeconds: Option<int>, eventsPerHour: Option<real>)
    | ValuePanel(stats: Statistics)

  /** formatCompactDate: "MM/DD hh:mm" in local time. */
  function FormatCompactDate(env: Env, t: int): string {
    PadStart2(NatToString(Month(env, t) + 1)) + "/" + PadStart2(NatToString(Date(env, t))) + " "
      + PadStart2(NatToString(Hours(env, t))) + ":" + PadStart2(NatToString(Minutes(env, t)))
  }

  /** Four two-character fields joined as "aa/bb cc:dd". */
  lemma CompactFields(a: string, b: string, c: string, d: string)
    requires |a| == 2 && |b| == 2 && |c| == 2 && |d| == 2
    ensures var s := a + "/" + b + " " + c + ":" + d;
            |s| == 11 && s[2] == '/' && s[5] == ' ' && s[8] == ':'
            && s[0..2] == a && s[3..5] == b && s[6..8] == c && s[9..11] == d
  {
  }

  /** The compact date is eleven characters, separators at fixed places,
      and its digit pairs read back as the month (1-based), the day of the
      month, the hour and the minute. */
  lemma CompactDateShape(env: Env, t: int)
    ensures var s := FormatCompactDate(env, t);
            |s| == 11 && s[2] == '/' && s[5] == ' ' && s[8] == ':'
            && AllDigits(s[0..2]) && AllDigits(s[3..5]) && AllDigits(s[6..8]) && AllDigits(s[9..11])
            && DigitsValue(s[0..2]) == Month(env, t) + 1 && DigitsValue(s[3..5]) == Date(env, t)
            && DigitsValue(s[6..8]) == Hours(env, t) && DigitsValue(s[9..11]) == Minutes(env, t)
  {
    var mo, d, h, mi := Month(env, t) + 1, Date(env, t), Hours(env, t), Minutes(env, t);
    PadStartOfSmallNat(mo);
    PadStartOfSmallNat(d);
    PadStartOfSmallNat(h);
    PadStartOfSmallNat(mi);
    CompactFields(TwoDigits(mo), TwoDigits(d), TwoDigits(h), TwoDigits(mi));
  }

  /** `values.every(v => v === 1)`. */
  predicate TimestampOnly(data: seq<DataPoint>) {
    forall i :: 0 <= i < |data| ==> data[i].value == 1.0
  }

  /** The time-based summary of non-empty data; `totalEvents` is
      `stats.count`, the number of values. */
  function TimeSummary(env: Env, data: seq<DataPoint>): Panel
    requires data != []
  {
    var timestamps := TimesOf(data);
    var minTime := timestamps[FirstMinIndex(timestamps)];
    var maxTime := timestamps[FirstMaxIndex(timestamps)];
    var duration: int := maxTime - minTime;
    var n := |data|;
    TimePanel(
      n,
      FormatCompactDate(env, minTime),
      FormatCompactDate(env, maxTime),
      duration,
      AvgIntervalSeconds(duration, n),
      EventsPerHour(duration, n))
  }

  /** `Math.floor(duration / (n - 1) / 1000)`: the whole seconds between
      events, rounded down; missing for a single event, where it divides by
      zero. */
  function AvgIntervalSeconds(duration: int, n: nat): (r: Option<int>)
    requires n >= 1
    ensures n == 1 <==> r.None?
    ensures duration >= 0 && n > 1 ==>
              1000 * (n - 1) * r.value <= duration < 1000 * (n - 1) * (r.value + 1)
  {
    if n == 1 then None
    else
      var sec := duration / (1000 * (n - 1));
      assert duration >= 0 ==> 1000 * (n - 1) * sec <= duration < 1000 * (n - 1) * (sec + 1) by {
        if duration >= 0 {
          FloorInterval(duration, n - 1);
        }
      }
      Some(sec)
  }

  /** `n / (duration / 3600000)`: events per hour; missing for a zero
      duration, where it divides by zero. */
  function EventsPerHour(duration: int, n: nat): (r: Option<real>)
    ensures duration == 0 <==> r.None?
    ensures r.Some? ==> r.value * (duration as real) == (n * 3600000) as real
  {
    if duration == 0 then None else Some((n * 3600000) as real / duration as real)
  }

  /** The panel for `data`; `None` renders nothing. */
  function PanelFor(env: Env, data: seq<DataPoint>): (r: Option<Panel>)
    ensures r.None? <==> data == []
  {
    match CalculateStatistics(ValuesOf(data))
    case None => None
    case Some(stats) =>
      if TimestampOnly(data) then Some(TimeSummary(env, data)) else Some(ValuePanel(stats))
  }

  /** The time-based summary is shown exactly when every value is 1; the
      value-based one is calculateStatistics of the values. */
  lemma PanelBranch(env: Env, data: seq<DataPoint>)
    requires data != []
    ensures TimestampOnly(data) ==> PanelFor(env, data) == Some(TimeSummary(env, data))
    ensures !TimestampOnly(data) ==> PanelFor(env, data) == Some(ValuePanel(CalculateStatistics(ValuesOf(data)).value))
  {
  }

  /** Whole seconds of `x` ms spread over `gaps` gaps, rounded down. */
  lemma FloorInterval(x: int, gaps: int)
    requires x >= 0 && gaps > 0
    ensures var sec := x / (1000 * gaps);
            1000 * gaps * sec <= x < 1000 * gaps * (sec + 1)
  {
    var g := 1000 * gaps;
    assert x == g * (x / g) + x % g;
  }

  /** The first and last events are the earliest and latest timestamps and
      the duration is their difference. */
  lemma TimeSummaryEnds(env: Env, data: seq<DataPoint>) returns (i: nat, j: nat)
    requires data != []
    ensures var p := TimeSummary(env, data);
            p.totalEvents == |data| && p.durationMs >= 0
            && i < |data| && j < |data|
            && p.firstEvent == FormatCompactDate(env, data[i].timestamp)
            && p.lastEvent == FormatCompactDate(env, data[j].timestamp)
            && p.durationMs == data[j].timestamp - data[i].timestamp
            && forall k :: 0 <= k < |data| ==> data[i].timestamp <= data[k].timestamp <= data[j].timestamp
  {
    var timestamps := TimesOf(data);
    i, j := FirstMinIndex(timestamps), FirstMaxIndex(timestamps);
    forall k | 0 <= k < |data| ensures data[i].timestamp <= data[k].timestamp <= data[j].timestamp {
      assert timestamps[i] <= timestamps[k] <= timestamps[j];
    }
  }

  /** For time-ordered data the duration is the last timestamp minus the
      first. */
  lemma SortedDuration(env: Env, data: seq<DataPoint>)
    requires data != [] && SortedByTime(data) && TimestampOnly(data)
    ensures PanelFor(env, data).value.durationMs == data[|data| - 1].timestamp - data[0].timestamp
    ensures PanelFor(env, data).value.firstEvent == FormatCompactDate(env, data[0].timestamp)
  {
    var timestamps := TimesOf(data);
    var i, j := FirstMinIndex(timestamps), FirstMaxIndex(timestamps);
    assert timestamps[0] <= timestamps[i] && timestamps[i] <= timestamps[0];
    assert timestamps[|data| - 1] <= timestamps[j] && timestamps[j] <= timestamps[|data| - 1];
  }
}

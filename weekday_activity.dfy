/** components/charts/WeekdayActivity.tsx: per local weekday, the number of
    records, their values, their hours, and the figures derived from them. */
module WeekdayActivity {
  import opened Wrappers
  import opened JsDates
  import opened SeqMath
  import opened DataPoints
  import DataProcessor

  /** One entry of `weekdayData`. */
  datatype DayStat = DayStat(
    day: string, dayShort: string, dayIndex: nat,
    count: nat, values: seq<real>, hourlyDistribution: seq<nat>,
    avgValue: real, peakHour: int, percentage: real)

  /** The records of weekday `d`, in input order. */
  function RecordsOn(env: Env, data: seq<DataPoint>, d: int): seq<DataPoint> {
    Filter(data, DataProcessor.OnWeekday(env, d))
  }

  /** The hourly distribution of weekday `d`. */
  function HourlyOn(env: Env, data: seq<DataPoint>, d: int): (h: seq<nat>)
    ensures |h| == 24
  {
    Hist(DataProcessor.HourKeys(env, RecordsOn(env, data, d)), 24)
  }

  /** The entry of weekday `d` after the counting pass. */
  function Counted(env: Env, data: seq<DataPoint>, d: nat): DayStat
    requires d < 7
  {
    var records := RecordsOn(env, data, d);
    DayStat(WeekdayNames[d], WeekdayShort[d], d, |records|, ValuesOf(records), HourlyOn(env, data, d), 0.0, 0, 0.0)
  }

  /** An entry after the statistics pass over `n` records: the mean value
      (0 for no records), the first hour with the most records
      (`indexOf(Math.max(...))`), and the share of all records in percent. */
  function Finish(c: DayStat, n: nat): DayStat
    requires n > 0
  {
    c.(avgValue := if c.values != [] then Sum(c.values) / (|c.values| as real) else 0.0,
       peakHour := IndexOf(c.hourlyDistribution, MaxOr0(c.hourlyDistribution)),
       percentage := Percent(c.count, n))
  }

  function Finished(env: Env, data: seq<DataPoint>, d: nat): DayStat
    requires d < 7 && data != []
  {
    Finish(Counted(env, data, d), |data|)
  }

  /** The initial entries: every count zero, no values, 24 zero hours. */
  method InitialDays(env: Env) returns (days: seq<DayStat>)
    ensures |days| == 7 && forall d :: 0 <= d < 7 ==> days[d] == Counted(env, [], d)
  {
    days := seq(7, d requires 0 <= d < 7 =>
      DayStat(WeekdayNames[d], WeekdayShort[d], d, 0, [], seq(24, _ => 0), 0.0, 0, 0.0));
    forall d | 0 <= d < 7 ensures days[d] == Counted(env, [], d) {
      assert HourlyOn(env, [], d) == seq(24, _ => 0);
    }
  }

  /** Counting one more record changes only its weekday's entry: one more
      record, its value appended, one more at its hour. */
  lemma CountStep(env: Env, s: seq<DataPoint>, x: DataPoint, d: nat)
    requires d < 7
    ensures var w, h := WeekDay(env, x.timestamp), Hours(env, x.timestamp);
            var c := Counted(env, s, d);
            Counted(env, s + [x], d)
              == if d == w then c.(count := c.count + 1, values := c.values + [x.value],
                                   hourlyDistribution := c.hourlyDistribution[h := c.hourlyDistribution[h] + 1])
                 else c
  {
    var w := WeekDay(env, x.timestamp);
    if d == w {
      CountStepOn(env, s, x);
    } else {
      assert (s + [x])[..|s|] == s;
      assert RecordsOn(env, s + [x], d) == RecordsOn(env, s, d);
    }
  }

  /** A record on weekday `w` joins that weekday's records, values and hour
      counts. */
  lemma CountStepOn(env: Env, s: seq<DataPoint>, x: DataPoint)
    ensures var w, h := WeekDay(env, x.timestamp), Hours(env, x.timestamp);
            RecordsOn(env, s + [x], w) == RecordsOn(env, s, w) + [x]
            && ValuesOf(RecordsOn(env, s + [x], w)) == ValuesOf(RecordsOn(env, s, w)) + [x.value]
            && HourlyOn(env, s + [x], w) == HourlyOn(env, s, w)[h := HourlyOn(env, s, w)[h] + 1]
  {
    var w, h := WeekDay(env, x.timestamp), Hours(env, x.timestamp);
    assert (s + [x])[..|s|] == s;
    var before := RecordsOn(env, s, w);
    assert RecordsOn(env, s + [x], w) == before + [x];
    var keys := DataProcessor.HourKeys(env, before);
    assert DataProcessor.HourKeys(env, before + [x]) == keys + [h];
    HistAppend(keys, h, 24);
    assert ValuesOf(before + [x]) == ValuesOf(before) + [x.value];
  }

  /** The counting step for one record (`count++`, `values.push`,
      `hourlyDistribution[hour]++` on its weekday's entry). */
  method AddRecord(env: Env, days: seq<DayStat>, ghost s: seq<DataPoint>, p: DataPoint)
    returns (days': seq<DayStat>)
    requires |days| == 7 && forall d :: 0 <= d < 7 ==> days[d] == Counted(env, s, d)
    ensures |days'| == 7 && forall d :: 0 <= d < 7 ==> days'[d] == Counted(env, s + [p], d)
  {
    var dayIndex := WeekDay(env, p.timestamp);
    var hour := Hours(env, p.timestamp);
    forall d | 0 <= d < 7 {
      CountStep(env, s, p, d);
    }
    var entry := days[dayIndex];
    days' := days[dayIndex := entry.(count := entry.count + 1, values := entry.values + [p.value],
      hourlyDistribution := entry.hourlyDistribution[hour := entry.hourlyDistribution[hour] + 1])];
  }

  /** The first pass: every record counted on its weekday. */
  method CountPass(env: Env, data: seq<DataPoint>) returns (days: seq<DayStat>)
    ensures |days| == 7 && forall d :: 0 <= d < 7 ==> days[d] == Counted(env, data, d)
  {
    days := InitialDays(env);
    assert data[..0] == [];
    var i := 0;
    while i < |data|
      invariant 0 <= i <= |data| && |days| == 7
      invariant forall d :: 0 <= d < 7 ==> days[d] == Counted(env, data[..i], d)
    {
      days := AddRecord(env, days, data[..i], data[i]);
      assert data[..i + 1] == data[..i] + [data[i]];
      i := i + 1;
    }
    assert data[..|data|] == data;
  }

  /** The statistics step for one entry. */
  method FinishEntry(day: DayStat, n: nat) returns (e: DayStat)
    requires n > 0
    ensures e == Finish(day, n)
  {
    var avg := if |day.values| > 0 then Sum(day.values) / (|day.values| as real) else 0.0;
    var peak := IndexOf(day.hourlyDistribution, MaxOr0(day.hourlyDistribution));
    e := day.(avgValue := avg, peakHour := peak, percentage := Percent(day.count, n));
  }

  /** The second pass: average, peak hour and percentage of each entry. */
  method StatisticsPass(env: Env, data: seq<DataPoint>, days: seq<DayStat>) returns (r: seq<DayStat>)
    requires data != []
    requires |days| == 7 && forall d :: 0 <= d < 7 ==> days[d] == Counted(env, data, d)
    ensures |r| == 7 && forall d :: 0 <= d < 7 ==> r[d] == Finished(env, data, d)
  {
    r := days;
    var j := 0;
    while j < 7
      invariant 0 <= j <= 7 && |r| == 7
      invariant forall d :: 0 <= d < j ==> r[d] == Finish(days[d], |data|)
      invariant forall d :: j <= d < 7 ==> r[d] == days[d]
    {
      var e := FinishEntry(r[j], |data|);
      r := r[j := e];
      j := j + 1;
    }
  }

  /** Both passes. `None` when there are no records (the effect returns
      before drawing). */
  method WeekdayData(env: Env, data: seq<DataPoint>) returns (r: Option<seq<DayStat>>)
    ensures r.None? <==> data == []
    ensures r.Some? ==> |r.value| == 7 && forall d :: 0 <= d < 7 ==> r.value[d] == Finished(env, data, d)
  {
    if data == [] {
      return None;
    }
    var days := CountPass(env, data);
    days := StatisticsPass(env, data, days);
    r := Some(days);
  }

  // ---------------------------------------------------------------------
  // What the entries promise
  // ---------------------------------------------------------------------

  /** The seven counts. */
  function DayCounts(env: Env, data: seq<DataPoint>): (cs: seq<nat>)
    ensures |cs| == 7 && forall d :: 0 <= d < 7 ==> cs[d] == Counted(env, data, d).count
  {
    seq(7, d requires 0 <= d < 7 => |RecordsOn(env, data, d)|)
  }

  /** The counts are the weekday histogram: they add up to the number of
      records. */
  lemma DayCountsFacts(env: Env, data: seq<DataPoint>)
    ensures DayCounts(env, data) == Hist(DataProcessor.WeekKeys(env, data), 7)
    ensures SumNat(DayCounts(env, data)) == |data|
  {
    forall d | 0 <= d < 7 ensures DayCounts(env, data)[d] == Hist(DataProcessor.WeekKeys(env, data), 7)[d] {
      DataProcessor.OnWeekdayCount(env, data, d);
    }
    HistSum(DataProcessor.WeekKeys(env, data), 7);
  }

  /** A counted entry's values are those of its records and its hourly
      distribution adds up to its count. */
  lemma CountedFacts(env: Env, data: seq<DataPoint>, d: nat)
    requires d < 7
    ensures var c := Counted(env, data, d);
            |c.values| == c.count && SumNat(c.hourlyDistribution) == c.count
  {
    HistSum(DataProcessor.HourKeys(env, RecordsOn(env, data, d)), 24);
  }

  /** The average times the count is the sum of the values, and a count of
      at most `n` records is a share between 0 and 100 percent. */
  lemma FinishFacts(c: DayStat, n: nat)
    requires n > 0 && |c.values| == c.count
    ensures Finish(c, n).avgValue * (c.count as real) == Sum(c.values)
    ensures c.count <= n ==> 0.0 <= Finish(c, n).percentage <= 100.0
  {
    if c.values != [] {
      var k := |c.values| as real;
      assert (Sum(c.values) / k) * k == Sum(c.values);
    }
  }

  /** A day's entry holds the values of exactly its records, one per record,
      their mean (when there are any), and an hourly distribution of 24 hours
      that adds up to its count. */
  lemma DayEntryFacts(env: Env, data: seq<DataPoint>, d: nat)
    requires d < 7 && data != []
    ensures var e := Finished(env, data, d);
            e.values == ValuesOf(RecordsOn(env, data, d))
            && |e.values| == e.count && |e.hourlyDistribution| == 24
            && SumNat(e.hourlyDistribution) == e.count
            && (e.values != [] ==> e.avgValue == Mean(e.values))
            && (e.values == [] ==> e.avgValue == 0.0)
  {
    CountedFacts(env, data, d);
  }

  /** The peak hour is the first hour with the most records of that day. */
  lemma PeakHourFacts(env: Env, data: seq<DataPoint>, d: nat)
    requires d < 7 && data != []
    ensures var e := Finished(env, data, d);
            var h := e.hourlyDistribution;
            0 <= e.peakHour < 24
            && (forall k :: 0 <= k < 24 ==> h[k] <= h[e.peakHour])
            && (forall k :: 0 <= k < e.peakHour ==> h[k] < h[e.peakHour])
  {
    var h := Finished(env, data, d).hourlyDistribution;
    var m := FirstMaxIndex(h);
    assert h[m] == MaxOr0(h);
  }

  /** The percentages of the seven days add up to 100. */
  lemma PercentagesSum(env: Env, data: seq<DataPoint>)
    requires data != []
    ensures Sum(seq(7, d requires 0 <= d < 7 => Finished(env, data, d).percentage)) == 100.0
  {
    var cs := DayCounts(env, data);
    DayCountsFacts(env, data);
    SumPercents(cs, |data|);
    PercentOfWhole(|data|);
    var ps := seq(7, d requires 0 <= d < 7 => Finished(env, data, d).percentage);
    assert ps == Percents(cs, |data|);
  }

  /** The comparison's totals: the weekend total counts Sunday and Saturday,
      and the weekday total, `data.length - weekendTotal`, is the count of
      Monday to Friday. */
  lemma WeekTotals(env: Env, data: seq<DataPoint>)
    ensures var cs := DayCounts(env, data);
            |data| - (cs[0] + cs[6]) == cs[1] + cs[2] + cs[3] + cs[4] + cs[5]
  {
    DayCountsFacts(env, data);
    SevenSum(DayCounts(env, data));
  }

  /** The sum of seven counts, written out. */
  lemma SevenSum(cs: seq<nat>)
    requires |cs| == 7
    ensures SumNat(cs) == cs[0] + cs[1] + cs[2] + cs[3] + cs[4] + cs[5] + cs[6]
  {
    SumNatAppend(cs[..6], [cs[6]]);
    SumNatAppend(cs[..5], [cs[5]]);
    SumNatAppend(cs[..4], [cs[4]]);
    SumNatAppend(cs[..3], [cs[3]]);
    SumNatAppend(cs[..2], [cs[2]]);
    SumNatAppend(cs[..1], [cs[1]]);
    assert cs[..6] + [cs[6]] == cs;
    assert cs[..5] + [cs[5]] == cs[..6];
    assert cs[..4] + [cs[4]] == cs[..5];
    assert cs[..3] + [cs[3]] == cs[..4];
    assert cs[..2] + [cs[2]] == cs[..3];
    assert cs[..1] + [cs[1]] == cs[..2];
    assert SumNat(cs[..1]) == cs[0] by {
      assert cs[..1][..0] == [];
    }
  }
}

/** components/charts/WeeklyPattern.tsx: the number of records on each local
    weekday, Sunday first. */
module WeeklyPattern {
  import opened Wrappers
  import opened JsDates
  import opened SeqMath
  import opened DataPoints
  import DataProcessor
  import Buckets

  /** One bar: `{ day: weekDays[i], count, index: i }`. */
  datatype WeekBar = WeekBar(day: string, count: nat, index: nat)

  function WeekBars(counts: seq<nat>): (r: seq<WeekBar>)
    requires |counts| == 7
    ensures |r| == 7
  {
    seq(7, i requires 0 <= i < 7 => WeekBar(WeekdayNames[i], counts[i], i))
  }

  /** The chart's data; `None` when there are no records. */
  method WeekData(env: Env, data: seq<DataPoint>) returns (r: Option<seq<WeekBar>>)
    ensures r.None? <==> data == []
    ensures r.Some? ==> r.value == WeekBars(Hist(DataProcessor.WeekKeys(env, data), 7))
  {
    if |data| == 0 {
      return None;
    }
    var dayCounts := Buckets.CountKeys(DataProcessor.WeekKeys(env, data), 7);
    r := Some(WeekBars(dayCounts[..]));
  }

  /** Bar `i` is weekday `i` under its name, it counts exactly the records
      falling on that weekday, and the bars add up to the number of
      records. */
  lemma WeekDataFacts(env: Env, data: seq<DataPoint>, i: nat)
    requires i < 7
    ensures var keys := DataProcessor.WeekKeys(env, data);
            var bar := WeekBars(Hist(keys, 7))[i];
            bar.index == i && bar.day == WeekdayNames[i]
            && bar.count == |Filter(data, DataProcessor.OnWeekday(env, i))|
            && SumNat(Hist(keys, 7)) == |data|
  {
    Buckets.CountsFacts(DataProcessor.WeekKeys(env, data), 7);
    DataProcessor.OnWeekdayCount(env, data, i);
  }
}

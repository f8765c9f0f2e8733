/** components/charts/HourlyHistogram.tsx: the number of records in each of
    the 24 local hours. */
module HourlyHistogram {
  import opened Wrappers
  import opened JsDates
  import opened SeqMath
  import opened DataPoints
  import DataProcessor
  import Buckets

  /** One bar: `{ hour, count }`. */
  datatype HourBar = HourBar(hour: nat, count: nat)

  /** `hourCounts.map((count, hour) => ({ hour, count }))`. */
  function HourBars(counts: seq<nat>): (r: seq<HourBar>)
    ensures |r| == |counts| && forall h :: 0 <= h < |counts| ==> r[h] == HourBar(h, counts[h])
  {
    seq(|counts|, h requires 0 <= h < |counts| => HourBar(h, counts[h]))
  }

  /** The chart's data. `None` when there are no records: the effect returns
      before counting. */
  method HourData(env: Env, data: seq<DataPoint>) returns (r: Option<seq<HourBar>>)
    ensures r.None? <==> data == []
    ensures r.Some? ==> r.value == HourBars(Hist(DataProcessor.HourKeys(env, data), 24))
  {
    if |data| == 0 {
      return None;
    }
    var hourCounts := Buckets.CountKeys(DataProcessor.HourKeys(env, data), 24);
    r := Some(HourBars(hourCounts[..]));
  }

  /** There are 24 bars, bar `h` counts exactly the records whose local hour
      is `h`, and the bars add up to the number of records. */
  lemma HourDataFacts(env: Env, data: seq<DataPoint>)
    ensures var bars := HourBars(Hist(DataProcessor.HourKeys(env, data), 24));
            |bars| == 24
            && (forall h :: 0 <= h < 24 ==>
                  bars[h].hour == h && bars[h].count == |Filter(data, DataProcessor.AtHour(env, h))|)
            && SumNat(Hist(DataProcessor.HourKeys(env, data), 24)) == |data|
  {
    var keys := DataProcessor.HourKeys(env, data);
    Buckets.CountsFacts(keys, 24);
    forall h | 0 <= h < 24 ensures Hist(keys, 24)[h] == |Filter(data, DataProcessor.AtHour(env, h))| {
      DataProcessor.AtHourCount(env, data, h);
    }
  }
}

/** components/charts/RadarChart.tsx: the 24 hourly counts drawn round a
    circle, with a tooltip per hour. */
module RadarChart {
  import opened Wrappers
  import opened JsStrings
  import opened JsDates
  import opened SeqMath
  import opened DataPoints
  import DataProcessor
  import Buckets

  /** The hourly counts and `maxValue`, the radius scale's upper end. */
  datatype Radar = Radar(hourCounts: seq<nat>, maxValue: int)

  /** The chart's data; `None` when there are no records. `maxValue` is
      `Math.max(...hourCounts)`. */
  method RadarData(env: Env, data: seq<DataPoint>) returns (r: Option<Radar>)
    ensures r.None? <==> data == []
    ensures r.Some? ==> r.value.hourCounts == Hist(DataProcessor.HourKeys(env, data), 24)
    ensures r.Some? ==> r.value.maxValue in r.value.hourCounts
                        && forall h :: 0 <= h < 24 ==> r.value.hourCounts[h] <= r.value.maxValue
  {
    if |data| == 0 {
      return None;
    }
    var hourCounts := Buckets.CountKeys(DataProcessor.HourKeys(env, data), 24);
    var counts := hourCounts[..];
    r := Some(Radar(counts, MaxOr0(counts)));
  }

  /** The hours add up to the number of records, and the hour of the first
      record has one, so the scale's upper end is at least 1. */
  lemma RadarFacts(env: Env, data: seq<DataPoint>)
    requires data != []
    ensures var counts := Hist(DataProcessor.HourKeys(env, data), 24);
            SumNat(counts) == |data| && MaxOr0(counts) >= 1
  {
    var keys := DataProcessor.HourKeys(env, data);
    Buckets.CountsFacts(keys, 24);
    assert Hist(keys, 24)[keys[0]] >= 1;
  }

  /** The tooltip's contents: the hour shown, the records and their share. */
  datatype Tooltip = Tooltip(hour: int, records: nat, percent: real)

  /** The tooltip as written: the dot's datum is its count `d`, and the hour
      shown is `hourCounts.indexOf(d)`, the first hour with that count. */
  function TooltipAsWritten(counts: seq<nat>, n: nat, i: nat): Tooltip
    requires i < |counts| && n > 0
  {
    Tooltip(SeqMath.IndexOf(counts, counts[i]), counts[i], Percent(counts[i], n))
  }

  /** The as-written tooltip names the hovered hour exactly when no earlier
      hour has the same count. */
  lemma AsWrittenHourIsFirstEqual(counts: seq<nat>, n: nat, i: nat)
    requires i < |counts| && n > 0
    ensures TooltipAsWritten(counts, n, i).hour == i
            <==> forall j :: 0 <= j < i ==> counts[j] != counts[i]
  {
  }

  /** With one record at midnight, hovering hour 5 (count 0) shows hour 1,
      the first hour with no records. */
  lemma AsWrittenTooltipMislabels(counts: seq<nat>)
    requires counts == [1] + seq(23, _ => 0)
    ensures TooltipAsWritten(counts, 1, 5).hour == 1
  {
    assert counts[0] == 1 && counts[1] == 0 && counts[5] == 0;
  }

  /** The tooltip as evidently intended: the hour of the hovered dot. */
  function TooltipFor(counts: seq<nat>, n: nat, i: nat): Tooltip
    requires i < |counts| && n > 0
  {
    Tooltip(i, counts[i], Percent(counts[i], n))
  }

  /** Every dot's tooltip names its own hour and that hour's records, and the
      percentages over the 24 dots add up to 100. */
  lemma TooltipFacts(env: Env, data: seq<DataPoint>)
    requires data != []
    ensures var counts := Hist(DataProcessor.HourKeys(env, data), 24);
            (forall i :: 0 <= i < 24 ==>
               TooltipFor(counts, |data|, i).hour == i
               && TooltipFor(counts, |data|, i).records == |Filter(data, DataProcessor.AtHour(env, i))|)
            && Sum(seq(24, i requires 0 <= i < 24 => TooltipFor(counts, |data|, i).percent)) == 100.0
  {
    var keys := DataProcessor.HourKeys(env, data);
    var counts := Hist(keys, 24);
    Buckets.CountsFacts(keys, 24);
    forall i | 0 <= i < 24 ensures counts[i] == |Filter(data, DataProcessor.AtHour(env, i))| {
      DataProcessor.AtHourCount(env, data, i);
    }
    SumPercents(counts, |data|);
    PercentOfWhole(|data|);
    assert seq(24, i requires 0 <= i < 24 => TooltipFor(counts, |data|, i).percent) == Percents(counts, |data|);
  }

  /** The label of hour `h`: `h + 'h'`. */
  function HourLabel(h: nat): string {
    NatToString(h) + "h"
  }

  /** A label is the hour's digits followed by `h`, so reading it back gives
      the hour and no two hours share a label. */
  lemma HourLabelReadsBack(h: nat)
    ensures var s := HourLabel(h);
            |s| >= 2 && s[|s| - 1] == 'h' && AllDigits(s[..|s| - 1]) && DigitsValue(s[..|s| - 1]) == h
  {
    NatToStringRoundTrip(h);
    assert HourLabel(h)[..|HourLabel(h)| - 1] == NatToString(h);
  }

  lemma HourLabelsDistinct(h1: nat, h2: nat)
    requires HourLabel(h1) == HourLabel(h2)
    ensures h1 == h2
  {
    HourLabelReadsBack(h1);
    HourLabelReadsBack(h2);
  }
}

/** components/charts/RecordsByHour.tsx: per local hour, the number of
    records and the mean of their values, with the busiest and the quietest
    hour called out. */
module RecordsByHour {
  import opened Wrappers
  import opened JsDates
  import opened SeqMath
  import opened DataPoints
  import DataProcessor

  /** The values of the records of hour `h`, in input order. */
  function HourValues(env: Env, data: seq<DataPoint>, h: int): seq<real> {
    ValuesOf(Filter(data, DataProcessor.AtHour(env, h)))
  }

  function AllHourValues(env: Env, data: seq<DataPoint>): (r: seq<seq<real>>)
    ensures |r| == 24 && forall h :: 0 <= h < 24 ==> r[h] == HourValues(env, data, h)
  {
    seq(24, h requires 0 <= h < 24 => HourValues(env, data, h))
  }

  /** One more record adds its value to its own hour's list only. */
  lemma HourValuesStep(env: Env, s: seq<DataPoint>, x: DataPoint, h: int)
    ensures HourValues(env, s + [x], h)
            == if Hours(env, x.timestamp) == h then HourValues(env, s, h) + [x.value] else HourValues(env, s, h)
  {
    assert (s + [x])[..|s|] == s;
    var before := Filter(s, DataProcessor.AtHour(env, h));
    if Hours(env, x.timestamp) == h {
      assert ValuesOf(before + [x]) == ValuesOf(before) + [x.value];
    }
  }

  /** One more record appends its value to its own hour's list only. */
  lemma AllHourValuesStep(env: Env, s: seq<DataPoint>, x: DataPoint)
    ensures var hour := Hours(env, x.timestamp);
            AllHourValues(env, s + [x]) == AllHourValues(env, s)[hour := AllHourValues(env, s)[hour] + [x.value]]
  {
    forall h | 0 <= h < 24 {
      HourValuesStep(env, s, x, h);
    }
  }

  /** The counting loop: `hourCounts[hour]++` and `hourValues[hour].push(value)`
      for every record, into fresh arrays of zeros and empty lists. */
  method CountByHour(env: Env, data: seq<DataPoint>) returns (hourCounts: array<nat>, hourValues: array<seq<real>>)
    ensures fresh(hourCounts) && fresh(hourValues)
    ensures hourCounts.Length == 24 && hourValues.Length == 24
    ensures hourCounts[..] == Hist(DataProcessor.HourKeys(env, data), 24)
    ensures hourValues[..] == AllHourValues(env, data)
  {
    hourCounts := new nat[24](_ => 0);
    hourValues := new seq<real>[24](_ => []);
    ghost var keys := DataProcessor.HourKeys(env, data);
    assert data[..0] == [];
    var i := 0;
    while i < |data|
      invariant 0 <= i <= |data|
      invariant hourCounts[..] == Hist(keys[..i], 24)
      invariant hourValues[..] == AllHourValues(env, data[..i])
    {
      var hour := Hours(env, data[i].timestamp);
      HistAppend(keys[..i], hour, 24);
      assert keys[..i + 1] == keys[..i] + [hour];
      AllHourValuesStep(env, data[..i], data[i]);
      assert data[..i + 1] == data[..i] + [data[i]];
      hourCounts[hour] := hourCounts[hour] + 1;
      hourValues[hour] := hourValues[hour] + [data[i].value];
      i := i + 1;
    }
    assert keys[..|data|] == keys;
    assert data[..|data|] == data;
  }

  /** One bar: `{ hour, count, avgValue }`. */
  datatype HourEntry = HourEntry(hour: nat, count: nat, avgValue: real)

  /** `hourCounts.map(...)`: the average is the mean of the hour's values, or
      0 when it has none. */
  function HourEntries(counts: seq<nat>, values: seq<seq<real>>): (r: seq<HourEntry>)
    requires |counts| == 24 && |values| == 24
    ensures |r| == 24
  {
    seq(24, h requires 0 <= h < 24 => HourEntry(h, counts[h], DataProcessor.Avg(values[h])))
  }

  /** The chart's data; `None` when there are no records. */
  method HourData(env: Env, data: seq<DataPoint>) returns (r: Option<seq<HourEntry>>)
    ensures r.None? <==> data == []
    ensures r.Some? ==> r.value == HourEntries(Hist(DataProcessor.HourKeys(env, data), 24), AllHourValues(env, data))
  {
    if |data| == 0 {
      return None;
    }
    var hourCounts, hourValues := CountByHour(env, data);
    r := Some(HourEntries(hourCounts[..], hourValues[..]));
  }

  function Entries(env: Env, data: seq<DataPoint>): seq<HourEntry> {
    HourEntries(Hist(DataProcessor.HourKeys(env, data), 24), AllHourValues(env, data))
  }

  /** Bar `h` is hour `h`; its count is the number of that hour's records and
      of its values, and its average is their mean (0 for none). */
  lemma EntryFacts(env: Env, data: seq<DataPoint>, h: nat)
    requires h < 24
    ensures var e := Entries(env, data)[h];
            e.hour == h && e.count == |Filter(data, DataProcessor.AtHour(env, h))|
            && e.count == |HourValues(env, data, h)|
            && (e.count > 0 ==> e.avgValue == Mean(HourValues(env, data, h)))
            && (e.count == 0 ==> e.avgValue == 0.0)
  {
    DataProcessor.AtHourCount(env, data, h);
  }

  /** The bars add up to the number of records. */
  lemma EntriesTotal(env: Env, data: seq<DataPoint>)
    ensures SumNat(CountsOf(Entries(env, data))) == |data|
  {
    var keys := DataProcessor.HourKeys(env, data);
    assert CountsOf(Entries(env, data)) == Hist(keys, 24);
    HistSum(keys, 24);
  }

  function CountsOf(entries: seq<HourEntry>): (cs: seq<int>)
    ensures |cs| == |entries| && forall h :: 0 <= h < |entries| ==> cs[h] == entries[h].count
  {
    seq(|entries|, h requires 0 <= h < |entries| => entries[h].count)
  }

  /** The two annotations: the peak is the reduce keeping the later bar only
      when its count is larger, the low the one keeping it only when
      smaller. */
  function Peak(entries: seq<HourEntry>): HourEntry
    requires entries != []
  {
    entries[FirstMaxIndex(CountsOf(entries))]
  }

  function Low(entries: seq<HourEntry>): HourEntry
    requires entries != []
  {
    entries[FirstMinIndex(CountsOf(entries))]
  }

  /** The peak is the first hour with the most records and the low the first
      with the fewest, so every hour's count lies between theirs. */
  lemma PeakAndLow(env: Env, data: seq<DataPoint>)
    ensures var es := Entries(env, data);
            var p, l := Peak(es), Low(es);
            p.hour < 24 && l.hour < 24
            && (forall h :: 0 <= h < 24 ==> l.count <= es[h].count <= p.count)
            && (forall h :: 0 <= h < p.hour ==> es[h].count < p.count)
            && (forall h :: 0 <= h < l.hour ==> es[h].count > l.count)
  {
    var es := Entries(env, data);
    var cs := CountsOf(es);
    var i, j := FirstMaxIndex(cs), FirstMinIndex(cs);
    assert es[i].hour == i && es[j].hour == j;
  }

  predicate HasRecords(e: HourEntry) {
    e.count > 0
  }

  /** Count labels are drawn for exactly the hours that have records. */
  lemma LabelledHours(env: Env, data: seq<DataPoint>, h: nat)
    requires h < 24
    ensures Entries(env, data)[h] in Filter(Entries(env, data), HasRecords)
            <==> exists i :: 0 <= i < |data| && Hours(env, data[i].timestamp) == h
  {
    var es := Entries(env, data);
    var keys := DataProcessor.HourKeys(env, data);
    if es[h] in Filter(es, HasRecords) {
      assert Occ(keys, h) > 0;
      var i := OccWitness(keys, h);
      assert Hours(env, data[i].timestamp) == h;
    }
    if exists i :: 0 <= i < |data| && Hours(env, data[i].timestamp) == h {
      var i :| 0 <= i < |data| && Hours(env, data[i].timestamp) == h;
      OccOfElement(keys, i);
    }
  }

  /** The business-hours band: it starts at bucket 9's left edge and is
      `x(17) - x(9) + bandwidth` wide, so with the band scale's step `step`
      and bar width `bw` (0 < bw <= step) it spans exactly the bars of hours
      9 to 17. */
  function BarX(start: real, step: real, h: nat): real {
    start + (h as real) * step
  }

  lemma BusinessBand(start: real, step: real, bw: real, h: nat)
    requires 0.0 < bw <= step && h < 24
    ensures var left := BarX(start, step, 9);
            var width := (BarX(start, step, 17) - BarX(start, step, 9)) + bw;
            (left <= BarX(start, step, h) && BarX(start, step, h) + bw <= left + width)
            <==> 9 <= h <= 17
  {
    var x, x9, x17 := BarX(start, step, h), BarX(start, step, 9), BarX(start, step, 17);
    assert (x9 <= x && x + bw <= x9 + ((x17 - x9) + bw)) <==> (x9 <= x && x <= x17);
    BarOrder(start, step, 9, h);
    BarOrder(start, step, h, 17);
  }

  /** Bar `h` lies at or after bar `k` exactly when h >= k. */
  lemma BarOrder(start: real, step: real, k: nat, h: nat)
    requires step > 0.0
    ensures BarX(start, step, k) <= BarX(start, step, h) <==> k <= h
  {
    if h < k {
      ScaleMonotone(h as real, k as real, step);
    } else {
      ScaleMonotone(k as real, h as real, step);
    }
  }

  lemma ScaleMonotone(a: real, b: real, step: real)
    requires a <= b && step > 0.0
    ensures a * step <= b * step && (a < b ==> a * step < b * step)
  {
  }
}

/** components/charts/DailyHistogram.tsx: the number of records on each UTC
    calendar day, counted into an object keyed by the ISO date and drawn as
    bars in date order. */
module DailyHistogram {
  import opened JsDates
  import opened SeqMath
  import opened DataPoints
  import DataProcessor
  import Tally

  /** The `dayCounts` object after `dayCounts[day] = (dayCounts[day] || 0) + 1`
      for each key in turn. */
  function CountMap(keys: seq<string>): map<string, nat> {
    if keys == [] then map[]
    else
      var m, k := CountMap(keys[..|keys| - 1]), keys[|keys| - 1];
      m[k := (if k in m then m[k] else 0) + 1]
  }

  /** The counting loop over the records, keyed by the date part of
      `toISOString()`. */
  method CountDays(data: seq<DataPoint>) returns (dayCounts: map<string, nat>)
    ensures dayCounts == CountMap(DataProcessor.DayKeys(data))
  {
    dayCounts := CountInto(DataProcessor.DayKeys(data));
  }

  /** `keys.forEach(day => { dayCounts[day] = (dayCounts[day] || 0) + 1 })`. */
  method CountInto(keys: seq<string>) returns (dayCounts: map<string, nat>)
    ensures dayCounts == CountMap(keys)
  {
    dayCounts := map[];
    var i := 0;
    while i < |keys|
      invariant 0 <= i <= |keys|
      invariant dayCounts == CountMap(keys[..i])
    {
      var day := keys[i];
      CountMapStep(keys, i);
      dayCounts := dayCounts[day := (if day in dayCounts then dayCounts[day] else 0) + 1];
      i := i + 1;
    }
    assert keys[..|keys|] == keys;
  }

  lemma CountMapStep(keys: seq<string>, i: nat)
    requires i < |keys|
    ensures var m, k := CountMap(keys[..i]), keys[i];
            CountMap(keys[..i + 1]) == m[k := (if k in m then m[k] else 0) + 1]
  {
    assert keys[..i + 1][..i] == keys[..i];
  }

  /** A key not seen before names a class not seen before. */
  lemma NewClassAbsent(keys: seq<string>, classes: seq<int>, key: string, c: int)
    requires |keys| == |classes|
    requires forall j :: 0 <= j < |keys| ==> (keys[j] == key <==> classes[j] == c)
    requires key !in keys
    ensures Occ(classes, c) == 0
  {
    if Occ(classes, c) > 0 {
      var j := OccWitness(classes, c);
    }
  }

  /** Counting string keys that name integer classes exactly (equal keys
      precisely at equal classes): the object has a key for each key seen and
      no other, and holds the number of occurrences of its class. */
  lemma {:induction false} CountMapOcc(keys: seq<string>, classes: seq<int>)
    requires |keys| == |classes|
    requires forall i, j :: 0 <= i < |keys| && 0 <= j < |keys| ==> (keys[i] == keys[j] <==> classes[i] == classes[j])
    ensures forall k :: k in CountMap(keys) <==> k in keys
    ensures forall i :: 0 <= i < |keys| ==> CountMap(keys)[keys[i]] == Occ(classes, classes[i])
    decreases |keys|
  {
    if keys != [] {
      var n := |keys| - 1;
      var ik, ic := keys[..n], classes[..n];
      CountMapOcc(ik, ic);
      var m := CountMap(ik);
      assert classes == ic + [classes[n]];
      forall i | 0 <= i < |keys| ensures CountMap(keys)[keys[i]] == Occ(classes, classes[i]) {
        OccAppend(ic, classes[n], classes[i]);
        if i == n && keys[n] !in m {
          NewClassAbsent(ik, ic, keys[n], classes[n]);
        }
        if i == n && keys[n] in m {
          var j :| 0 <= j < n && ik[j] == keys[n];
          assert classes[j] == classes[n];
        }
      }
      assert forall k :: k in keys <==> k in ik || k == keys[n];
    }
  }

  /** Each record's UTC day number. */
  function UtcDays(data: seq<DataPoint>): (ds: seq<int>)
    ensures |ds| == |data| && forall i :: 0 <= i < |data| ==> ds[i] == data[i].timestamp / MsPerDay
  {
    seq(|data|, i requires 0 <= i < |data| => data[i].timestamp / MsPerDay)
  }

  /** The day keys name the UTC days exactly. */
  lemma DayKeysAreUtcDays(data: seq<DataPoint>)
    ensures var keys, days := DataProcessor.DayKeys(data), UtcDays(data);
            forall i, j :: 0 <= i < |data| && 0 <= j < |data| ==> (keys[i] == keys[j] <==> days[i] == days[j])
  {
    forall i, j | 0 <= i < |data| && 0 <= j < |data| {
      DataProcessor.DayKeyIsUtcDay(data[i].timestamp, data[j].timestamp);
    }
  }

  /** One bar: the day's midnight (UTC) and the day's count. */
  datatype DayBar = DayBar(date: int, count: nat)

  /** `dayData`: the object's entries with each key read back by
      `new Date(date)`, which takes a date-only ISO string as UTC midnight,
      sorted by time. Sorting the entries of the counting object gives the
      same list as tallying the UTC day numbers. */
  function DayData(data: seq<DataPoint>): (bars: seq<DayBar>)
    ensures |bars| == |Tally.Tally(UtcDays(data))|
  {
    var t := Tally.Tally(UtcDays(data));
    seq(|t|, j requires 0 <= j < |t| => DayBar(t[j].0 * MsPerDay, t[j].1))
  }

  lemma MidnightSameDay(t: Instant)
    ensures IsoDatePart((t / MsPerDay) * MsPerDay) == DataProcessor.DayKey(t)
  {
    DataProcessor.DayKeyIsUtcDay(t, t);
    IsoDatePartIsDayKey((t / MsPerDay) * MsPerDay, t);
  }

  /** Each bar is a key of the counting object, read as a date, with that
      key's count. */
  lemma DayDataFacts(data: seq<DataPoint>, j: nat)
    requires j < |DayData(data)|
    ensures var bars, counts := DayData(data), CountMap(DataProcessor.DayKeys(data));
            IsoDatePart(bars[j].date) in counts && bars[j].count == counts[IsoDatePart(bars[j].date)] >= 1
  {
    var days, keys := UtcDays(data), DataProcessor.DayKeys(data);
    var t := Tally.Tally(days);
    Tally.TallyEntries(days, j);
    var i := OccWitness(days, t[j].0);
    MidnightSameDay(data[i].timestamp);
    CountAt(data, i);
  }

  /** A record's day is a key of the counting object, holding the number of
      records on that UTC day. */
  lemma CountAt(data: seq<DataPoint>, i: nat)
    requires i < |data|
    ensures var counts, key := CountMap(DataProcessor.DayKeys(data)), DataProcessor.DayKey(data[i].timestamp);
            key in counts && counts[key] == Occ(UtcDays(data), data[i].timestamp / MsPerDay)
  {
    var keys := DataProcessor.DayKeys(data);
    DayKeysAreUtcDays(data);
    CountMapOcc(keys, UtcDays(data));
    assert keys[i] in keys;
  }

  /** The bars are in strictly ascending date order. */
  lemma DayDataAscending(data: seq<DataPoint>, j: nat, k: nat)
    requires j < k < |DayData(data)|
    ensures DayData(data)[j].date < DayData(data)[k].date
  {
    var t := Tally.Tally(UtcDays(data));
    Tally.TallyFacts(UtcDays(data));
    Tally.AscendingAll(t, j, k);
  }

  /** Every key of the counting object, that is every record's day, gets a
      bar, and the bars' counts add up to the number of records. */
  lemma EveryDayHasBar(data: seq<DataPoint>, i: nat) returns (j: nat)
    requires i < |data|
    ensures j < |DayData(data)| && IsoDatePart(DayData(data)[j].date) == DataProcessor.DayKey(data[i].timestamp)
  {
    var days := UtcDays(data);
    OccOfElement(days, i);
    j := Tally.TallyListsKey(days, days[i]);
    MidnightSameDay(data[i].timestamp);
  }

  lemma CountMapKeys(data: seq<DataPoint>)
    ensures forall k :: k in CountMap(DataProcessor.DayKeys(data)) <==> k in DataProcessor.DayKeys(data)
  {
    DayKeysAreUtcDays(data);
    CountMapOcc(DataProcessor.DayKeys(data), UtcDays(data));
  }

  function BarCounts(bars: seq<DayBar>): (cs: seq<nat>)
    ensures |cs| == |bars| && forall j :: 0 <= j < |bars| ==> cs[j] == bars[j].count
  {
    seq(|bars|, j requires 0 <= j < |bars| => bars[j].count)
  }

  lemma BarsTotal(data: seq<DataPoint>)
    ensures SumNat(BarCounts(DayData(data))) == |data|
  {
    var t := Tally.Tally(UtcDays(data));
    Tally.TallyFacts(UtcDays(data));
    Tally.TotalCountIsSum(t);
    assert BarCounts(DayData(data)) == Tally.CountsOnly(t);
  }

  /** `innerWidth / dayData.length * 0.8`: the bars together take 80% of the
      plot width; unlike the per-day bar chart there is no one-pixel floor. */
  function BarWidth(innerWidth: real, len: nat): (w: real)
    requires len > 0
    ensures w * (len as real) == 0.8 * innerWidth
  {
    innerWidth / (len as real) * 0.8
  }
}

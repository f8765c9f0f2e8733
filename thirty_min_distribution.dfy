/** components/charts/ThirtyMinDistribution.tsx: records counted in the 48
    half-hour slots of the local day. */
module ThirtyMinDistribution {
  import opened JsStrings
  import opened JsDates
  import opened SeqMath
  import opened DataPoints

  const SlotCount: nat := 48

  /** `hour * 2 + (minute >= 30 ? 1 : 0)`. */
  function IntervalIndex(env: Env, t: int): (i: int)
    ensures 0 <= i < SlotCount
    ensures i / 2 == Hours(env, t) && (i % 2 == 1 <==> Minutes(env, t) >= 30)
  {
    Hours(env, t) * 2 + (if Minutes(env, t) >= 30 then 1 else 0)
  }

  function IntervalKeys(env: Env, data: seq<DataPoint>): (ks: seq<int>)
    ensures |ks| == |data| && InRange(ks, SlotCount)
    ensures forall i :: 0 <= i < |data| ==> ks[i] == IntervalIndex(env, data[i].timestamp)
  {
    seq(|data|, i requires 0 <= i < |data| => IntervalIndex(env, data[i].timestamp))
  }

  /** The label of slot `i`: its hour padded to two digits, then ":00" or
      ":30". */
  function SlotLabel(i: nat): string {
    PadStart2(NatToString(i / 2)) + (if i % 2 == 0 then ":00" else ":30")
  }

  /** Every slot's label, in slot order. */
  ghost function AllSlotLabels(): (r: seq<string>)
    ensures |r| == SlotCount
  {
    seq(SlotCount, i requires 0 <= i < SlotCount => SlotLabel(i))
  }

  /** The label loop: two labels per hour, in slot order. */
  method IntervalLabels() returns (labels: seq<string>)
    ensures |labels| == SlotCount
    ensures forall i :: 0 <= i < SlotCount ==> labels[i] == SlotLabel(i)
  {
    ghost var all := AllSlotLabels();
    labels := [];
    var hour := 0;
    while hour < 24
      invariant 0 <= hour <= 24
      invariant labels == all[..2 * hour]
    {
      NextHourLabels(hour);
      labels := labels + [PadStart2(NatToString(hour)) + ":00"];
      labels := labels + [PadStart2(NatToString(hour)) + ":30"];
      hour := hour + 1;
    }
    assert labels == all;
  }

  /** The labels up to the end of an hour are those up to its start and then
      the hour's ":00" and ":30" labels. */
  lemma NextHourLabels(hour: nat)
    requires hour < 24
    ensures AllSlotLabels()[..2 * hour + 2]
            == AllSlotLabels()[..2 * hour] + [PadStart2(NatToString(hour)) + ":00"] + [PadStart2(NatToString(hour)) + ":30"]
  {
    var all := AllSlotLabels();
    PrefixStep(all, 2 * hour);
    assert all[2 * hour] == SlotLabel(2 * hour) && all[2 * hour + 1] == SlotLabel(2 * hour + 1);
    SlotLabelsOfHour(hour);
  }

  lemma PrefixStep<T>(s: seq<T>, k: nat)
    requires k + 2 <= |s|
    ensures s[..k + 2] == s[..k] + [s[k]] + [s[k + 1]]
  {
  }

  /** The two slots of an hour carry its ":00" and ":30" labels. */
  lemma SlotLabelsOfHour(hour: nat)
    ensures SlotLabel(2 * hour) == PadStart2(NatToString(hour)) + ":00"
    ensures SlotLabel(2 * hour + 1) == PadStart2(NatToString(hour)) + ":30"
  {
    assert (2 * hour) / 2 == hour && (2 * hour) % 2 == 0;
    assert (2 * hour + 1) / 2 == hour && (2 * hour + 1) % 2 == 1;
  }

  /** A slot label is "HH:MM": its hour is the slot's hour and its minutes
      are 00 or 30 as the slot is the first or second half of the hour; so a
      record's slot label shows the record's local hour, and ":30" exactly
      when its minute is 30 or later. */
  lemma SlotLabelShape(i: nat)
    requires i < SlotCount
    ensures var s := SlotLabel(i);
            |s| == 5 && s[2] == ':' && AllDigits(s[..2]) && DigitsValue(s[..2]) == i / 2
            && s[3..] == (if i % 2 == 0 then "00" else "30")
  {
    PadStartOfSmallNat(i / 2);
    var s := SlotLabel(i);
    assert s[..2] == TwoDigits(i / 2);
  }

  lemma RecordSlotLabel(env: Env, t: int)
    ensures var s := SlotLabel(IntervalIndex(env, t));
            DigitsValue(s[..2]) == Hours(env, t) && (s[3..] == "30" <==> Minutes(env, t) >= 30)
  {
    SlotLabelShape(IntervalIndex(env, t));
  }

  /** The counting loop over a fresh 48-slot array of zeros. */
  method IntervalCounts(env: Env, data: seq<DataPoint>) returns (counts: array<nat>)
    ensures fresh(counts) && counts.Length == SlotCount
    ensures counts[..] == Hist(IntervalKeys(env, data), SlotCount)
  {
    counts := new nat[SlotCount](_ => 0);
    ghost var keys := IntervalKeys(env, data);
    var i := 0;
    while i < |data|
      invariant 0 <= i <= |data|
      invariant counts[..] == Hist(keys[..i], SlotCount)
    {
      var intervalIndex := IntervalIndex(env, data[i].timestamp);
      HistAppend(keys[..i], intervalIndex, SlotCount);
      assert keys[..i + 1] == keys[..i] + [intervalIndex];
      counts[intervalIndex] := counts[intervalIndex] + 1;
      i := i + 1;
    }
    assert keys[..|data|] == keys;
  }

  /** Every record is counted in exactly one slot: slot `k` holds the number
      of records whose interval index is `k`, and the slots add up to the
      number of records. */
  lemma IntervalCountsFacts(env: Env, data: seq<DataPoint>)
    ensures var h := Hist(IntervalKeys(env, data), SlotCount);
            SumNat(h) == |data|
            && forall k :: 0 <= k < SlotCount ==> h[k] == Occ(IntervalKeys(env, data), k)
  {
    HistSum(IntervalKeys(env, data), SlotCount);
  }

  /** One bar of the chart. */
  datatype Interval = Interval(interval: nat, slotLabel: string, count: nat, hour: nat, isHalfHour: bool)

  /** `intervalData`. */
  function IntervalData(counts: seq<nat>, labels: seq<string>): (r: seq<Interval>)
    requires |counts| == SlotCount && |labels| == SlotCount
    ensures |r| == SlotCount
  {
    seq(SlotCount, i requires 0 <= i < SlotCount =>
      Interval(i, labels[i], counts[i], i / 2, i % 2 == 1))
  }

  /** The bars' hours run 0..23, two bars each, the second of each pair
      being the half hour. */
  lemma IntervalDataFacts(counts: seq<nat>, labels: seq<string>, hour: nat)
    requires |counts| == SlotCount && |labels| == SlotCount && hour < 24
    ensures var r := IntervalData(counts, labels);
            r[2 * hour].hour == hour && !r[2 * hour].isHalfHour
            && r[2 * hour + 1].hour == hour && r[2 * hour + 1].isHalfHour
  {
  }

  /** The bars whose slot gets an axis tick: `interval % 4 === 0`. */
  predicate IsTick(d: Interval) {
    d.interval % 4 == 0
  }

  /** Every fourth slot, the first `n` of them. */
  function EveryFourth(r: seq<Interval>, n: nat): (s: seq<Interval>)
    requires 4 * n <= |r| + 3
    ensures |s| == n && forall j :: 0 <= j < n ==> s[j] == r[4 * j]
  {
    seq(n, j requires 0 <= j < n => r[4 * j])
  }

  /** The ticks among the first `k` bars are the bars of slots 0, 4, 8, ... */
  lemma {:induction false} TicksPrefix(r: seq<Interval>, k: nat)
    requires k <= |r| && forall i :: 0 <= i < |r| ==> r[i].interval == i
    ensures Filter(r[..k], IsTick) == EveryFourth(r, (k + 3) / 4)
    decreases k
  {
    if k > 0 {
      TicksPrefix(r, k - 1);
      TicksStep(r, k - 1);
    }
  }

  /** Slot m adds itself to the ticks exactly when it is a multiple of 4. */
  lemma TicksStep(r: seq<Interval>, m: nat)
    requires m < |r| && r[m].interval == m
    requires Filter(r[..m], IsTick) == EveryFourth(r, (m + 3) / 4)
    ensures Filter(r[..m + 1], IsTick) == EveryFourth(r, (m + 4) / 4)
  {
    assert r[..m + 1][..m] == r[..m] && r[..m + 1][m] == r[m];
    assert Filter(r[..m + 1], IsTick) == Filter(r[..m], IsTick) + (if IsTick(r[m]) then [r[m]] else []);
    TickCount(m);
    var q := (m + 3) / 4;
    if m % 4 == 0 {
      var prev, next := EveryFourth(r, q), EveryFourth(r, q + 1);
      forall j | 0 <= j < q + 1 ensures next[j] == (prev + [r[m]])[j] {
        if j == q {
          assert 4 * j == m;
        }
      }
      assert next == prev + [r[m]];
    }
  }

  /** Slot m is a tick exactly when it opens a new group of four. */
  lemma TickCount(m: nat)
    ensures m % 4 == 0 ==> (m + 4) / 4 == (m + 3) / 4 + 1 && 4 * ((m + 3) / 4) == m
    ensures m % 4 != 0 ==> (m + 4) / 4 == (m + 3) / 4
  {
  }

  /** The axis labels every fourth slot: twelve ticks, tick `j` at slot
      `4 j`, the full hour `2 j`, labelled with that slot's label. */
  lemma TicksEveryTwoHours(counts: seq<nat>, labels: seq<string>)
    requires |counts| == SlotCount && |labels| == SlotCount
    ensures var ticks := Filter(IntervalData(counts, labels), IsTick);
            |ticks| == 12
            && forall j :: 0 <= j < 12 ==>
                 ticks[j].interval == 4 * j && ticks[j].hour == 2 * j && !ticks[j].isHalfHour
                 && ticks[j].slotLabel == labels[4 * j]
  {
    var r := IntervalData(counts, labels);
    TicksPrefix(r, SlotCount);
    assert r[..SlotCount] == r;
  }

  /** The tooltip's end label: the next slot's label, or "00:00" after the
      last slot. */
  function NextLabel(labels: seq<string>, i: nat): string
    requires |labels| == SlotCount && i < SlotCount
  {
    if i + 1 < |labels| then labels[i + 1] else "00:00"
  }

  /** The end label is the label of the following slot, wrapping to
      midnight. */
  lemma NextLabelWraps(labels: seq<string>, i: nat)
    requires |labels| == SlotCount && i < SlotCount
    requires forall k :: 0 <= k < SlotCount ==> labels[k] == SlotLabel(k)
    ensures NextLabel(labels, i) == SlotLabel((i + 1) % SlotCount)
  {
    if i + 1 < SlotCount {
      assert (i + 1) % SlotCount == i + 1;
    } else {
      assert NatToString(0) == "0";
      assert SlotLabel(0) == "00:00";
    }
  }

  /** The peak bar is the reduce that keeps the earlier bar on ties, the
      first slot with the largest count (`FirstMaxIndex`). Its annotation is
      drawn exactly when some record was counted. */
  lemma PeakShown(env: Env, data: seq<DataPoint>)
    ensures var h := Hist(IntervalKeys(env, data), SlotCount);
            h[FirstMaxIndex(h)] > 0 <==> data != []
  {
    if data != [] {
      var keys := IntervalKeys(env, data);
      OccOfElement(keys, 0);
      assert Hist(keys, SlotCount)[keys[0]] >= 1;
    }
  }

  /** The colour bands of `getColor`. */
  datatype Band = Morning | Afternoon | Evening | Night

  function BandOf(hour: int): Band {
    if 6 <= hour < 12 then Morning
    else if 12 <= hour < 18 then Afternoon
    else if 18 <= hour < 22 then Evening
    else Night
  }

  /** The legend's ranges: 6-12, 12-18, 18-22, and the night from 22 round to
      6. */
  lemma BandRanges(hour: int)
    requires 0 <= hour < 24
    ensures BandOf(hour) == Night <==> hour < 6 || hour >= 22
    ensures BandOf(hour) == Morning <==> 6 <= hour < 12
  {
  }
}

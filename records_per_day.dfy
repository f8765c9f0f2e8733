/** components/charts/RecordsPerDay.tsx: the number of records on each local
    calendar day, as bars in date order with the mean count as a line. */
module RecordsPerDay {
  import opened JsDates
  import opened SeqMath
  import opened DataPoints
  import Tally

  /** Each record's local day (`d3.timeDay(timestamp)`, the local midnight,
      identified by its day number). */
  function LocalDays(env: Env, data: seq<DataPoint>): (ds: seq<int>)
    ensures |ds| == |data| && forall i :: 0 <= i < |data| ==> ds[i] == LocalDay(env, data[i].timestamp)
  {
    seq(|data|, i requires 0 <= i < |data| => LocalDay(env, data[i].timestamp))
  }

  /** `d3.rollup(data, v => v.length, d => d3.timeDay(d.timestamp))` turned
      into `{ date, count }` entries and sorted by date. */
  function ChartData(env: Env, data: seq<DataPoint>): Tally.Counts {
    Tally.Tally(LocalDays(env, data))
  }

  /** The entries are in strictly ascending date order, one per local day
      that has records: each entry's count is the number of records on its
      day, every record's day has an entry, and the counts add up to the
      number of records. */
  lemma ChartDataFacts(env: Env, data: seq<DataPoint>)
    ensures var cd := ChartData(env, data);
            Tally.Ascending(cd)
            && (forall j :: 0 <= j < |cd| ==> cd[j].1 == Occ(LocalDays(env, data), cd[j].0) >= 1)
            && SumNat(Tally.CountsOnly(cd)) == |data|
  {
    var keys := LocalDays(env, data);
    Tally.TallyFacts(keys);
    Tally.TotalCountIsSum(Tally.Tally(keys));
    forall j | 0 <= j < |ChartData(env, data)| ensures ChartData(env, data)[j].1 == Occ(keys, ChartData(env, data)[j].0) >= 1 {
      Tally.TallyEntries(keys, j);
    }
  }

  lemma EveryDayListed(env: Env, data: seq<DataPoint>, i: nat) returns (j: nat)
    requires i < |data|
    ensures j < |ChartData(env, data)| && ChartData(env, data)[j].0 == LocalDay(env, data[i].timestamp)
  {
    var keys := LocalDays(env, data);
    OccOfElement(keys, i);
    j := Tally.TallyListsKey(keys, keys[i]);
  }

  /** `Math.max(1, (innerWidth / chartData.length) * 0.8)`. */
  function BarWidth(innerWidth: real, len: nat): (w: real)
    requires len > 0
    ensures w >= 1.0
    ensures innerWidth / (len as real) * 0.8 >= 1.0 ==> w == innerWidth / (len as real) * 0.8
  {
    var w := innerWidth / (len as real) * 0.8;
    if w >= 1.0 then w else 1.0
  }

  /** `d3.mean(chartData, d => d.count) || 0`. */
  function AvgCount(cd: Tally.Counts): real {
    if cd == [] then 0.0 else Mean(RealsOf(Tally.CountsOnly(cd)))
  }

  function RealsOf(s: seq<nat>): (r: seq<real>)
    ensures |r| == |s| && forall i :: 0 <= i < |s| ==> r[i] == s[i] as real
  {
    seq(|s|, i requires 0 <= i < |s| => s[i] as real)
  }

  lemma {:induction false} SumOfReals(s: seq<nat>)
    ensures Sum(RealsOf(s)) == SumNat(s) as real
    decreases |s|
  {
    if s != [] {
      SumOfReals(s[..|s| - 1]);
      assert RealsOf(s)[..|s| - 1] == RealsOf(s[..|s| - 1]);
    }
  }

  /** The average line sits at the number of records per day with records. */
  lemma AvgCountIsRecordsPerDay(env: Env, data: seq<DataPoint>)
    requires data != []
    ensures var cd := ChartData(env, data);
            |cd| >= 1 && AvgCount(cd) == (|data| as real) / (|cd| as real)
  {
    var cd := ChartData(env, data);
    var j := EveryDayListed(env, data, 0);
    ChartDataFacts(env, data);
    SumOfReals(Tally.CountsOnly(cd));
  }

  /** The axis puts a tick every `ceil(len / 10)` days: at least one day
      apart, and ten steps cover all the days. */
  function TickEvery(len: nat): (k: nat)
    requires len > 0
    ensures k >= 1 && 10 * k >= len && 10 * (k - 1) < len
  {
    CeilDiv(len, 10)
  }
}

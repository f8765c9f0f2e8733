/** components/charts/BoxPlot.tsx: records are counted per local day, the
    day counts are collected per weekday, and each weekday's counts are
    summarised by quartiles, clamped whiskers and outliers. */
module BoxPlot {
  import opened JsDates
  import opened SeqMath
  import opened DataPoints
  import Tally
  import RecordsPerDay

  // ---------------------------------------------------------------------
  // Day counts per weekday
  // ---------------------------------------------------------------------

  /** `new Date(dateStr).getDay()` for the local midnight of day number `d`. */
  function DayWeekday(d: int): (w: int)
    ensures 0 <= w < 7
  {
    (d + 4) % 7
  }

  /** `dailyCounts`: the number of records on each local day. */
  function DailyCounts(env: Env, data: seq<DataPoint>): Tally.Counts {
    RecordsPerDay.ChartData(env, data)
  }

  /** The weekday of a record is the weekday of its local day. */
  lemma RecordWeekday(env: Env, data: seq<DataPoint>, i: nat) returns (j: nat)
    requires i < |data|
    ensures j < |DailyCounts(env, data)| && DayWeekday(DailyCounts(env, data)[j].0) == WeekDay(env, data[i].timestamp)
  {
    j := RecordsPerDay.EveryDayListed(env, data, i);
  }

  /** Every listed day has a record on it. */
  lemma DayRecord(env: Env, data: seq<DataPoint>, j: nat) returns (i: nat)
    requires j < |DailyCounts(env, data)|
    ensures i < |data| && WeekDay(env, data[i].timestamp) == DayWeekday(DailyCounts(env, data)[j].0)
  {
    var days := RecordsPerDay.LocalDays(env, data);
    Tally.TallyEntries(days, j);
    i := OccWitness(days, DailyCounts(env, data)[j].0);
  }

  /** The weekday lists after pushing each day's count, in turn, onto the
      list of its weekday. */
  function ListsOf(daily: Tally.Counts): (lists: seq<seq<int>>)
    ensures |lists| == 7
  {
    if daily == [] then seq(7, _ => [])
    else
      var prev, e := ListsOf(daily[..|daily| - 1]), daily[|daily| - 1];
      var w := DayWeekday(e.0);
      prev[w := prev[w] + [e.1]]
  }

  /** `dayOfWeekCounts`: seven empty lists, then `get(dayOfWeek).push(count)`
      for every day. */
  method WeekdayLists(daily: Tally.Counts) returns (lists: array<seq<int>>)
    ensures fresh(lists) && lists[..] == ListsOf(daily)
  {
    lists := new seq<int>[7](_ => []);
    assert daily[..0] == [];
    var i := 0;
    while i < |daily|
      invariant 0 <= i <= |daily|
      invariant lists.Length == 7 && lists[..] == ListsOf(daily[..i])
    {
      var w := DayWeekday(daily[i].0);
      assert daily[..i + 1][..i] == daily[..i];
      lists[w] := lists[w] + [daily[i].1];
      i := i + 1;
    }
    assert daily[..|daily|] == daily;
  }

  predicate IsOn(w: int, e: (int, nat)) {
    DayWeekday(e.0) == w
  }

  /** A weekday's list holds the counts of the days on that weekday, in the
      order the days come. */
  lemma {:induction false} ListsAreWeekdayCounts(daily: Tally.Counts, w: nat)
    requires w < 7
    ensures ListsOf(daily)[w] == Tally.CountsOnly(Filter(daily, e => IsOn(w, e)))
    decreases |daily|
  {
    if daily != [] {
      var init := daily[..|daily| - 1];
      ListsAreWeekdayCounts(init, w);
      var p := e => IsOn(w, e);
      assert Filter(daily, p) == Filter(init, p) + (if p(daily[|daily| - 1]) then [daily[|daily| - 1]] else []);
    }
  }

  function Lengths(lists: seq<seq<int>>): (ls: seq<nat>)
    ensures |ls| == |lists| && forall i :: 0 <= i < |lists| ==> ls[i] == |lists[i]|
  {
    seq(|lists|, i requires 0 <= i < |lists| => |lists[i]|)
  }

  /** Every day lands in exactly one weekday list. */
  lemma {:induction false} ListsCoverDays(daily: Tally.Counts)
    ensures SumNat(Lengths(ListsOf(daily))) == |daily|
    decreases |daily|
  {
    if daily == [] {
      ZeroSum(Lengths(ListsOf(daily)));
    } else {
      var init := daily[..|daily| - 1];
      ListsCoverDays(init);
      var w := DayWeekday(daily[|daily| - 1].0);
      var before, after := Lengths(ListsOf(init)), Lengths(ListsOf(daily));
      assert after == before[w := before[w] + 1];
      SumNatUpdate(before, w, before[w] + 1);
    }
  }

  // ---------------------------------------------------------------------
  // Sorting a weekday's counts in place
  // ---------------------------------------------------------------------

  /** `counts.sort((a, b) => a - b)`, as an insertion sort by adjacent
      swaps. */
  method SortCounts(a: array<int>)
    modifies a
    ensures SortedInt(a[..]) && multiset(a[..]) == old(multiset(a[..]))
  {
    var i := 0;
    while i < a.Length
      invariant 0 <= i <= a.Length
      invariant SortedInt(a[..i])
      invariant multiset(a[..]) == old(multiset(a[..]))
    {
      Sink(a, i);
      i := i + 1;
    }
    assert a[..a.Length] == a[..];
  }

  /** One insertion step: the element at `i` is swapped down past the larger
      ones before it, so the first `i + 1` elements end up ascending. */
  method Sink(a: array<int>, i: nat)
    requires i < a.Length && SortedInt(a[..i])
    modifies a
    ensures SortedInt(a[..i + 1]) && multiset(a[..]) == old(multiset(a[..]))
  {
    var j := i;
    while j > 0 && a[j - 1] > a[j]
      invariant 0 <= j <= i
      invariant forall k, l :: 0 <= k < l <= i && l != j ==> a[k] <= a[l]
      invariant 0 < j < i ==> a[j - 1] <= a[j + 1]
      invariant multiset(a[..]) == old(multiset(a[..]))
    {
      SwapDown(a, j);
      j := j - 1;
    }
  }

  /** Swaps the element at `j` with its left neighbour; the counts are the
      same counts afterwards. */
  method SwapDown(a: array<int>, j: nat)
    requires 0 < j < a.Length
    modifies a
    ensures a[..] == old(a[..])[j - 1 := old(a[j])][j := old(a[j - 1])]
    ensures multiset(a[..]) == old(multiset(a[..]))
  {
    ghost var before := a[..];
    a[j - 1], a[j] := a[j], a[j - 1];
    assert a[..] == before[j - 1 := before[j]][j := before[j - 1]];
  }

  lemma SortedFirst(s: seq<int>, j: nat)
    requires SortedInt(s) && j < |s|
    ensures s[0] <= s[j]
  {
  }

  /** Two ascending lists with the same elements are the same list, so the
      in-place sort yields the ascending arrangement. */
  lemma {:induction false} SortedUnique(s: seq<int>, t: seq<int>)
    requires SortedInt(s) && SortedInt(t) && multiset(s) == multiset(t)
    ensures s == t
    decreases |s|
  {
    assert |s| == |multiset(s)| == |t|;
    if s != [] {
      SameFirst(s, t);
      DropFirst(s);
      DropFirst(t);
      SortedUnique(s[1..], t[1..]);
      assert s == [s[0]] + s[1..] && t == [t[0]] + t[1..];
    }
  }

  /** Two sorted arrangements of the same values start alike. */
  lemma SameFirst(s: seq<int>, t: seq<int>)
    requires SortedInt(s) && SortedInt(t) && multiset(s) == multiset(t) && s != [] && t != []
    ensures s[0] == t[0]
  {
    assert s[0] in multiset(t) && t[0] in multiset(s);
    var i :| 0 <= i < |t| && t[i] == s[0];
    var j :| 0 <= j < |s| && s[j] == t[0];
    SortedFirst(s, j);
    SortedFirst(t, i);
  }

  lemma DropFirst(s: seq<int>)
    requires s != []
    ensures multiset(s[1..]) == multiset(s) - multiset{s[0]}
  {
    assert s == [s[0]] + s[1..];
  }

  // ---------------------------------------------------------------------
  // Quartiles, whiskers and outliers
  // ---------------------------------------------------------------------

  /** `d3.quantile(sorted, p)` for `0 < p < 1` on a non-empty ascending list:
      the value at position `(n - 1) * p`, interpolated linearly between the
      two elements around it; a single element is every quantile. The
      chart's `|| 0` fallback never applies, since the list is not empty. */
  function Quantile(s: seq<int>, p: real): real
    requires s != [] && 0.0 < p < 1.0
  {
    if |s| == 1 then s[0] as real
    else
      var x := Position(|s|, p);
      var i0 := x.Floor;
      Interpolate(s[i0] as real, s[i0 + 1] as real, x - i0 as real)
  }

  /** The point a fraction `f` of the way from `a` to `b`. */
  function Interpolate(a: real, b: real, f: real): real {
    a + (b - a) * f
  }

  /** Between `a <= b` the interpolated point lies in between and moves
      forward with `f`. */
  lemma InterpolateFacts(a: real, b: real, f: real, g: real)
    requires a <= b && 0.0 <= f <= g <= 1.0
    ensures a <= Interpolate(a, b, f) <= Interpolate(a, b, g) <= b
  {
    ScaleUp(b - a, 0.0, f);
    ScaleUp(b - a, f, g);
    ScaleUp(b - a, g, 1.0);
  }

  /** The position `(n - 1) * p` a quantile is read at, which lies inside the
      list when it has at least two elements. */
  function Position(n: nat, p: real): (x: real)
    requires n >= 2 && 0.0 < p < 1.0
    ensures 0.0 <= x < (n - 1) as real
  {
    ((n - 1) as real) * p
  }

  lemma PositionMonotone(n: nat, p: real, p': real)
    requires n >= 2 && 0.0 < p <= p' < 1.0
    ensures Position(n, p) <= Position(n, p')
  {
    ScaleUp((n - 1) as real, p, p');
  }

  lemma SortedInt2(s: seq<int>, i: nat, j: nat)
    requires SortedInt(s) && i <= j < |s|
    ensures s[i] <= s[j]
  {
  }

  /** A quantile lies between the two elements around its position. */
  lemma QuantileAround(s: seq<int>, p: real) returns (i0: nat)
    requires SortedInt(s) && |s| >= 2 && 0.0 < p < 1.0
    ensures i0 + 1 < |s| && i0 == Position(|s|, p).Floor
    ensures Quantile(s, p) == Interpolate(s[i0] as real, s[i0 + 1] as real, Position(|s|, p) - i0 as real)
    ensures s[i0] as real <= Quantile(s, p) <= s[i0 + 1] as real
  {
    var x := Position(|s|, p);
    i0 := x.Floor;
    SortedInt2(s, i0, i0 + 1);
    InterpolateFacts(s[i0] as real, s[i0 + 1] as real, x - i0 as real, x - i0 as real);
  }

  /** Quantiles of an ascending list never decrease as `p` grows, and stay
      within the first and the last element. */
  lemma QuantileMonotone(s: seq<int>, p: real, p': real)
    requires SortedInt(s) && s != [] && 0.0 < p <= p' < 1.0
    ensures s[0] as real <= Quantile(s, p) <= Quantile(s, p') <= s[|s| - 1] as real
  {
    if |s| >= 2 {
      var m := |s| - 1;
      var i0 := QuantileAround(s, p);
      var j0 := QuantileAround(s, p');
      SortedInt2(s, 0, i0);
      SortedInt2(s, j0 + 1, m);
      var x, y := Position(|s|, p), Position(|s|, p');
      PositionMonotone(|s|, p, p');
      FloorMonotone(x, y);
      if i0 == j0 {
        InterpolateFacts(s[i0] as real, s[i0 + 1] as real, x - i0 as real, y - i0 as real);
      } else {
        SortedInt2(s, i0 + 1, j0);
      }
    }
  }

  lemma FloorMonotone(x: real, y: real)
    requires x <= y
    ensures x.Floor <= y.Floor
  {
  }

  lemma ScaleUp(c: real, a: real, b: real)
    requires c >= 0.0 && a <= b
    ensures c * a <= c * b
  {
  }

  function RealMax(a: real, b: real): real {
    if a >= b then a else b
  }

  function RealMin(a: real, b: real): real {
    if a <= b then a else b
  }

  /** One element of `boxData`. */
  datatype Box = Box(
    day: string, dayIndex: nat,
    min: real, q1: real, median: real, q3: real, max: real,
    outliers: seq<int>)

  /** The box of weekday `d` from its ascending day counts: all zeros without
      days; otherwise the quartiles, whiskers at the extreme values clamped to
      1.5 interquartile ranges beyond the box, and the counts outside the
      whiskers. */
  function BoxOf(d: nat, sorted: seq<int>): Box
    requires d < 7
  {
    if sorted == [] then Box(WeekdayShort[d], d, 0.0, 0.0, 0.0, 0.0, 0.0, [])
    else
      var q1, median, q3 := Quantile(sorted, 0.25), Quantile(sorted, 0.5), Quantile(sorted, 0.75);
      var iqr := q3 - q1;
      var lo := RealMax(sorted[0] as real, q1 - 1.5 * iqr);
      var hi := RealMin(sorted[|sorted| - 1] as real, q3 + 1.5 * iqr);
      Box(WeekdayShort[d], d, lo, q1, median, q3, hi, Filter(sorted, v => (v as real) < lo || (v as real) > hi))
  }

  /** The five numbers of a box are in order and within the data, and the
      outliers are exactly the counts outside the whiskers, ascending. */
  lemma BoxFacts(d: nat, sorted: seq<int>)
    requires d < 7 && SortedInt(sorted) && sorted != []
    ensures var b := BoxOf(d, sorted);
            sorted[0] as real <= b.min <= b.q1 <= b.median <= b.q3 <= b.max <= sorted[|sorted| - 1] as real
            && (forall x :: x in b.outliers <==> x in sorted && (x as real < b.min || x as real > b.max))
            && SortedInt(b.outliers)
  {
    QuantileMonotone(sorted, 0.25, 0.5);
    QuantileMonotone(sorted, 0.5, 0.75);
    var b := BoxOf(d, sorted);
    FilterSorted(sorted, v => (v as real) < b.min || (v as real) > b.max);
  }

  /** Filtering an ascending list leaves it ascending. */
  lemma FilterSorted(s: seq<int>, p: int -> bool)
    requires SortedInt(s)
    ensures SortedInt(Filter(s, p))
  {
    var idx := FilterSelect(s, p);
    var r := Filter(s, p);
    forall k, l | 0 <= k < l < |r| ensures r[k] <= r[l] {
      SortedInt2(s, idx[k], idx[l]);
    }
  }

  // ---------------------------------------------------------------------
  // The seven boxes
  // ---------------------------------------------------------------------

  /** `boxData`: one box per weekday, Sunday first, each from its weekday's
      counts in ascending order. */
  function Boxes(env: Env, data: seq<DataPoint>): (boxes: seq<Box>)
    ensures |boxes| == 7
    ensures forall d :: 0 <= d < 7 ==> boxes[d].dayIndex == d && boxes[d].day == WeekdayShort[d]
  {
    BoxesOf(ListsOf(DailyCounts(env, data)))
  }

  function BoxesOf(lists: seq<seq<int>>): (boxes: seq<Box>)
    requires |lists| == 7
    ensures |boxes| == 7
    ensures forall d :: 0 <= d < 7 ==> boxes[d].dayIndex == d && boxes[d].day == WeekdayShort[d]
  {
    seq(7, d requires 0 <= d < 7 => BoxOf(d, SortInt(lists[d])))
  }

  /** Counting per day, collecting per weekday, sorting each list in place
      and summarising it. The final sort on `dayIndex` leaves the boxes as
      they are: the weekday map is filled in the order 0 to 6. */
  method BoxData(env: Env, data: seq<DataPoint>) returns (boxes: seq<Box>)
    ensures boxes == Boxes(env, data)
  {
    var daily := RecordsPerDay.ChartData(env, data);
    var lists := WeekdayLists(daily);
    boxes := BoxesFrom(lists);
  }

  /** `Array.from(dayOfWeekCounts, ...)` over the seven weekday lists. */
  method BoxesFrom(lists: array<seq<int>>) returns (boxes: seq<Box>)
    requires lists.Length == 7
    ensures boxes == BoxesOf(lists[..])
  {
    boxes := [];
    for d := 0 to 7
      invariant boxes == BoxesOf(lists[..])[..d]
    {
      boxes := AppendBox(lists[..], boxes, d);
    }
  }

  /** One step of the mapping: the box of weekday `d` joins the earlier ones. */
  method AppendBox(lists: seq<seq<int>>, boxes: seq<Box>, d: nat) returns (next: seq<Box>)
    requires |lists| == 7 && d < 7
    requires boxes == BoxesOf(lists)[..d]
    ensures next == BoxesOf(lists)[..d + 1]
  {
    var b := WeekdayBox(d, lists[d]);
    ghost var target := BoxesOf(lists);
    assert target[d] == b;
    assert target[..d + 1] == target[..d] + [b];
    next := boxes + [b];
  }

  /** One weekday's box: its counts sorted in place, then summarised. */
  method WeekdayBox(d: nat, counts: seq<int>) returns (b: Box)
    requires d < 7
    ensures b == BoxOf(d, SortInt(counts))
  {
    var a := new int[|counts|](i requires 0 <= i < |counts| => counts[i]);
    assert a[..] == counts;
    SortCounts(a);
    SortedUnique(a[..], SortInt(counts));
    b := BoxOf(d, a[..]);
  }

  /** Each count in a weekday's list is the number of records on one local
      day, so it is at least one. */
  lemma ListedCountsPositive(env: Env, data: seq<DataPoint>, d: nat, x: int)
    requires d < 7 && x in multiset(SortInt(ListsOf(DailyCounts(env, data))[d]))
    ensures x >= 1
  {
    var daily := DailyCounts(env, data);
    var on := Filter(daily, e => IsOn(d, e));
    ListsAreWeekdayCounts(daily, d);
    var k :| 0 <= k < |on| && Tally.CountsOnly(on)[k] == x;
    var j :| 0 <= j < |daily| && daily[j] == on[k];
    RecordsPerDay.ChartDataFacts(env, data);
  }

  lemma BoxesAt(env: Env, data: seq<DataPoint>, d: nat)
    requires d < 7
    ensures Boxes(env, data)[d] == BoxOf(d, SortInt(ListsOf(DailyCounts(env, data))[d]))
  {
  }

  /** A weekday with a record on it has an upper whisker of at least one. */
  lemma OccupiedWeekday(env: Env, data: seq<DataPoint>, i: nat)
    requires i < |data|
    ensures Boxes(env, data)[WeekDay(env, data[i].timestamp)].max >= 1.0
  {
    var d := WeekDay(env, data[i].timestamp);
    var daily := DailyCounts(env, data);
    var sorted := SortInt(ListsOf(daily)[d]);
    BoxesAt(env, data, d);
    ListsAreWeekdayCounts(daily, d);
    var j := RecordWeekday(env, data, i);
    assert IsOn(d, daily[j]);
    assert sorted[0] in multiset(sorted);
    ListedCountsPositive(env, data, d, sorted[0]);
    BoxFacts(d, sorted);
  }

  /** A weekday's box is all zeros, with no outliers, exactly when no record
      falls on that weekday; otherwise its upper whisker is at least one. */
  lemma EmptyWeekday(env: Env, data: seq<DataPoint>, d: nat)
    requires d < 7
    ensures var b := Boxes(env, data)[d];
            (b.max == 0.0 <==> forall i :: 0 <= i < |data| ==> WeekDay(env, data[i].timestamp) != d)
            && (b.max == 0.0 ==> b == Box(WeekdayShort[d], d, 0.0, 0.0, 0.0, 0.0, 0.0, []))
  {
    var daily := DailyCounts(env, data);
    var sorted := SortInt(ListsOf(daily)[d]);
    var on := Filter(daily, e => IsOn(d, e));
    BoxesAt(env, data, d);
    ListsAreWeekdayCounts(daily, d);
    if exists i :: 0 <= i < |data| && WeekDay(env, data[i].timestamp) == d {
      var i :| 0 <= i < |data| && WeekDay(env, data[i].timestamp) == d;
      OccupiedWeekday(env, data, i);
    } else if on != [] {
      var j :| 0 <= j < |daily| && daily[j] == on[0];
      var i := DayRecord(env, data, j);
    } else {
      assert multiset(sorted) == multiset{};
    }
  }
}

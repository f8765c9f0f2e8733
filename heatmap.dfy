/** components/charts/Heatmap.tsx: records counted per local weekday and
    hour in a 7 x 24 matrix. */
module Heatmap {
  import opened Wrappers
  import opened JsDates
  import opened SeqMath
  import opened DataPoints

  const Days: nat := 7
  const HoursPerDay: nat := 24

  /** The position of cell (d, h) when the matrix is read row by row. */
  function Pos(d: int, h: int): int {
    d * HoursPerDay + h
  }

  /** The position of a record's cell. */
  function CellKey(env: Env, t: int): (k: int)
    ensures 0 <= k < Days * HoursPerDay
    ensures k / HoursPerDay == WeekDay(env, t) && k % HoursPerDay == Hours(env, t)
  {
    Pos(WeekDay(env, t), Hours(env, t))
  }

  function CellKeys(env: Env, data: seq<DataPoint>): (ks: seq<int>)
    ensures |ks| == |data| && InRange(ks, Days * HoursPerDay)
    ensures forall i :: 0 <= i < |data| ==> ks[i] == CellKey(env, data[i].timestamp)
  {
    seq(|data|, i requires 0 <= i < |data| => CellKey(env, data[i].timestamp))
  }

  /** Cell (day, hour) counts the records falling on that weekday and hour. */
  ghost predicate CountsCells(m: array2<nat>, keys: seq<int>)
    reads m
    requires m.Length0 == Days && m.Length1 == HoursPerDay
  {
    forall d, h :: 0 <= d < Days && 0 <= h < HoursPerDay ==> m[d, h] == Occ(keys, Pos(d, h))
  }

  /** `heatmapData[day][hour]++` over the records, into a fresh matrix of
      zeros. */
  method HeatmapData(env: Env, data: seq<DataPoint>) returns (m: array2<nat>)
    ensures fresh(m) && m.Length0 == Days && m.Length1 == HoursPerDay
    ensures CountsCells(m, CellKeys(env, data))
  {
    m := new nat[Days, HoursPerDay]((_, _) => 0);
    ghost var keys := CellKeys(env, data);
    var i := 0;
    while i < |data|
      invariant 0 <= i <= |data|
      invariant CountsCells(m, keys[..i])
    {
      var day := WeekDay(env, data[i].timestamp);
      var hour := Hours(env, data[i].timestamp);
      CountStep(m, keys, i, day, hour);
      m[day, hour] := m[day, hour] + 1;
      i := i + 1;
    }
    assert keys[..|data|] == keys;
  }

  /** What one increment does to the counts of every cell. */
  lemma CountStep(m: array2<nat>, keys: seq<int>, i: nat, day: int, hour: int)
    requires m.Length0 == Days && m.Length1 == HoursPerDay
    requires i < |keys| && 0 <= day < Days && 0 <= hour < HoursPerDay
    requires keys[i] == Pos(day, hour)
    ensures keys[..i + 1] == keys[..i] + [keys[i]]
    ensures forall d, h :: 0 <= d < Days && 0 <= h < HoursPerDay ==>
              Occ(keys[..i + 1], Pos(d, h))
              == Occ(keys[..i], Pos(d, h)) + (if d == day && h == hour then 1 else 0)
  {
    assert keys[..i + 1] == keys[..i] + [keys[i]];
    forall d, h | 0 <= d < Days && 0 <= h < HoursPerDay
      ensures Occ(keys[..i + 1], Pos(d, h))
              == Occ(keys[..i], Pos(d, h)) + (if d == day && h == hour then 1 else 0)
    {
      OccAppend(keys[..i], keys[i], Pos(d, h));
      CellKeyUnique(d, h, day, hour);
    }
  }

  /** Distinct (day, hour) pairs have distinct row-major positions. */
  lemma CellKeyUnique(d: int, h: int, d2: int, h2: int)
    requires 0 <= h < HoursPerDay && 0 <= h2 < HoursPerDay
    ensures Pos(d, h) == Pos(d2, h2) <==> d == d2 && h == h2
  {
    if d < d2 {
      assert Pos(d, h) < Pos(d2, h2);
    } else if d > d2 {
      assert Pos(d, h) > Pos(d2, h2);
    }
  }

  /** One cell of the drawn grid. */
  datatype Cell = Cell(day: nat, hour: nat, value: nat)

  /** `heatmapData.flatMap((row, day) => row.map((value, hour) => ...))`. */
  function FlatCells(m: array2<nat>): (r: seq<Cell>)
    reads m
    requires m.Length0 == Days && m.Length1 == HoursPerDay
    ensures |r| == Days * HoursPerDay
  {
    seq(Days * HoursPerDay, k requires 0 <= k < Days * HoursPerDay reads m =>
      Cell(k / HoursPerDay, k % HoursPerDay, m[k / HoursPerDay, k % HoursPerDay]))
  }

  function CellValues(cells: seq<Cell>): (vs: seq<nat>)
    ensures |vs| == |cells| && forall k :: 0 <= k < |cells| ==> vs[k] == cells[k].value
  {
    seq(|cells|, k requires 0 <= k < |cells| => cells[k].value)
  }

  /** The flattened cells list every (day, hour) once, row by row, and their
      values are the histogram of the records' cell positions, so they add up
      to the number of records. */
  lemma FlatCellsFacts(env: Env, data: seq<DataPoint>, m: array2<nat>)
    requires m.Length0 == Days && m.Length1 == HoursPerDay
    requires CountsCells(m, CellKeys(env, data))
    ensures var cells := FlatCells(m);
            (forall d, h :: 0 <= d < Days && 0 <= h < HoursPerDay ==>
               cells[Pos(d, h)].day == d && cells[Pos(d, h)].hour == h)
            && CellValues(cells) == Hist(CellKeys(env, data), Days * HoursPerDay)
            && SumNat(CellValues(cells)) == |data|
  {
    var cells := FlatCells(m);
    var keys := CellKeys(env, data);
    forall d, h | 0 <= d < Days && 0 <= h < HoursPerDay
      ensures cells[Pos(d, h)].day == d && cells[Pos(d, h)].hour == h
    {
      var k := Pos(d, h);
      CellKeyUnique(d, h, k / HoursPerDay, k % HoursPerDay);
    }
    forall k | 0 <= k < Days * HoursPerDay
      ensures CellValues(cells)[k] == Hist(keys, Days * HoursPerDay)[k]
    {
      var d, h := k / HoursPerDay, k % HoursPerDay;
      assert k == Pos(d, h);
      assert CellValues(cells)[k] == m[d, h];
    }
    HistSum(keys, Days * HoursPerDay);
  }

  /** `d3.max(heatmapData.flat()) || 0`: the largest cell, at least 1 once
      some record was counted. */
  lemma MaxValueFacts(env: Env, data: seq<DataPoint>, m: array2<nat>)
    requires m.Length0 == Days && m.Length1 == HoursPerDay
    requires CountsCells(m, CellKeys(env, data))
    ensures var vs := CellValues(FlatCells(m));
            MaxOr0(vs) in vs && (forall k :: 0 <= k < |vs| ==> vs[k] <= MaxOr0(vs))
            && (data != [] ==> MaxOr0(vs) >= 1)
  {
    var vs := CellValues(FlatCells(m));
    FlatCellsFacts(env, data, m);
    if data != [] {
      var keys := CellKeys(env, data);
      OccOfElement(keys, 0);
      assert vs[keys[0]] >= 1;
    }
  }

  /** The labelled time periods under the grid. */
  datatype Period = Period(start: nat, end: nat, periodLabel: string)

  const TimePeriods: seq<Period> := [
    Period(0, 6, "Night"), Period(6, 12, "Morning"),
    Period(12, 18, "Afternoon"), Period(18, 24, "Evening")]

  /** The periods cover the day's hours end to end: each hour lies in
      exactly one of them. */
  lemma TimePeriodsPartition(hour: nat)
    requires hour < HoursPerDay
    ensures exists p :: 0 <= p < |TimePeriods| && TimePeriods[p].start <= hour < TimePeriods[p].end
    ensures forall p, q :: 0 <= p < q < |TimePeriods| ==> TimePeriods[p].end <= TimePeriods[q].start
  {
    var p := hour / 6;
    assert TimePeriods[p].start <= hour < TimePeriods[p].end;
  }

  /** The hover text's share of the records, `d.value / data.length * 100`,
      for a cell with events; a cell without events shows "No activity". */
  function HoverShare(value: nat, n: nat): Option<real>
    requires n > 0
  {
    if value > 0 then Some(Percent(value, n)) else None
  }

  /** A cell shows a share exactly when it has events, that share lies in
      (0, 100], and the shares of all the cells add up to 100. */
  lemma HoverShares(env: Env, data: seq<DataPoint>, m: array2<nat>, k: nat)
    requires m.Length0 == Days && m.Length1 == HoursPerDay && k < Days * HoursPerDay
    requires CountsCells(m, CellKeys(env, data)) && data != []
    ensures var vs, n := CellValues(FlatCells(m)), |data|;
            (HoverShare(vs[k], n).Some? <==> vs[k] > 0)
            && (HoverShare(vs[k], n).Some? ==> 0.0 < HoverShare(vs[k], n).value <= 100.0)
            && Sum(Percents(vs, n)) == 100.0
  {
    FlatCellsFacts(env, data, m);
    SharesOfWhole(CellValues(FlatCells(m)), |data|, k);
  }

  lemma SharesOfWhole(vs: seq<nat>, n: nat, k: nat)
    requires SumNat(vs) == n > 0 && k < |vs|
    ensures (HoverShare(vs[k], n).Some? <==> vs[k] > 0)
            && (HoverShare(vs[k], n).Some? ==> 0.0 < HoverShare(vs[k], n).value <= 100.0)
            && Sum(Percents(vs, n)) == 100.0
  {
    SumNatBound(vs, k);
    PercentBounds(vs[k], n);
    SumPercents(vs, n);
    PercentOfWhole(n);
  }
}

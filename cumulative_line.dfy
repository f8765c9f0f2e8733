/** components/charts/CumulativeLine.tsx: the running total of the values in
    time order, with a dot on a thinned-out subset of the points. */
module CumulativeLine {
  import opened Wrappers
  import opened JsDates
  import opened SeqMath
  import opened DataPoints
  import DataProcessor

  /** One point of the line: `{ timestamp, cumulative }`. */
  datatype CumPoint = CumPoint(timestamp: Instant, cumulative: real)

  /** The total of the first `k` values. */
  function PrefixSum(s: seq<DataPoint>, k: nat): real
    requires k <= |s|
  {
    Sum(ValuesOf(s)[..k])
  }

  /** Over a sorted copy, `cumulative += d.value` for each record in turn;
      point `k` carries record `k`'s time and the total of the first `k + 1`
      values. */
  method CumulativeData(data: seq<DataPoint>) returns (r: seq<CumPoint>)
    ensures |r| == |data|
    ensures forall k :: 0 <= k < |r| ==>
              r[k] == CumPoint(SortByTime(data)[k].timestamp, PrefixSum(SortByTime(data), k + 1))
  {
    var sortedData := SortByTime(data);
    var cumulative := 0.0;
    r := [];
    for i := 0 to |sortedData|
      invariant |r| == i
      invariant cumulative == PrefixSum(sortedData, i)
      invariant forall k :: 0 <= k < i ==> r[k] == CumPoint(sortedData[k].timestamp, PrefixSum(sortedData, k + 1))
    {
      PrefixSumStep(sortedData, i);
      cumulative := cumulative + sortedData[i].value;
      r := r + [CumPoint(sortedData[i].timestamp, cumulative)];
    }
  }

  lemma PrefixSumStep(s: seq<DataPoint>, i: nat)
    requires i < |s|
    ensures PrefixSum(s, i + 1) == PrefixSum(s, i) + s[i].value
  {
    assert ValuesOf(s)[..i + 1][..i] == ValuesOf(s)[..i];
  }

  /** Reordering the records does not change their total. */
  lemma {:induction false} SumValuesPermutation(a: seq<DataPoint>, b: seq<DataPoint>)
    requires multiset(a) == multiset(b)
    ensures Sum(ValuesOf(a)) == Sum(ValuesOf(b))
    decreases |a|
  {
    if a == [] {
      assert |b| == |multiset(b)| == 0;
    } else {
      var n := |a|;
      var x := a[n - 1];
      assert a == a[..n - 1] + [x];
      assert x in multiset(b);
      var i :| 0 <= i < |b| && b[i] == x;
      var rest := RemoveAt(b, i);
      assert multiset(a) == multiset(a[..n - 1]) + multiset{x};
      assert multiset(a[..n - 1]) == multiset(rest) by {
        forall y ensures multiset(a[..n - 1])[y] == multiset(rest)[y] {
          assert multiset(a)[y] == multiset(a[..n - 1])[y] + multiset{x}[y];
          assert multiset(b)[y] == multiset(rest)[y] + multiset{x}[y];
        }
      }
      SumValuesPermutation(a[..n - 1], rest);
      assert ValuesOf(a)[..n - 1] == ValuesOf(a[..n - 1]);
    }
  }

  /** `b` without its element `i`: the rest of its records, whose values
      total `b[i].value` less. */
  lemma RemoveAt(b: seq<DataPoint>, i: nat) returns (rest: seq<DataPoint>)
    requires i < |b|
    ensures multiset(b) == multiset(rest) + multiset{b[i]}
    ensures Sum(ValuesOf(b)) == Sum(ValuesOf(rest)) + b[i].value
  {
    rest := b[..i] + b[i + 1..];
    assert b == b[..i] + [b[i]] + b[i + 1..];
    RemoveAtSum(b[..i], b[i], b[i + 1..]);
  }

  lemma RemoveAtSum(front: seq<DataPoint>, x: DataPoint, back: seq<DataPoint>)
    ensures Sum(ValuesOf(front + [x] + back)) == Sum(ValuesOf(front + back)) + x.value
  {
    var u, w := ValuesOf(front), ValuesOf(back);
    assert ValuesOf(front + [x] + back) == u + [x.value] + w;
    assert ValuesOf(front + back) == u + w;
    SumConcat(u + [x.value], w);
    SumConcat(u, [x.value]);
    SumConcat(u, w);
    assert Sum([x.value]) == x.value by {
      assert [x.value][..0] == [];
    }
  }

  lemma WholePrefix(s: seq<DataPoint>)
    ensures PrefixSum(s, |s|) == Sum(ValuesOf(s))
  {
    assert ValuesOf(s)[..|s|] == ValuesOf(s);
  }

  /** The line ends at the total of all values, whatever the input order. */
  lemma LastIsTotal(data: seq<DataPoint>)
    requires data != []
    ensures PrefixSum(SortByTime(data), |data|) == Sum(ValuesOf(data))
  {
    var sorted := SortByTime(data);
    WholePrefix(sorted);
    SumValuesPermutation(sorted, data);
  }

  /** The points are in time order. */
  lemma LineInTimeOrder(data: seq<DataPoint>, j: nat, k: nat)
    requires j <= k < |data|
    ensures SortByTime(data)[j].timestamp <= SortByTime(data)[k].timestamp
  {
    SortedTimes(SortByTime(data), j, k);
  }

  lemma SortedTimes(s: seq<DataPoint>, j: nat, k: nat)
    requires SortedByTime(s) && j <= k < |s|
    ensures s[j].timestamp <= s[k].timestamp
  {
  }

  /** When no value is negative the line never goes down. */
  lemma LineRises(data: seq<DataPoint>, j: nat, k: nat)
    requires j <= k < |data|
    requires forall i :: 0 <= i < |data| ==> data[i].value >= 0.0
    ensures PrefixSum(SortByTime(data), j + 1) <= PrefixSum(SortByTime(data), k + 1)
  {
    var sorted := SortByTime(data);
    NonNegativeReordered(data, sorted);
    PrefixSumRises(sorted, j + 1, k + 1);
  }

  /** Reordering keeps every value non-negative. */
  lemma NonNegativeReordered(a: seq<DataPoint>, b: seq<DataPoint>)
    requires multiset(a) == multiset(b)
    requires forall i :: 0 <= i < |a| ==> a[i].value >= 0.0
    ensures forall i :: 0 <= i < |b| ==> b[i].value >= 0.0
  {
    forall i | 0 <= i < |b| ensures b[i].value >= 0.0 {
      assert b[i] in multiset(a);
      var k :| 0 <= k < |a| && a[k] == b[i];
    }
  }

  /** Over values that are never negative, a longer prefix has the larger total. */
  lemma {:induction false} PrefixSumRises(s: seq<DataPoint>, a: nat, b: nat)
    requires a <= b <= |s|
    requires forall i :: 0 <= i < |s| ==> s[i].value >= 0.0
    ensures PrefixSum(s, a) <= PrefixSum(s, b)
    decreases b - a
  {
    if a < b {
      PrefixSumRises(s, a, b - 1);
      PrefixSumStep(s, b - 1);
    }
  }

  /** The dots: the points at indices divisible by `ceil(length / 50)`. */
  function Dots(points: seq<CumPoint>): seq<CumPoint>
    requires points != []
  {
    EveryNth(points, CeilDiv(|points|, 50))
  }

  /** There are at most 50 dots, the first point always has one, and dot `j`
      sits on point `j * step`. */
  lemma DotsFacts(points: seq<CumPoint>)
    requires points != []
    ensures var dots, step := Dots(points), CeilDiv(|points|, 50);
            1 <= |dots| <= 50 && dots[0] == points[0]
            && forall j :: 0 <= j < |dots| ==> j * step < |points| && dots[j] == points[j * step]
  {
    EveryNthShape(points, CeilDiv(|points|, 50));
    DotsCount(points);
  }

  /** The dots are getDataSubset's choice of 50 points. */
  lemma DotsCount(points: seq<CumPoint>)
    requires points != []
    ensures 1 <= |Dots(points)| <= 50
  {
    var step := CeilDiv(|points|, 50);
    EveryNthShape(points, step);
    if |points| <= 50 {
      assert step == 1;
    } else {
      DataProcessor.DataSubsetShape(points, 50);
      assert Dots(points) == DataProcessor.DataSubset(points, 50);
    }
  }
}

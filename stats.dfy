/** lib/utils.ts: calculateStatistics, the summary the statistics panel shows. */
module Stats {
  import opened Wrappers
  import opened SeqMath

  /** The statistics of a non-empty list of values. The standard deviation is
      kept as its square, the variance. */
  datatype Statistics = Statistics(
    count: nat, sum: real, mean: real, median: real,
    min: real, max: real, variance: real, q1: real, q3: real)

  /** `Math.pow(d, 2)`. */
  function Square(d: real): (r: real)
    ensures r >= 0.0
  {
    if d >= 0.0 then d * d
    else
      assert d * d == (-d) * (-d);
      d * d
  }

  /** The sum of squared deviations from `mean`, left to right. */
  function SquaredDeviations(s: seq<real>, mean: real): (r: real)
    ensures r >= 0.0
  {
    if s == [] then 0.0
    else SquaredDeviations(s[..|s| - 1], mean) + Square(s[|s| - 1] - mean)
  }

  /** The median of a sorted list: the middle element for odd length, the
      mean of the two middle elements for even length. */
  function MedianOfSorted(sorted: seq<real>): real
    requires sorted != []
  {
    var n := |sorted|;
    if n % 2 == 0 then (sorted[n / 2 - 1] + sorted[n / 2]) / 2.0 else sorted[n / 2]
  }

  /** calculateStatistics(values); `null` for an empty list. `Math.floor(n *
      0.25)` and `Math.floor(n * 0.75)` are `n / 4` and `3n / 4`. */
  function CalculateStatistics(values: seq<real>): (r: Option<Statistics>)
    ensures r.None? <==> values == []
  {
    var n := |values|;
    if n == 0 then None
    else
      var sorted := SortReal(values);
      var sum := Sum(values);
      var mean := sum / (n as real);
      Some(Statistics(
        count := n,
        sum := sum,
        mean := mean,
        median := MedianOfSorted(sorted),
        min := sorted[0],
        max := sorted[n - 1],
        variance := SquaredDeviations(values, mean) / (n as real),
        q1 := sorted[n / 4],
        q3 := sorted[3 * n / 4]))
  }

  /** What the summary promises: `count` and `sum` describe the list, `min`
      and `max` are its least and greatest elements, the mean and the
      quartiles lie between them in order, and the variance is not negative. */
  lemma StatisticsFacts(values: seq<real>)
    requires values != []
    ensures var st := CalculateStatistics(values).value;
            st.count == |values| && st.sum == Sum(values) && st.mean == Mean(values)
            && st.min in values && st.max in values
            && (forall i :: 0 <= i < |values| ==> st.min <= values[i] <= st.max)
            && st.min <= st.q1 <= st.median <= st.q3 <= st.max
            && st.min <= st.mean <= st.max
            && st.variance >= 0.0
  {
    SummaryTotals(values);
    SummaryExtremes(values);
    SummaryOrder(values);
  }

  lemma SummaryTotals(values: seq<real>)
    requires values != []
    ensures var st := CalculateStatistics(values).value;
            st.count == |values| && st.sum == Sum(values) && st.mean == Mean(values) && st.variance >= 0.0
  {
    var n := |values|;
    NonNegativeShare(SquaredDeviations(values, Sum(values) / (n as real)), n);
  }

  lemma SummaryExtremes(values: seq<real>)
    requires values != []
    ensures var st := CalculateStatistics(values).value;
            st.min in values && st.max in values
            && (forall i :: 0 <= i < |values| ==> st.min <= values[i] <= st.max)
            && st.min <= st.mean <= st.max
  {
    var sorted := SortReal(values);
    SortedBounds(values);
    MeanBounds(values, sorted[0], sorted[|values| - 1]);
  }

  lemma SummaryOrder(values: seq<real>)
    requires values != []
    ensures var st := CalculateStatistics(values).value;
            st.min <= st.q1 <= st.median <= st.q3 <= st.max
  {
    MedianBetweenQuartiles(SortReal(values));
  }

  lemma NonNegativeShare(a: real, n: nat)
    requires a >= 0.0 && n > 0
    ensures a / (n as real) >= 0.0
  {
  }

  /** The ends of the sorted copy are elements of the list and bound all of
      it. */
  lemma SortedBounds(values: seq<real>)
    requires values != []
    ensures var sorted := SortReal(values);
            sorted[0] in values && sorted[|values| - 1] in values
            && forall i :: 0 <= i < |values| ==> sorted[0] <= values[i] <= sorted[|values| - 1]
  {
    var n := |values|;
    var sorted := SortReal(values);
    assert sorted[0] in multiset(sorted) && sorted[n - 1] in multiset(sorted);
    forall i | 0 <= i < n ensures sorted[0] <= values[i] <= sorted[n - 1] {
      assert values[i] in multiset(values);
      SortedEnds(sorted, values[i]);
    }
  }

  /** In a sorted list, `sorted[n / 4] <= median <= sorted[3n / 4]`, all
      within the ends. */
  lemma MedianBetweenQuartiles(sorted: seq<real>)
    requires sorted != [] && SortedReal(sorted)
    ensures var n := |sorted|;
            3 * n / 4 < n
            && sorted[0] <= sorted[n / 4] <= MedianOfSorted(sorted) <= sorted[3 * n / 4] <= sorted[n - 1]
  {
    var n := |sorted|;
    assert sorted[0] <= sorted[n / 4];
    assert 3 * n / 4 < n;
    assert sorted[3 * n / 4] <= sorted[n - 1];
    if n % 2 == 0 {
      assert n / 4 <= n / 2 - 1;
      assert n / 2 <= 3 * n / 4 < n;
    } else {
      assert n / 4 <= n / 2 <= 3 * n / 4 < n;
    }
  }

  /** The median of a list whose elements are all equal is that element. */
  lemma MedianOfConstant(values: seq<real>, c: real)
    requires values != [] && forall i :: 0 <= i < |values| ==> values[i] == c
    ensures CalculateStatistics(values).value.median == c
    ensures CalculateStatistics(values).value.min == c == CalculateStatistics(values).value.max
  {
    var sorted := SortReal(values);
    forall i | 0 <= i < |sorted| ensures sorted[i] == c {
      assert sorted[i] in multiset(sorted);
      var j :| 0 <= j < |values| && values[j] == sorted[i];
    }
  }
}

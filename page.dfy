/** app/page.tsx: which version of the data each group of charts receives. */
module Page {
  import opened Wrappers
  import opened SeqMath
  import opened DataPoints
  import opened DataProcessor

  /** The loaded data as the page holds it; `processed` is optional. */
  datatype PageData = PageData(data: seq<DataPoint>, processed: Option<ProcessedDatasets>)

  /** The arrays handed to the histogram charts, the heatmap, the cumulative
      line and every other chart. */
  datatype ChartData = ChartData(
    histogram: seq<DataPoint>, heatmap: seq<DataPoint>,
    cumulative: seq<DataPoint>, default: seq<DataPoint>)

  /** The `chartData` memo. `processed?.sampled || ...` takes the sampled
      array whenever `processed` exists, since an array is always truthy. */
  function ChartDataFor(parsed: Option<PageData>): (r: Option<ChartData>)
    ensures r.None? <==> parsed.None?
  {
    match parsed
    case None => None
    case Some(p) =>
      var n := |p.data|;
      if n > 5000 then
        Some(ChartData(
          p.data,
          DataSubset(p.data, 2000),
          if p.processed.Some? then p.processed.value.sampled else DataSubset(p.data, 500),
          p.data))
      else if n > 1000 then
        Some(ChartData(p.data, p.data, DataSubset(p.data, 500), p.data))
      else Some(ChartData(p.data, p.data, p.data, p.data))
  }

  /** The header's "optimized for performance" note. */
  predicate ShowsOptimizedNote(parsed: Option<PageData>) {
    parsed.Some? && |parsed.value.data| > 5000
  }

  /** The histogram and default charts always see every record; up to 1000
      records every chart does; up to 5000 only the cumulative line is
      thinned, to at most 500 points. */
  lemma TierFacts(p: PageData)
    ensures var cd := ChartDataFor(Some(p)).value;
            cd.histogram == p.data && cd.default == p.data
            && (|p.data| <= 1000 ==> cd.heatmap == p.data && cd.cumulative == p.data)
            && (1000 < |p.data| <= 5000 ==>
                  cd.heatmap == p.data && 1 <= |cd.cumulative| <= 500 && cd.cumulative[0] == p.data[0])
  {
    if 1000 < |p.data| <= 5000 {
      DataSubsetShape(p.data, 500);
    }
  }

  /** Beyond 5000 records the heatmap gets at most 2000 of them, starting
      with the first, and the cumulative line gets the processed sample when
      there is one (even an empty one), else at most 500 records. The note
      is shown exactly in this tier. */
  lemma LargeTier(p: PageData)
    requires |p.data| > 5000
    ensures var cd := ChartDataFor(Some(p)).value;
            1 <= |cd.heatmap| <= 2000 && cd.heatmap[0] == p.data[0]
            && (p.processed.Some? ==> cd.cumulative == p.processed.value.sampled)
            && (p.processed.None? ==> |cd.cumulative| <= 500)
            && ShowsOptimizedNote(Some(p))
  {
    DataSubsetShape(p.data, 2000);
    DataSubsetShape(p.data, 500);
  }

  /** When the sample was made by processLargeDataset from the same records,
      the large tier's cumulative line is every rate-th record in time order,
      with `n / 500` as the rate. */
  lemma LargeTierSample(p: PageData)
    requires |p.data| > 5000
    requires p.processed.Some? && p.processed.value.full == SortByTime(p.data)
    requires p.processed.value.sampled == Sampled(p.processed.value.full)
    ensures var cd := ChartDataFor(Some(p)).value;
            var full, rate := SortByTime(p.data), |p.data| / 500;
            rate >= 10 && |cd.cumulative| == CeilDiv(|p.data|, rate)
            && forall j :: 0 <= j < |cd.cumulative| ==> j * rate < |full| && cd.cumulative[j] == full[j * rate]
  {
    DivMonotone(5000, |p.data|, 500);
    SampledShape(SortByTime(p.data));
  }
}

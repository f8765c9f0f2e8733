/** components/ChartSelector.tsx: the list of charts with their on/off
    switches, and what toggling and resetting hand back. */
module ChartSelector {
  import opened SeqMath

  datatype ChartOption = ChartOption(id: string, name: string, enabled: bool)

  /** defaultCharts. */
  const DefaultCharts: seq<ChartOption> := [
    ChartOption("thirty-min", "30-Minute Distribution", true),
    ChartOption("weekday", "Weekday Activity", true),
    ChartOption("records-per-day", "Records Per Day", true),
    ChartOption("heatmap", "Activity Heatmap", true),
    ChartOption("boxplot", "Value Distribution", true),
    ChartOption("radar", "Radar Chart", true),
    ChartOption("cumulative", "Cumulative Timeline", true)]

  predicate DistinctIds(charts: seq<ChartOption>) {
    forall i, j :: 0 <= i < j < |charts| ==> charts[i].id != charts[j].id
  }

  predicate AllEnabled(charts: seq<ChartOption>) {
    forall i :: 0 <= i < |charts| ==> charts[i].enabled
  }

  /** The default list has seven charts with distinct ids, all switched on. */
  lemma DefaultChartsFacts()
    ensures |DefaultCharts| == 7 && DistinctIds(DefaultCharts) && AllEnabled(DefaultCharts)
  {
    forall i, j | 0 <= i < j < 7 ensures DefaultCharts[i].id != DefaultCharts[j].id {
      assert DefaultCharts[i].id[..2] != DefaultCharts[j].id[..2] || DefaultCharts[i].id[2] != DefaultCharts[j].id[2];
    }
  }

  /** handleToggle: flips `enabled` on the entries whose id is `chartId`. */
  function HandleToggle(charts: seq<ChartOption>, chartId: string): (r: seq<ChartOption>)
    ensures |r| == |charts|
    ensures forall i :: 0 <= i < |charts| ==>
              r[i].id == charts[i].id && r[i].name == charts[i].name
              && r[i].enabled == (if charts[i].id == chartId then !charts[i].enabled else charts[i].enabled)
  {
    seq(|charts|, i requires 0 <= i < |charts| =>
      if charts[i].id == chartId then charts[i].(enabled := !charts[i].enabled) else charts[i])
  }

  /** handleReset: every entry switched on. */
  function HandleReset(charts: seq<ChartOption>): (r: seq<ChartOption>)
    ensures |r| == |charts| && AllEnabled(r)
    ensures forall i :: 0 <= i < |charts| ==> r[i].id == charts[i].id && r[i].name == charts[i].name
  {
    seq(|charts|, i requires 0 <= i < |charts| => charts[i].(enabled := true))
  }

  function IsEnabled(c: ChartOption): bool {
    c.enabled
  }

  /** enabledCount. */
  function EnabledCount(charts: seq<ChartOption>): (n: nat)
    ensures n <= |charts|
  {
    |Filter(charts, IsEnabled)|
  }

  /** The Reset button's `disabled`. */
  predicate ResetDisabled(charts: seq<ChartOption>) {
    EnabledCount(charts) == |charts|
  }

  /** Toggling an id twice gives back the list. */
  lemma ToggleTwice(charts: seq<ChartOption>, chartId: string)
    ensures HandleToggle(HandleToggle(charts, chartId), chartId) == charts
  {
    var r := HandleToggle(HandleToggle(charts, chartId), chartId);
    forall i | 0 <= i < |charts| ensures r[i] == charts[i] {
    }
  }

  /** Toggling an id that no entry has changes nothing. */
  lemma ToggleUnknownId(charts: seq<ChartOption>, chartId: string)
    requires forall i :: 0 <= i < |charts| ==> charts[i].id != chartId
    ensures HandleToggle(charts, chartId) == charts
  {
  }

  /** Reset is disabled exactly when every chart is on; resetting leaves it
      disabled, and does nothing to a list that is all on. */
  lemma ResetFacts(charts: seq<ChartOption>)
    ensures ResetDisabled(charts) <==> AllEnabled(charts)
    ensures ResetDisabled(HandleReset(charts))
    ensures AllEnabled(charts) ==> HandleReset(charts) == charts
  {
    FilterKeepsAll(charts, IsEnabled);
    FilterKeepsAll(HandleReset(charts), IsEnabled);
    if AllEnabled(charts) {
      var r := HandleReset(charts);
      forall i | 0 <= i < |charts| ensures r[i] == charts[i] {
      }
    }
  }

  /** Switching one chart off in a list that is all on enables Reset (every
      chart with that id is switched off, the chosen one among them). */
  lemma ToggleEnablesReset(charts: seq<ChartOption>, i: nat)
    requires AllEnabled(charts) && i < |charts|
    ensures !ResetDisabled(HandleToggle(charts, charts[i].id))
  {
    var r := HandleToggle(charts, charts[i].id);
    FilterKeepsAll(r, IsEnabled);
    assert !r[i].enabled;
  }
}

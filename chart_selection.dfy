/** lib/useChartSelection.ts: the chart selection kept in React state and
    mirrored to local storage under "data-report-chart-selection". */
module ChartSelection {
  import opened Wrappers
  import opened SeqMath
  import opened ChartSelector

  /** The first entry of `stored` with id `id`. */
  function FindById(stored: seq<ChartOption>, id: string): (r: Option<ChartOption>)
    ensures r.Some? ==> r.value.id == id && r.value in stored
    ensures r.Some? ==> exists k :: 0 <= k < |stored| && stored[k] == r.value
                                    && forall j :: 0 <= j < k ==> stored[j].id != id
    ensures r.None? <==> forall j :: 0 <= j < |stored| ==> stored[j].id != id
  {
    if stored == [] then None
    else if stored[0].id == id then Some(stored[0])
    else
      var r := FindById(stored[1..], id);
      if r.Some? then
        var k :| 0 <= k < |stored[1..]| && stored[1..][k] == r.value
                 && forall j :: 0 <= j < k ==> stored[1..][j].id != id;
        assert stored[k + 1] == r.value;
        r
      else r
  }

  /** The merge of a stored list with the defaults: each default entry is
      replaced wholesale by the first stored entry with its id. */
  function Merge(defaults: seq<ChartOption>, stored: seq<ChartOption>): seq<ChartOption> {
    seq(|defaults|, i requires 0 <= i < |defaults| =>
      match FindById(stored, defaults[i].id)
      case Some(c) => c
      case None => defaults[i])
  }

  /** The merged list has the defaults' length and ids in the defaults'
      order; each entry is the first stored entry with that id, or the
      default when none is stored. Stored entries with unknown ids are
      dropped. */
  lemma MergeFacts(defaults: seq<ChartOption>, stored: seq<ChartOption>)
    ensures var m := Merge(defaults, stored);
            |m| == |defaults|
            && (forall i :: 0 <= i < |m| ==> m[i].id == defaults[i].id)
            && (forall i :: 0 <= i < |m| ==>
                  m[i] == (if FindById(stored, defaults[i].id).Some? then FindById(stored, defaults[i].id).value
                           else defaults[i]))
            && (forall i :: 0 <= i < |m| ==> m[i] == defaults[i] || m[i] in stored)
            && (forall c :: c in m && c !in defaults ==> exists i :: 0 <= i < |defaults| && c.id == defaults[i].id)
  {
    var m := Merge(defaults, stored);
    forall c | c in m && c !in defaults
      ensures exists i :: 0 <= i < |defaults| && c.id == defaults[i].id
    {
      var i :| 0 <= i < |m| && m[i] == c;
      assert c.id == defaults[i].id;
    }
  }

  /** Merging an empty stored list, or one with only unknown ids, gives the
      defaults. */
  lemma MergeNothingStored(defaults: seq<ChartOption>, stored: seq<ChartOption>)
    requires forall j, i :: 0 <= j < |stored| && 0 <= i < |defaults| ==> stored[j].id != defaults[i].id
    ensures Merge(defaults, stored) == defaults
  {
    var m := Merge(defaults, stored);
    forall i | 0 <= i < |defaults| ensures m[i] == defaults[i] {
      assert FindById(stored, defaults[i].id).None?;
    }
  }

  /** Merging the defaults' own list gives it back, when its ids are
      distinct: a saved selection loads as it was saved. */
  lemma MergeSavedSelection(defaults: seq<ChartOption>, saved: seq<ChartOption>)
    requires DistinctIds(saved) && |saved| == |defaults|
    requires forall i :: 0 <= i < |saved| ==> saved[i].id == defaults[i].id
    ensures Merge(defaults, saved) == saved
  {
    var m := Merge(defaults, saved);
    forall i | 0 <= i < |defaults| ensures m[i] == saved[i] {
      var r := FindById(saved, defaults[i].id);
      assert r.Some?;
      var k :| 0 <= k < |saved| && saved[k] == r.value && forall j :: 0 <= j < k ==> saved[j].id != defaults[i].id;
      assert k == i;
    }
  }

  /** getEnabledChartIds: `id + "-chart"` for each enabled chart, in list
      order. */
  function EnabledChartIds(charts: seq<ChartOption>): (r: seq<string>)
    ensures |r| == EnabledCount(charts)
  {
    var enabled := Filter(charts, IsEnabled);
    seq(|enabled|, k requires 0 <= k < |enabled| => enabled[k].id + "-chart")
  }

  /** The element ids name the enabled charts in list order, each once, and
      every enabled chart is named. */
  lemma EnabledChartIdsSelect(charts: seq<ChartOption>) returns (idx: seq<nat>)
    ensures var r := EnabledChartIds(charts);
            |idx| == |r|
            && (forall k :: 0 <= k < |r| ==> idx[k] < |charts| && charts[idx[k]].enabled
                                              && r[k] == charts[idx[k]].id + "-chart")
            && (forall k, l :: 0 <= k < l < |r| ==> idx[k] < idx[l])
            && (forall i :: 0 <= i < |charts| && charts[i].enabled ==> i in idx)
  {
    idx := FilterSelect(charts, IsEnabled);
  }

  /** The hook's state: the selection, whether loading has finished, and the
      list last written to storage. */
  class SelectionState {
    var selectedCharts: seq<ChartOption>
    var isLoaded: bool
    var saved: Option<seq<ChartOption>>

    /** The initial state: the defaults, not yet loaded, nothing written. */
    constructor ()
      ensures selectedCharts == DefaultCharts && !isLoaded && saved == None
    {
      selectedCharts := DefaultCharts;
      isLoaded := false;
      saved := None;
    }

    /** The mount effect. `stored` is `localStorage.getItem` (`None` for
        null); `parse` is `JSON.parse` read as a chart list, `None` when it
        throws or yields something whose `find` throws. A missing, empty or
        unreadable entry leaves the selection as it was; loading is marked
        finished in every case. */
    method LoadStored(stored: Option<string>, parse: string -> Option<seq<ChartOption>>)
      modifies this
      ensures isLoaded && saved == old(saved)
      ensures selectedCharts ==
                if stored.Some? && stored.value != "" && parse(stored.value).Some?
                then Merge(DefaultCharts, parse(stored.value).value)
                else old(selectedCharts)
    {
      if stored.Some? && stored.value != "" {
        var parsed := parse(stored.value);
        if parsed.Some? {
          selectedCharts := Merge(DefaultCharts, parsed.value);
        }
      }
      isLoaded := true;
    }

    /** updateSelection: the state becomes exactly `charts`, then it is
        written to storage when `writeOk` (a failed write is only logged). */
    method UpdateSelection(charts: seq<ChartOption>, writeOk: bool)
      modifies this
      ensures selectedCharts == charts && isLoaded == old(isLoaded)
      ensures saved == (if writeOk then Some(charts) else old(saved))
    {
      selectedCharts := charts;
      if writeOk {
        saved := Some(charts);
      }
    }

    /** getEnabledChartIds on the current state. */
    method GetEnabledChartIds() returns (ids: seq<string>)
      ensures ids == EnabledChartIds(selectedCharts)
    {
      ids := EnabledChartIds(selectedCharts);
    }
  }

  /** On mount the selection keeps the defaults' ids in their order, whatever
      storage holds, and is exactly the defaults when storage holds nothing
      usable. */
  method MountKeepsDefaultIds(stored: Option<string>, parse: string -> Option<seq<ChartOption>>)
    returns (charts: seq<ChartOption>)
    ensures |charts| == |DefaultCharts|
    ensures forall i :: 0 <= i < |charts| ==> charts[i].id == DefaultCharts[i].id
    ensures stored.None? || stored.value == "" || parse(stored.value).None? ==> charts == DefaultCharts
  {
    var state := new SelectionState();
    state.LoadStored(stored, parse);
    charts := state.selectedCharts;
    if stored.Some? && stored.value != "" && parse(stored.value).Some? {
      MergeFacts(DefaultCharts, parse(stored.value).value);
    }
  }
}

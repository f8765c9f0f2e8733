/** components/FileUpload.tsx: how parsed CSV rows become data points, the
    progress the upload shows, and which path a file takes. */
module FileUpload {
  import opened Wrappers
  import opened JsStrings
  import opened JsDates
  import opened Records
  import opened SeqMath
  import opened DataPoints
  import opened DataProcessor
  import opened Groups
  import CsvWorker

  // ---------------------------------------------------------------------
  // From a row to a data point
  // ---------------------------------------------------------------------

  /** The position of the first number among `vs`, or `|vs|`: what
      `Object.values(row).find(v => typeof v === 'number')` looks at. */
  function FirstNumberIndex(vs: seq<JsValue>): (i: nat)
    ensures i <= |vs|
    ensures i < |vs| ==> vs[i].Number?
    ensures forall j :: 0 <= j < i ==> !vs[j].Number?
  {
    if vs == [] then 0
    else if vs[0].Number? then 0
    else 1 + FirstNumberIndex(vs[1..])
  }

  /** `Object.values(row).find(v => typeof v === 'number') as number || 1`:
      the first number of the row unless it is falsy (0 or NaN) or missing,
      and 1 otherwise. */
  function PointValue(row: Row): real {
    var vs := Values(row);
    var i := FirstNumberIndex(vs);
    if i < |vs| && Truthy(vs[i]) then vs[i].n.r else 1.0
  }

  /** The value of a point is never 0; it is the first number field when
      that is a non-zero finite number, and 1 in every other case. */
  lemma PointValueCases(row: Row)
    ensures PointValue(row) != 0.0
    ensures forall i :: 0 <= i < |row| && row[i].1.Number? && (forall j :: 0 <= j < i ==> !row[j].1.Number?) ==>
              PointValue(row) == (if row[i].1.n.Fin? && row[i].1.n.r != 0.0 then row[i].1.n.r else 1.0)
    ensures (forall i :: 0 <= i < |row| ==> !row[i].1.Number?) ==> PointValue(row) == 1.0
  {
    var vs := Values(row);
    var k := FirstNumberIndex(vs);
    forall i | 0 <= i < |row| && row[i].1.Number? && (forall j :: 0 <= j < i ==> !row[j].1.Number?)
      ensures PointValue(row) == (if row[i].1.n.Fin? && row[i].1.n.r != 0.0 then row[i].1.n.r else 1.0)
    {
      assert vs[i] == row[i].1;
    }
  }

  /** The main-thread rule: keep a row whose `@timestamp` is truthy and
      gives a valid `Date`, with that instant and the row's value. */
  function FilePoint(env: Env, row: Row): (r: seq<DataPoint>)
    ensures |r| <= 1
  {
    var ts := Get(row, "@timestamp");
    if !Truthy(ts) then []
    else match NewDateFromValue(env, ts)
      case None => []
      case Some(t) => [DataPoint(t, PointValue(row), row)]
  }

  /** `data.filter(...).map(...)` of processFile. */
  function FilePoints(env: Env, rows: seq<Row>): seq<DataPoint> {
    FlatMap(rows, (row: Row) => FilePoint(env, row))
  }

  /** The kept rows, in file order: the output is the points of an increasing
      selection of rows, each of which has a truthy `@timestamp` that gives a
      valid `Date`, and every such row is selected. */
  lemma FilePointsSelect(env: Env, rows: seq<Row>) returns (idx: seq<nat>)
    ensures |idx| == |FilePoints(env, rows)|
    ensures forall k :: 0 <= k < |idx| ==> idx[k] < |rows|
    ensures forall k, l :: 0 <= k < l < |idx| ==> idx[k] < idx[l]
    ensures forall k :: 0 <= k < |idx| ==>
              var row := rows[idx[k]];
              Truthy(Get(row, "@timestamp"))
              && NewDateFromValue(env, Get(row, "@timestamp")) == Some(FilePoints(env, rows)[k].timestamp)
              && FilePoints(env, rows)[k].value == PointValue(row)
              && FilePoints(env, rows)[k].fields == row
    ensures forall i :: (0 <= i < |rows| && Truthy(Get(rows[i], "@timestamp"))
                         && NewDateFromValue(env, Get(rows[i], "@timestamp")).Some?) ==> i in idx
  {
    var f := (row: Row) => FilePoint(env, row);
    idx := FlatMapSelect(rows, f);
    forall i | 0 <= i < |rows| && Truthy(Get(rows[i], "@timestamp"))
      && NewDateFromValue(env, Get(rows[i], "@timestamp")).Some?
      ensures i in idx
    {
      assert f(rows[i]) != [];
    }
    forall k | 0 <= k < |idx|
      ensures var row := rows[idx[k]];
              Truthy(Get(row, "@timestamp"))
              && NewDateFromValue(env, Get(row, "@timestamp")) == Some(FilePoints(env, rows)[k].timestamp)
              && FilePoints(env, rows)[k].value == PointValue(row)
              && FilePoints(env, rows)[k].fields == row
    {
      assert [FilePoints(env, rows)[k]] == f(rows[idx[k]]);
    }
  }

  /** A point of the worker path: the worker's rows are mapped without
      filtering, so the timestamp may be an Invalid Date (`None`). */
  datatype LoadedPoint = LoadedPoint(timestamp: Option<Instant>, value: real, fields: Row)

  /** `data.map(row => ({...row, timestamp: new Date(row['@timestamp']), value: ...}))`. */
  function WorkerPoints(env: Env, rows: seq<Row>): (r: seq<LoadedPoint>)
    ensures |r| == |rows|
    ensures forall i :: 0 <= i < |rows| ==>
              r[i] == LoadedPoint(NewDateFromValue(env, Get(rows[i], "@timestamp")), PointValue(rows[i]), rows[i])
  {
    seq(|rows|, i requires 0 <= i < |rows| => LoadedPoint(NewDateFromValue(env, Get(rows[i], "@timestamp")), PointValue(rows[i]), rows[i]))
  }

  /** The worker path reads `@timestamp`, not the column the worker
      detected: a row without that property becomes an Invalid Date. */
  lemma WorkerIgnoresDetectedColumn(env: Env, rows: seq<Row>, i: nat)
    requires i < |rows| && "@timestamp" !in Keys(rows[i])
    ensures WorkerPoints(env, rows)[i].timestamp == None
  {
  }

  /** When the detected column is named `@timestamp`, the worker wrote the
      parsed instant there as ISO text, and an engine that reads its own ISO
      strings back recovers that instant. */
  lemma WorkerTimestampRoundTrip(env: Env, headers: seq<string>, values: seq<string>, c: nat, t: Instant)
    requires ParsesIso(env)
    requires c < |headers| && headers[c] == "@timestamp"
    ensures NewDateFromValue(env, Get(CsvWorker.RecordOf(env, headers, values, c, t), "@timestamp")) == Some(t)
  {
    CsvWorker.RecordHoldsIsoTime(env, headers, values, c, t);
    assert env.parse(IsoString(t)) == Some(t);
  }

  // ---------------------------------------------------------------------
  // Progress and loading state
  // ---------------------------------------------------------------------

  /** `Math.min(90, Math.floor((rowCount / 1000) * 90))`. */
  function ChunkProgress(rowCount: nat): (p: nat)
  {
    if rowCount * 90 / 1000 < 90 then rowCount * 90 / 1000 else 90
  }

  /** Chunk progress stays at or below 90, reaches 90 from 1000 rows on, and
      never goes back as rows accumulate. */
  lemma ChunkProgressFacts(a: nat, b: nat)
    requires a <= b
    ensures ChunkProgress(a) <= ChunkProgress(b) <= 90
    ensures b >= 1000 ==> ChunkProgress(b) == 90
    ensures b < 1000 ==> ChunkProgress(b) == b * 90 / 1000
  {
    DivMonotone(a * 90, b * 90, 1000);
    if b >= 1000 {
      DivMonotone(90000, b * 90, 1000);
    } else {
      DivMonotone(b * 90, 89999, 1000);
    }
  }

  /** The rows handed to the filter: the accumulated chunks when there are
      any, otherwise the final result's rows. */
  function ChosenRows(allData: seq<Row>, resultsData: seq<Row>): seq<Row> {
    if |allData| > 0 then allData else resultsData
  }

  /** What the component hands on to the page. */
  datatype ParsedData = ParsedData(data: seq<DataPoint>, columns: seq<string>, processed: ProcessedDatasets)

  /** The worker path's points once processLargeDataset has accepted them:
      every timestamp must be a valid `Date`, since its `toISOString()`
      (lib/dataProcessor.ts:31) throws a RangeError on an Invalid Date.
      `None` is that throw. */
  function WorkerDataPoints(points: seq<LoadedPoint>): (r: Option<seq<DataPoint>>)
    ensures r.Some? <==> forall i :: 0 <= i < |points| ==> points[i].timestamp.Some?
    ensures r.Some? ==> |r.value| == |points|
  {
    if forall i :: 0 <= i < |points| ==> points[i].timestamp.Some? then
      Some(seq(|points|, i requires 0 <= i < |points| =>
             DataPoint(points[i].timestamp.value, points[i].value, points[i].fields)))
    else None
  }

  /** A worker file whose rows lack `@timestamp` (the detected column has
      another name) never gets past processLargeDataset. */
  lemma WorkerWithoutTimestampFails(env: Env, rows: seq<Row>, i: nat)
    requires i < |rows| && "@timestamp" !in Keys(rows[i])
    ensures WorkerDataPoints(WorkerPoints(env, rows)) == None
  {
    WorkerIgnoresDetectedColumn(env, rows, i);
  }

  /** The main-thread filter keeps every row whose `@timestamp` is truthy
      and valid, with its instant, value and fields. */
  lemma {:induction false} FilePointsAllKept(env: Env, rows: seq<Row>)
    requires forall i :: 0 <= i < |rows| ==>
               Truthy(Get(rows[i], "@timestamp")) && NewDateFromValue(env, Get(rows[i], "@timestamp")).Some?
    ensures |FilePoints(env, rows)| == |rows|
    ensures forall i :: 0 <= i < |rows| ==>
              FilePoints(env, rows)[i]
              == DataPoint(NewDateFromValue(env, Get(rows[i], "@timestamp")).value, PointValue(rows[i]), rows[i])
  {
    if rows != [] {
      var init := rows[..|rows| - 1];
      FilePointsAllKept(env, init);
      assert FilePoints(env, rows) == FilePoints(env, init) + FilePoint(env, rows[|rows| - 1]);
    }
  }

  /** On rows whose `@timestamp` is truthy and valid, the worker path hands on
      exactly the points the main-thread path would. */
  lemma WorkerAgreesWithMainThread(env: Env, rows: seq<Row>)
    requires forall i :: 0 <= i < |rows| ==>
               Truthy(Get(rows[i], "@timestamp")) && NewDateFromValue(env, Get(rows[i], "@timestamp")).Some?
    ensures WorkerDataPoints(WorkerPoints(env, rows)) == Some(FilePoints(env, rows))
  {
    FilePointsAllKept(env, rows);
    var points := WorkerPoints(env, rows);
    assert forall i :: 0 <= i < |points| ==> points[i].timestamp.Some?;
    var r := WorkerDataPoints(points).value;
    forall i | 0 <= i < |rows| ensures r[i] == FilePoints(env, rows)[i] {
      assert r[i] == DataPoint(points[i].timestamp.value, points[i].value, points[i].fields);
    }
    assert r == FilePoints(env, rows);
  }

  /** The hourly table processLargeDataset leaves for the groups `g`: per
      hour its count, its values and their mean. */
  function HourlyTable(g: seq<(int, seq<real>)>): (t: seq<(int, HourBucket)>)
    ensures HourlyIs(t, g, true)
  {
    seq(|g|, j requires 0 <= j < |g| => (g[j].0, HourBucket(|g[j].1|, Avg(g[j].1), g[j].1)))
  }

  /** The daily table for the groups `g`: per day its count, the mean of its
      values and `new Date(day)`. */
  function DailyTable(env: Env, g: seq<(string, seq<real>)>): (t: seq<(string, DayBucket)>)
    ensures DailyIs(env, t, g)
  {
    seq(|g|, j requires 0 <= j < |g| => (g[j].0, DayBucket(|g[j].1|, Avg(g[j].1), DayStart(env, g[j].0))))
  }

  /** The weekday table for the groups `g`: per weekday its count and the
      mean of its values. */
  function WeeklyTable(g: seq<(int, seq<real>)>): (t: seq<(int, WeekBucket)>)
    ensures WeeklyIs(t, g)
  {
    seq(|g|, j requires 0 <= j < |g| => (g[j].0, WeekBucket(|g[j].1|, Avg(g[j].1))))
  }

  /** What processLargeDataset returns for `data`: the data sorted by time,
      its sample, and the hourly, daily and weekday tables of the sorted
      values grouped by local hour, UTC day and local weekday. */
  function Processed(env: Env, data: seq<DataPoint>): ProcessedDatasets {
    var full := SortByTime(data);
    ProcessedDatasets(full, Sampled(full),
      HourlyTable(GroupBy(HourKeys(env, full), ValuesOf(full))),
      DailyTable(env, GroupBy(DayKeys(full), ValuesOf(full))),
      WeeklyTable(GroupBy(WeekKeys(env, full), ValuesOf(full))))
  }

  /** processLargeDataset's postcondition leaves one possible result: the
      one `Processed` describes. */
  lemma ProcessedDetermined(env: Env, data: seq<DataPoint>, p: ProcessedDatasets)
    requires p.full == SortByTime(data) && p.sampled == Sampled(p.full)
    requires HourlyIs(p.hourly, GroupBy(HourKeys(env, p.full), ValuesOf(p.full)), true)
    requires DailyIs(env, p.daily, GroupBy(DayKeys(p.full), ValuesOf(p.full)))
    requires WeeklyIs(p.weekly, GroupBy(WeekKeys(env, p.full), ValuesOf(p.full)))
    ensures p == Processed(env, data)
  {
    var q := Processed(env, data);
    assert p.hourly == q.hourly;
    assert p.daily == q.daily;
    assert p.weekly == q.weekly;
  }

  /** What the worker handler's completion hands on for `data`: the mapped
      rows with `columns` and processLargeDataset's result when every
      timestamp is a valid `Date`; nothing when processLargeDataset throws on
      an Invalid Date. */
  function WorkerOutcome(env: Env, data: seq<Row>, columns: seq<string>): Option<ParsedData> {
    match WorkerDataPoints(WorkerPoints(env, data))
    case None => None
    case Some(points) => Some(ParsedData(points, columns, Processed(env, points)))
  }

  /** `Processed` meets processLargeDataset's specification: sorted data,
      its sample, and one bucket per group of each table with the group's
      count and mean. */
  lemma ProcessedFacts(env: Env, data: seq<DataPoint>)
    ensures var p := Processed(env, data);
            p.full == SortByTime(data) && p.sampled == Sampled(p.full)
            && HourlyIs(p.hourly, GroupBy(HourKeys(env, p.full), ValuesOf(p.full)), true)
            && DailyIs(env, p.daily, GroupBy(DayKeys(p.full), ValuesOf(p.full)))
            && WeeklyIs(p.weekly, GroupBy(WeekKeys(env, p.full), ValuesOf(p.full)))
  {
  }

  /** The worker's completion hands nothing on exactly when some row's
      `@timestamp` does not give a valid `Date`. */
  lemma WorkerOutcomeNone(env: Env, data: seq<Row>, columns: seq<string>)
    ensures WorkerOutcome(env, data, columns).None?
            <==> exists i :: 0 <= i < |data| && NewDateFromValue(env, Get(data[i], "@timestamp")).None?
  {
    var points := WorkerPoints(env, data);
    if exists i :: 0 <= i < |data| && NewDateFromValue(env, Get(data[i], "@timestamp")).None? {
      var i :| 0 <= i < |data| && NewDateFromValue(env, Get(data[i], "@timestamp")).None?;
      assert points[i].timestamp.None?;
    }
  }

  /** The completion branch of the worker handler before the state updates:
      map the rows, then process them. */
  method AcceptWorkerRows(env: Env, data: seq<Row>, columns: seq<string>) returns (loaded: Option<ParsedData>)
    ensures loaded == WorkerOutcome(env, data, columns)
  {
    var filteredData := WorkerPoints(env, data);
    var accepted := WorkerDataPoints(filteredData);
    loaded := None;
    if accepted.Some? {
      var processed := ProcessLargeDataset(env, accepted.value);
      ProcessedDetermined(env, accepted.value, processed);
      loaded := Some(ParsedData(accepted.value, columns, processed));
    }
  }

  /** The body of the complete callback: filter and map the rows, then
      process them. */
  method BuildParsed(env: Env, data: seq<Row>, fields: seq<string>) returns (parsed: ParsedData)
    ensures parsed.data == FilePoints(env, data)
    ensures parsed.columns == fields
    ensures parsed.processed == Processed(env, parsed.data)
  {
    var filteredData := FilePoints(env, data);
    var processed := ProcessLargeDataset(env, filteredData);
    ProcessedDetermined(env, filteredData, processed);
    parsed := ParsedData(filteredData, fields, processed);
  }

  /** The upload component's state: the flags React keeps, and the rows the
      chunk callback accumulates. */
  class Uploader {
    var isLoading: bool
    var progress: int
    var allData: seq<Row>
    var rowCount: nat

    ghost predicate Valid()
      reads this
    {
      rowCount == |allData|
    }

    constructor()
      ensures Valid() && !isLoading && progress == 0 && allData == [] && rowCount == 0
    {
      isLoading := false;
      progress := 0;
      allData := [];
      rowCount := 0;
    }

    /** processFile up to the parser's start: loading, progress 0, nothing
        accumulated. */
    method BeginFile()
      modifies this
      ensures Valid() && isLoading && progress == 0 && allData == [] && rowCount == 0
    {
      isLoading := true;
      progress := 0;
      allData := [];
      rowCount := 0;
    }

    /** The chunk callback. */
    method OnChunk(chunk: seq<Row>)
      requires Valid()
      modifies this
      ensures Valid()
      ensures allData == old(allData) + chunk && rowCount == old(rowCount) + |chunk|
      ensures progress == ChunkProgress(rowCount) && isLoading == old(isLoading)
    {
      allData := allData + chunk;
      rowCount := rowCount + |chunk|;
      ChunkProgressFacts(rowCount, rowCount);
      progress := if rowCount * 90 / 1000 < 90 then rowCount * 90 / 1000 else 90;
    }

    /** The complete callback: filter and map the rows, process them, and
        show 100% before handing them on. */
    method OnComplete(env: Env, resultsData: seq<Row>, fields: seq<string>) returns (parsed: ParsedData)
      requires Valid()
      modifies this
      ensures Valid() && progress == 100
      ensures allData == old(allData) && rowCount == old(rowCount) && isLoading == old(isLoading)
      ensures parsed.data == FilePoints(env, ChosenRows(allData, resultsData))
      ensures parsed.columns == fields
      ensures parsed.processed == Processed(env, parsed.data)
    {
      var data := ChosenRows(allData, resultsData);
      parsed := BuildParsed(env, data, fields);
      progress := 100;
    }

    /** The delayed hand-over after completion, and the parse-error path:
        loading ends and the bar resets. */
    method Settle()
      requires Valid()
      modifies this
      ensures Valid() && !isLoading && progress == 0
      ensures allData == old(allData) && rowCount == old(rowCount)
    {
      isLoading := false;
      progress := 0;
    }

    /** processWithWorker when a worker exists: loading, progress 0, then the
        request is posted. */
    method BeginWorker()
      requires Valid()
      modifies this
      ensures Valid() && isLoading && progress == 0
      ensures allData == old(allData) && rowCount == old(rowCount)
    {
      isLoading := true;
      progress := 0;
    }

    /** The completion branch of the worker's handler: the rows are handed
        on and the bar resets, unless processLargeDataset throws, which leaves
        the state as it was. */
    method OnWorkerComplete(env: Env, data: seq<Row>, columns: seq<string>) returns (loaded: Option<ParsedData>)
      requires Valid()
      modifies this
      ensures Valid() && allData == old(allData) && rowCount == old(rowCount)
      ensures loaded == WorkerOutcome(env, data, columns)
      ensures loaded.Some? ==> !isLoading && progress == 0
      ensures loaded.None? ==> isLoading == old(isLoading) && progress == old(progress)
    {
      var accepted := AcceptWorkerRows(env, data, columns);
      if accepted.Some? {
        isLoading := false;
        progress := 0;
      }
      loaded := accepted;
    }

    /** The worker's `onmessage` handler. A progress message with percent 0
        is falsy and falls through every branch; an error with empty text
        does too. */
    method OnWorkerMessage(env: Env, msg: CsvWorker.Message) returns (loaded: Option<ParsedData>)
      requires Valid()
      modifies this
      ensures Valid()
      ensures allData == old(allData) && rowCount == old(rowCount)
      ensures msg.Progress? ==>
                loaded == None && isLoading == old(isLoading)
                && progress == (if msg.percent != 0 then msg.percent else old(progress))
      ensures msg.Complete? ==>
                loaded == WorkerOutcome(env, msg.data, msg.columns)
                && (loaded.Some? ==> !isLoading && progress == 0)
                && (loaded.None? ==> isLoading == old(isLoading) && progress == old(progress))
      ensures msg.Error? ==>
                loaded == None
                && (if msg.error != "" then !isLoading && progress == 0
                    else isLoading == old(isLoading) && progress == old(progress))
    {
      loaded := None;
      match msg
      case Progress(p) =>
        if p != 0 {
          progress := p;
        }
      case Complete(data, columns, _) =>
        loaded := OnWorkerComplete(env, data, columns);
      case Error(e) =>
        if e != "" {
          isLoading := false;
          progress := 0;
        }
    }
  }

  // ---------------------------------------------------------------------
  // Which path a file takes
  // ---------------------------------------------------------------------

  datatype Path = ViaWorker | MainThread

  const WorkerThreshold: nat := 1024 * 1024

  /** handleFileUpload / handleDrop: files over 1 MiB go to the worker when
      there is one; processWithWorker falls back to processFile otherwise. */
  function ChoosePath(fileSize: nat, hasWorker: bool): (p: Path)
    ensures p == ViaWorker <==> fileSize > 1048576 && hasWorker
  {
    if fileSize > WorkerThreshold && hasWorker then ViaWorker else MainThread
  }

  /** A file of exactly 1 MiB, or any file without a worker, stays on the
      main thread. */
  lemma OneMebibyteStaysOnMainThread(hasWorker: bool, fileSize: nat)
    ensures ChoosePath(1048576, hasWorker) == MainThread
    ensures ChoosePath(fileSize, false) == MainThread
  {
  }

  datatype DroppedFile = DroppedFile(name: string, mimeType: string, size: nat)

  /** handleDrop's test: a CSV MIME type or a name ending in `.csv`. */
  predicate AcceptsDrop(file: Option<DroppedFile>) {
    file.Some? && (file.value.mimeType == "text/csv" || EndsWith(file.value.name, ".csv"))
  }

  /** The extension test is case-sensitive: `DATA.CSV` with another MIME type
      is refused, `data.csv` is accepted whatever its type. */
  lemma DropExtensionCaseSensitive(upper: string, lower: string, mime: string)
    requires upper == "DATA.CSV" && lower == "data.csv" && mime == "application/octet-stream"
    ensures !AcceptsDrop(Some(DroppedFile(upper, mime, 10)))
    ensures AcceptsDrop(Some(DroppedFile(lower, mime, 10)))
  {
    assert upper[4..] != ".csv" by { assert upper[5] == 'C'; }
    assert lower[4..] == ".csv";
  }
}

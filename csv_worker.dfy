/** public/csvWorker.js: the background parser. It splits the CSV text
    naively, finds the datetime column by position, builds one record per
    usable row and answers a 'parse' request with a list of messages:
    progress reports, then exactly one completion or error. */
module CsvWorker {
  import opened Wrappers
  import opened JsStrings
  import opened JsDates
  import opened DateFormats
  import opened Records
  import opened SeqMath
  import DateTimeDetector

  // ---------------------------------------------------------------------
  // Splitting the text
  // ---------------------------------------------------------------------

  /** `.replace(/^"|"$/g, '')`: one leading and one trailing double quote go;
      a lone `"` is consumed by the first alternative. */
  function StripQuotes(s: string): (r: string)
    ensures |r| <= |s|
    ensures |s| >= 2 && s[0] == '"' && s[|s| - 1] == '"' ==> r == s[1..|s| - 1]
  {
    var t := if s != [] && s[0] == '"' then s[1..] else s;
    if t != [] && t[|t| - 1] == '"' then t[..|t| - 1] else t
  }

  /** `v.trim().replace(/^"|"$/g, '')`. */
  function CleanCell(s: string): string {
    StripQuotes(Trim(s))
  }

  function CleanCells(pieces: seq<string>): (r: seq<string>)
    ensures |r| == |pieces| && forall k :: 0 <= k < |r| ==> r[k] == CleanCell(pieces[k])
  {
    seq(|pieces|, k requires 0 <= k < |pieces| => CleanCell(pieces[k]))
  }

  /** A line's cells: split on every comma, each cleaned. */
  function LineCells(line: string): seq<string> {
    CleanCells(Split(line, ','))
  }

  /** The header row: the first line's cells. */
  function Headers(text: string): seq<string> {
    LineCells(Split(text, '\n')[0])
  }

  /** The data lines' cells, skipping lines that are blank once trimmed. */
  function RawRowsOf(lines: seq<string>): seq<seq<string>> {
    if lines == [] then []
    else
      var rest := RawRowsOf(lines[..|lines| - 1]);
      var line := lines[|lines| - 1];
      if Trim(line) == "" then rest else rest + [LineCells(line)]
  }

  function RawRows(text: string): seq<seq<string>> {
    RawRowsOf(Split(text, '\n')[1..])
  }

  predicate NonBlank(line: string) {
    Trim(line) != ""
  }

  /** Blank lines are dropped and do not count: there is one raw row per
      non-blank data line, in order. */
  lemma {:induction false} RawRowsCount(lines: seq<string>)
    ensures |RawRowsOf(lines)| == CountWhere(lines, NonBlank)
    decreases |lines|
  {
    if lines != [] {
      RawRowsCount(lines[..|lines| - 1]);
    }
  }

  /** The splitter does not honour quoting: a quoted comma still separates
      cells (RFC 4180 section 2, item 6 is not implemented). */
  lemma QuotedCommaSplits(line: string)
    requires line == "\"a,b\",c"
    ensures var cells := LineCells(line);
            |cells| == 3 && cells[0] == "a" && cells[1] == "b" && cells[2] == "c"
  {
    SplitQuotedLine(line);
    CleanQuotedPieces(Split(line, ','));
  }

  lemma SplitQuotedLine(line: string)
    requires line == "\"a,b\",c"
    ensures Split(line, ',') == ["\"a", "b\"", "c"]
  {
    var head, rest := "\"a", "b\",c";
    assert line[..2] == head && line[3..] == rest && line[2] == ',' by {
      assert line == head + [','] + rest;
    }
    SplitFirst(line, ',', 2);
    SplitRest(rest);
  }

  lemma SplitRest(s: string)
    requires s == "b\",c"
    ensures Split(s, ',') == ["b\"", "c"]
  {
    var head, rest := "b\"", "c";
    assert s[..2] == head && s[3..] == rest && s[2] == ',' by {
      assert s == head + [','] + rest;
    }
    SplitFirst(s, ',', 2);
    SplitNone(rest, ',');
  }

  /** Splitting at the first separator. */
  lemma SplitFirst(s: string, c: char, i: nat)
    requires i < |s| && s[i] == c && c !in s[..i]
    ensures Split(s, c) == [s[..i]] + Split(s[i + 1..], c)
  {
  }

  lemma SplitNone(s: string, c: char)
    requires c !in s
    ensures Split(s, c) == [s]
  {
  }

  lemma CleanQuotedPieces(pieces: seq<string>)
    requires pieces == ["\"a", "b\"", "c"]
    ensures var cells := CleanCells(pieces);
            |cells| == 3 && cells[0] == "a" && cells[1] == "b" && cells[2] == "c"
  {
    var a, b, c := "\"a", "b\"", "c";
    assert pieces[0] == a && pieces[1] == b && pieces[2] == c;
    OpeningQuote();
    ClosingQuote();
    NoQuotes();
  }

  lemma NoQuotes()
    ensures CleanCell("c") == "c"
  {
    var s := "c";
    assert |s| == 1 && s[0] == 'c' && !IsJsSpace('c');
    CleanUnpadded(s);
  }

  lemma OpeningQuote()
    ensures CleanCell("\"a") == "a"
  {
    var s := "\"a";
    CleanUnpadded(s);
    assert s[1..] == "a";
  }

  lemma ClosingQuote()
    ensures CleanCell("b\"") == "b"
  {
    var s := "b\"";
    CleanUnpadded(s);
    assert s[..1] == "b";
  }

  /** Cleaning a piece with no surrounding space only strips its quotes. */
  lemma CleanUnpadded(s: string)
    requires s != [] ==> !IsJsSpace(s[0]) && !IsJsSpace(s[|s| - 1])
    ensures CleanCell(s) == StripQuotes(s)
  {
    TrimUnpadded(s);
  }

  // ---------------------------------------------------------------------
  // Parsing and recognising cells
  // ---------------------------------------------------------------------

  /** The worker's parseDateTime: epochs, then `new Date(s)`, then the
      `M/D/YYYY` rewrite. It has no explicit-offset or time-zone branch. */
  function WorkerParse(env: Env, v: JsValue): (r: Option<int>)
    ensures r.Some? ==> ValidTime(r.value)
    ensures !Truthy(v) ==> r == None
  {
    if !Truthy(v) then None
    else
      var s := DateTimeDetector.Text(env, v);
      if IsEpochSeconds(s) then MakeTime(DigitsValue(s) * 1000)
      else if IsEpochMillis(s) then MakeTime(DigitsValue(s))
      else DateTimeDetector.ParseWithUsFallback(env, s)
  }

  function WorkerParseText(env: Env): string -> Option<int> {
    s => WorkerParse(env, Str(s))
  }

  /** `values[i]`: the cell, or `undefined` past the end of a short row. */
  function CellAt(values: seq<string>, i: nat): JsValue {
    if i < |values| then Str(values[i]) else Undefined
  }

  predicate DateCellAt(env: Env, c: nat, values: seq<string>) {
    DateTimeDetector.Recognised(env, WorkerParseText(env), CellAt(values, c))
  }

  function IndexHits(env: Env, sample: seq<seq<string>>, c: nat): (n: nat)
    ensures n <= |sample|
  {
    CountWhere(sample, (values: seq<string>) => DateCellAt(env, c, values))
  }

  predicate IndexQualifies(env: Env, sample: seq<seq<string>>, c: nat) {
    DateTimeDetector.AtLeastFourFifths(IndexHits(env, sample, c), |sample|)
  }

  /** The lowest index in `from..n` that qualifies. */
  function FirstQualifyingIndex(env: Env, sample: seq<seq<string>>, from: nat, n: nat): (r: Option<nat>)
    ensures r.Some? ==> from <= r.value < n && IndexQualifies(env, sample, r.value)
    ensures r.Some? ==> forall j :: from <= j < r.value ==> !IndexQualifies(env, sample, j)
    ensures r.None? ==> forall j :: from <= j < n ==> !IndexQualifies(env, sample, j)
    decreases n - from
  {
    if from >= n then None
    else if IndexQualifies(env, sample, from) then Some(from)
    else FirstQualifyingIndex(env, sample, from + 1, n)
  }

  /** The sampled rows: at most the first ten. */
  function Sample(rows: seq<seq<string>>): seq<seq<string>> {
    rows[..if |rows| < 10 then |rows| else 10]
  }

  /** detectDateTimeColumn(headers, rows): `None` without rows, otherwise the
      lowest header index recognised in at least 80% of the sample. */
  function DetectIndex(env: Env, headers: seq<string>, rows: seq<seq<string>>): (r: Option<nat>)
    ensures r.Some? ==> r.value < |headers|
  {
    if rows == [] then None else FirstQualifyingIndex(env, Sample(rows), 0, |headers|)
  }

  method CountIndexHits(env: Env, sample: seq<seq<string>>, c: nat) returns (validDates: nat)
    ensures validDates == IndexHits(env, sample, c)
  {
    validDates := 0;
    for i := 0 to |sample|
      invariant validDates == IndexHits(env, sample[..i], c)
    {
      var hit := DateTimeDetector.IsDateTimeWith(env, WorkerParseText(env), CellAt(sample[i], c));
      assert sample[..i + 1] == sample[..i] + [sample[i]];
      CountWhereAppend(sample[..i], sample[i], (values: seq<string>) => DateCellAt(env, c, values));
      if hit {
        validDates := validDates + 1;
      }
    }
    assert sample[..|sample|] == sample;
  }

  /** The worker's detectDateTimeColumn loop. */
  method DetectDateTimeColumn(env: Env, headers: seq<string>, rows: seq<seq<string>>) returns (r: Option<nat>)
    ensures r == DetectIndex(env, headers, rows)
  {
    if |rows| == 0 {
      return None;
    }
    var sample := Sample(rows);
    for c := 0 to |headers|
      invariant FirstQualifyingIndex(env, sample, 0, |headers|) == FirstQualifyingIndex(env, sample, c, |headers|)
    {
      var validDates := CountIndexHits(env, sample, c);
      if 5 * validDates >= 4 * |sample| {
        return Some(c);
      }
    }
    return None;
  }

  /** A header the name-based fallback accepts. */
  predicate TimestampName(h: string) {
    Contains(ToLower(h), "timestamp") || Contains(ToLower(h), "date") || Contains(ToLower(h), "time")
    || h == "@timestamp"
  }

  /** `headers.findIndex(TimestampName)`. */
  function FindTimestampName(headers: seq<string>): (i: int)
    ensures -1 <= i < |headers|
    ensures i >= 0 ==> TimestampName(headers[i]) && forall j :: 0 <= j < i ==> !TimestampName(headers[j])
    ensures i == -1 ==> forall j :: 0 <= j < |headers| ==> !TimestampName(headers[j])
  {
    if headers == [] then -1
    else if TimestampName(headers[0]) then 0
    else
      var j := FindTimestampName(headers[1..]);
      if j == -1 then -1 else j + 1
  }

  // ---------------------------------------------------------------------
  // Building records
  // ---------------------------------------------------------------------

  /** `isNaN(value) ? value : parseFloat(value)`. */
  function CellValue(env: Env, values: seq<string>, i: nat): JsValue {
    var v := CellAt(values, i);
    if IsNaNText(env, v) then v else Number(env.parseFloat(values[i]))
  }

  /** The record after the first `k` headers have been assigned. */
  function RowPrefix(env: Env, headers: seq<string>, values: seq<string>, k: nat): Row
    requires k <= |headers|
  {
    if k == 0 then [] else Put(RowPrefix(env, headers, values, k - 1), headers[k - 1], CellValue(env, values, k - 1))
  }

  /** The headers with repeats dropped, each kept where it first occurs. */
  function FirstOccurrences(hs: seq<string>): (ks: seq<string>)
    ensures forall i, j :: 0 <= i < j < |ks| ==> ks[i] != ks[j]
    ensures forall h :: h in ks <==> h in hs
  {
    if hs == [] then []
    else
      var ks := FirstOccurrences(hs[..|hs| - 1]);
      assert forall h :: h in hs <==> h in hs[..|hs| - 1] || h == hs[|hs| - 1] by {
        assert hs == hs[..|hs| - 1] + [hs[|hs| - 1]];
      }
      if hs[|hs| - 1] in ks then ks else ks + [hs[|hs| - 1]]
  }

  /** The record's properties are the headers, each once, in the order the
      first assignment to it created it. */
  lemma {:induction false} RowPrefixKeys(env: Env, headers: seq<string>, values: seq<string>, k: nat)
    requires k <= |headers|
    ensures Keys(RowPrefix(env, headers, values, k)) == FirstOccurrences(headers[..k])
  {
    if k > 0 {
      RowPrefixKeys(env, headers, values, k - 1);
      assert headers[..k][..k - 1] == headers[..k - 1];
      var row := RowPrefix(env, headers, values, k - 1);
      var r := Put(row, headers[k - 1], CellValue(env, values, k - 1));
      if headers[k - 1] !in Keys(row) {
        assert Keys(r) == Keys(row) + [headers[k - 1]];
      }
    }
  }

  /** A header reads as the cell of its last column among the first `k`: a
      later column with the same header overwrites the property. */
  lemma {:induction false} RowPrefixGet(env: Env, headers: seq<string>, values: seq<string>, k: nat, j: nat)
    requires j < k <= |headers|
    requires forall l :: j < l < k ==> headers[l] != headers[j]
    ensures Get(RowPrefix(env, headers, values, k), headers[j]) == CellValue(env, values, j)
  {
    var row := RowPrefix(env, headers, values, k - 1);
    PutGet(row, headers[k - 1], CellValue(env, values, k - 1), headers[j]);
    if j < k - 1 {
      RowPrefixGet(env, headers, values, k - 1, j);
    }
  }

  /** The record emitted for a row whose datetime cell (index `c`) parsed to `t`. */
  function RecordOf(env: Env, headers: seq<string>, values: seq<string>, c: nat, t: Instant): Row
    requires c < |headers|
  {
    Put(RowPrefix(env, headers, values, |headers|), headers[c], Str(IsoString(t)))
  }

  /** The row is kept: its datetime cell is truthy and parses. */
  predicate Keeps(env: Env, values: seq<string>, c: nat) {
    Truthy(CellAt(values, c)) && WorkerParse(env, CellAt(values, c)).Some?
  }

  /** The records emitted for `rows`, in order. */
  function DataRows(env: Env, headers: seq<string>, rows: seq<seq<string>>, c: nat): seq<Row>
    requires c < |headers|
  {
    FlatMap(rows, (values: seq<string>) => Kept(env, headers, values, c))
  }

  lemma DataRowsStep(env: Env, headers: seq<string>, rows: seq<seq<string>>, i: nat, c: nat)
    requires c < |headers| && i < |rows|
    ensures DataRows(env, headers, rows[..i + 1], c) == DataRows(env, headers, rows[..i], c) + Kept(env, headers, rows[i], c)
  {
    assert rows[..i + 1][..i] == rows[..i];
  }

  /** What one row contributes: its record when it is kept, nothing otherwise. */
  function Kept(env: Env, headers: seq<string>, values: seq<string>, c: nat): (r: seq<Row>)
    requires c < |headers|
    ensures |r| <= 1 && (r != [] <==> Keeps(env, values, c))
  {
    if Keeps(env, values, c) then [RecordOf(env, headers, values, c, WorkerParse(env, CellAt(values, c)).value)]
    else []
  }

  // ---------------------------------------------------------------------
  // Messages
  // ---------------------------------------------------------------------

  datatype Message =
    | Progress(percent: int)
    | Complete(data: seq<Row>, columns: seq<string>, dateTimeColumn: string)
    | Error(error: string)

  const NoColumnError: string := "No datetime column found in the CSV"
  /** The engine's message for the TypeError a write to a `const` raises. */
  const ConstAssignmentError: string := "Assignment to constant variable."

  /** `Math.round((processed / total) * 100)`, in exact arithmetic. */
  function RoundPercent(processed: nat, total: nat): int
    requires total > 0
  {
    (200 * processed + total) / (2 * total)
  }

  /** The progress messages posted once `processed` rows of `total` are done. */
  function ProgressUpTo(processed: nat, total: nat): seq<Message>
    requires processed <= total
  {
    if processed == 0 then []
    else ProgressUpTo(processed - 1, total)
         + (if processed % 100 == 0 then [Progress(RoundPercent(processed, total))] else [])
  }

  /** The answer to a 'parse' request, given its header and raw rows. */
  function Answer(env: Env, headers: seq<string>, rows: seq<seq<string>>): seq<Message> {
    match DetectIndex(env, headers, rows)
    case None =>
      if FindTimestampName(headers) == -1 then [Error(NoColumnError)] else [Error(ConstAssignmentError)]
    case Some(c) =>
      ProgressUpTo(|rows|, |rows|) + [Complete(DataRows(env, headers, rows, c), headers, headers[c])]
  }

  /** The messages a request produces. */
  function Outcome(env: Env, text: string, action: string): seq<Message> {
    if action != "parse" then [] else Answer(env, Headers(text), RawRows(text))
  }

  /** The worker's message handler for one request. */
  method OnMessage(env: Env, csvText: string, action: string) returns (messages: seq<Message>)
    ensures messages == Outcome(env, csvText, action)
  {
    messages := [];
    if action != "parse" {
      return;
    }
    var lines := Split(csvText, '\n');
    var headers := LineCells(lines[0]);
    var rawRows := ReadRawRows(lines);
    var found := DetectDateTimeColumn(env, headers, rawRows);
    if found.None? {
      var timestampIndex := FindTimestampName(headers);
      if timestampIndex == -1 {
        messages := [Error(NoColumnError)];
        return;
      }
      // dateTimeColumnIndex is a const: the assignment throws a TypeError,
      // which the surrounding catch turns into an error message.
      messages := [Error(ConstAssignmentError)];
      return;
    }
    var c := found.value;
    var data;
    data, messages := ProcessRows(env, headers, rawRows, c);
    messages := messages + [Complete(data, headers, headers[c])];
  }

  /** The loop over `lines.slice(1)` that keeps the non-blank lines' cells. */
  method ReadRawRows(lines: seq<string>) returns (rawRows: seq<seq<string>>)
    requires |lines| >= 1
    ensures rawRows == RawRowsOf(lines[1..])
  {
    rawRows := [];
    for i := 1 to |lines|
      invariant rawRows == RawRowsOf(lines[1..i])
    {
      RawRowsStep(lines, i);
      if Trim(lines[i]) != "" {
        rawRows := rawRows + [LineCells(lines[i])];
      }
    }
    assert lines[1..|lines|] == lines[1..];
  }

  /** One more line adds its cells unless it is blank once trimmed. */
  lemma RawRowsStep(lines: seq<string>, i: nat)
    requires 1 <= i < |lines|
    ensures RawRowsOf(lines[1..i + 1])
            == RawRowsOf(lines[1..i]) + (if Trim(lines[i]) == "" then [] else [LineCells(lines[i])])
  {
    var seg := lines[1..i + 1];
    assert seg == lines[1..i] + [lines[i]];
    RawRowsAppend(lines[1..i], lines[i]);
  }

  lemma RawRowsAppend(ls: seq<string>, line: string)
    ensures RawRowsOf(ls + [line]) == RawRowsOf(ls) + (if Trim(line) == "" then [] else [LineCells(line)])
  {
    assert (ls + [line])[..|ls|] == ls;
  }

  /** The loop over the raw rows: builds the records and posts progress. */
  method ProcessRows(env: Env, headers: seq<string>, rawRows: seq<seq<string>>, c: nat)
    returns (data: seq<Row>, messages: seq<Message>)
    requires c < |headers|
    ensures data == DataRows(env, headers, rawRows, c)
    ensures messages == ProgressUpTo(|rawRows|, |rawRows|)
  {
    data := [];
    messages := [];
    var processed := 0;
    for i := 0 to |rawRows|
      invariant processed == i
      invariant data == DataRows(env, headers, rawRows[..i], c)
      invariant messages == ProgressUpTo(i, |rawRows|)
    {
      data, messages, processed := ProcessStep(env, headers, rawRows, c, data, messages, processed);
    }
    assert rawRows[..|rawRows|] == rawRows;
  }

  /** One pass of the loop over the raw rows: the row's record, if kept, is
      appended, and progress is posted at every hundredth row. */
  method ProcessStep(env: Env, headers: seq<string>, rawRows: seq<seq<string>>, c: nat,
                     data: seq<Row>, messages: seq<Message>, processed: nat)
    returns (data': seq<Row>, messages': seq<Message>, processed': nat)
    requires c < |headers| && processed < |rawRows|
    requires data == DataRows(env, headers, rawRows[..processed], c)
    requires messages == ProgressUpTo(processed, |rawRows|)
    ensures processed' == processed + 1
    ensures data' == DataRows(env, headers, rawRows[..processed'], c)
    ensures messages' == ProgressUpTo(processed', |rawRows|)
  {
    DataRowsStep(env, headers, rawRows, processed, c);
    ProgressStep(processed, |rawRows|);
    var kept := ProcessRow(env, headers, rawRows[processed], c);
    data' := data + kept;
    processed' := processed + 1;
    messages' := messages;
    if processed' % 100 == 0 {
      messages' := messages + [Progress(RoundPercent(processed', |rawRows|))];
    }
  }

  /** One more processed row posts progress exactly when the count reaches a
      multiple of 100. */
  lemma ProgressStep(i: nat, total: nat)
    requires i < total
    ensures ProgressUpTo(i + 1, total)
            == ProgressUpTo(i, total) + (if (i + 1) % 100 == 0 then [Progress(RoundPercent(i + 1, total))] else [])
  {
  }

  /** One pass of the loop body: the record for a row whose datetime cell is
      truthy and parses, nothing otherwise. */
  method ProcessRow(env: Env, headers: seq<string>, values: seq<string>, c: nat) returns (kept: seq<Row>)
    requires c < |headers|
    ensures kept == Kept(env, headers, values, c)
  {
    kept := [];
    var timestamp := CellAt(values, c);
    if Truthy(timestamp) {
      var date := WorkerParse(env, timestamp);
      if date.Some? {
        var row := BuildRow(env, headers, values);
        row := Put(row, headers[c], Str(IsoString(date.value)));
        kept := [row];
      }
    }
  }

  /** `headers.forEach((header, index) => row[header] = ...)`. */
  method BuildRow(env: Env, headers: seq<string>, values: seq<string>) returns (row: Row)
    ensures row == RowPrefix(env, headers, values, |headers|)
    ensures Keys(row) == FirstOccurrences(headers)
    ensures forall j :: 0 <= j < |headers| && (forall l :: j < l < |headers| ==> headers[l] != headers[j]) ==>
              Get(row, headers[j]) == CellValue(env, values, j)
  {
    row := [];
    for k := 0 to |headers|
      invariant row == RowPrefix(env, headers, values, k)
    {
      row := Put(row, headers[k], CellValue(env, values, k));
    }
    RowPrefixKeys(env, headers, values, |headers|);
    assert headers[..|headers|] == headers;
    forall j | 0 <= j < |headers| && (forall l :: j < l < |headers| ==> headers[l] != headers[j])
      ensures Get(row, headers[j]) == CellValue(env, values, j)
    {
      RowPrefixGet(env, headers, values, |headers|, j);
    }
  }

  // ---------------------------------------------------------------------
  // What the handler promises
  // ---------------------------------------------------------------------

  /** Requests other than 'parse' get no answer. */
  lemma OtherActionsSilent(env: Env, text: string, action: string)
    requires action != "parse"
    ensures Outcome(env, text, action) == []
  {
  }

  predicate Terminal(m: Message) {
    m.Complete? || m.Error?
  }

  /** A 'parse' request gets exactly one terminal message, and it comes last;
      everything before it is a progress report. */
  lemma OneTerminalMessage(env: Env, headers: seq<string>, rows: seq<seq<string>>)
    ensures var ms := Answer(env, headers, rows);
            |ms| >= 1 && Terminal(ms[|ms| - 1])
            && forall k :: 0 <= k < |ms| - 1 ==> ms[k].Progress?
  {
    ProgressShape(|rows|, |rows|);
  }

  /** When detection fails the answer is a single error, never a completion,
      whether or not a header name looks like a timestamp. */
  lemma DetectionFailureIsError(env: Env, headers: seq<string>, rows: seq<seq<string>>)
    requires DetectIndex(env, headers, rows).None?
    ensures |Answer(env, headers, rows)| == 1 && Answer(env, headers, rows)[0].Error?
  {
  }

  /** A file with no data rows cannot be detected, so it always ends in an error. */
  lemma NoRowsIsError(env: Env, headers: seq<string>)
    ensures Answer(env, headers, []) == [Error(if FindTimestampName(headers) == -1 then NoColumnError else ConstAssignmentError)]
  {
  }

  /** Progress reports: one per hundred rows, each a percentage no larger
      than 100, never decreasing. */
  lemma {:induction false} ProgressShape(processed: nat, total: nat)
    requires processed <= total
    ensures var ps := ProgressUpTo(processed, total);
            |ps| == processed / 100
            && (forall k :: 0 <= k < |ps| ==> ps[k].Progress? && 0 <= ps[k].percent <= 100)
            && (forall k, l :: 0 <= k < l < |ps| ==> ps[k].percent <= ps[l].percent)
    decreases processed
  {
    if processed > 0 {
      ProgressShape(processed - 1, total);
      var prev := ProgressUpTo(processed - 1, total);
      if processed % 100 == 0 {
        var p := RoundPercent(processed, total);
        RoundPercentAtMost100(processed, total);
        forall k | 0 <= k < |prev| ensures prev[k].percent <= p {
          ProgressValue(processed - 1, total, k);
          RoundPercentMonotone((k + 1) * 100, processed, total);
        }
      }
    }
  }

  /** The k-th report is taken after (k+1)*100 rows. */
  lemma {:induction false} ProgressValue(processed: nat, total: nat, k: nat)
    requires processed <= total && k < |ProgressUpTo(processed, total)|
    ensures (k + 1) * 100 <= processed
    ensures ProgressUpTo(processed, total)[k] == Progress(RoundPercent((k + 1) * 100, total))
    decreases processed
  {
    ProgressCount(processed, total);
    var prev := ProgressUpTo(processed - 1, total);
    ProgressCount(processed - 1, total);
    if k < |prev| {
      ProgressValue(processed - 1, total, k);
    }
  }

  lemma {:induction false} ProgressCount(processed: nat, total: nat)
    requires processed <= total
    ensures |ProgressUpTo(processed, total)| == processed / 100
    decreases processed
  {
    if processed > 0 {
      ProgressCount(processed - 1, total);
    }
  }

  lemma RoundPercentMonotone(a: nat, b: nat, total: nat)
    requires a <= b && total > 0
    ensures RoundPercent(a, total) <= RoundPercent(b, total)
  {
    DivMonotone(200 * a + total, 200 * b + total, 2 * total);
  }

  lemma RoundPercentAtMost100(processed: nat, total: nat)
    requires processed <= total && total > 0
    ensures 0 <= RoundPercent(processed, total) <= 100
  {
    DivMonotone(200 * processed + total, 201 * total, 2 * total);
    DivExact(201 * total, 2 * total, 100, total);
  }

  /** The records are the kept rows, in input order: an increasing list of
      row positions selects them, and every kept row is selected. */
  lemma DataRowsSelect(env: Env, headers: seq<string>, rows: seq<seq<string>>, c: nat)
    returns (idx: seq<nat>)
    requires c < |headers|
    ensures |idx| == |DataRows(env, headers, rows, c)|
    ensures forall k, l :: 0 <= k < l < |idx| ==> idx[k] < idx[l]
    ensures forall k :: 0 <= k < |idx| ==>
              (idx[k] < |rows| && Keeps(env, rows[idx[k]], c)
               && [DataRows(env, headers, rows, c)[k]] == Kept(env, headers, rows[idx[k]], c))
    ensures forall i :: 0 <= i < |rows| && Keeps(env, rows[i], c) ==> i in idx
  {
    idx := FlatMapSelect(rows, (values: seq<string>) => Kept(env, headers, values, c));
  }

  /** In each record the datetime column holds the instant's ISO text. */
  lemma RecordHoldsIsoTime(env: Env, headers: seq<string>, values: seq<string>, c: nat, t: Instant)
    requires c < |headers|
    ensures Get(RecordOf(env, headers, values, c, t), headers[c]) == Str(IsoString(t))
  {
    PutGet(RowPrefix(env, headers, values, |headers|), headers[c], Str(IsoString(t)), headers[c]);
  }
}

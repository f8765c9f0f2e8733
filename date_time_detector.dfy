/** lib/dateTimeDetector.ts: recognising datetime values, parsing them
    (optionally re-read in a named time zone) and finding the timestamp
    column of a table. */
module DateTimeDetector {
  import opened Wrappers
  import opened JsStrings
  import opened JsDates
  import opened DateFormats
  import opened Records
  import opened SeqMath

  /** `String(value).trim()`. */
  function Text(env: Env, v: JsValue): string {
    Trim(ToJsString(env, v))
  }

  // ---------------------------------------------------------------------
  // parseDateTime
  // ---------------------------------------------------------------------

  /** `/[+-]\d{2}:\d{2}/` matches at position `i`. */
  predicate OffsetAt(s: string, i: int) {
    0 <= i && i + 6 <= |s| && (s[i] == '+' || s[i] == '-')
    && IsDigit(s[i + 1]) && IsDigit(s[i + 2]) && s[i + 3] == ':' && IsDigit(s[i + 4]) && IsDigit(s[i + 5])
  }

  /** `s.includes('Z') || /[+-]\d{2}:\d{2}/.test(s)`: the text carries its own
      offset. */
  predicate HasExplicitOffset(s: string) {
    Contains(s, "Z") || exists i :: 0 <= i < |s| && OffsetAt(s, i)
  }

  /** `new Date(s)`, and when that is invalid, the same after rewriting a
      leading `M/D/YYYY` into `YYYY-MM-DD` (the browser-zone branch). */
  function ParseWithUsFallback(env: Env, s: string): Option<int> {
    match env.parse(s)
    case Some(t) => Some(t)
    case None =>
      match UsDateRewrite(s)
      case Some(r) => env.parse(r)
      case None => None
  }

  /** getTimezoneOffsetForDate: the zone's offset in minutes, 0 when the
      engine rejects the zone id. */
  function TimezoneOffsetForDate(env: Env, t: int, zone: string): int {
    env.zoneOffset(t, zone).GetOr(0)
  }

  /** The date fields of an instant as its local accessors give them (the
      zone branch's fallback when neither decomposition matches). */
  function LocalParts(env: Env, t: int): Parts {
    Parts(IntToString(FullYear(env, t)), IntToString(Month(env, t) + 1), IntToString(Date(env, t)),
          IntToString(Hours(env, t)), IntToString(Minutes(env, t)), IntToString(Seconds(env, t)))
  }

  /** The fields the zone branch reads from the text: the ISO decomposition,
      else the US one, else whatever a generic parse yields. */
  function ZoneParts(env: Env, s: string): Option<Parts> {
    if IsoParts(s).Some? then IsoParts(s)
    else if UsParts(s).Some? then UsParts(s)
    else
      match env.parse(s)
      case Some(t) => Some(LocalParts(env, t))
      case None => None
  }

  /** The local-time text the zone branch builds from the fields. */
  function PartsText(p: Parts): string {
    p.year + "-" + PadStart2(p.month) + "-" + PadStart2(p.day) + "T"
      + PadStart2(p.hour) + ":" + PadStart2(p.minute) + ":" + PadStart2(p.second)
  }

  /** `new Date(dateInTz.getTime() + (browserOffset - targetOffset) * 60 * 1000)`,
      as written. */
  function ZoneShift(env: Env, naive: int, zone: string): Option<int> {
    MakeTime(naive + (env.localOffset(naive) - TimezoneOffsetForDate(env, naive, zone)) * MsPerMinute)
  }

  /** parseDateTime(value, timezone). Invalid dates and `null` are both `None`. */
  function ParseDateTime(env: Env, v: JsValue, zone: string): Option<int> {
    if !Truthy(v) then None else ParseText(env, Text(env, v), zone)
  }

  /** parseDateTime after the falsy check, on the trimmed text. */
  function ParseText(env: Env, s: string, zone: string): Option<int> {
    if IsEpochSeconds(s) then MakeTime(DigitsValue(s) * 1000)
    else if IsEpochMillis(s) then MakeTime(DigitsValue(s))
    else if HasExplicitOffset(s) then env.parse(s)
    else if zone == "browser" then ParseWithUsFallback(env, s)
    else ParseInZone(env, s, zone)
  }

  /** The named-zone branch: read the fields, build local-time text, parse it
      and shift the result. */
  function ParseInZone(env: Env, s: string, zone: string): Option<int> {
    match ZoneParts(env, s)
    case None => None
    case Some(p) =>
      match env.parse(PartsText(p))
      case None => None
      case Some(naive) => ZoneShift(env, naive, zone)
  }

  /** Falsy values parse to nothing. */
  lemma ParseFalsy(env: Env, v: JsValue, zone: string)
    requires !Truthy(v)
    ensures ParseDateTime(env, v, zone) == None
  {
  }

  /** Ten-digit text is seconds and thirteen-digit text milliseconds since the
      epoch, whatever the zone; both are always valid instants. */
  lemma EpochParse(env: Env, s: string, zone: string)
    ensures IsEpochSeconds(s) ==> ParseText(env, s, zone) == Some(DigitsValue(s) * 1000)
    ensures IsEpochMillis(s) ==> ParseText(env, s, zone) == Some(DigitsValue(s))
  {
    if IsEpochSeconds(s) {
      DigitsBound(s);
    }
    if IsEpochMillis(s) {
      DigitsBound(s);
    }
  }

  function Pow10(n: nat): nat {
    if n == 0 then 1 else 10 * Pow10(n - 1)
  }

  lemma DigitsBound(s: string)
    requires AllDigits(s)
    ensures DigitsValue(s) < Pow10(|s|)
  {
    if s != [] {
      DigitsBound(s[..|s| - 1]);
    }
  }

  /** A value whose text carries 'Z' or a `±hh:mm` offset (and is not an epoch)
      is parsed as it stands: the zone argument is ignored. */
  lemma ExplicitOffsetIgnoresZone(env: Env, s: string, zone1: string, zone2: string)
    requires !IsEpochSeconds(s) && !IsEpochMillis(s) && HasExplicitOffset(s)
    ensures ParseText(env, s, zone1) == ParseText(env, s, zone2) == env.parse(s)
  {
  }

  /** In a named zone, the result is the naive local reading of the fields
      moved by (browser offset - zone offset) minutes; a zone the engine
      rejects counts as offset 0 instead of failing. */
  lemma NamedZoneShift(env: Env, s: string, zone: string, p: Parts, naive: int)
    requires zone != "browser" && !IsEpochSeconds(s) && !IsEpochMillis(s) && !HasExplicitOffset(s)
    requires ZoneParts(env, s) == Some(p) && env.parse(PartsText(p)) == Some(naive)
    ensures var target := if env.zoneOffset(naive, zone).Some? then env.zoneOffset(naive, zone).value else 0;
            ParseText(env, s, zone) == MakeTime(naive + (env.localOffset(naive) - target) * 60000)
  {
    assert ParseText(env, s, zone) == ParseInZone(env, s, zone);
    InZone(env, s, zone, p, naive);
  }

  lemma InZone(env: Env, s: string, zone: string, p: Parts, naive: int)
    requires ZoneParts(env, s) == Some(p) && env.parse(PartsText(p)) == Some(naive)
    ensures ParseInZone(env, s, zone) == ZoneShift(env, naive, zone)
  {
  }

  // ---------------------------------------------------------------------
  // The zone shift, as written and as intended
  // ---------------------------------------------------------------------

  /** The wall-clock reading of instant `u` in `zone`, in milliseconds, given
      the zone's offset as getTimezoneOffsetForDate reports it. */
  function ZoneWallClock(env: Env, u: int, zone: string): int {
    u - TimezoneOffsetForDate(env, u, zone) * MsPerMinute
  }

  /** As written, the shift moves the zone's wall clock away from the browser's
      reading by twice the offset difference (when the zone's offset is the
      same at both instants), so the wall time is kept only when the browser
      and the zone agree. */
  lemma AsWrittenShiftDoublesOffset(env: Env, naive: int, zone: string)
    requires ZoneShift(env, naive, zone).Some?
    requires TimezoneOffsetForDate(env, ZoneShift(env, naive, zone).value, zone)
             == TimezoneOffsetForDate(env, naive, zone)
    ensures ZoneWallClock(env, ZoneShift(env, naive, zone).value, zone)
            == LocalTime(env, naive)
               + 2 * (env.localOffset(naive) - TimezoneOffsetForDate(env, naive, zone)) * MsPerMinute
  {
  }

  /** A browser on UTC reading "12:00" for New York (offset 300 minutes, as in
      winter) gets an instant New York shows as 02:00 rather than 12:00. */
  lemma AsWrittenShiftCounterexample()
    ensures var env := Env(s => None, t => 0, (t, z) => Some(300), r => "", s => NaN, s => NaN);
            var noon := 19737 * MsPerDay + 12 * MsPerHour;
            ZoneShift(env, noon, "America/New_York") == Some(noon - 300 * MsPerMinute)
            && ZoneWallClock(env, noon - 300 * MsPerMinute, "America/New_York") == noon - 10 * MsPerHour
            && LocalTime(env, noon) == noon
  {
  }

  /** The shift the surrounding comment describes: keep the wall-clock time and
      reinterpret it in the target zone. */
  function IntendedZoneShift(env: Env, naive: int, zone: string): Option<int> {
    MakeTime(naive + (TimezoneOffsetForDate(env, naive, zone) - env.localOffset(naive)) * MsPerMinute)
  }

  /** The intended shift gives the instant whose wall clock in the target zone
      reads what the browser read, whenever the zone's offset is the same at
      both instants. */
  lemma IntendedShiftKeepsWallClock(env: Env, naive: int, zone: string)
    requires IntendedZoneShift(env, naive, zone).Some?
    requires TimezoneOffsetForDate(env, IntendedZoneShift(env, naive, zone).value, zone)
             == TimezoneOffsetForDate(env, naive, zone)
    ensures ZoneWallClock(env, IntendedZoneShift(env, naive, zone).value, zone) == LocalTime(env, naive)
  {
  }

  // ---------------------------------------------------------------------
  // isDateTime
  // ---------------------------------------------------------------------

  /** `new Date(s)` is valid and its local year lies strictly between 1900 and
      2100: the fallback test. */
  predicate YearWindow(env: Env, s: string) {
    match env.parse(s)
    case None => false
    case Some(t) => 1900 < FullYear(env, t) < 2100
  }

  /** What isDateTime decides, given the parser it validates with: a truthy
      value whose trimmed text matches a shape and parses, or whose text
      parses generically to a year in the window. Both copies of the detector
      share this shape; they differ only in `parse`. */
  predicate Recognised(env: Env, parse: string -> Option<int>, v: JsValue) {
    Truthy(v)
    && ((AnyDateFormat(Text(env, v)) && parse(Text(env, v)).Some?) || YearWindow(env, Text(env, v)))
  }

  /** The library's validating parser: parseDateTime(strValue) in the browser zone. */
  function LibraryParse(env: Env): string -> Option<int> {
    s => ParseDateTime(env, Str(s), "browser")
  }

  /** The loop of isDateTime over DATE_FORMATS: true as soon as a shape
      matches and `parse` accepts the text. */
  method AnyShapeParses(parse: string -> Option<int>, s: string) returns (r: bool)
    ensures r == (AnyDateFormat(s) && parse(s).Some?)
  {
    for k := 0 to |DateFormatList|
      invariant forall j :: 0 <= j < k && Matches(DateFormatList[j], s) ==> parse(s).None?
    {
      if Matches(DateFormatList[k], s) {
        var parsed := parse(s);
        if parsed.Some? {
          return true;
        }
      }
    }
    return false;
  }

  /** isDateTime, validating with `parse`: the shapes first, then the generic
      fallback. */
  method IsDateTimeWith(env: Env, parse: string -> Option<int>, v: JsValue) returns (r: bool)
    ensures r == Recognised(env, parse, v)
  {
    if !Truthy(v) {
      return false;
    }
    var s := Text(env, v);
    r := AnyShapeParses(parse, s);
    if r {
      return true;
    }
    r := InYearWindow(env, s);
  }

  /** The fallback of isDateTime: `new Date(s)` is valid and its local year
      lies strictly between 1900 and 2100. */
  method InYearWindow(env: Env, s: string) returns (r: bool)
    ensures r == YearWindow(env, s)
  {
    var date := env.parse(s);
    return date.Some? && 1900 < FullYear(env, date.value) && FullYear(env, date.value) < 2100;
  }

  /** lib/dateTimeDetector.ts isDateTime. */
  method IsDateTime(env: Env, v: JsValue) returns (r: bool)
    ensures r == Recognised(env, LibraryParse(env), v)
  {
    r := IsDateTimeWith(env, LibraryParse(env), v);
  }

  /** Falsy values are never datetimes. */
  lemma FalsyNotRecognised(env: Env, parse: string -> Option<int>, v: JsValue)
    requires !Truthy(v)
    ensures !Recognised(env, parse, v)
  {
  }

  /** A trimmed text of exactly 10 or 13 digits is always recognised. */
  lemma EpochRecognised(env: Env, v: JsValue)
    requires Truthy(v)
    requires IsEpochSeconds(Text(env, v)) || IsEpochMillis(Text(env, v))
    ensures Recognised(env, LibraryParse(env), v)
  {
    var s := Text(env, v);
    EpochFormats(s);
    assert Text(env, Str(s)) == s by {
      TrimIdempotent(ToJsString(env, v));
    }
    assert s != [] && Truthy(Str(s));
    EpochParse(env, s, "browser");
    assert LibraryParse(env)(s) == ParseText(env, s, "browser");
  }

  /** When no shape matches, only the year window decides. */
  lemma FallbackOnly(env: Env, parse: string -> Option<int>, v: JsValue)
    requires Truthy(v) && !AnyDateFormat(Text(env, v))
    ensures Recognised(env, parse, v) <==> YearWindow(env, Text(env, v))
  {
  }

  // ---------------------------------------------------------------------
  // detectDateTimeColumn and analyzeColumnForDateTime
  // ---------------------------------------------------------------------

  /** `data.slice(0, end)`'s length: a negative end counts back from the end. */
  function SliceEnd(n: nat, end: int): (k: nat)
    ensures k <= n
  {
    if end < 0 then (if n + end < 0 then 0 else n + end) else if end < n then end else n
  }

  /** `hits >= len * 0.8`. */
  predicate AtLeastFourFifths(hits: nat, len: nat) {
    5 * hits >= 4 * len
  }

  /** The library's isDateTime accepts the row's `column` cell. */
  predicate DateCell(env: Env, column: string, row: Row) {
    Recognised(env, LibraryParse(env), Get(row, column))
  }

  /** Rows of `sample` whose `column` cell is recognised. */
  function ColumnHits(env: Env, sample: seq<Row>, column: string): (n: nat)
    ensures n <= |sample|
  {
    CountWhere(sample, (row: Row) => DateCell(env, column, row))
  }

  /** The inner loop of detectDateTimeColumn: count the sample's hits. */
  method CountColumnHits(env: Env, sample: seq<Row>, column: string) returns (validDates: nat)
    ensures validDates == ColumnHits(env, sample, column)
  {
    validDates := 0;
    for i := 0 to |sample|
      invariant validDates == ColumnHits(env, sample[..i], column)
    {
      var hit := IsDateTime(env, Get(sample[i], column));
      assert sample[..i + 1] == sample[..i] + [sample[i]];
      CountWhereAppend(sample[..i], sample[i], (row: Row) => DateCell(env, column, row));
      if hit {
        validDates := validDates + 1;
      }
    }
    assert sample[..|sample|] == sample;
  }

  /** The column holds a datetime in at least 80% of the sampled rows. */
  predicate Qualifies(env: Env, sample: seq<Row>, column: string) {
    AtLeastFourFifths(ColumnHits(env, sample, column), |sample|)
  }

  /** The position of the first of `columns` that qualifies. */
  function FirstQualifying(env: Env, sample: seq<Row>, columns: seq<string>): (r: Option<nat>)
    ensures r.Some? ==> r.value < |columns| && Qualifies(env, sample, columns[r.value])
    ensures r.Some? ==> forall j :: 0 <= j < r.value ==> !Qualifies(env, sample, columns[j])
    ensures r.None? ==> forall j :: 0 <= j < |columns| ==> !Qualifies(env, sample, columns[j])
  {
    if columns == [] then None
    else if Qualifies(env, sample, columns[0]) then Some(0)
    else
      match FirstQualifying(env, sample, columns[1..])
      case None => None
      case Some(i) => Some(i + 1)
  }

  /** detectDateTimeColumn(data, sampleSize): the name of the first column of
      the first row that is recognised in at least 80% of the sampled rows. */
  method DetectDateTimeColumn(env: Env, data: seq<Row>, sampleSize: int) returns (r: Option<string>)
    ensures data == [] ==> r == None
    ensures data != [] ==>
              var columns := Keys(data[0]);
              match FirstQualifying(env, data[..SliceEnd(|data|, sampleSize)], columns)
              case None => r == None
              case Some(i) => r == Some(columns[i])
  {
    if |data| == 0 {
      return None;
    }
    var columns := Keys(data[0]);
    var sample := data[..SliceEnd(|data|, if sampleSize < |data| then sampleSize else |data|)];
    assert sample == data[..SliceEnd(|data|, sampleSize)];
    for c := 0 to |columns|
      invariant forall j :: 0 <= j < c ==> !Qualifies(env, sample, columns[j])
    {
      var column := columns[c];
      var validDates := CountColumnHits(env, sample, column);
      if 5 * validDates >= 4 * |sample| {
        FirstQualifyingIsFirst(env, sample, columns, c);
        return Some(column);
      }
    }
    FirstQualifyingIsFirst(env, sample, columns, |columns|);
    return None;
  }

  /** When columns before `c` fail and `c` qualifies (or `c` is past the end),
      the first qualifying column is `c` (or there is none). */
  lemma {:induction false} FirstQualifyingIsFirst(env: Env, sample: seq<Row>, columns: seq<string>, c: nat)
    requires c <= |columns|
    requires forall j :: 0 <= j < c ==> !Qualifies(env, sample, columns[j])
    requires c < |columns| ==> Qualifies(env, sample, columns[c])
    ensures FirstQualifying(env, sample, columns) == if c < |columns| then Some(c) else None
    decreases c
  {
    if c > 0 {
      FirstQualifyingIsFirst(env, sample, columns[1..], c - 1);
    }
  }

  /** `null`, `undefined` and `''` do not count in analyzeColumnForDateTime. */
  predicate NonEmpty(v: JsValue) {
    v != Null && v != Undefined && v != Str("")
  }

  /** The outcome of analyzeColumnForDateTime. */
  datatype Analysis = Analysis(isDateTime: bool, validRatio: real)

  predicate NonEmptyCell(column: string, row: Row) {
    NonEmpty(Get(row, column))
  }

  predicate ValidCell(env: Env, column: string, row: Row) {
    NonEmptyCell(column, row) && DateCell(env, column, row)
  }

  function NonEmptyCells(data: seq<Row>, column: string): nat {
    CountWhere(data, (row: Row) => NonEmptyCell(column, row))
  }

  function ValidCells(env: Env, data: seq<Row>, column: string): nat {
    CountWhere(data, (row: Row) => ValidCell(env, column, row))
  }

  /** Only non-empty cells can be valid. */
  lemma {:induction false} ValidWithinNonEmpty(env: Env, data: seq<Row>, column: string)
    ensures ValidCells(env, data, column) <= NonEmptyCells(data, column)
    decreases |data|
  {
    if data != [] {
      ValidWithinNonEmpty(env, data[..|data| - 1], column);
    }
  }

  /** analyzeColumnForDateTime(data, columnName). */
  method AnalyzeColumnForDateTime(env: Env, data: seq<Row>, column: string) returns (r: Analysis)
    ensures NonEmptyCells(data, column) == 0 ==> r.validRatio == 0.0
    ensures NonEmptyCells(data, column) > 0 ==>
              r.validRatio == (ValidCells(env, data, column) as real) / (NonEmptyCells(data, column) as real)
    ensures 0.0 <= r.validRatio <= 1.0
    ensures r.isDateTime <==> r.validRatio >= 0.8
  {
    if |data| == 0 {
      return Analysis(false, 0.0);
    }
    var validDates := 0;
    var totalNonNull := 0;
    for i := 0 to |data|
      invariant totalNonNull == NonEmptyCells(data[..i], column)
      invariant validDates == ValidCells(env, data[..i], column)
    {
      var value := Get(data[i], column);
      assert data[..i + 1] == data[..i] + [data[i]];
      CountWhereAppend(data[..i], data[i], (row: Row) => NonEmptyCell(column, row));
      CountWhereAppend(data[..i], data[i], (row: Row) => ValidCell(env, column, row));
      if NonEmpty(value) {
        totalNonNull := totalNonNull + 1;
        var hit := IsDateTime(env, value);
        if hit {
          validDates := validDates + 1;
        }
      }
    }
    assert data[..|data|] == data;
    ValidWithinNonEmpty(env, data, column);
    if totalNonNull > 0 {
      DivBounds(validDates as real, totalNonNull as real, 0.0, 1.0);
    }
    var validRatio := if totalNonNull > 0 then (validDates as real) / (totalNonNull as real) else 0.0;
    return Analysis(validRatio >= 0.8, validRatio);
  }
}

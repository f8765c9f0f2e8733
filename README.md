# data-report, modelled in Dafny

This project models the data-preparation core of *data-report*. That is the
web tool that loads a CSV file of timestamped records and draws activity
charts from it. The model covers:

- **Datetime recognition.** `lib/dateTimeDetector.ts` (module
  `DateTimeDetector`) holds the shape patterns, `isDateTime`, `parseDateTime`
  with its epoch, explicit-offset and named-zone branches,
  `getTimezoneOffsetForDate`, `detectDateTimeColumn` and
  `analyzeColumnForDateTime`.
- **The CSV worker.** `public/csvWorker.js` (module `CsvWorker`) covers the
  naive line and comma splitter and the index-based column detection. It also
  covers row construction, and the run of progress, completion and error
  messages as a returned list. A `parse` request whose auto-detection fails
  ends in an error. The error is either "no datetime column found", when no
  header name matches, or the `TypeError` from the reassignment of a `const`,
  when one does.
- **Sampling and aggregation.** `lib/dataProcessor.ts` (module
  `DataProcessor`) is imperative Dafny:
  - the single pass that fills the hourly, daily and weekday tables with
    running means;
  - stride sampling and `getDataSubset`;
  - fixed-window bucketing, as a loop proved against a run-based
    specification.

  `lib/utils.ts` (module `Stats`) covers `calculateStatistics`.
- **Row ingestion and page logic.** This covers:
  - `components/FileUpload.tsx` (module `FileUpload`): the row filter, the
    "first number, else 1" value rule, chunk progress, and the worker, size and
    drop decisions;
  - `app/page.tsx` (module `Page`): the size tiers of the chart data;
  - `src/index.ts` (module `Visualizer`): `loadDataFromText`, the duration
    and time formats, interval statistics, the weekday/weekend split, the
    rolling window and monthly counts.
- **Per-chart bucket computations.** Each chart's data-preparation block has
  its own module:
  - `ThirtyMinDistribution`, `Heatmap`, `WeekdayActivity` and `RecordsByHour`;
  - `BoxPlot` and `CumulativeLine`;
  - `RecordsPerDay`, `DailyHistogram` and `HourlyHistogram`;
  - `WeeklyPattern` and `RadarChart`.

  The count arrays they fill in place are Dafny arrays or sequences, filled by
  loops with invariants.
- **Small list and configuration logic.** This covers:
  - the timezone table and its groups (`TimezoneData`);
  - the timezone selector's lookup and search predicate (`TimezoneSelector`);
  - chart toggling and reset (`ChartSelector`);
  - the stored-selection merge, as a class over the selection state
    (`ChartSelection`);
  - the statistics panel's branch choice and formatting (`StatisticsPanel`).

Shared modules:

- `Wrappers` holds `Option`.
- `JsStrings` holds the string primitives used: trim, split, `padStart`,
  `includes` and case mapping on ASCII and Latin-1 capitals.
- `Civil` holds the proleptic Gregorian calendar.
- `JsDates` holds the `Date` accessors.
- `DateFormats` holds the ISO and short date texts.
- `Records` and `DataPoints` hold the row and point shapes.
- `SeqMath` holds sums, means, sorting, first-maximum and percentage helpers.
- `Tally`, `Groups` and `Buckets` hold the grouping and counting
  specifications that the imperative passes are proved against.

The JavaScript runtime is a parameter, `JsDates.Env`. It supplies the
following as given functions:

- `new Date(string)` (partial);
- `getTimezoneOffset` at an instant;
- the `toLocaleString` round trip behind `getTimezoneOffsetForDate`, where
  `None` stands for the `RangeError` on a rejected zone;
- number-to-text;
- `Number(...)` and `parseFloat`.

The local calendar accessors (`getHours`, `getDay`, `getDate` and the others)
are concrete arithmetic over the instant minus that offset, so their ranges are
proved, not assumed. Instants are integer milliseconds. Averages and
percentages are exact `real` arithmetic.

The model reproduces three behaviours of the code as written:

- In the worker, line 138 of `public/csvWorker.js` assigns to a `const`. When
  auto-detection fails and a header name matches, the run therefore ends in
  the `TypeError` that assignment raises. When no header name matches, the
  "no datetime column" error is posted before that line is reached.
- The worker stores the parsed time under the detected column's name, but
  `components/FileUpload.tsx` always reads `@timestamp` from worker rows.
- The drop check compares the `.csv` suffix case-sensitively.

## Model

A function that only computes a value (`ParseDateTime`, `Sampled`,
`PointValue`, `FilePoints`, `TooltipFor` and the like) has no row of its
own: the lemmas and methods listed for the same source lines state what it
means.

| member | source | states |
|---|---|---|
| JsStrings.TrimStart | lib/dateTimeDetector.ts:32 | the leading part removed is all white space and the rest starts with a non-space |
| JsStrings.TrimEnd | lib/dateTimeDetector.ts:32 | the trailing part removed is all white space and the rest ends with a non-space |
| JsStrings.TrimShape | lib/dateTimeDetector.ts:32 | `trim()` is a slice of the text with only white space outside it and no white space at its ends |
| JsStrings.TrimUnpadded | lib/dateTimeDetector.ts:32 | text without white space at its ends is its own trim |
| JsStrings.TrimIdempotent | lib/dateTimeDetector.ts:32 | trimming twice is trimming once |
| JsStrings.DigitChar | lib/dateTimeDetector.ts:86 | the digit character of d reads back as d |
| JsStrings.NatToString | lib/dateTimeDetector.ts:113-118 | `toString()` of a natural number is a non-empty run of digits, one digit exactly below 10, with no leading zero |
| JsStrings.NatToStringRoundTrip | lib/dateTimeDetector.ts:113-118 | reading back the decimal text of n gives n |
| JsStrings.PadStart2 | lib/dateTimeDetector.ts:86-126 | `padStart(2, '0')` leaves text of two or more characters alone and otherwise left-fills it to two characters |
| JsStrings.TwoDigits | lib/dateTimeDetector.ts:126 | a number below 100 is written with exactly two digits that read back as it |
| JsStrings.PadStartOfSmallNat | lib/dateTimeDetector.ts:126 | padding the decimal text of a number below 100 gives its two-digit form |
| JsStrings.ContainsAt | public/csvWorker.js:125-127 | `includes` holds exactly when the part occurs at some position |
| JsStrings.ContainsEmpty | public/csvWorker.js:125-127 | every text includes the empty text |
| JsStrings.ContainsSelf | public/csvWorker.js:125-127 | every text includes itself |
| JsStrings.ContainsChar | lib/dateTimeDetector.ts:69 | a character of an included part is a character of the text |
| JsStrings.ToLower | public/csvWorker.js:125-127 | `toLowerCase` on ASCII and Latin-1 capitals: each character is mapped on its own and the length is kept |
| JsStrings.ToLowerIdempotent | public/csvWorker.js:125-127 | lowering twice is lowering once |
| JsStrings.ToLowerHasNoCapital | public/csvWorker.js:125-127 | lowered text holds no capital A..Z, À..Ö or Ø..Þ |
| JsStrings.ToLowerAccented | components/TimezoneSelector.tsx:152-156 | accented capitals are lowered too: "SÃO" becomes "são", so a search typed in capitals can find "São Paulo" |
| JsStrings.IndexOf | lib/dataProcessor.ts:31 | the first position of the character, or the length when it is absent |
| JsStrings.Split | lib/dataProcessor.ts:31 | `split` gives at least one piece and no piece holds the separator |
| JsStrings.SplitJoin | lib/dataProcessor.ts:31 | joining the pieces with the separator gives back the text |
| Civil.CivilFromDays | lib/dataProcessor.ts:31 | a day count gives a month in 1..12 and a day in 1..31 of the proleptic Gregorian calendar |
| Civil.MonthOfYear | lib/dataProcessor.ts:31 | a day of the March-based year falls in one month, less than 31 days after its start |
| Civil.YearOfEra | lib/dataProcessor.ts:31 | a day of a 400-year era splits into a year of the era and a day within that year |
| Civil.CivilRoundTrip | lib/dataProcessor.ts:31 | converting a day count to a calendar date and back gives the day count |
| Civil.EpochIsDayZero | lib/dataProcessor.ts:31 | day 0 is 1970-01-01 |
| JsDates.MakeTime | lib/dateTimeDetector.ts:62-65 | `new Date(ms)` is valid exactly within ±8.64e15 ms, holding that time |
| JsDates.TruncateReal | lib/dateTimeDetector.ts:162 | truncation toward zero of a real |
| JsDates.Hours | lib/dataProcessor.ts:30 | `getHours()` lies in 0..23 |
| JsDates.Minutes | lib/dateTimeDetector.ts:117 | `getMinutes()` lies in 0..59 |
| JsDates.Seconds | lib/dateTimeDetector.ts:118 | `getSeconds()` lies in 0..59 |
| JsDates.WeekDay | lib/dataProcessor.ts:32 | `getDay()` lies in 0..6 |
| JsDates.Month | lib/dateTimeDetector.ts:114 | `getMonth()` lies in 0..11 |
| JsDates.Date | lib/dateTimeDetector.ts:115 | `getDate()` lies in 1..31 |
| JsDates.SameLocalDaySameWeekDay | lib/dataProcessor.ts:32 | two instants on the same local day share the weekday and the year |
| JsDates.PadNat | lib/dataProcessor.ts:31 | a zero-padded number has at least the width, only digits, reads back as the number and is exactly the width when the number fits |
| JsDates.IsoYear | lib/dataProcessor.ts:31 | a year in 0..9999 is written with four digits; no year text holds a `T` |
| JsDates.IsoDatePart | lib/dataProcessor.ts:31 | the date part of `toISOString()` holds no `T` |
| JsDates.IsoSplitDate | lib/dataProcessor.ts:31 | the first piece of `toISOString().split('T')` is the ISO date part |
| JsDates.IsoDatePartIsDayKey | lib/dataProcessor.ts:31 | two instants have the same ISO date exactly when they fall on the same UTC day |
| JsDates.IsoDateTextInjective | lib/dataProcessor.ts:31 | distinct calendar dates give distinct ISO date texts |
| JsDates.IsoYearInjective | lib/dataProcessor.ts:31 | distinct years give distinct year texts |
| DateFormats.ExactDigits | lib/dateTimeDetector.ts:22-23 | the pattern `\d{n}` matches exactly the texts of n digits |
| DateFormats.EpochFormats | lib/dateTimeDetector.ts:22-64 | the ten- and thirteen-digit patterns match exactly the epoch texts, which are among the listed shapes |
| DateFormats.RunEnd | lib/dateTimeDetector.ts:103 | the end of the run of digits from a position |
| DateFormats.ShortField | lib/dateTimeDetector.ts:103 | a one- or two-digit field followed by its separator |
| DateFormats.IsoParts | lib/dateTimeDetector.ts:102-106 | the ISO match gives a four-digit year and two-digit month and day |
| DateFormats.UsDateAt | lib/dateTimeDetector.ts:103 | the US match finds a one- or two-digit month and day, each ended by `/`, then four digits |
| DateFormats.UsTimeAt | lib/dateTimeDetector.ts:103 | the optional US time has a one- or two-digit hour and a two-digit minute |
| DateFormats.UsParts | lib/dateTimeDetector.ts:103-108 | the US fields are found exactly when the date part matches |
| DateFormats.IsoPartsIgnoreSuffix | lib/dateTimeDetector.ts:102 | the unanchored ISO match ignores whatever follows a full date and time |
| DateFormats.IsoShortTimeIsMidnight | lib/dateTimeDetector.ts:102-106 | an ISO date followed by only `HH:MM` keeps time 0:0:0, as the optional group needs seconds |
| DateFormats.IsoDateOnlyIsMidnight | lib/dateTimeDetector.ts:102-106 | an ISO match without a time defaults the time to 0:0:0 |
| DateFormats.UsPartsIgnoreSuffix | lib/dateTimeDetector.ts:103 | the unanchored US match ignores whatever follows a date with seconds |
| DateFormats.UsDateOnlyIsMidnight | lib/dateTimeDetector.ts:103-108 | a bare `M/D/YYYY` gives those fields with time 0:0:0 |
| DateTimeDetector.ParseFalsy | lib/dateTimeDetector.ts:56 | a falsy value parses to null |
| DateTimeDetector.EpochParse | lib/dateTimeDetector.ts:61-66 | ten digits are read as epoch seconds (times 1000) and thirteen digits as epoch milliseconds, whatever the zone |
| DateTimeDetector.DigitsBound | lib/dateTimeDetector.ts:61-66 | an n-digit string's value is below 10^n, so a ten-digit epoch is below 10^10 seconds |
| DateTimeDetector.ExplicitOffsetIgnoresZone | lib/dateTimeDetector.ts:69-72 | text carrying a `Z` or a `±HH:MM` offset parses the same in every zone, by the engine's own parser |
| DateTimeDetector.NamedZoneShift | lib/dateTimeDetector.ts:97-143 | for a named zone, the naive local date built from the matched fields is shifted by (browser offset - target offset) minutes, the target offset being 0 when it cannot be computed |
| DateTimeDetector.InZone | lib/dateTimeDetector.ts:102-143 | the named-zone branch is the zone shift applied to the naive date of the matched ISO or US fields |
| DateTimeDetector.AsWrittenShiftDoublesOffset | lib/dateTimeDetector.ts:136-141 | as written, the shifted instant shows in the target zone a wall clock that is off by twice the offset difference |
| DateTimeDetector.AsWrittenShiftCounterexample | lib/dateTimeDetector.ts:136-141 | with a UTC browser and New York at UTC-5, noon is shifted to 07:00 UTC, which New York shows as 02:00 rather than 12:00 |
| DateTimeDetector.IntendedShiftKeepsWallClock | lib/dateTimeDetector.ts:132-141 | the corrected shift (target - browser) keeps the wall clock: the shifted instant reads in the target zone as the typed time |
| DateTimeDetector.AnyShapeParses | lib/dateTimeDetector.ts:35-43 | true exactly when the trimmed text matches one of the ten listed date shapes and parses to a valid date |
| DateTimeDetector.IsDateTimeWith | lib/dateTimeDetector.ts:29-48 | true exactly when the value is truthy and either a listed shape parses or the engine's own parse gives a year in 1901..2099 |
| DateTimeDetector.InYearWindow | lib/dateTimeDetector.ts:46-47 | true exactly when the engine's parse of the text is valid and its local year is strictly between 1900 and 2100 |
| DateTimeDetector.IsDateTime | lib/dateTimeDetector.ts:29-48 | isDateTime is the recogniser above using the library's own parseDateTime in the browser zone |
| DateTimeDetector.FalsyNotRecognised | lib/dateTimeDetector.ts:30 | a falsy value is never a date-time |
| DateTimeDetector.EpochRecognised | lib/dateTimeDetector.ts:22-66 | ten- and thirteen-digit strings are always recognised |
| DateTimeDetector.FallbackOnly | lib/dateTimeDetector.ts:45-47 | text of no listed shape is recognised exactly when its direct parse falls in the year window |
| DateTimeDetector.SliceEnd | lib/dateTimeDetector.ts:181 | the sample end never exceeds the number of rows |
| DateTimeDetector.ColumnHits | lib/dateTimeDetector.ts:187-191 | the hits in a column never exceed the sample size |
| DateTimeDetector.CountColumnHits | lib/dateTimeDetector.ts:185-191 | the loop counts the sampled rows whose cell is a date-time |
| DateTimeDetector.FirstQualifying | lib/dateTimeDetector.ts:184-199 | the chosen column reaches 80% of the sample and every column before it does not; none is chosen only when no column qualifies |
| DateTimeDetector.DetectDateTimeColumn | lib/dateTimeDetector.ts:174-200 | no data gives null; otherwise the first column of the first row's keys whose hits reach 80% of the first min(sampleSize, n) rows, or null |
| DateTimeDetector.FirstQualifyingIsFirst | lib/dateTimeDetector.ts:184-199 | if column c qualifies and none before it does, c is the answer; if none qualifies the answer is null |
| DateTimeDetector.ValidWithinNonEmpty | lib/dateTimeDetector.ts:217-225 | valid cells never outnumber the non-empty cells |
| DateTimeDetector.AnalyzeColumnForDateTime | lib/dateTimeDetector.ts:206-233 | the ratio is valid over non-empty cells (0 when there are none), lies in [0, 1], and the column is a date-time column exactly when the ratio reaches 0.8 |
| CsvWorker.StripQuotes | public/csvWorker.js:109-115 | at most one leading and one trailing double quote are removed; a quoted cell loses exactly its two quotes |
| CsvWorker.CleanCells | public/csvWorker.js:109-115 | each cell is trimmed and unquoted, one cell per piece |
| CsvWorker.CleanUnpadded | public/csvWorker.js:115 | a cell without surrounding white space is only unquoted |
| CsvWorker.NoQuotes | public/csvWorker.js:115 | a bare cell is kept as it is |
| CsvWorker.OpeningQuote | public/csvWorker.js:115 | a cell with only an opening quote loses it |
| CsvWorker.ClosingQuote | public/csvWorker.js:115 | a cell with only a closing quote loses it |
| CsvWorker.SplitQuotedLine | public/csvWorker.js:115 | the splitter cuts inside quotes: `"a,b",c` splits into three pieces |
| CsvWorker.CleanQuotedPieces | public/csvWorker.js:115 | those three pieces clean to `a`, `b`, `c` |
| CsvWorker.QuotedCommaSplits | public/csvWorker.js:115 | a quoted comma is not protected: `"a,b",c` gives three cells `a`, `b`, `c` |
| CsvWorker.RawRowsCount | public/csvWorker.js:113-117 | there is one raw row per non-blank line |
| CsvWorker.ReadRawRows | public/csvWorker.js:112-117 | the loop collects the cells of every non-blank line after the header, in order |
| CsvWorker.RawRowsStep | public/csvWorker.js:113-117 | one more line adds its cells exactly when it is not blank |
| CsvWorker.RawRowsAppend | public/csvWorker.js:114-116 | a blank line adds nothing, any other line adds one row |
| CsvWorker.WorkerParse | public/csvWorker.js:24-56 | the worker's parseDateTime gives only valid instants and gives null for a falsy value |
| CsvWorker.IndexHits | public/csvWorker.js:88-92 | the hits in a column never exceed the sample size |
| CsvWorker.CountIndexHits | public/csvWorker.js:86-92 | the loop counts the sampled rows whose cell at the index is a date-time |
| CsvWorker.FirstQualifyingIndex | public/csvWorker.js:85-98 | the chosen index reaches 80% of the sample and no earlier index does; none is chosen only when no index qualifies |
| CsvWorker.DetectIndex | public/csvWorker.js:79-101 | a detected index is a header position |
| CsvWorker.DetectDateTimeColumn | public/csvWorker.js:79-101 | the loop returns the first qualifying column index of the first min(10, n) rows, or null when there are no rows or none qualifies |
| CsvWorker.FindTimestampName | public/csvWorker.js:124-129 | the index of the first header whose lower-case form contains "timestamp", "date" or "time" or that is "@timestamp"; -1 when there is none |
| CsvWorker.Kept | public/csvWorker.js:147-161 | a row yields a record exactly when its date-time cell is truthy and parses to a valid date |
| CsvWorker.DataRowsStep | public/csvWorker.js:146-161 | one more raw row adds its record when it is kept and nothing otherwise |
| CsvWorker.ProcessRow | public/csvWorker.js:147-161 | one row's contribution is its kept record |
| CsvWorker.BuildRow | public/csvWorker.js:152-156 | the loop builds a record whose keys are the headers, each once, in first-occurrence order, and in which each header reads as the cell of its last column: a number when the cell reads as one, the text otherwise |
| CsvWorker.FirstOccurrences | public/csvWorker.js:152-156 | the headers with repeats dropped: no key twice and exactly the headers' names |
| CsvWorker.RowPrefixKeys | public/csvWorker.js:152-156 | after the first k assignments the record's keys are the first k headers' first occurrences, in order |
| CsvWorker.RowPrefixGet | public/csvWorker.js:152-156 | a header reads as the cell of the last column carrying it, since `row[header] = …` overwrites an earlier column of the same name |
| CsvWorker.RecordHoldsIsoTime | public/csvWorker.js:158 | the date-time column of a kept record holds the ISO text of its parsed instant |
| CsvWorker.DataRowsSelect | public/csvWorker.js:146-161 | the records are exactly the kept rows, in order, each built from its own row |
| CsvWorker.ProcessRows | public/csvWorker.js:142-170 | the loop builds the records of the kept rows and one progress message after every 100 rows |
| CsvWorker.ProcessStep | public/csvWorker.js:146-170 | one row extends the records and the progress messages as the specification functions say |
| CsvWorker.ProgressStep | public/csvWorker.js:163-169 | a progress message is sent exactly when the processed count reaches a multiple of 100 |
| CsvWorker.ProgressShape | public/csvWorker.js:163-169 | after n rows there are n / 100 progress messages, each a percentage in 0..100 and never decreasing |
| CsvWorker.ProgressValue | public/csvWorker.js:163-169 | the k-th progress message carries the rounded percentage of (k + 1) * 100 rows |
| CsvWorker.ProgressCount | public/csvWorker.js:163-169 | the number of progress messages is the processed count over 100 |
| CsvWorker.RoundPercentMonotone | public/csvWorker.js:166 | Math.round of the percentage never decreases as more rows are processed |
| CsvWorker.RoundPercentAtMost100 | public/csvWorker.js:166 | the rounded percentage stays within 0..100 |
| CsvWorker.OnMessage | public/csvWorker.js:103-185 | the messages posted for a request are those of the worker's outcome function |
| CsvWorker.OtherActionsSilent | public/csvWorker.js:106 | any action other than "parse" posts nothing |
| CsvWorker.OneTerminalMessage | public/csvWorker.js:122-183 | a parse request ends with exactly one terminal message (complete or error), preceded only by progress messages |
| CsvWorker.DetectionFailureIsError | public/csvWorker.js:122-139 | when detection finds no column, the one message is an error: no column found, or the TypeError from assigning the `const` index |
| CsvWorker.NoRowsIsError | public/csvWorker.js:80-139 | a file without data rows always fails, with the no-column message or the constant-assignment error |
| Records.Keys | lib/dateTimeDetector.ts:180 | `Object.keys(row)` lists each property once, in order |
| Records.Values | components/FileUpload.tsx:47 | `Object.values(row)` lists the property values in key order |
| Records.Get | public/csvWorker.js:147 | reading a property gives its value, or undefined when absent |
| Records.Put | public/csvWorker.js:155-158 | writing a property overwrites it in place or appends it |
| Records.PutGet | public/csvWorker.js:155-158 | after a write the key reads as the new value and every other key as before |
| Records.PutUnique | public/csvWorker.js:155-158 | writing keeps the keys distinct |
| DataPoints.TimesOf | lib/dataProcessor.ts:17 | the timestamps of the points, one per point |
| DataPoints.ValuesOf | lib/dataProcessor.ts:40 | the values of the points, one per point |
| DataPoints.InsertByTime | lib/dataProcessor.ts:17 | inserting a point adds one element |
| DataPoints.InsertByTimeMultiset | lib/dataProcessor.ts:17 | inserting a point keeps every other point and adds it once |
| DataPoints.InsertByTimeSorted | lib/dataProcessor.ts:17 | inserting into a time-ordered list keeps it time-ordered |
| DataPoints.SortByTime | lib/dataProcessor.ts:17 | the copy sorted by `getTime()` is in time order and a permutation of the data |
| DataPoints.SortByTimeStable | lib/dataProcessor.ts:17 | the sort is stable: the points sharing any one timestamp keep their input order |
| DataPoints.InsertByTimeStable | lib/dataProcessor.ts:17 | insertion places the new point after the points with its timestamp and leaves the order of every other timestamp's points alone |
| SeqMath.SortReal | lib/utils.ts:22 | the numeric sort of the values is ordered and a permutation of them |
| SeqMath.SortInt | components/charts/BoxPlot.tsx:69 | the numeric sort of the counts is ordered and a permutation of them |
| SeqMath.IndexOf | components/charts/RadarChart.tsx:111 | `indexOf` gives the first position holding the value, or -1 when it is absent |
| SeqMath.EveryNthShape | lib/dataProcessor.ts:21 | keeping the indices divisible by the step keeps ceil(n / step) elements, element j being element j * step |
| SeqMath.FilterSelect | lib/dataProcessor.ts:21 | a filter keeps exactly the elements that pass, in order |
| SeqMath.FilterKeepsAll | lib/dataProcessor.ts:21 | a filter keeps the length exactly when every element passes |
| SeqMath.Hist | components/charts/HourlyHistogram.tsx:32-36 | bucket k of the histogram is the number of occurrences of k |
| SeqMath.HistSum | components/charts/HourlyHistogram.tsx:32-36 | when every key is in range, the buckets add up to the number of keys |
| SeqMath.SumPercents | components/charts/WeekdayActivity.tsx:64 | the percentages of the parts add up to the percentage of their sum |
| SeqMath.PercentBounds | components/charts/WeekdayActivity.tsx:64 | a share of the total is between 0 and 100 percent, and positive for a positive count |
| Stats.Square | lib/utils.ts:29 | `Math.pow(d, 2)` is non-negative |
| Stats.SquaredDeviations | lib/utils.ts:29 | the sum of squared deviations is non-negative |
| Stats.CalculateStatistics | lib/utils.ts:18-43 | the summary is null exactly for an empty list |
| Stats.StatisticsFacts | lib/utils.ts:18-43 | count, sum and mean describe the list, min and max are its least and greatest elements, min <= q1 <= median <= q3 <= max, the mean lies between min and max and the variance is non-negative |
| Stats.SummaryTotals | lib/utils.ts:19-29 | count is the length, sum the sum, mean the sum over the count and the variance non-negative |
| Stats.SummaryExtremes | lib/utils.ts:22-38 | min and max are elements that bound the list, and the mean lies between them |
| Stats.SummaryOrder | lib/utils.ts:25-41 | min <= q1 <= median <= q3 <= max |
| Stats.SortedBounds | lib/utils.ts:22-38 | the ends of the sorted copy are elements and bound every value |
| Stats.MedianBetweenQuartiles | lib/utils.ts:25-41 | in a sorted list the quartile indices are in range and sorted[n/4] <= median <= sorted[3n/4] |
| Stats.MedianOfConstant | lib/utils.ts:25-38 | a list of equal values has that value as its median, minimum and maximum |
| Tally.Bump | components/charts/RecordsPerDay.tsx:34-43 | counting one more key keeps the smallest key first |
| Tally.BumpFacts | components/charts/RecordsPerDay.tsx:34-43 | counting one more key keeps the keys ascending and counts positive, raises the total by one and raises only that key's count |
| Tally.TallyFacts | components/charts/RecordsPerDay.tsx:34-43 | the `d3.rollup` counts sorted by key list each key once in ascending order with its number of occurrences, the counts adding up to the number of records |
| Tally.TallyEntries | components/charts/RecordsPerDay.tsx:34-43 | each entry counts the occurrences of its key, and every key that occurs is listed |
| Tally.TallyListsKey | components/charts/RecordsPerDay.tsx:34-43 | a key that occurs has an entry |
| Tally.CountsOnly | components/charts/RecordsPerDay.tsx:40-43 | the counts, entry by entry |
| Tally.TotalCountIsSum | components/charts/RecordsPerDay.tsx:40-43 | the listed counts add up to the total |
| Tally.AscendingAll | components/charts/RecordsPerDay.tsx:43 | keys ascending between neighbours are ascending between any two entries |
| Groups.Select | lib/dataProcessor.ts:35-40 | the items under a key, in input order |
| Groups.AddToAt | lib/dataProcessor.ts:35-40 | adding an item extends its key's entry, or opens a new last entry, and leaves every other entry unchanged |
| Groups.AddToShape | lib/dataProcessor.ts:35-40 | adding keeps the keys distinct |
| Groups.GroupByShape | lib/dataProcessor.ts:24-57 | the `Map` grouping has distinct keys, an entry for exactly the keys that occur, and entry sizes adding up to the number of items |
| Groups.GroupByContents | lib/dataProcessor.ts:24-57 | each entry holds, in input order, exactly the items with its key |
| Groups.GroupByNonEmpty | lib/dataProcessor.ts:35-40 | no entry of a grouping is empty |
| Groups.GroupByPrefix | lib/dataProcessor.ts:29-57 | one more item extends the grouping of the shorter prefix |
| Groups.GroupByEntry | lib/dataProcessor.ts:24-57 | each entry's key occurs in the input and the entry holds exactly its items, at least one |
| Groups.GroupBySizes | lib/dataProcessor.ts:24-57 | the entry sizes add up to the number of items |
| Buckets.CountKeys | components/charts/HourlyHistogram.tsx:32-36 | counting into `Array(n).fill(0)` leaves in bucket k the number of occurrences of k |
| Buckets.CountsFacts | components/charts/HourlyHistogram.tsx:32-36 | the buckets add up to the number of keys and a key that occurs has a non-empty bucket |
| DataProcessor.SampleRate | lib/dataProcessor.ts:20 | the sampling rate is at least 1 for every length |
| DataProcessor.SampledShape | lib/dataProcessor.ts:20-21 | the sample keeps exactly the sorted points at multiples of the rate, in order, and holds ceil(n / rate) of them |
| DataProcessor.SmallNotSampled | lib/dataProcessor.ts:20-21 | fewer than 1000 points give rate 1, so the sample is the whole sorted list |
| DataProcessor.AtHourCount | lib/dataProcessor.ts:30 | the records whose local hour is h are as many as the occurrences of h among the records' hours |
| DataProcessor.OnWeekdayCount | lib/dataProcessor.ts:32 | the records whose local weekday is d are as many as the occurrences of d among the records' weekdays |
| DataProcessor.AddHour | lib/dataProcessor.ts:35-40 | the hourly table after one point is the grouping of the values seen so far with the point's value added to its hour, opening the hour's bucket at the end if new |
| DataProcessor.AddDay | lib/dataProcessor.ts:43-48 | the daily table after one point keeps, per day, the count and the exact mean of that day's values (the running-average update equals the mean) and the bucket's `new Date(day)` |
| DataProcessor.AddWeekDay | lib/dataProcessor.ts:51-56 | the weekday table after one point keeps, per weekday, the count and the exact mean of that weekday's values |
| DataProcessor.FinishHourly | lib/dataProcessor.ts:60-62 | after the averaging pass every hourly bucket's average is the mean of its values, the rest unchanged |
| DataProcessor.AddPoint | lib/dataProcessor.ts:29-57 | one iteration updates the three tables to the groupings that include the point, by local hour, UTC day and local weekday |
| DataProcessor.FillStep | lib/dataProcessor.ts:29-57 | the tables describing the first i sorted points become those describing the first i + 1 |
| DataProcessor.FillTables | lib/dataProcessor.ts:24-57 | after the single pass the three tables are the groupings of all sorted points' values by hour, day and weekday, in first-occurrence order |
| DataProcessor.ProcessLargeDataset | lib/dataProcessor.ts:13-73 | `full` is the time-sorted data, `sampled` its sample, and the hourly, daily and weekly tables are the groupings of the sorted values with hourly averages finished |
| DataProcessor.HourlyBuckets | lib/dataProcessor.ts:24-62 | hourly buckets have distinct hours in 0..23, each count at least 1 and equal to its number of values, the values are exactly that hour's values in time order, the average is their mean, and the counts add up to n |
| DataProcessor.DailyBuckets | lib/dataProcessor.ts:25-48 | daily buckets have distinct day keys, counts at least 1 adding up to n, each average the mean of that day's values and each timestamp `new Date(day)` |
| DataProcessor.DailySizes | lib/dataProcessor.ts:25-48 | the daily counts add up to n and the day keys are distinct |
| DataProcessor.DailyBucketAt | lib/dataProcessor.ts:43-48 | each daily bucket counts its day's records and averages exactly their values |
| DataProcessor.DayKeyIsUtcDay | lib/dataProcessor.ts:31 | the day key is the date part of the ISO text, and two instants share a key exactly when they fall on the same UTC day |
| DataProcessor.WeeklyBuckets | lib/dataProcessor.ts:26-56 | weekday buckets have distinct weekdays in 0..6, counts at least 1 adding up to n, and each average the mean of that weekday's values |
| DataProcessor.WeeklySizes | lib/dataProcessor.ts:26-56 | the weekday counts add up to n and the weekdays are distinct |
| DataProcessor.WeeklyBucketAt | lib/dataProcessor.ts:51-56 | each weekday bucket's weekday is in 0..6, its count is its number of records and its average their mean |
| DataProcessor.DataSubsetShape | lib/dataProcessor.ts:75-80 | a small enough input is returned as is; otherwise the subset starts with the first point, keeps exactly the points at multiples of ceil(n / maxPoints), in order, and has at most maxPoints of them |
| DataProcessor.WindowBounds | lib/dataProcessor.ts:91-96 | a point's window start is a multiple of windowMs at most the point's time and within windowMs of it |
| DataProcessor.WindowMonotone | lib/dataProcessor.ts:96 | later points never fall in earlier windows |
| DataProcessor.AggregateStep | lib/dataProcessor.ts:95-113 | one iteration keeps the loop invariant: closed runs summarised in `result`, the open run's window, sum and count describe the last run |
| DataProcessor.NewWindowState | lib/dataProcessor.ts:98-108 | a point in a new window pushes the open run's summary (when it has points) and opens a run of one point |
| DataProcessor.SameWindowState | lib/dataProcessor.ts:109-112 | a point in the open window adds its value to the sum and one to the count |
| DataProcessor.AggregateByTimeWindow | lib/dataProcessor.ts:82-124 | the result is one summary per maximal run of equal windows of the time-sorted points (window start, mean value, count); empty input gives no summaries |
| DataProcessor.AggregateSorted | lib/dataProcessor.ts:91-121 | the loop and the final flush over non-empty sorted points produce exactly the run summaries |
| DataProcessor.AggregateFinish | lib/dataProcessor.ts:115-121 | the final flush happens exactly for non-empty input and completes the run summaries |
| DataProcessor.RunsFacts | lib/dataProcessor.ts:95-121 | every run is non-empty with all its points in its window, and the run sizes (the summary counts) add up to n |
| DataProcessor.RunBounds | lib/dataProcessor.ts:96 | each window starts at a multiple of windowMs and its points lie in [window, window + windowMs) |
| DataProcessor.RunsIncreasing | lib/dataProcessor.ts:89-113 | on sorted input the windows of the summaries strictly increase and the last is the last point's window |
| DataProcessor.ExtendFacts | lib/dataProcessor.ts:98-112 | adding a point keeps every run well formed and adds one to the total size |
| DataProcessor.ExtendIncreasing | lib/dataProcessor.ts:98-112 | a point no earlier than the last window keeps the windows increasing and ends in its own window |
| BoxPlot.DayWeekday | components/charts/BoxPlot.tsx:50-51 | the weekday of a listed day is in 0..6 |
| BoxPlot.RecordWeekday | components/charts/BoxPlot.tsx:37-51 | every record's local day is listed in `dailyCounts` under a day whose weekday is the record's weekday |
| BoxPlot.DayRecord | components/charts/BoxPlot.tsx:37-41 | every listed day has a record on it, with the same weekday |
| BoxPlot.ListsOf | components/charts/BoxPlot.tsx:44-53 | there are seven weekday lists |
| BoxPlot.WeekdayLists | components/charts/BoxPlot.tsx:44-53 | the loop starts seven empty lists and pushes each day's count onto its weekday's list, giving `ListsOf` |
| BoxPlot.ListsAreWeekdayCounts | components/charts/BoxPlot.tsx:49-53 | a weekday's list holds the counts of the days on that weekday, in the order the days come |
| BoxPlot.Lengths | components/charts/BoxPlot.tsx:56 | the length of each weekday list |
| BoxPlot.ListsCoverDays | components/charts/BoxPlot.tsx:49-53 | the seven lists together hold one count per listed day |
| BoxPlot.SortCounts | components/charts/BoxPlot.tsx:69 | `counts.sort((a, b) => a - b)` in place leaves the array ascending and a permutation of itself |
| BoxPlot.Sink | components/charts/BoxPlot.tsx:69 | one insertion step extends the ascending prefix by one element and keeps the elements |
| BoxPlot.SwapDown | components/charts/BoxPlot.tsx:69 | swapping two neighbours changes only those two places and keeps the elements |
| BoxPlot.SortedUnique | components/charts/BoxPlot.tsx:69 | two ascending arrangements of the same counts are equal, so the in-place sort gives the one ascending arrangement |
| BoxPlot.SameFirst | components/charts/BoxPlot.tsx:74 | two ascending arrangements of the same counts start alike |
| BoxPlot.InterpolateFacts | components/charts/BoxPlot.tsx:70-72 | the linear interpolation `d3.quantile` uses lies between its ends and moves forward with the fraction |
| BoxPlot.Position | components/charts/BoxPlot.tsx:70-72 | a quantile is read at position (n - 1) * p, inside the list |
| BoxPlot.PositionMonotone | components/charts/BoxPlot.tsx:70-72 | that position moves forward with p |
| BoxPlot.QuantileAround | components/charts/BoxPlot.tsx:70-72 | a quantile interpolates the two elements around its position and lies between them |
| BoxPlot.QuantileMonotone | components/charts/BoxPlot.tsx:70-72 | q1 <= median <= q3, all within the first and last count |
| BoxPlot.BoxFacts | components/charts/BoxPlot.tsx:69-86 | sorted[0] <= min <= q1 <= median <= q3 <= max <= sorted[n-1], and the outliers are exactly the counts below min or above max, ascending |
| BoxPlot.FilterSorted | components/charts/BoxPlot.tsx:85 | filtering an ascending list keeps it ascending |
| BoxPlot.Boxes | components/charts/BoxPlot.tsx:55-87 | seven boxes, box d carrying weekday index d and its short name, Sunday first |
| BoxPlot.BoxesOf | components/charts/BoxPlot.tsx:55-87 | seven boxes from seven lists, in weekday order |
| BoxPlot.BoxData | components/charts/BoxPlot.tsx:37-87 | counting per day, collecting per weekday, sorting each list in place and summarising it gives `Boxes` |
| BoxPlot.BoxesFrom | components/charts/BoxPlot.tsx:55-87 | the mapping over the seven lists gives `BoxesOf` of their contents |
| BoxPlot.AppendBox | components/charts/BoxPlot.tsx:55-86 | each weekday's box joins those of the weekdays before it |
| BoxPlot.WeekdayBox | components/charts/BoxPlot.tsx:56-86 | one weekday's box is the summary of its counts in ascending order |
| BoxPlot.ListedCountsPositive | components/charts/BoxPlot.tsx:37-52 | every count in a weekday list is at least one |
| BoxPlot.BoxesAt | components/charts/BoxPlot.tsx:55-87 | box d summarises weekday d's sorted counts |
| BoxPlot.OccupiedWeekday | components/charts/BoxPlot.tsx:37-75 | a weekday with a record has an upper whisker of at least one |
| BoxPlot.EmptyWeekday | components/charts/BoxPlot.tsx:56-67 | a weekday's box is the all-zero box with no outliers exactly when no record falls on it |
| ChartSelector.DefaultChartsFacts | components/ChartSelector.tsx:12-20 | the default list has seven charts with distinct ids, all switched on |
| ChartSelector.HandleToggle | components/ChartSelector.tsx:33-38 | the list keeps its length, ids and names, and exactly the entries with the toggled id flip `enabled` |
| ChartSelector.HandleReset | components/ChartSelector.tsx:40-43 | every entry is switched on, ids and names kept |
| ChartSelector.EnabledCount | components/ChartSelector.tsx:45 | the number of enabled charts never exceeds the number of charts |
| ChartSelector.ToggleTwice | components/ChartSelector.tsx:33-38 | toggling an id twice gives back the list |
| ChartSelector.ToggleUnknownId | components/ChartSelector.tsx:33-38 | toggling an id no entry has changes nothing |
| ChartSelector.ResetFacts | components/ChartSelector.tsx:40-77 | Reset is disabled exactly when every chart is on; after a reset it is disabled, and a reset of an all-on list changes nothing |
| ChartSelector.ToggleEnablesReset | components/ChartSelector.tsx:33-77 | switching one chart off in an all-on list enables Reset |
| ChartSelection.FindById | lib/useChartSelection.ts:20 | `find` gives the first stored entry with the id, and nothing exactly when no entry has it |
| ChartSelection.MergeFacts | lib/useChartSelection.ts:19-22 | the merge has the defaults' length and ids in order; each entry is the first stored entry with that id or else the default, so unknown stored ids are dropped |
| ChartSelection.MergeNothingStored | lib/useChartSelection.ts:19-22 | a stored list without any default id merges to the defaults |
| ChartSelection.MergeSavedSelection | lib/useChartSelection.ts:19-36 | a saved selection with the defaults' ids loads back as it was saved |
| ChartSelection.EnabledChartIds | lib/useChartSelection.ts:42-44 | one element id per enabled chart |
| ChartSelection.EnabledChartIdsSelect | lib/useChartSelection.ts:42-44 | the element ids are `id + "-chart"` of the enabled charts, in list order, each once, every enabled chart named |
| ChartSelection.SelectionState.constructor | lib/useChartSelection.ts:9-10 | the state starts as the defaults, not loaded, nothing saved |
| ChartSelection.SelectionState.LoadStored | lib/useChartSelection.ts:13-30 | after mount the state is loaded; a non-empty stored text that parses replaces the selection by its merge with the defaults, anything else keeps it |
| ChartSelection.SelectionState.UpdateSelection | lib/useChartSelection.ts:33-40 | the selection becomes the new list, and it is saved exactly when the write succeeds |
| ChartSelection.SelectionState.GetEnabledChartIds | lib/useChartSelection.ts:42-44 | the element ids of the current selection |
| ChartSelection.MountKeepsDefaultIds | lib/useChartSelection.ts:13-30 | after mount the selection has the defaults' ids in their order, and is the defaults when storage holds nothing usable |
| CumulativeLine.CumulativeData | components/charts/CumulativeLine.tsx:33-41 | point k carries the k-th time of the sorted copy and the running total of its first k + 1 values |
| CumulativeLine.PrefixSumStep | components/charts/CumulativeLine.tsx:36 | each point adds its record's value to the running total |
| CumulativeLine.SumValuesPermutation | components/charts/CumulativeLine.tsx:33 | sorting does not change the total of the values |
| CumulativeLine.RemoveAt | components/charts/CumulativeLine.tsx:33 | taking one record out of a list lowers the total by its value |
| CumulativeLine.LastIsTotal | components/charts/CumulativeLine.tsx:33-41 | the line ends at the total of all values, whatever the input order |
| CumulativeLine.LineInTimeOrder | components/charts/CumulativeLine.tsx:33-41 | the points are in time order |
| CumulativeLine.LineRises | components/charts/CumulativeLine.tsx:33-41 | when no value is negative the line never goes down |
| CumulativeLine.PrefixSumRises | components/charts/CumulativeLine.tsx:36 | over non-negative values a longer prefix has the larger total |
| CumulativeLine.DotsFacts | components/charts/CumulativeLine.tsx:101 | there are 1 to 50 dots, the first point has one, and dot j sits on point j * ceil(n / 50) |
| CumulativeLine.DotsCount | components/charts/CumulativeLine.tsx:101 | at most 50 dots and at least one |
| DailyHistogram.CountDays | components/charts/DailyHistogram.tsx:32-36 | the counting loop over the records, keyed by the date part of `toISOString()`, gives the count object of the day keys |
| DailyHistogram.CountInto | components/charts/DailyHistogram.tsx:33-36 | adding one to each key's count, a missing count read as 0, gives the count object |
| DailyHistogram.CountMapStep | components/charts/DailyHistogram.tsx:35 | one more key raises its count by one, starting from 0 |
| DailyHistogram.CountMapOcc | components/charts/DailyHistogram.tsx:32-36 | the object has a property for each key seen and no other, holding the number of records of that key |
| DailyHistogram.UtcDays | components/charts/DailyHistogram.tsx:34 | each record's UTC day number |
| DailyHistogram.DayKeysAreUtcDays | components/charts/DailyHistogram.tsx:34 | two records have the same day key exactly when they fall on the same UTC day |
| DailyHistogram.DayData | components/charts/DailyHistogram.tsx:38-41 | one bar per distinct day |
| DailyHistogram.MidnightSameDay | components/charts/DailyHistogram.tsx:34-39 | the UTC midnight of a record's day has that record's day key |
| DailyHistogram.DayDataFacts | components/charts/DailyHistogram.tsx:38-41 | each bar's date is a key of the count object and its count is that key's count, at least one |
| DailyHistogram.CountAt | components/charts/DailyHistogram.tsx:32-36 | a record's day is a key holding the number of records on that UTC day |
| DailyHistogram.DayDataAscending | components/charts/DailyHistogram.tsx:41 | the bars are in strictly ascending date order |
| DailyHistogram.EveryDayHasBar | components/charts/DailyHistogram.tsx:38-41 | every record's day has a bar |
| DailyHistogram.CountMapKeys | components/charts/DailyHistogram.tsx:32-36 | the object's keys are exactly the day keys seen |
| DailyHistogram.BarCounts | components/charts/DailyHistogram.tsx:40 | the bars' counts, bar by bar |
| DailyHistogram.BarsTotal | components/charts/DailyHistogram.tsx:32-41 | the bars' counts add up to the number of records |
| DailyHistogram.BarWidth | components/charts/DailyHistogram.tsx:55 | the bars together take 80% of the plot width |
| FileUpload.FirstNumberIndex | components/FileUpload.tsx:105 | the first property whose value is a number, or past the end when there is none |
| FileUpload.PointValueCases | components/FileUpload.tsx:105 | the value is the first numeric property unless that is 0 or NaN, and 1 then or when no property is numeric; it is never 0 |
| FileUpload.FilePoint | components/FileUpload.tsx:98-106 | a row gives at most one point |
| FileUpload.FilePointsSelect | components/FileUpload.tsx:98-106 | the points come, in order, exactly from the rows whose `@timestamp` is truthy and a valid date, each with that date, its value and all of its fields |
| FileUpload.WorkerPoints | components/FileUpload.tsx:43-48 | the worker's rows are all kept, each with `new Date(row['@timestamp'])`, valid or not, its value and its fields |
| FileUpload.WorkerIgnoresDetectedColumn | components/FileUpload.tsx:46 | a worker row without an `@timestamp` property gets an invalid date |
| FileUpload.WorkerTimestampRoundTrip | components/FileUpload.tsx:46 | when the detected column is `@timestamp`, reading back the ISO text the worker stored gives the parsed instant |
| FileUpload.ChunkProgressFacts | components/FileUpload.tsx:90 | chunk progress is `min(90, floor(rows / 1000 * 90))`, never decreasing and capped at 90 from 1000 rows on |
| FileUpload.WorkerDataPoints | components/FileUpload.tsx:43-51 | the worker's points go on exactly when every one has a valid date, and then all of them do |
| FileUpload.WorkerWithoutTimestampFails | lib/dataProcessor.ts:31 | a worker row without an `@timestamp` property makes `toISOString()` throw, so nothing is handed on |
| FileUpload.FilePointsAllKept | components/FileUpload.tsx:98-106 | when every row's `@timestamp` is truthy and a valid date, the main-thread filter keeps every row, in order |
| FileUpload.WorkerAgreesWithMainThread | components/FileUpload.tsx:43-48 | on such rows the worker's points equal the main thread's |
| FileUpload.ProcessedDetermined | lib/dataProcessor.ts:13-73 | any result meeting `processLargeDataset`'s postconditions is `Processed` of the data |
| FileUpload.ProcessedFacts | lib/dataProcessor.ts:13-73 | `Processed` is the time-sorted data, its sample and the hourly, daily and weekly tables of its groups |
| FileUpload.WorkerOutcomeNone | lib/dataProcessor.ts:31 | the worker's completion hands on nothing exactly when some row's `@timestamp` is not a valid date |
| FileUpload.AcceptWorkerRows | components/FileUpload.tsx:43-59 | the worker rows become `WorkerOutcome`: their points with the given columns and `Processed` of the points, or nothing |
| FileUpload.Uploader.OnWorkerComplete | components/FileUpload.tsx:42-59 | on completion the uploader hands on `WorkerOutcome`, ending loading with progress 0 when there is one and changing nothing otherwise |
| FileUpload.BuildParsed | components/FileUpload.tsx:98-119 | the parsed data are the valid rows' points with the given columns, and their processed datasets are exactly `Processed` of those points: sorted by time, sampled, and one count-and-mean bucket per hour, UTC day and weekday |
| FileUpload.Uploader.constructor | components/FileUpload.tsx:14-16 | the uploader starts idle with no rows and progress 0 |
| FileUpload.Uploader.BeginFile | components/FileUpload.tsx:72-78 | a file starts loading with no rows and progress 0 |
| FileUpload.Uploader.OnChunk | components/FileUpload.tsx:85-92 | a chunk's rows are appended, the row count grows by the chunk size and progress follows the row count |
| FileUpload.Uploader.OnComplete | components/FileUpload.tsx:94-111 | progress becomes 100 and the parsed data come from the accumulated rows, or from the final results when none were accumulated, with `Processed` of the kept points |
| FileUpload.Uploader.Settle | components/FileUpload.tsx:112-127 | loading ends with progress 0 |
| FileUpload.Uploader.BeginWorker | components/FileUpload.tsx:36-37 | the worker path starts loading with progress 0 |
| FileUpload.Uploader.OnWorkerMessage | components/FileUpload.tsx:39-66 | a non-zero progress is shown; completion hands on `WorkerOutcome` (every worker row with `processLargeDataset`'s result, loading ended and progress 0), or nothing with loading and progress unchanged when an Invalid Date makes `processLargeDataset` throw; a non-empty error resets; anything else changes nothing |
| FileUpload.ChoosePath | components/FileUpload.tsx:140-144 | the worker is used exactly for files over 1 MiB when a worker exists |
| FileUpload.OneMebibyteStaysOnMainThread | components/FileUpload.tsx:140 | a file of exactly 1 MiB, or any file without a worker, is parsed on the main thread |
| FileUpload.DropExtensionCaseSensitive | components/FileUpload.tsx:177 | a dropped file is accepted by MIME type or a lower-case `.csv` name only: `DATA.CSV` without the MIME type is refused |
| Heatmap.CellKey | components/charts/Heatmap.tsx:36-38 | a record's cell is row `getDay()`, column `getHours()` of the 7 x 24 grid |
| Heatmap.CellKeys | components/charts/Heatmap.tsx:35-39 | one cell per record, each within the grid |
| Heatmap.HeatmapData | components/charts/Heatmap.tsx:33-39 | a fresh 7 x 24 grid of zeros after `heatmapData[day][hour]++` per record holds in each cell the number of records on that weekday and hour |
| Heatmap.CountStep | components/charts/Heatmap.tsx:38 | one record raises exactly its own cell by one |
| Heatmap.CellKeyUnique | components/charts/Heatmap.tsx:79-81 | distinct (day, hour) pairs have distinct positions in the flattened grid |
| Heatmap.FlatCells | components/charts/Heatmap.tsx:79-81 | `flatMap` over the grid gives 168 cells |
| Heatmap.CellValues | components/charts/Heatmap.tsx:41 | the cell values, cell by cell |
| Heatmap.FlatCellsFacts | components/charts/Heatmap.tsx:33-81 | the flattened cell at position 24d + h is (d, h), its value is that cell's count, and the values add up to the number of records |
| Heatmap.MaxValueFacts | components/charts/Heatmap.tsx:41 | `maxValue` is one of the cell values and bounds them all, and it is at least one when there is a record |
| Heatmap.TimePeriodsPartition | components/charts/Heatmap.tsx:203-208 | the four labelled periods cover every hour of the day without overlapping |
| Heatmap.HoverShares | components/charts/Heatmap.tsx:105-108 | a cell shows a share exactly when it has events, the share is in (0, 100], and the shares of all cells add up to 100 |
| Heatmap.SharesOfWhole | components/charts/Heatmap.tsx:108 | for counts adding up to the total, a share is shown exactly for a positive count, lies in (0, 100], and the shares add up to 100 |
| HourlyHistogram.HourBars | components/charts/HourlyHistogram.tsx:38 | bar h carries hour h and its count |
| HourlyHistogram.HourData | components/charts/HourlyHistogram.tsx:23-38 | nothing is drawn without records; otherwise the bars are the 24 hourly counts |
| HourlyHistogram.HourDataFacts | components/charts/HourlyHistogram.tsx:32-38 | there are 24 bars, bar h counting exactly the records in local hour h, adding up to the number of records |
| RadarChart.RadarData | components/charts/RadarChart.tsx:24-40 | nothing is drawn without records; otherwise the 24 hourly counts and `maxValue`, one of them and no smaller than any |
| RadarChart.RadarFacts | components/charts/RadarChart.tsx:35-40 | the hourly counts add up to the number of records and the maximum is at least one |
| RadarChart.AsWrittenHourIsFirstEqual | components/charts/RadarChart.tsx:111 | as written, the tooltip names the hovered hour exactly when no earlier hour has the same count |
| RadarChart.AsWrittenTooltipMislabels | components/charts/RadarChart.tsx:111-122 | with one record at midnight, hovering hour 5 shows hour 1, the first hour with count 0 |
| RadarChart.TooltipFacts | components/charts/RadarChart.tsx:110-125 | corrected, every dot's tooltip names its own hour and that hour's records, and the shares of the 24 hours add up to 100 |
| RadarChart.HourLabelReadsBack | components/charts/RadarChart.tsx:150 | a label is the hour's digits followed by `h`, reading back as the hour |
| RadarChart.HourLabelsDistinct | components/charts/RadarChart.tsx:150 | distinct hours have distinct labels |
| Page.ChartDataFor | app/page.tsx:29-30 | there is chart data exactly when a file is loaded |
| Page.TierFacts | app/page.tsx:36-58 | histograms and the rest always get all records; up to 1000 records every chart does; from 1001 to 5000 the heatmap gets all and the cumulative line at most 500 of them, starting with the first |
| Page.LargeTier | app/page.tsx:36-72 | above 5000 records the heatmap gets 1 to 2000 records starting with the first, the cumulative line the processed sample or else at most 500 records, and the optimisation note is shown |
| Page.LargeTierSample | app/page.tsx:40 | above 5000 records the cumulative line gets every (n / 500)-th record of the time-sorted data, the rate being at least 10 |
| Visualizer.LoadRow | src/index.ts:20-26 | one row yields at most one record |
| Visualizer.LoadRowsSelect | src/index.ts:20-26 | the loaded records are exactly the rows, in file order, whose `@timestamp` is truthy and gives a valid date, each keeping its fields with that date attached |
| Visualizer.TimestampVisualizer.constructor | src/index.ts:12-13 | a new visualiser holds no records |
| Visualizer.TimestampVisualizer.LoadDataFromText | src/index.ts:15-26 | the field `data` is replaced by the loaded records of the parsed rows |
| Visualizer.TimestampVisualizer.DisplayStatistics | src/index.ts:415-439 | no summary exactly when there are no records; otherwise the count, the earliest and latest dates, the range, the average interval `(max - min) / (n - 1)` (0 for one record), the n - 1 consecutive differences in load order and their median |
| Visualizer.Telescope | src/index.ts:434-437 | consecutive differences add up to the last date minus the first |
| Visualizer.SummaryFacts | src/index.ts:431-437 | the time range and the average interval are never negative, and the intervals add up to the last date minus the first, although single intervals may be negative |
| Visualizer.SortedSummary | src/index.ts:425-437 | for records loaded in time order the range runs from the first to the last record, every interval is non-negative and the average interval is the mean of the intervals |
| Visualizer.MedianIntervalBounds | src/index.ts:439 | the median interval lies between the shortest and the longest interval |
| Visualizer.DurationFacts | src/index.ts:441-453 | formatDuration's hours, minutes and seconds add back up to the whole seconds; the hour form is used from 3600 s on and the minute form from 60 s on, with the smaller units below 60 |
| Visualizer.TimeFormatRoundTrip | src/index.ts:373-377 | below 100 hours the label is "HH:MM" with two-digit fields, minutes below 60, and reading it back gives the minutes |
| Visualizer.WeekSplit | src/index.ts:485-493 | weekday records (days 1..5) plus weekend records (days 0 and 6) are all the records |
| Visualizer.DayTypeBarsFacts | src/index.ts:485-498 | the two bars count every record once, the weekday average is the count over 5 and the weekend average the count over 2 |
| Visualizer.HourStart | src/index.ts:653 | a record lies within the hour that starts at its `d3.timeHour` |
| Visualizer.Window | src/index.ts:661-663 | the rolling window around position i contains i, stays within the list and holds at most 3 entries |
| Visualizer.RollingAverages | src/index.ts:660-666 | there is one rolling average per hourly entry |
| Visualizer.HourlyDataFacts | src/index.ts:650-658 | the hourly entries are listed once each in ascending time order, each count is positive and the counts add up to the number of records |
| Visualizer.RollingAverageBounds | src/index.ts:660-666 | a rolling average lies within the bounds of the counts of its neighbours |
| Visualizer.Months | src/index.ts:867-871 | every record's month is in 0..11 |
| Visualizer.MonthlyData | src/index.ts:873-876 | there are 12 monthly bars |
| Visualizer.MonthlyFacts | src/index.ts:866-876 | bar i is month i (Jan..Dec) with the number of records in it, 0 for a month without records, and the bars add up to the number of records |
| RecordsByHour.AllHourValues | components/charts/RecordsByHour.tsx:34-40 | 24 lists, list h holding the values of the records in hour h, in order |
| RecordsByHour.HourValuesStep | components/charts/RecordsByHour.tsx:39 | a record adds its value to its own hour's list only |
| RecordsByHour.AllHourValuesStep | components/charts/RecordsByHour.tsx:36-40 | one more record appends its value to its hour's list and changes no other list |
| RecordsByHour.CountByHour | components/charts/RecordsByHour.tsx:33-40 | the loop fills fresh 24-slot arrays with the hourly counts and the hourly value lists |
| RecordsByHour.HourEntries | components/charts/RecordsByHour.tsx:42-48 | one entry per hour |
| RecordsByHour.HourData | components/charts/RecordsByHour.tsx:23-48 | nothing is drawn without records; otherwise the 24 entries built from the counts and value lists |
| RecordsByHour.EntryFacts | components/charts/RecordsByHour.tsx:42-48 | entry h has hour h, the number of records in hour h, and their mean value, or 0 without records |
| RecordsByHour.EntriesTotal | components/charts/RecordsByHour.tsx:33-48 | the entries' counts add up to the number of records |
| RecordsByHour.CountsOf | components/charts/RecordsByHour.tsx:56 | the counts, entry by entry |
| RecordsByHour.PeakAndLow | components/charts/RecordsByHour.tsx:134-135 | Peak is the first hour with the largest count and Low the first hour with the smallest |
| RecordsByHour.LabelledHours | components/charts/RecordsByHour.tsx:107 | an hour gets a count label exactly when some record falls in it |
| RecordsByHour.BusinessBand | components/charts/RecordsByHour.tsx:155-158 | the business-hours band covers the bars of exactly hours 9 to 17 |
| RecordsByHour.BarOrder | components/charts/RecordsByHour.tsx:50-53 | bars are placed left to right in hour order |
| RecordsPerDay.LocalDays | components/charts/RecordsPerDay.tsx:37 | each record's local day, `d3.timeDay` |
| RecordsPerDay.ChartDataFacts | components/charts/RecordsPerDay.tsx:34-43 | the days are listed in ascending order, each with its number of records, at least one, and the counts add up to the number of records |
| RecordsPerDay.EveryDayListed | components/charts/RecordsPerDay.tsx:34-43 | every record's local day is listed |
| RecordsPerDay.BarWidth | components/charts/RecordsPerDay.tsx:75 | the bar width is 80% of a day's share of the width, but at least one pixel |
| RecordsPerDay.RealsOf | components/charts/RecordsPerDay.tsx:141 | the counts as numbers |
| RecordsPerDay.SumOfReals | components/charts/RecordsPerDay.tsx:141 | the counts sum the same as numbers |
| RecordsPerDay.AvgCountIsRecordsPerDay | components/charts/RecordsPerDay.tsx:141 | the average line is the number of records over the number of days with records |
| RecordsPerDay.TickEvery | components/charts/RecordsPerDay.tsx:118 | the tick step `ceil(days / 10)` is at least one and the smallest step giving at most 10 ticks |
| StatisticsPanel.CompactFields | components/StatisticsPanel.tsx:32 | `MM/DD HH:MM` places its four two-character fields around `/`, a space and `:` |
| StatisticsPanel.CompactDateShape | components/StatisticsPanel.tsx:27-33 | formatCompactDate gives 11 characters whose fields read back as month + 1, day, hours and minutes |
| StatisticsPanel.AvgIntervalSeconds | components/StatisticsPanel.tsx:25-39 | the average interval in whole seconds is floor(duration / (n - 1) / 1000), absent for a single record |
| StatisticsPanel.EventsPerHour | components/StatisticsPanel.tsx:40 | events per hour times the duration in ms is n * 3600000, absent for a zero duration |
| StatisticsPanel.PanelFor | components/StatisticsPanel.tsx:11-14 | no panel exactly when there are no records |
| StatisticsPanel.PanelBranch | components/StatisticsPanel.tsx:16-65 | when every value is 1 the panel summarises time; otherwise it shows the value statistics |
| StatisticsPanel.FloorInterval | components/StatisticsPanel.tsx:39 | the floored seconds bound the duration per gap from below |
| StatisticsPanel.TimeSummaryEnds | components/StatisticsPanel.tsx:21-38 | total events is the count; first and last event are the earliest and latest records, and the duration is their difference, never negative |
| StatisticsPanel.SortedDuration | components/StatisticsPanel.tsx:21-38 | for time-ordered data the duration runs from the first to the last record |
| ThirtyMinDistribution.IntervalIndex | components/charts/ThirtyMinDistribution.tsx:44-46 | a record's slot is in 0..47; its half is the hour and it is odd exactly from minute 30 on |
| ThirtyMinDistribution.IntervalKeys | components/charts/ThirtyMinDistribution.tsx:43-48 | one slot per record, each in range |
| ThirtyMinDistribution.IntervalLabels | components/charts/ThirtyMinDistribution.tsx:34-40 | the loop builds 48 labels, label i being `HH:00` or `HH:30` for slot i |
| ThirtyMinDistribution.NextHourLabels | components/charts/ThirtyMinDistribution.tsx:38-39 | each hour appends its `:00` and `:30` labels |
| ThirtyMinDistribution.SlotLabelsOfHour | components/charts/ThirtyMinDistribution.tsx:38-39 | slots 2h and 2h + 1 are labelled `HH:00` and `HH:30` with the hour padded to two digits |
| ThirtyMinDistribution.SlotLabelShape | components/charts/ThirtyMinDistribution.tsx:38-39 | a label is five characters, two digits reading back as the hour, a colon and `00` or `30` |
| ThirtyMinDistribution.RecordSlotLabel | components/charts/ThirtyMinDistribution.tsx:38-46 | a record's slot label shows its hour, and `:30` exactly when its minute is at least 30 |
| ThirtyMinDistribution.IntervalCounts | components/charts/ThirtyMinDistribution.tsx:33-48 | the loop fills a fresh 48-slot array with the histogram of the slots |
| ThirtyMinDistribution.IntervalCountsFacts | components/charts/ThirtyMinDistribution.tsx:43-48 | slot k counts the records in it and the slots add up to the number of records |
| ThirtyMinDistribution.IntervalData | components/charts/ThirtyMinDistribution.tsx:50-56 | one entry per slot |
| ThirtyMinDistribution.IntervalDataFacts | components/charts/ThirtyMinDistribution.tsx:54-55 | slots 2h and 2h + 1 both have hour h; only the second is a half hour |
| ThirtyMinDistribution.EveryFourth | components/charts/ThirtyMinDistribution.tsx:136-138 | every fourth entry, j-th being entry 4j |
| ThirtyMinDistribution.TicksPrefix | components/charts/ThirtyMinDistribution.tsx:136-138 | filtering the first k entries keeps every fourth of them |
| ThirtyMinDistribution.TicksStep | components/charts/ThirtyMinDistribution.tsx:137 | one more entry is kept exactly when its slot is divisible by 4 |
| ThirtyMinDistribution.TicksEveryTwoHours | components/charts/ThirtyMinDistribution.tsx:136-139 | the axis shows 12 ticks, tick j at slot 4j, hour 2j on the hour, labelled with that slot's label |
| ThirtyMinDistribution.NextLabelWraps | components/charts/ThirtyMinDistribution.tsx:116 | a slot's tooltip ends at the next slot's label, wrapping to `00:00` after the last |
| ThirtyMinDistribution.PeakShown | components/charts/ThirtyMinDistribution.tsx:182-184 | the peak annotation is drawn exactly when there are records |
| ThirtyMinDistribution.BandRanges | components/charts/ThirtyMinDistribution.tsx:71-76 | night is before 6 or from 22 on, morning 6 to 11, afternoon 12 to 17, evening 18 to 21 |
| TimezoneData.FixedOffsetText | lib/timezoneData.ts:14-111 | a fixed offset is written `±HH:MM` with the sign first and fields reading back as its hours and minutes |
| TimezoneData.TableShape | lib/timezoneData.ts:9-112 | the table holds 85 options: the browser entry (value `browser`, offset `Auto`) first, then zone entries whose offsets are all `±HH:MM` |
| TimezoneData.ZoneSectionsEntries | lib/timezoneData.ts:13-111 | every entry after the browser entry is a named zone with a fixed offset |
| TimezoneData.ZonePrefixes | lib/timezoneData.ts:126-148 | a zone id starts with `America/`, `Atlantic/`, `Europe/`, `Africa/`, `Asia/`, `Australia/` or `Pacific/` exactly when it is in that area, and is neither `UTC` nor `browser` |
| TimezoneData.SpecialIdsHaveNoPrefix | lib/timezoneData.ts:126-153 | `UTC` and `browser` start with no area prefix |
| TimezoneData.InRegionIsRegionOf | lib/timezoneData.ts:124-154 | a group's filter accepts an option exactly when the option's region is that group |
| TimezoneData.GroupsOf | lib/timezoneData.ts:115-155 | the Suggested group followed by one group per region, in order, each with its label and filtered options |
| TimezoneData.TableSize | lib/timezoneData.ts:9-112 | the table has 85 options |
| TimezoneData.SuggestedIsPrefix | lib/timezoneData.ts:118-122 | Suggested is the first seven options |
| TimezoneData.RegionOptionsSelect | lib/timezoneData.ts:124-154 | a region's options are exactly the table's options in that region, in table order |
| TimezoneData.InRegionOptions | lib/timezoneData.ts:124-154 | an option is in a region's group exactly when it is in the table and in that region |
| TimezoneData.RegionsPartitionTable | lib/timezoneData.ts:115-155 | the browser entry is in no region group and every other option is in exactly one |
| TimezoneData.TableHead | lib/timezoneData.ts:11-24 | the table opens with browser, UTC, six American zones, Honolulu and Toronto |
| TimezoneData.SuggestedGroup | lib/timezoneData.ts:118-122 | Suggested holds the browser entry, UTC and five American zones |
| TimezoneData.HonoluluInOceania | lib/timezoneData.ts:126-149 | Honolulu, listed among the US zones, is grouped under Oceania and not under Americas |
| TimezoneData.CurrentTimeIn | lib/timezoneData.ts:158-177 | the browser gets the local time; another zone gets its zone time, or the empty text when the zone is rejected |
| TimezoneSelector.FindByValue | components/TimezoneSelector.tsx:124 | `find` gives the first option with the value, and none exactly when no option has it |
| TimezoneSelector.SelectedOptionFacts | components/TimezoneSelector.tsx:123-125 | the selected option is in the table; it has the selected value when some option does, and is the browser entry otherwise |
| TimezoneSelector.HandleChange | components/TimezoneSelector.tsx:127-131 | a change is reported exactly when an option is given |
| TimezoneSelector.ChangeToSelected | components/TimezoneSelector.tsx:123-131 | choosing the selected option reports the selected zone |
| TimezoneSelector.EmptySearchMatchesAll | components/TimezoneSelector.tsx:151-158 | an empty search matches every option |
| TimezoneSelector.SearchIgnoresCase | components/TimezoneSelector.tsx:152 | the search is lowered first, so its case does not matter |
| TimezoneSelector.OwnTextIsFound | components/TimezoneSelector.tsx:154-156 | searching an option's label, value or non-empty abbreviation finds it |
| TimezoneSelector.EmptyAbbrevIsNoAbbrev | components/TimezoneSelector.tsx:156 | an empty abbreviation matches like a missing one |
| TimezoneSelector.AutoOffsetUnmatchedByA | components/TimezoneSelector.tsx:152-157 | a search containing `a` or `A` never matches the offset `Auto`, since the lowered search meets the unlowered offset |
| TimezoneSelector.BrowserNotFoundByOffset | components/TimezoneSelector.tsx:151-158 | searching `Auto` does not find the browser entry |
| WeekdayActivity.HourlyOn | components/charts/WeekdayActivity.tsx:55 | a weekday's hourly distribution has 24 hours |
| WeekdayActivity.InitialDays | components/charts/WeekdayActivity.tsx:37-47 | seven fresh entries with nothing counted |
| WeekdayActivity.CountStep | components/charts/WeekdayActivity.tsx:50-56 | a record raises its weekday's count, appends its value and raises its hour there, and changes no other weekday |
| WeekdayActivity.AddRecord | components/charts/WeekdayActivity.tsx:51-55 | one record updates the seven entries as counting one more record says |
| WeekdayActivity.CountPass | components/charts/WeekdayActivity.tsx:50-56 | the counting loop gives, per weekday, the count, values and hourly distribution of its records |
| WeekdayActivity.FinishEntry | components/charts/WeekdayActivity.tsx:60-64 | the statistics of one weekday entry |
| WeekdayActivity.StatisticsPass | components/charts/WeekdayActivity.tsx:59-65 | the statistics loop finishes all seven entries |
| WeekdayActivity.WeekdayData | components/charts/WeekdayActivity.tsx:23-65 | nothing is drawn without records; otherwise the seven finished entries |
| WeekdayActivity.DayCounts | components/charts/WeekdayActivity.tsx:53 | the seven counts |
| WeekdayActivity.DayCountsFacts | components/charts/WeekdayActivity.tsx:50-56 | the counts are the weekday histogram and add up to the number of records |
| WeekdayActivity.CountedFacts | components/charts/WeekdayActivity.tsx:53-55 | a weekday has one value per record and its hourly distribution adds up to its count |
| WeekdayActivity.FinishFacts | components/charts/WeekdayActivity.tsx:60-64 | average times count is the sum of the values, and the percentage is within 0..100 |
| WeekdayActivity.DayEntryFacts | components/charts/WeekdayActivity.tsx:50-62 | a weekday's values are its records' values; its average is their mean, or 0 without any |
| WeekdayActivity.PeakHourFacts | components/charts/WeekdayActivity.tsx:63 | the peak hour is the first hour with the largest count |
| WeekdayActivity.PercentagesSum | components/charts/WeekdayActivity.tsx:64 | the seven percentages add up to 100 |
| WeekdayActivity.WeekTotals | components/charts/WeekdayActivity.tsx:191-192 | the weekday total, data.length minus the weekend total, is the count of Monday to Friday |
| WeeklyPattern.WeekBars | components/charts/WeeklyPattern.tsx:39-43 | seven bars |
| WeeklyPattern.WeekData | components/charts/WeeklyPattern.tsx:23-43 | nothing is drawn without records; otherwise the bars of the weekday histogram |
| WeeklyPattern.WeekDataFacts | components/charts/WeeklyPattern.tsx:32-43 | bar i has index i, weekday name i and the number of records on weekday i; the bars add up to the number of records |

## Left out

- **d3 drawing.** Scales, axes, gradients, the heatmap's colour interpolator, tooltips' DOM and mouse handlers, and radial geometry are rendering through a foreign library. Only the values they are given are modelled.
- **d3 statistics helpers.** `d3.quantile`, `d3.median`, `d3.mean`, `d3.max`, `d3.rollup` and `d3.timeDay` are modelled by their documented results on the model's values: the quantile with linear interpolation, the mean, the first maximum, grouping by local day. Their internals are not modelled.
- **Export paths.** `components/ExportButton.tsx`, `components/DownloadImagesButton.tsx` and the export code of `src/index.ts` are canvas capture, PDF and ZIP I/O.
- **Browser and thread I/O.** Not modelled: the Worker transport, `Papa.parse`'s streaming, its `header` and `dynamicTyping` conversion of text into keyed, typed cells (components/FileUpload.tsx:80-84, src/index.ts:17-18; rows arrive in the model already as keyed `JsValue` cells), `FileReader`/`fetch`, drag-and-drop wiring, DOM listeners, React state scheduling and `localStorage` access. Chunks, worker messages and stored text are values passed in.
- **Clocks.** The current time read by `getCurrentTimeInTimezone` and `formatOptionLabel` is a parameter.
- CsvWorker.ConstAssignmentError: the text of the `TypeError` raised by the `const` reassignment is engine-specific. The model uses V8's wording, "Assignment to constant variable."; other engines word it differently.
- JsStrings.ToLower: `toLowerCase` is modelled for the capitals of ASCII and Latin-1 only (A..Z, À..Ö, Ø..Þ), one character for one. The other Unicode case mappings are not modelled: Greek and Cyrillic capitals, and 'İ', which lowers to two code units. TimezoneSelector.FilterOption and CsvWorker.FindTimestampName inherit this limit.
- **`lib/timezoneUtils.ts`** consists only of thin `Intl` wrappers and is not part of this model. Nor are `components/ChartSelectorModal.tsx`, `components/Analytics.tsx`, `app/layout.tsx`, `webpack.config.js` or `lib/types.ts`; the last contributes only the datatypes' shapes.
- **Floating point** is modelled as exact `real` arithmetic, and integers are unbounded. Not modelled: rounding of means and percentages, `toFixed` and `toLocaleString` number formatting (including the Events/Hour figure shown with `toFixed(1)`), and `Math.round` on non-exact halves beyond the progress formula. Infinities are not represented: `parseFloat` of a cell such as "1e999" or "Infinity" (public/csvWorker.js:155) is Infinity in JavaScript, which `Num` (NaN or a finite real) cannot hold; `CsvWorker.BuildRow` and `FileUpload.PointValue` do not cover such cells.
- Stats.CalculateStatistics: the standard deviation is left out because it needs `Math.sqrt`. The variance it is the root of is kept.
- **Object key order.** Ordering of JavaScript object keys is modelled as insertion order. The rule that puts integer-like keys first is not modelled. The keys involved are dates, column names and weekday numbers.
- BoxPlot.DailyCounts: the source's `d3.rollup` lists the days in the order in which their first record occurs in the data, and each weekday's list is filled in that order. The model lists the days in ascending day order instead (`Tally`), so a weekday's list before sorting can be in a different order. Each list is sorted in place before it is summarised, and `BoxPlot.SortedUnique` shows that sorting gives one result for any order, so no box differs.
- StatisticsPanel.TimeSummary: `Math.min(...timestamps)` and `Math.max(...timestamps)` (components/StatisticsPanel.tsx:22-23) spread every record into one call. Past the engine's argument-count limit (engine-specific, of the order of 10^5 arguments in V8) that call throws a `RangeError` and the panel does not render. The model has no such limit: `StatisticsPanel.TimeSummary` and `StatisticsPanel.PanelFor` give a panel for non-empty data of any size.
- DailyHistogram: takes `new Date("YYYY-MM-DD")` as UTC midnight of that day, which is how the engine reads a date-only ISO text. It does not go through the parse parameter.
- DataProcessor.AggregateByTimeWindow: requires `windowMs > 0`. With 0 the code divides by zero and produces `NaN` windows, which the model does not represent. Computed instants are also kept as unbounded integers: a window start `Math.floor(t / windowMs) * windowMs` below -8.64e15 ms is an Invalid Date in the source (lib/dataProcessor.ts:91, :96). Because `NaN !== NaN` (:98), the source then closes the window at every point and emits one summary per point, with an Invalid Date. The model keeps the integer start and merges such points into one run. Visualizer.HourStart and RecordsPerDay.LocalDays have the same limit: `d3.timeHour` (src/index.ts:653) and `d3.timeDay` (components/charts/RecordsPerDay.tsx:37, src/index.ts:103, :573) give an Invalid Date when the hour or local-midnight start falls below -8.64e15, which happens for records within an hour or a day of that bound, while the model returns the out-of-range integer.
- DateTimeDetector.ParseDateTime: the `catch` branch of `parseDateTime` is left out. No modelled primitive throws there; a rejected zone is already turned into offset 0 by `getTimezoneOffsetForDate`.
- **Date parsing, `toLocaleString`/`Intl` and `getTimezoneOffset`** are given functions of the environment, not implementations of the engine's algorithms. Properties that depend on them are stated in terms of those functions.

## Findings

| source | as written | input that shows it | evidently intended | confidence | as-written member | corrected member |
|---|---|---|---|---|---|---|
| lib/dateTimeDetector.ts:136-141 | the named-zone branch adds (browser offset - target offset) minutes to the naive local instant | a browser on UTC parsing "…T12:00:00" for America/New_York at offset 300: the result is 07:00 UTC, which New York shows as 02:00 | add (target offset - browser offset) minutes, so that the typed wall clock is kept in the target zone, as the comment above the code says | not executed | DateTimeDetector.AsWrittenShiftCounterexample | DateTimeDetector.IntendedShiftKeepsWallClock |
| components/charts/RadarChart.tsx:111 | the tooltip's hour is `hourCounts.indexOf(d)`, the first hour whose count equals the hovered count | one record at midnight: hovering hour 5 (count 0) shows hour 1 | the hour of the hovered dot | not executed | RadarChart.AsWrittenTooltipMislabels | RadarChart.TooltipFacts |

`DateTimeDetector.ParseDateTime` keeps the as-written shift, because that is what the program computes. The corrected shift `DateTimeDetector.IntendedZoneShift` is defined beside it, with its wall-clock property proved. No other module consumes the named-zone branch. The radar chart's tooltip is described by the corrected `RadarChart.TooltipFor`.

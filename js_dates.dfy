/** JavaScript values and the parts of the `Date` object the core uses.

    Instants are integers (milliseconds since 1970-01-01T00:00:00Z). The
    engine services the program cannot see into are fields of an `Env`:
    string parsing (`new Date(string)`), the host time zone's offset at an
    instant (`getTimezoneOffset`), the per-zone offset obtained through
    `toLocaleString`, and number/text conversion. The calendar accessors
    (`getHours`, `getDay`, `toISOString`, ...) are computed from those, as
    section 21.4.1 of ECMA-262 defines them. */
module JsDates {
  import opened Wrappers
  import opened JsStrings
  import Civil

  const MsPerSecond: int := 1000
  const MsPerMinute: int := 60000
  const MsPerHour: int := 3600000
  const MsPerDay: int := 86400000
  /** The largest magnitude a valid `Date` may hold (section 21.4.1.1 of ECMA-262). */
  const MaxTime: int := 8640000000000000

  predicate ValidTime(t: int) {
    -MaxTime <= t <= MaxTime
  }

  /** The time value of a valid `Date`. */
  type Instant = t: int | ValidTime(t)

  /** `new Date(x)` for an integral number of milliseconds: `None` is "Invalid Date". */
  function MakeTime(x: int): (r: Option<int>)
    ensures r.Some? <==> ValidTime(x)
    ensures r.Some? ==> r.value == x
  {
    if ValidTime(x) then Some(x) else None
  }

  /** A JavaScript number: NaN or a finite value (infinities are not modelled). */
  datatype Num = NaN | Fin(r: real)

  /** The JavaScript values that reach the core: cells of parsed rows. */
  datatype JsValue = Undefined | Null | Bool(b: bool) | Number(n: Num) | Str(s: string)

  /** `!!v` */
  predicate Truthy(v: JsValue) {
    match v
    case Undefined => false
    case Null => false
    case Bool(b) => b
    case Number(n) => n.Fin? && n.r != 0.0
    case Str(s) => s != ""
  }

  /** The host services the core calls but whose behaviour is the engine's. */
  datatype Env = Env(
    /** `new Date(s).getTime()`, `None` when that is NaN; a valid `Date`
        always holds an instant in range. */
    parse: string -> Option<Instant>,
    /** `new Date(t).getTimezoneOffset()`: minutes UTC is ahead of local time. */
    localOffset: int -> int,
    /** The offset in minutes of zone `z` at instant `t`, as computed through
        `toLocaleString`; `None` when the engine rejects `z` (a RangeError). */
    zoneOffset: (int, string) -> Option<int>,
    /** `String(x)` for a finite number. */
    numToString: real -> string,
    /** `Number(s)`. */
    toNumber: string -> Num,
    /** `parseFloat(s)`. */
    parseFloat: string -> Num)

  /** The engine parses back every string `toISOString` produces. */
  ghost predicate ParsesIso(env: Env) {
    forall t {:trigger IsoString(t)} :: ValidTime(t) ==> env.parse(IsoString(t)) == Some(t)
  }

  /** `String(v)`. */
  function ToJsString(env: Env, v: JsValue): string {
    match v
    case Undefined => "undefined"
    case Null => "null"
    case Bool(b) => if b then "true" else "false"
    case Number(NaN) => "NaN"
    case Number(Fin(r)) => env.numToString(r)
    case Str(s) => s
  }

  /** `isNaN(v)` for a value that is a string or `undefined`, as the CSV
      worker applies it to its cells. */
  predicate IsNaNText(env: Env, v: JsValue) {
    match v
    case Str(s) => env.toNumber(s) == NaN
    case _ => true
  }

  /** `new Date(v)` for a cell value: numbers are instants, strings are
      parsed, `null` and `false` are instant 0, `true` is 1 and `undefined`
      is invalid. */
  function NewDateFromValue(env: Env, v: JsValue): Option<Instant> {
    match v
    case Undefined => None
    case Null => Some(0)
    case Bool(b) => Some(if b then 1 else 0)
    case Number(NaN) => None
    case Number(Fin(r)) => var t := TruncateReal(r); if ValidTime(t) then Some(t) else None
    case Str(s) => env.parse(s)
  }

  /** Rounding toward zero, as TimeClip's ToIntegerOrInfinity does. */
  function TruncateReal(r: real): (i: int)
    ensures r >= 0.0 ==> i as real <= r < i as real + 1.0
    ensures r < 0.0 ==> i as real - 1.0 < r <= i as real
  {
    if r >= 0.0 then r.Floor else -((-r).Floor)
  }

  // ---------------------------------------------------------------------
  // Local time accessors
  // ---------------------------------------------------------------------

  /** LocalTime(t) of section 21.4.1.25 of ECMA-262. */
  function LocalTime(env: Env, t: int): int {
    t - env.localOffset(t) * MsPerMinute
  }

  /** The day number (days since 1970-01-01) of the local calendar day holding
      `t`; the local midnights `d3.timeDay` produces are in one-to-one
      correspondence with these. */
  function LocalDay(env: Env, t: int): int {
    LocalTime(env, t) / MsPerDay
  }

  /** `getHours()`. */
  function Hours(env: Env, t: int): (h: int)
    ensures 0 <= h < 24
  {
    (LocalTime(env, t) / MsPerHour) % 24
  }

  /** `getMinutes()`. */
  function Minutes(env: Env, t: int): (m: int)
    ensures 0 <= m < 60
  {
    (LocalTime(env, t) / MsPerMinute) % 60
  }

  /** `getSeconds()`. */
  function Seconds(env: Env, t: int): (s: int)
    ensures 0 <= s < 60
  {
    (LocalTime(env, t) / MsPerSecond) % 60
  }

  /** The English names of the `getDay()` results, Sunday first. */
  const WeekdayNames: seq<string> := ["Sunday", "Monday", "Tuesday", "Wednesday", "Thursday", "Friday", "Saturday"]

  /** Their three-letter abbreviations. */
  const WeekdayShort: seq<string> := ["Sun", "Mon", "Tue", "Wed", "Thu", "Fri", "Sat"]

  /** `getDay()`: 0 is Sunday; 1970-01-01 was a Thursday. */
  function WeekDay(env: Env, t: int): (d: int)
    ensures 0 <= d < 7
  {
    (LocalDay(env, t) + 4) % 7
  }

  /** `getFullYear()`. */
  function FullYear(env: Env, t: int): int {
    Civil.CivilFromDays(LocalDay(env, t)).year
  }

  /** `getMonth()`: 0 is January. */
  function Month(env: Env, t: int): (m: int)
    ensures 0 <= m < 12
  {
    Civil.CivilFromDays(LocalDay(env, t)).month - 1
  }

  /** `getDate()`: the day of the month. */
  function Date(env: Env, t: int): (d: int)
    ensures 1 <= d <= 31
  {
    Civil.CivilFromDays(LocalDay(env, t)).day
  }

  /** Weekdays and hours of instants in the same local day agree on the day. */
  lemma SameLocalDaySameWeekDay(env: Env, t1: int, t2: int)
    requires LocalDay(env, t1) == LocalDay(env, t2)
    ensures WeekDay(env, t1) == WeekDay(env, t2)
    ensures FullYear(env, t1) == FullYear(env, t2)
  {
  }

  // ---------------------------------------------------------------------
  // toISOString
  // ---------------------------------------------------------------------

  /** `n` in decimal, left-padded with zeros to at least `width` digits. */
  function PadNat(n: nat, width: nat): (s: string)
    ensures |s| >= width && AllDigits(s)
    ensures DigitsValue(s) == n
    ensures |NatToString(n)| <= width ==> |s| == width
    decreases width
  {
    NatToStringRoundTrip(n);
    var d := NatToString(n);
    if |d| >= width then d
    else
      var p := PadNat(n, width - 1);
      if |p| >= width then p
      else
        ZeroPrefixValue(p);
        "0" + p
  }

  lemma ZeroPrefixValue(s: string)
    requires AllDigits(s)
    ensures AllDigits("0" + s) && DigitsValue("0" + s) == DigitsValue(s)
    decreases |s|
  {
    if s != [] {
      var z := "0" + s;
      assert z[..|z| - 1] == "0" + s[..|s| - 1];
      ZeroPrefixValue(s[..|s| - 1]);
    }
  }

  /** The UTC calendar date of an instant. */
  function UtcDate(t: int): Civil.Ymd {
    Civil.CivilFromDays(t / MsPerDay)
  }

  /** The year field of `toISOString`: four digits for years 0..9999,
      otherwise a sign and six digits. */
  function IsoYear(y: int): (s: string)
    ensures 0 <= y <= 9999 ==> |s| == 4 && AllDigits(s)
    ensures 'T' !in s
  {
    if 0 <= y <= 9999 then
      assert |NatToString(y)| <= 4 by {
        if y >= 10 {
          if y / 10 >= 10 {
            assert |NatToString(y / 10 / 10)| <= 2;
          }
        }
      }
      PadNat(y, 4)
    else if y < 0 then "-" + PadNat(-y, 6)
    else "+" + PadNat(y, 6)
  }

  /** `toISOString().split('T')[0]`: the UTC date as "YYYY-MM-DD". */
  function IsoDatePart(t: int): (s: string)
    ensures 'T' !in s
  {
    var date := UtcDate(t);
    IsoYear(date.year) + "-" + TwoDigits(date.month) + "-" + TwoDigits(date.day)
  }

  /** `toISOString()`: "YYYY-MM-DDTHH:mm:ss.sssZ" in UTC. */
  function IsoString(t: int): string
    requires ValidTime(t)
  {
    IsoDatePart(t) + "T" + IsoTimePart(t)
  }

  /** The "HH:mm:ss.sssZ" part of `toISOString()`. */
  function IsoTimePart(t: int): string {
    var ms := t % MsPerDay;
    TwoDigits(ms / MsPerHour) + ":" + TwoDigits(ms / MsPerMinute % 60) + ":"
      + TwoDigits(ms / MsPerSecond % 60) + "." + PadNat(ms % 1000, 3) + "Z"
  }

  /** Splitting the ISO text at its first 'T' gives the date part. */
  lemma IsoSplitDate(t: int)
    requires ValidTime(t)
    ensures Split(IsoString(t), 'T')[0] == IsoDatePart(t)
  {
    var d := IsoDatePart(t);
    var s := IsoString(t);
    assert s[|d|] == 'T';
    assert s[..|d|] == d;
    IndexOfFirst(s, 'T', |d|);
  }

  lemma IndexOfFirst(s: string, c: char, i: nat)
    requires i < |s| && s[i] == c && c !in s[..i]
    ensures IndexOf(s, c) == i
  {
  }

  /** The ISO date part is a faithful key for the UTC day: two instants share
      it exactly when they fall on the same UTC day. */
  lemma IsoDatePartIsDayKey(t1: int, t2: int)
    ensures IsoDatePart(t1) == IsoDatePart(t2) <==> t1 / MsPerDay == t2 / MsPerDay
  {
    if IsoDatePart(t1) == IsoDatePart(t2) {
      IsoDateTextInjective(UtcDate(t1), UtcDate(t2));
      Civil.CivilRoundTrip(t1 / MsPerDay);
      Civil.CivilRoundTrip(t2 / MsPerDay);
    }
  }

  /** Distinct calendar dates have distinct "YYYY-MM-DD" texts. */
  lemma IsoDateTextInjective(d1: Civil.Ymd, d2: Civil.Ymd)
    requires 1 <= d1.month <= 12 && 1 <= d1.day <= 31
    requires 1 <= d2.month <= 12 && 1 <= d2.day <= 31
    requires IsoYear(d1.year) + "-" + TwoDigits(d1.month) + "-" + TwoDigits(d1.day)
             == IsoYear(d2.year) + "-" + TwoDigits(d2.month) + "-" + TwoDigits(d2.day)
    ensures d1 == d2
  {
    var y1, y2 := IsoYear(d1.year), IsoYear(d2.year);
    var m1, m2 := TwoDigits(d1.month), TwoDigits(d2.month);
    var e1, e2 := TwoDigits(d1.day), TwoDigits(d2.day);
    SameTail(y1 + "-" + m1 + "-", e1, y2 + "-" + m2 + "-", e2);
    SameTail(y1 + "-" + m1, "-", y2 + "-" + m2, "-");
    SameTail(y1 + "-", m1, y2 + "-", m2);
    SameTail(y1, "-", y2, "-");
    IsoYearInjective(d1.year, d2.year);
  }

  /** Equal texts ending in equally long parts have equal heads and tails. */
  lemma SameTail(a: string, b: string, c: string, d: string)
    requires a + b == c + d && |b| == |d|
    ensures a == c && b == d
  {
    assert a == (a + b)[..|a|];
    assert c == (c + d)[..|c|];
    assert b == (a + b)[|a|..];
    assert d == (c + d)[|c|..];
  }

  lemma IsoYearInjective(y1: int, y2: int)
    requires IsoYear(y1) == IsoYear(y2)
    ensures y1 == y2
  {
    var s := IsoYear(y1);
    if !(0 <= y1 <= 9999) && !(0 <= y2 <= 9999) {
      assert s[0] == IsoYear(y2)[0];
      assert s[1..] == IsoYear(y2)[1..];
    }
  }
}

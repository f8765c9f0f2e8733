/** The textual date shapes both copies of the datetime detector recognise
    (lib/dateTimeDetector.ts and public/csvWorker.js carry identical lists),
    and the capture-group decompositions the detector applies before it
    builds a date.

    A shape is a small anchored pattern: a sequence of items, each a digit
    count `\d{lo,hi}`, a literal character, a character class or an optional
    group, matched against the whole string as a regular expression between
    `^` and `$` would be. */
module DateFormats {
  import opened Wrappers
  import opened JsStrings

  datatype Item =
    | Digits(lo: nat, hi: nat)      // \d{lo,hi}
    | Char(c: char)                 // a literal character
    | OneOf(cs: seq<char>)          // [..]
    | Opt(body: seq<Item>)          // ( ... )?

  function Size(p: seq<Item>): nat
    decreases p
  {
    if p == [] then 0
    else
      (match p[0] case Opt(body) => 1 + Size(body) case _ => 1) + Size(p[1..])
  }

  lemma SizeAppend(a: seq<Item>, b: seq<Item>)
    ensures Size(a + b) == Size(a) + Size(b)
    decreases a
  {
    if a != [] {
      assert a + b != [];
      assert (a + b)[0] == a[0];
      assert (a + b)[1..] == a[1..] + b;
      SizeAppend(a[1..], b);
    } else {
      assert a + b == b;
    }
  }

  /** `^p$` matches the whole of `s` (with backtracking, so every way of
      choosing digit counts and optional groups is tried). */
  predicate Matches(p: seq<Item>, s: string)
    decreases |s|, Size(p)
  {
    if p == [] then s == []
    else
      match p[0]
      case Digits(lo, hi) =>
        if hi == 0 || hi < lo then lo == 0 && Matches(p[1..], s)
        else
          (lo == 0 && Matches(p[1..], s))
          || (s != [] && IsDigit(s[0])
              && Matches([Digits(if lo == 0 then 0 else lo - 1, hi - 1)] + p[1..], s[1..]))
      case Char(c) => s != [] && s[0] == c && Matches(p[1..], s[1..])
      case OneOf(cs) => s != [] && s[0] in cs && Matches(p[1..], s[1..])
      case Opt(body) =>
        SizeAppend(body, p[1..]);
        Matches(body + p[1..], s) || Matches(p[1..], s)
  }

  /** `\d{n}` */
  function D(n: nat): Item { Digits(n, n) }

  // The ten entries of DATE_FORMATS, in order. The seventh carries the `i`
  // flag, so its `[AP]M` accepts either case.
  const IsoDateTimeT: seq<Item> :=
    [D(4), Char('-'), D(2), Char('-'), D(2), Char('T'), D(2), Char(':'), D(2), Char(':'), D(2),
     Opt([Char('.'), D(3)]), Opt([Char('Z')])]
  const IsoDateTimeSpace: seq<Item> :=
    [D(4), Char('-'), D(2), Char('-'), D(2), Char(' '), D(2), Char(':'), D(2), Char(':'), D(2),
     Opt([Char('.'), D(3)])]
  const IsoDate: seq<Item> := [D(4), Char('-'), D(2), Char('-'), D(2)]
  const UsDate2: seq<Item> := [D(2), Char('/'), D(2), Char('/'), D(4)]
  const UsDate: seq<Item> := [Digits(1, 2), Char('/'), Digits(1, 2), Char('/'), D(4)]
  const SlashDate: seq<Item> := [D(4), Char('/'), D(2), Char('/'), D(2)]
  const UsDateTime: seq<Item> :=
    [Digits(1, 2), Char('/'), Digits(1, 2), Char('/'), D(4), Char(' '), Digits(1, 2), Char(':'), D(2),
     Opt([Char(':'), D(2)]), Opt([Char(' '), OneOf("APap"), OneOf("Mm")])]
  const IsoDateShortTime: seq<Item> :=
    [D(4), Char('-'), D(2), Char('-'), D(2), Char(' '), Digits(1, 2), Char(':'), D(2),
     Opt([Char(':'), D(2)])]
  const Epoch10: seq<Item> := [D(10)]
  const Epoch13: seq<Item> := [D(13)]

  const DateFormatList: seq<seq<Item>> :=
    [IsoDateTimeT, IsoDateTimeSpace, IsoDate, UsDate2, UsDate, SlashDate,
     UsDateTime, IsoDateShortTime, Epoch10, Epoch13]

  /** Some entry of DATE_FORMATS matches `s`. */
  predicate AnyDateFormat(s: string) {
    exists k :: 0 <= k < |DateFormatList| && Matches(DateFormatList[k], s)
  }

  /** `^\d{n}$` matches exactly the strings of `n` digits. */
  lemma {:induction false} ExactDigits(n: nat, s: string)
    ensures Matches([D(n)], s) <==> |s| == n && AllDigits(s)
    decreases n
  {
    if n > 0 && s != [] {
      ExactDigits(n - 1, s[1..]);
      assert [D(n)][1..] == [];
      assert [D(n - 1)] + [] == [D(n - 1)];
    }
  }

  /** `/^\d{10}$/` and `/^\d{13}$/`, the epoch tests of parseDateTime. */
  predicate IsEpochSeconds(s: string) { |s| == 10 && AllDigits(s) }
  predicate IsEpochMillis(s: string) { |s| == 13 && AllDigits(s) }

  /** The epoch tests agree with the last two entries of DATE_FORMATS, so every
      epoch string has a matching format. */
  lemma EpochFormats(s: string)
    ensures Matches(Epoch10, s) <==> IsEpochSeconds(s)
    ensures Matches(Epoch13, s) <==> IsEpochMillis(s)
    ensures IsEpochSeconds(s) || IsEpochMillis(s) ==> AnyDateFormat(s)
  {
    ExactDigits(10, s);
    ExactDigits(13, s);
    if IsEpochSeconds(s) {
      assert Matches(DateFormatList[8], s);
    }
    if IsEpochMillis(s) {
      assert Matches(DateFormatList[9], s);
    }
  }

  // ---------------------------------------------------------------------
  // Digit runs and the capture-group decompositions
  // ---------------------------------------------------------------------

  /** The end of the run of digits starting at `i`. */
  function RunEnd(s: string, i: nat): (j: nat)
    requires i <= |s|
    ensures i <= j <= |s| && AllDigits(s[i..j])
    ensures j < |s| ==> !IsDigit(s[j])
    decreases |s| - i
  {
    if i < |s| && IsDigit(s[i]) then
      var j := RunEnd(s, i + 1);
      assert s[i..j] == [s[i]] + s[i + 1..j];
      j
    else i
  }

  /** `(\d{1,2})` followed by a non-digit `sep`: the captured digits' end, when
      one or two digits sit at `i` and `sep` follows them. */
  function ShortField(s: string, i: nat, sep: char): (r: Option<nat>)
    requires i <= |s| && !IsDigit(sep)
    ensures r.Some? ==> i < r.value < |s| && r.value - i <= 2 && s[r.value] == sep
  {
    var j := RunEnd(s, i);
    if 1 <= j - i <= 2 && j < |s| && s[j] == sep then Some(j) else None
  }

  /** `n` digits at position `i`. */
  predicate DigitsAt(s: string, i: nat, n: nat) {
    i + n <= |s| && AllDigits(s[i..i + n])
  }

  /** The captured fields of a date decomposition; absent time groups are the
      text "0", as the destructuring defaults make them. */
  datatype Parts = Parts(year: string, month: string, day: string,
                         hour: string, minute: string, second: string)

  /** `^(\d{4})-(\d{2})-(\d{2})(?:[T ](\d{2}):(\d{2}):(\d{2}))?` : a prefix
      match, so anything after the matched part is ignored. */
  function IsoParts(s: string): (r: Option<Parts>)
    ensures r.Some? ==> |r.value.year| == 4 && |r.value.month| == 2 && |r.value.day| == 2
  {
    if |s| >= 10 && DigitsAt(s, 0, 4) && s[4] == '-' && DigitsAt(s, 5, 2) && s[7] == '-' && DigitsAt(s, 8, 2) then
      if IsoTimeAt(s) then
        Some(Parts(s[..4], s[5..7], s[8..10], s[11..13], s[14..16], s[17..19]))
      else
        Some(Parts(s[..4], s[5..7], s[8..10], "0", "0", "0"))
    else None
  }

  /** The optional `[T ](\d{2}):(\d{2}):(\d{2})` group after an ISO date. */
  predicate IsoTimeAt(s: string) {
    |s| >= 19 && (s[10] == 'T' || s[10] == ' ') && DigitsAt(s, 11, 2) && s[13] == ':'
    && DigitsAt(s, 14, 2) && s[16] == ':' && DigitsAt(s, 17, 2)
  }

  /** The `(\d{1,2})\/(\d{1,2})\/(\d{4})` head of a US date at the start of
      `s`: the positions of its two slashes. */
  function UsDateAt(s: string): (r: Option<(nat, nat)>)
    ensures r.Some? ==> 0 < r.value.0 <= 2 && r.value.0 < r.value.1 <= r.value.0 + 3
                        && DigitsAt(s, r.value.1 + 1, 4) && s[r.value.0] == '/' && s[r.value.1] == '/'
  {
    var m := ShortField(s, 0, '/');
    if m.None? then None
    else
      var d := ShortField(s, m.value + 1, '/');
      if d.None? || !DigitsAt(s, d.value + 1, 4) then None
      else Some((m.value, d.value))
  }

  /** The optional ` (\d{1,2}):(\d{2})(?::(\d{2}))?` group at position `t`:
      hour, minute and second text, the second "0" when absent. */
  function UsTimeAt(s: string, t: nat): (r: Option<(string, string, string)>)
    requires t <= |s|
    ensures r.Some? ==> 1 <= |r.value.0| <= 2 && |r.value.1| == 2
  {
    if t < |s| && s[t] == ' ' then
      var h := ShortField(s, t + 1, ':');
      if h.Some? && DigitsAt(s, h.value + 1, 2) then
        var mm := h.value + 1;
        var second :=
          if mm + 2 < |s| && s[mm + 2] == ':' && DigitsAt(s, mm + 3, 2) then s[mm + 3..mm + 5] else "0";
        Some((s[t + 1..h.value], s[mm..mm + 2], second))
      else None
    else None
  }

  /** `^(\d{1,2})\/(\d{1,2})\/(\d{4})(?: (\d{1,2}):(\d{2})(?::(\d{2}))?)?` : a
      prefix match; the optional groups are taken whenever they can match. */
  function UsParts(s: string): (r: Option<Parts>)
    ensures r.Some? <==> UsDateAt(s).Some?
  {
    match UsDateAt(s)
    case None => None
    case Some((m, d)) =>
      var month, day, year := s[..m], s[m + 1..d], s[d + 1..d + 5];
      match UsTimeAt(s, d + 5)
      case Some((hour, minute, second)) => Some(Parts(year, month, day, hour, minute, second))
      case None => Some(Parts(year, month, day, "0", "0", "0"))
  }

  /** JavaScript's line terminators, which `.` in a pattern does not match. */
  predicate IsLineTerminator(c: char) {
    c == '\n' || c == '\r' || c == '\U{2028}' || c == '\U{2029}'
  }

  /** `^(\d{1,2})\/(\d{1,2})\/(\d{4})(.*)$` rewritten as
      `${year}-${month.padStart(2,'0')}-${day.padStart(2,'0')}${rest}`;
      `None` when the pattern does not match. */
  function UsDateRewrite(s: string): (r: Option<string>)
  {
    match UsDateAt(s)
    case None => None
    case Some((m, d)) =>
      var rest := s[d + 5..];
      if exists k :: 0 <= k < |rest| && IsLineTerminator(rest[k]) then None
      else Some(s[d + 1..d + 5] + "-" + PadStart2(s[..m]) + "-" + PadStart2(s[m + 1..d]) + rest)
  }

  // ---------------------------------------------------------------------
  // What the decompositions promise
  // ---------------------------------------------------------------------

  /** The ISO decomposition is a prefix match: once the full date-time group
      has matched, any trailing text is ignored. */
  lemma IsoPartsIgnoreSuffix(s: string, x: string)
    requires IsoParts(s).Some? && IsoTimeAt(s)
    ensures IsoParts(s + x) == IsoParts(s)
  {
    var sx := s + x;
    forall i: nat, n: nat | i + n <= |s| ensures DigitsAt(sx, i, n) == DigitsAt(s, i, n) && sx[i..i + n] == s[i..i + n] {
      SlicePrefix(s, x, i, i + n);
    }
    assert sx[..4] == s[..4];
    assert IsoTimeAt(sx);
  }

  lemma SlicePrefix(s: string, x: string, i: nat, j: nat)
    requires i <= j <= |s|
    ensures (s + x)[i..j] == s[i..j]
  {
  }

  /** A date followed by an hour and minute but no seconds does not match the
      optional time group, so its time reads as midnight. */
  lemma IsoShortTimeIsMidnight(date: string, hh: string, mm: string)
    requires IsoParts(date).Some? && |date| == 10
    requires |hh| == 2 && |mm| == 2 && AllDigits(hh) && AllDigits(mm)
    ensures var s := date + " " + hh + ":" + mm;
            IsoParts(s) == Some(Parts(date[..4], date[5..7], date[8..10], "0", "0", "0"))
  {
    var s := date + " " + hh + ":" + mm;
    assert |s| == 16;
    assert s[..10] == date;
    assert s[0..4] == date[0..4] && s[5..7] == date[5..7] && s[8..10] == date[8..10];
  }

  /** A date with no time at all reads as midnight. */
  lemma IsoDateOnlyIsMidnight(s: string)
    requires IsoParts(s).Some? && |s| < 19
    ensures IsoParts(s).value.hour == "0" && IsoParts(s).value.minute == "0"
            && IsoParts(s).value.second == "0"
  {
  }

  /** A US date-time with seconds keeps the same fields when an AM/PM marker
      (or anything else) follows: the marker is ignored. */
  lemma UsPartsIgnoreSuffix(s: string, x: string)
    requires UsParts(s).Some? && UsParts(s).value.second != "0"
    ensures UsParts(s + x) == UsParts(s)
  {
    var sx := s + x;
    UsDateAtOfExtension(s, x);
    var (m, d) := UsDateAt(s).value;
    UsTimeAtOfExtension(s, x, d + 5);
    assert sx[..m] == s[..m];
    SlicePrefix(s, x, m + 1, d);
    SlicePrefix(s, x, d + 1, d + 5);
  }

  lemma UsDateAtOfExtension(s: string, x: string)
    requires UsDateAt(s).Some?
    ensures UsDateAt(s + x) == UsDateAt(s)
  {
    var m := ShortField(s, 0, '/').value;
    ShortFieldOfExtension(s, x, 0, '/');
    ShortFieldOfExtension(s, x, m + 1, '/');
    var d := ShortField(s, m + 1, '/').value;
    SlicePrefix(s, x, d + 1, d + 5);
  }

  lemma UsTimeAtOfExtension(s: string, x: string, t: nat)
    requires t <= |s| && UsTimeAt(s, t).Some? && UsTimeAt(s, t).value.2 != "0"
    ensures UsTimeAt(s + x, t) == UsTimeAt(s, t)
  {
    var sx := s + x;
    var h := ShortField(s, t + 1, ':').value;
    ShortFieldOfExtension(s, x, t + 1, ':');
    SlicePrefix(s, x, h + 1, h + 3);
    SlicePrefix(s, x, h + 4, h + 6);
    SlicePrefix(s, x, t + 1, h);
  }

  /** A `(\d{1,2})` field followed by its separator inside `s` is read the same in `s + x`. */
  lemma ShortFieldOfExtension(s: string, x: string, i: nat, sep: char)
    requires i <= |s| && !IsDigit(sep) && ShortField(s, i, sep).Some?
    ensures ShortField(s + x, i, sep) == ShortField(s, i, sep)
  {
    RunEndOfExtension(s, x, i);
  }

  /** A digit run that ends inside `s` ends at the same place in `s + x`. */
  lemma RunEndOfExtension(s: string, x: string, i: nat)
    requires i <= |s| && RunEnd(s, i) < |s|
    ensures RunEnd(s + x, i) == RunEnd(s, i)
    decreases |s| - i
  {
    if IsDigit(s[i]) {
      RunEndOfExtension(s, x, i + 1);
    }
  }

  /** With no time part, or a time part the group cannot match, a US date reads
      as midnight. */
  lemma UsDateOnlyIsMidnight(month: string, day: string, year: string)
    requires 1 <= |month| <= 2 && 1 <= |day| <= 2 && |year| == 4
    requires AllDigits(month) && AllDigits(day) && AllDigits(year)
    ensures UsParts(month + "/" + day + "/" + year) == Some(Parts(year, month, day, "0", "0", "0"))
  {
    var s := month + "/" + day + "/" + year;
    var m := |month|;
    var d := m + 1 + |day|;
    UsDateFields(month, day, year);
    assert |s| == d + 5;
    assert UsTimeAt(s, d + 5) == None;
  }

  /** The slashes of "M/D/YYYY" sit right after the month and the day. */
  lemma UsDateFields(month: string, day: string, year: string)
    requires 1 <= |month| <= 2 && 1 <= |day| <= 2 && |year| == 4
    requires AllDigits(month) && AllDigits(day) && AllDigits(year)
    ensures var s, m := month + "/" + day + "/" + year, |month|;
            var d := m + 1 + |day|;
            UsDateAt(s) == Some((m, d))
            && s[..m] == month && s[m + 1..d] == day && s[d + 1..d + 5] == year
  {
    var s := month + "/" + day + "/" + year;
    var m := |month|;
    var d := m + 1 + |day|;
    UsSlices(month, day, year);
    RunEndOfField(s, 0, m);
    RunEndOfField(s, m + 1, d);
    assert ShortField(s, 0, '/') == Some(m);
    assert ShortField(s, m + 1, '/') == Some(d);
    assert DigitsAt(s, d + 1, 4);
  }

  lemma UsSlices(month: string, day: string, year: string)
    ensures var s, m := month + "/" + day + "/" + year, |month|;
            var d := m + 1 + |day|;
            |s| == d + 1 + |year| && s[..m] == month && s[m] == '/' && s[m + 1..d] == day && s[d] == '/' && s[d + 1..] == year
  {
    var s, m := month + "/" + day + "/" + year, |month|;
    var d := m + 1 + |day|;
    assert s == month + ("/" + day + "/" + year);
    assert s[..m] == month;
    assert s[m + 1..] == day + "/" + year;
  }

  lemma RunEndOfField(s: string, i: nat, j: nat)
    requires i <= j < |s| && AllDigits(s[i..j]) && !IsDigit(s[j])
    ensures RunEnd(s, i) == j
    decreases j - i
  {
    if i < j {
      assert IsDigit(s[i..j][0]);
      assert s[i + 1..j] == s[i..j][1..];
      RunEndOfField(s, i + 1, j);
    }
  }
}

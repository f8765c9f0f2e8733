/** The proleptic Gregorian calendar that JavaScript's `Date` uses
    (section 21.4.1 of ECMA-262): conversion between a day number (days since
    1970-01-01) and a calendar date. */
module Civil {

  /** A calendar date; `month` runs 1..12 and `day` 1..31. */
  datatype Ymd = Ymd(year: int, month: int, day: int)

  const DaysPer400Years: int := 146097
  /** Days from 0000-03-01 to 1970-01-01. */
  const EpochShift: int := 719468

  /** Year, month and day of a day number. */
  function CivilFromDays(days: int): (r: Ymd)
    ensures 1 <= r.month <= 12 && 1 <= r.day <= 31
  {
    var z := days + EpochShift;
    var era := z / DaysPer400Years;
    var (yoe, doy) := YearOfEra(z % DaysPer400Years);
    var mp := MonthOfYear(doy);
    var d := doy - MonthStart(mp) + 1;
    var m := if mp < 10 then mp + 3 else mp - 9;
    Ymd(if m <= 2 then yoe + era * 400 + 1 else yoe + era * 400, m, d)
  }

  /** Days before month `mp` of a year that starts on 1 March (mp = 0 is March). */
  function MonthStart(mp: int): int
  {
    (153 * mp + 2) / 5
  }

  /** The month (0 = March) that day `doy` of a March-based year falls in. */
  function MonthOfYear(doy: int): (mp: int)
    requires 0 <= doy < 366
    ensures 0 <= mp < 12
    ensures MonthStart(mp) <= doy && doy - MonthStart(mp) < 31
  {
    (5 * doy + 2) / 153
  }

  /** Splits a day of a 400-year era (eras start on 1 March) into the year of
      the era and the day of that year, following the 100-year, 4-year and
      1-year cycles of the Gregorian calendar. */
  function YearOfEra(doe: int): (r: (int, int))
    requires 0 <= doe < DaysPer400Years
    ensures 0 <= r.0 < 400 && 0 <= r.1 < 366
    ensures doe == 365 * r.0 + r.0 / 4 - r.0 / 100 + r.1
    ensures r.1 < DaysInEraYear(r.0)
  {
    var c := if doe / 36524 == 4 then 3 else doe / 36524;
    var rem := doe - 36524 * c;
    var q := rem / 1461;
    var rem2 := rem - 1461 * q;
    var y := if rem2 / 365 == 4 then 3 else rem2 / 365;
    var yoe := 100 * c + 4 * q + y;
    EraYearDivs(c, q, y);
    (yoe, rem2 - 365 * y)
  }

  /** A year of the era written by its centuries, its four-year cycles and its
      years: its quarter and its hundredth drop the smaller parts. */
  lemma EraYearDivs(c: int, q: int, y: int)
    requires 0 <= c <= 3 && 0 <= q <= 24 && 0 <= y <= 3
    ensures (100 * c + 4 * q + y) / 4 == 25 * c + q
    ensures (100 * c + 4 * q + y) / 100 == c
  {
  }

  /** Length of year `yoe` of an era counted from 1 March: 366 when the
      following February has a 29th. */
  function DaysInEraYear(yoe: int): int
  {
    if (yoe + 1) % 4 == 0 && ((yoe + 1) % 100 != 0 || (yoe + 1) % 400 == 0) then 366 else 365
  }

  /** The day number of a calendar date: the inverse of CivilFromDays. */
  function DaysFromCivil(date: Ymd): int
    requires 1 <= date.month <= 12 && 1 <= date.day <= 31
  {
    var y := if date.month <= 2 then date.year - 1 else date.year;
    var era := y / 400;
    var yoe := y % 400;
    var mp := if date.month > 2 then date.month - 3 else date.month + 9;
    var doy := MonthStart(mp) + date.day - 1;
    era * DaysPer400Years + 365 * yoe + yoe / 4 - yoe / 100 + doy - EpochShift
  }

  /** Every day number names a calendar date that converts back to it. */
  lemma CivilRoundTrip(days: int)
    ensures DaysFromCivil(CivilFromDays(days)) == days
  {
    var z := days + EpochShift;
    var era := z / DaysPer400Years;
    var (yoe, doy) := YearOfEra(z % DaysPer400Years);
    var mp := MonthOfYear(doy);
    var date := CivilFromDays(days);
    var y := yoe + era * 400;
    assert (if date.month <= 2 then date.year - 1 else date.year) == y;
    assert (if date.month > 2 then date.month - 3 else date.month + 9) == mp;
    assert MonthStart(mp) + date.day - 1 == doy;
    Div400(era, yoe);
    assert era * DaysPer400Years + z % DaysPer400Years == z;
  }

  /** Division by 400 splits a year into its era and its year of the era. */
  lemma Div400(era: int, yoe: int)
    requires 0 <= yoe < 400
    ensures (yoe + era * 400) / 400 == era && (yoe + era * 400) % 400 == yoe
  {
  }

  /** 1970-01-01 is day 0. */
  lemma EpochIsDayZero()
    ensures CivilFromDays(0) == Ymd(1970, 1, 1)
  {
    assert EpochShift / DaysPer400Years == 4 && EpochShift % DaysPer400Years == 135080;
    // The cycles of day 135080 of the era: 3 centuries, 17 four-year cycles, 1 year.
    assert 135080 / 36524 == 3 && 25508 / 1461 == 17 && 671 / 365 == 1;
    assert YearOfEra(135080) == (369, 306);
    assert MonthOfYear(306) == 10 && MonthStart(10) == 306;
  }
}

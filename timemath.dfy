/**
 * The time arithmetic of the reminder scheduler: `toBkkDateTime` (a Bangkok
 * wall-clock date and time as a UTC instant, through `Date.UTC`),
 * `minutesDiff` (`Math.round` of a difference in minutes), the due window of
 * a threshold, and `toYMD`. Instants are integer milliseconds since the Unix
 * epoch, as `Date.prototype.getTime` returns them.
 */
module TimeMath {
  import opened Wrappers
  import opened Text
  import opened Validation

  const MsPerMinute: int := 60000
  const MsPerHour: int := 3600000
  const MsPerDay: int := 86400000
  /** Bangkok is UTC+7 all year round. */
  const BangkokOffsetHours: int := 7
  /** A threshold `th` fires while the rounded lead time lies in `(th - 6, th]`. */
  const WindowMinutes: int := 6
  /** The largest time value a `Date` can hold (section 21.4.1.1 of ECMA-262). */
  const MaxTimeValue: int := 8_640_000_000_000_000

  // ---------------------------------------- Date.UTC (ECMA-262 section 21.4)

  /** `DayFromYear`: the day number of January 1 of year `y` (`/` is floor here). */
  function DayFromYear(y: int): int {
    365 * (y - 1970) + (y - 1969) / 4 - (y - 1901) / 100 + (y - 1601) / 400
  }

  predicate InLeapYear(y: int) {
    y % 4 == 0 && (y % 100 != 0 || y % 400 == 0)
  }

  /** `DaysInYear` as the standard defines it, case by case. */
  function DaysInYear(y: int): int {
    if y % 4 != 0 then 365
    else if y % 100 != 0 then 366
    else if y % 400 != 0 then 365
    else 366
  }

  /** Days in month `m` (0 = January) of year `y`. */
  function DaysInMonth(y: int, m: int): int
    requires 0 <= m < 12
  {
    if m == 1 then (if InLeapYear(y) then 29 else 28)
    else if m == 3 || m == 5 || m == 8 || m == 10 then 30
    else 31
  }

  /** The day within the year on which month `m` (0 = January) begins. */
  function MonthStart(y: int, m: int): int
    requires 0 <= m < 12
  {
    var leap := if InLeapYear(y) then 1 else 0;
    if m == 0 then 0
    else if m == 1 then 31
    else if m == 2 then 59 + leap
    else if m == 3 then 90 + leap
    else if m == 4 then 120 + leap
    else if m == 5 then 151 + leap
    else if m == 6 then 181 + leap
    else if m == 7 then 212 + leap
    else if m == 8 then 243 + leap
    else if m == 9 then 273 + leap
    else if m == 10 then 304 + leap
    else 334 + leap
  }

  /**
   * `MakeDay(year, month, date)`: months beyond December or before January
   * carry into the year, and days beyond the month's end carry into the next.
   */
  function MakeDay(year: int, month: int, date: int): int {
    var ym := year + month / 12;
    var mn := month % 12;
    DayFromYear(ym) + MonthStart(ym, mn) + date - 1
  }

  function MakeTime(hours: int, minutes: int): int {
    hours * MsPerHour + minutes * MsPerMinute
  }

  /** `TimeClip`: out of range is an invalid date. */
  function TimeClip(t: int): (r: Option<int>)
    ensures r.Some? <==> -MaxTimeValue <= t <= MaxTimeValue
    ensures r.Some? ==> r.value == t
  {
    if -MaxTimeValue <= t <= MaxTimeValue then Some(t) else None
  }

  /**
   * `Date.UTC(year, month, date, hours, minutes, 0, 0)`: a year from 0 to 99
   * means 1900 to 1999.
   */
  function DateUtc(year: int, month: int, date: int, hours: int, minutes: int): (r: Option<int>)
    ensures r.Some? ==> -MaxTimeValue <= r.value <= MaxTimeValue
    ensures r.Some? ==> r.value % MsPerMinute == 0
  {
    var y := if 0 <= year <= 99 then 1900 + year else year;
    var day := MakeDay(y, month, date);
    var v := day * MsPerDay + MakeTime(hours, minutes);
    assert v == MsPerMinute * (day * 1440 + hours * 60 + minutes);
    TimeClip(v)
  }

  /** A year from 0 to 99 is read as the year 1900 more. */
  lemma TwoDigitYears(year: int, month: int, date: int, hours: int, minutes: int)
    requires 0 <= year <= 99
    ensures DateUtc(year, month, date, hours, minutes) == DateUtc(1900 + year, month, date, hours, minutes)
  {
  }

  // ------------------------------------------------------------ properties

  /** The epoch is day 0. */
  lemma EpochIsDayZero()
    ensures MakeDay(1970, 0, 1) == 0
  {
  }

  /** The `floor` terms of `DayFromYear` step up exactly at multiples of 4, 100 and 400. */
  lemma QuadStep(y: int)
    ensures (y - 1968) / 4 - (y - 1969) / 4 == if y % 4 == 0 then 1 else 0
  {
  }

  lemma CenturyStep(y: int)
    ensures (y - 1900) / 100 - (y - 1901) / 100 == if y % 100 == 0 then 1 else 0
  {
  }

  lemma QuadCenturyStep(y: int)
    ensures (y - 1600) / 400 - (y - 1601) / 400 == if y % 400 == 0 then 1 else 0
  {
  }

  /**
   * Consecutive years start `DaysInYear` days apart: the closed formula of
   * `DayFromYear` follows the Gregorian leap-year rule.
   */
  lemma YearLength(y: int)
    ensures DayFromYear(y + 1) - DayFromYear(y) == DaysInYear(y)
  {
    QuadStep(y);
    CenturyStep(y);
    QuadCenturyStep(y);
    if y % 4 != 0 {
      CenturyIsQuad(y);
      QuadCenturyIsCentury(y);
    } else if y % 100 != 0 {
      QuadCenturyIsCentury(y);
    }
  }

  lemma CenturyIsQuad(y: int)
    ensures y % 100 == 0 ==> y % 4 == 0
  {
    if y % 100 == 0 {
      var k := y / 100;
      assert y == 4 * (25 * k);
    }
  }

  lemma QuadCenturyIsCentury(y: int)
    ensures y % 400 == 0 ==> y % 100 == 0
  {
    if y % 400 == 0 {
      var k := y / 400;
      assert y == 100 * (4 * k);
    }
  }

  lemma LeapYearAgrees(y: int)
    ensures DaysInYear(y) == if InLeapYear(y) then 366 else 365
  {
  }

  /** The first of month `m + 1` comes `DaysInMonth(y, m)` days after the first of month `m`. */
  lemma MonthLength(y: int, m: int)
    requires 0 <= m < 12
    ensures MakeDay(y, m + 1, 1) - MakeDay(y, m, 1) == DaysInMonth(y, m)
  {
    assert m / 12 == 0 && m % 12 == m;
    if m == 11 {
      assert 12 / 12 == 1 && 12 % 12 == 0;
      YearLength(y);
      LeapYearAgrees(y);
    } else {
      assert (m + 1) / 12 == 0 && (m + 1) % 12 == m + 1;
      MonthStartStep(y, m);
    }
  }

  lemma MonthStartStep(y: int, m: int)
    requires 0 <= m < 11
    ensures MonthStart(y, m + 1) - MonthStart(y, m) == DaysInMonth(y, m)
  {
  }

  /** `Date.UTC` carries a day past the month's end into the first of the next month. */
  lemma DayOverflow(y: int, m: int)
    requires 0 <= m < 12
    ensures MakeDay(y, m, DaysInMonth(y, m) + 1) == MakeDay(y, m + 1, 1)
  {
    MonthLength(y, m);
  }

  /** Month 12 of a year is January of the next. */
  lemma MonthOverflow(y: int, m: int, d: int)
    ensures MakeDay(y, m + 12, d) == MakeDay(y + 1, m, d)
  {
    assert (m + 12) / 12 == m / 12 + 1 && (m + 12) % 12 == m % 12;
  }

  // ---------------------------------------------------------- toBkkDateTime

  lemma DateDigits(s: string)
    requires IsDateString(s)
    ensures AllDigits(s[..4]) && AllDigits(s[5..7]) && AllDigits(s[8..])
    ensures |s| == 10
  {
  }

  lemma TimeDigits(s: string)
    requires IsTimeString(s)
    ensures AllDigits(s[..2]) && AllDigits(s[3..])
    ensures |s| == 5
  {
  }

  /** `Number` of the year, month and day fields of a `YYYY-MM-DD` string. */
  function YearOf(s: string): nat
    requires IsDateString(s)
  {
    DateDigits(s);
    DigitsValue(s[..4])
  }

  function MonthOf(s: string): nat
    requires IsDateString(s)
  {
    DateDigits(s);
    DigitsValue(s[5..7])
  }

  function DayOf(s: string): nat
    requires IsDateString(s)
  {
    DateDigits(s);
    DigitsValue(s[8..])
  }

  /** `Number` of the hour and minute fields of an `HH:MM` string. */
  function HourOf(s: string): nat
    requires IsTimeString(s)
  {
    TimeDigits(s);
    DigitsValue(s[..2])
  }

  function MinuteOf(s: string): nat
    requires IsTimeString(s)
  {
    TimeDigits(s);
    DigitsValue(s[3..])
  }

  /**
   * `toBkkDateTime(ymd, time)`: `Date.UTC(Y, M - 1, D, h - 7, m, 0, 0)` of the
   * fields. A string outside the validated formats is an invalid date.
   */
  function ToBkkDateTime(ymd: string, time: string): (r: Option<int>)
    ensures r.Some? ==> IsDateString(ymd) && IsTimeString(time)
    ensures r.Some? ==> r.value % MsPerMinute == 0
  {
    if IsDateString(ymd) && IsTimeString(time) then
      DateUtc(YearOf(ymd), MonthOf(ymd) - 1, DayOf(ymd), HourOf(time) - BangkokOffsetHours, MinuteOf(time))
    else None
  }

  function Pow10(n: nat): nat {
    if n == 0 then 1 else 10 * Pow10(n - 1)
  }

  /** `n` digits spell a number below `10^n`. */
  lemma {:induction false} DigitsValueBound(ds: string)
    requires AllDigits(ds)
    ensures DigitsValue(ds) < Pow10(|ds|)
  {
    if |ds| > 0 {
      DigitsValueBound(ds[..|ds| - 1]);
    }
  }

  lemma DayFromYearRange(y: int)
    requires 90 <= y <= 10010
    ensures -690000 <= DayFromYear(y) <= 2940000
  {
  }

  /** `Date.UTC` of fields in the ranges two- and four-digit strings allow is a valid time value. */
  lemma DateUtcInRange(year: int, month: int, date: int, hours: int, minutes: int)
    requires 0 <= year <= 9999 && -1 <= month <= 98 && 0 <= date <= 99
    requires -7 <= hours <= 92 && 0 <= minutes <= 99
    ensures DateUtc(year, month, date, hours, minutes).Some?
  {
    var y := if 0 <= year <= 99 then 1900 + year else year;
    var ym := y + month / 12;
    assert y - 1 <= ym <= y + 8;
    DayFromYearRange(ym);
    var day := MakeDay(y, month, date);
    assert -691000 <= day <= 2941000;
    assert -691000 * MsPerDay <= day * MsPerDay <= 2941000 * MsPerDay;
  }

  lemma DateFieldBounds(ymd: string)
    requires IsDateString(ymd)
    ensures YearOf(ymd) <= 9999 && MonthOf(ymd) <= 99 && DayOf(ymd) <= 99
  {
    DateDigits(ymd);
    DigitsValueBound(ymd[..4]);
    DigitsValueBound(ymd[5..7]);
    DigitsValueBound(ymd[8..]);
    assert Pow10(2) == 100 && Pow10(4) == 10000;
  }

  lemma TimeFieldBounds(time: string)
    requires IsTimeString(time)
    ensures HourOf(time) <= 99 && MinuteOf(time) <= 99
  {
    TimeDigits(time);
    DigitsValueBound(time[..2]);
    DigitsValueBound(time[3..]);
    assert Pow10(2) == 100;
  }

  /**
   * Every event that `validateEventInput` accepted has an instant: the time
   * value of a four-digit year never leaves the range `TimeClip` allows.
   */
  lemma ValidatedEventHasInstant(ymd: string, time: string)
    requires IsDateString(ymd) && IsTimeString(time)
    ensures ToBkkDateTime(ymd, time).Some?
  {
    DateFieldBounds(ymd);
    TimeFieldBounds(time);
    DateUtcInRange(YearOf(ymd), MonthOf(ymd) - 1, DayOf(ymd), HourOf(time) - BangkokOffsetHours, MinuteOf(time));
  }

  /** The minutes since midnight written in an `HH:MM` string. */
  function ClockMinutes(time: string): nat
    requires IsTimeString(time)
  {
    HourOf(time) * 60 + MinuteOf(time)
  }

  /**
   * Two times on the same date are as many minutes apart as their clock
   * readings: the date and the Bangkok offset cancel out.
   */
  lemma SameDayOffset(ymd: string, t1: string, t2: string)
    requires IsDateString(ymd) && IsTimeString(t1) && IsTimeString(t2)
    ensures ToBkkDateTime(ymd, t1).Some? && ToBkkDateTime(ymd, t2).Some?
    ensures ToBkkDateTime(ymd, t2).value - ToBkkDateTime(ymd, t1).value
      == (ClockMinutes(t2) - ClockMinutes(t1)) * MsPerMinute
  {
    ValidatedEventHasInstant(ymd, t1);
    ValidatedEventHasInstant(ymd, t2);
  }

  /** 07:00 in Bangkok is midnight UTC: the instant is a whole number of days. */
  lemma BangkokSevenIsUtcMidnight(ymd: string, time: string)
    requires IsDateString(ymd) && IsTimeString(time)
    requires HourOf(time) == 7 && MinuteOf(time) == 0
    ensures ToBkkDateTime(ymd, time).Some?
    ensures ToBkkDateTime(ymd, time).value % MsPerDay == 0
  {
    ValidatedEventHasInstant(ymd, time);
    var year := YearOf(ymd);
    var y := if 0 <= year <= 99 then 1900 + year else year;
    var day := MakeDay(y, MonthOf(ymd) - 1, DayOf(ymd));
    assert ToBkkDateTime(ymd, time).value == day * MsPerDay;
    WholeDays(day);
  }

  lemma WholeDays(day: int)
    ensures (day * MsPerDay) % MsPerDay == 0
  {
  }

  // ------------------------------------------------------------ minutesDiff

  /**
   * `minutesDiff(a, b)`: `Math.round((a - b) / 60000)`, the whole number of
   * minutes nearest to the difference, a tie rounding up.
   */
  function MinutesDiff(a: int, b: int): (r: int)
    ensures r * MsPerMinute - MsPerMinute / 2 <= a - b < r * MsPerMinute + MsPerMinute / 2
  {
    (a - b + MsPerMinute / 2) / MsPerMinute
  }

  /** The rounding contract has one solution only. */
  lemma RoundingIsUnique(a: int, b: int, r: int)
    requires r * MsPerMinute - MsPerMinute / 2 <= a - b < r * MsPerMinute + MsPerMinute / 2
    ensures r == MinutesDiff(a, b)
  {
    var q := MinutesDiff(a, b);
    assert (r - q) * MsPerMinute < MsPerMinute && (q - r) * MsPerMinute < MsPerMinute;
  }

  /** A whole number of minutes comes out exactly. */
  lemma WholeMinutes(b: int, n: int)
    ensures MinutesDiff(b + n * MsPerMinute, b) == n
  {
    RoundingIsUnique(b + n * MsPerMinute, b, n);
  }

  /** Moving `now` on by `k` minutes lowers the lead time by exactly `k`. */
  lemma MinutesDiffShift(a: int, b: int, k: int)
    ensures MinutesDiff(a, b + k * MsPerMinute) == MinutesDiff(a, b) - k
  {
    RoundingIsUnique(a, b + k * MsPerMinute, MinutesDiff(a, b) - k);
  }

  // ------------------------------------------------------------- due window

  /** `diffMin <= th && diffMin > th - 6`. */
  predicate IsDue(diff: int, th: int)
    ensures IsDue(diff, th) <==> th - 5 <= diff <= th
  {
    th - WindowMinutes < diff <= th
  }

  /** The window holds exactly the six lead times `th - 5` … `th`. */
  lemma DueWindow(diff: int, th: int)
    ensures IsDue(diff, th) <==> diff in {th - 5, th - 4, th - 3, th - 2, th - 1, th}
  {
  }

  /** For the 60-minute threshold: 60 and 55 fire, 61 and 54 do not. */
  lemma DueWindowExamples()
    ensures IsDue(60, 60) && IsDue(55, 60)
    ensures !IsDue(61, 60) && !IsDue(54, 60)
  {
  }

  /** The lead time seen by the tick `k` ticks of five minutes after `now`. */
  function TickDiff(ev: int, now: int, k: nat): int {
    MinutesDiff(ev, now + k * 5 * MsPerMinute)
  }

  lemma TickDiffValue(ev: int, now: int, k: nat)
    ensures TickDiff(ev, now, k) == MinutesDiff(ev, now) - 5 * k
  {
    MinutesDiffShift(ev, now, 5 * k);
  }

  /**
   * With the cron trigger firing every five minutes, a threshold that is not
   * yet past at the first tick is due at some tick: the six-minute window is
   * wider than the tick spacing.
   */
  lemma TicksHitWindow(ev: int, now: int, th: int)
    requires MinutesDiff(ev, now) > th - WindowMinutes
    ensures exists k: nat :: IsDue(TickDiff(ev, now, k), th)
  {
    var d := MinutesDiff(ev, now);
    var k: nat := if d <= th then 0 else (d - th + 4) / 5;
    TickDiffValue(ev, now, k);
    assert IsDue(TickDiff(ev, now, k), th);
  }

  /** At most two ticks, and only adjacent ones, see a threshold as due. */
  lemma AtMostTwoTicksDue(ev: int, now: int, th: int, j: nat, k: nat)
    requires IsDue(TickDiff(ev, now, j), th) && IsDue(TickDiff(ev, now, k), th)
    ensures -1 <= j - k <= 1
  {
    TickDiffValue(ev, now, j);
    TickDiffValue(ev, now, k);
  }

  // ------------------------------------------------------------------ toYMD

  /**
   * `toYMD` of a date whose UTC fields are `year`, `month0` (0 = January) and
   * `date`: the year as `String` writes it, month and day padded to two digits.
   */
  function ToYMD(year: int, month0: int, date: int): (s: string)
    ensures 0 <= month0 < 12 && 1 <= date <= 99 ==>
      var n := |IntToString(year)|;
      && |s| == n + 6
      && s[..n] == IntToString(year)
      && s[n] == '-' && s[n + 3] == '-'
      && AllDigits(s[n + 1..n + 3]) && DigitsValue(s[n + 1..n + 3]) == month0 + 1
      && AllDigits(s[n + 4..]) && DigitsValue(s[n + 4..]) == date
  {
    JoinDate(IntToString(year), TwoDigits(month0 + 1), TwoDigits(date))
  }

  /** `String(n).padStart(2, "0")`. */
  function TwoDigits(n: int): (s: string)
    ensures 1 <= n <= 99 ==> |s| == 2 && AllDigits(s) && DigitsValue(s) == n
  {
    if 1 <= n <= 99 then
      TwoDigitSpelling(n);
      PadStart(IntToString(n), 2, '0')
    else
      PadStart(IntToString(n), 2, '0')
  }

  /** The template `${y}-${m}-${dd}`: where the year, the hyphens and the fields sit. */
  function JoinDate(y: string, m: string, d: string): (r: string)
    ensures |m| == 2 && |d| == 2 ==>
      var n := |y|;
      |r| == n + 6 && r[..n] == y && r[n] == '-' && r[n + 1..n + 3] == m && r[n + 3] == '-' && r[n + 4..] == d
  {
    y + "-" + m + "-" + d
  }

  lemma DigitsValueLeadingZero(ds: string)
    requires AllDigits(ds)
    ensures AllDigits(['0'] + ds) && DigitsValue(['0'] + ds) == DigitsValue(ds)
  {
    if |ds| > 0 {
      var z := ['0'] + ds;
      assert z[..|z| - 1] == ['0'] + ds[..|ds| - 1];
      DigitsValueLeadingZero(ds[..|ds| - 1]);
    } else {
      assert (['0'] + ds)[..0] == [];
    }
  }

  /** A day or month number spelled in two digits. */
  lemma TwoDigitSpelling(n: int)
    requires 1 <= n <= 99
    ensures var s := PadStart(IntToString(n), 2, '0');
      |s| == 2 && AllDigits(s) && DigitsValue(s) == n
  {
    var d := NatToString(n);
    if n >= 10 {
      assert d == NatToString(n / 10) + [DigitChar(n % 10)];
    } else {
      assert d == [DigitChar(n)];
      assert PadStart(d, 2, '0') == ['0'] + d;
      DigitsValueLeadingZero(d);
    }
  }

  lemma FourDigitSpelling(n: int)
    requires 1000 <= n <= 9999
    ensures |IntToString(n)| == 4 && AllDigits(IntToString(n)) && DigitsValue(IntToString(n)) == n
  {
    assert IntToString(n) == NatToString(n);
    NatLength(n / 1000, 1);
    NatLength(n / 100, 2);
    NatLength(n / 10, 3);
    NatLength(n, 4);
  }

  /** One more digit for a number ten times larger. */
  lemma NatLength(n: nat, k: nat)
    requires k >= 1 && (k == 1 ==> n < 10) && (k > 1 ==> n >= 10 && |NatToString(n / 10)| == k - 1)
    ensures |NatToString(n)| == k
  {
  }

  lemma DateConcat(y: string, m: string, d: string)
    requires |y| == 4 && |m| == 2 && |d| == 2
    requires AllDigits(y) && AllDigits(m) && AllDigits(d)
    ensures var s := y + "-" + m + "-" + d;
      && IsDateString(s)
      && YearOf(s) == DigitsValue(y) && MonthOf(s) == DigitsValue(m) && DayOf(s) == DigitsValue(d)
  {
    var s := y + "-" + m + "-" + d;
    assert s[..4] == y && s[5..7] == m && s[8..] == d;
    assert forall i :: 0 <= i < 10 ==> if DatePattern[i] == '#' then IsDigit(s[i]) else s[i] == DatePattern[i] by {
      forall i | 0 <= i < 10 ensures if DatePattern[i] == '#' then IsDigit(s[i]) else s[i] == DatePattern[i] {
        if i < 4 { assert s[i] == y[i]; }
        else if 5 <= i < 7 { assert s[i] == m[i - 5]; }
        else if 8 <= i { assert s[i] == d[i - 8]; }
      }
    }
  }

  /**
   * Round trip with the date format: `toYMD` of a date in a four-digit year
   * is a string `validateEventInput` accepts as a date, and `toBkkDateTime`
   * reads back the same year, month and day.
   */
  lemma ToYMDRoundTrip(year: int, month0: int, date: int)
    requires 1000 <= year <= 9999 && 0 <= month0 < 12 && 1 <= date <= 31
    ensures var s := ToYMD(year, month0, date);
      && IsDateString(s)
      && YearOf(s) == year && MonthOf(s) == month0 + 1 && DayOf(s) == date
  {
    FourDigitSpelling(year);
    TwoDigitSpelling(month0 + 1);
    TwoDigitSpelling(date);
    DateConcat(IntToString(year), PadStart(IntToString(month0 + 1), 2, '0'), PadStart(IntToString(date), 2, '0'));
  }
}

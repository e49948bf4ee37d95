/** `format_utc`: days to a civil date by Hinnant's algorithm, against the Gregorian calendar and
    the formula for Seconds Since the Epoch (section 4.16 of the POSIX.1-2017 Base Definitions). */
module Calendar {
  import opened Ledger

  datatype Utc = Utc(year: nat, month: nat, day: nat, hour: nat, minute: nat, second: nat)

  // ---- The Gregorian calendar ----

  predicate Leap(y: nat) { y % 4 == 0 && (y % 100 != 0 || y % 400 == 0) }

  function LeapDay(y: nat): nat { if Leap(y) then 1 else 0 }

  function DaysInMonth(y: nat, m: nat): nat {
    if m == 2 then 28 + LeapDay(y)
    else if m == 4 || m == 6 || m == 9 || m == 11 then 30 else 31
  }

  predicate ValidUtc(u: Utc) {
    && 1 <= u.month <= 12 && 1 <= u.day <= DaysInMonth(u.year, u.month)
    && u.hour < 24 && u.minute < 60 && u.second < 60
  }

  /** Days of the year before month `m`. */
  function DaysBefore(y: nat, m: nat): nat
    requires 1 <= m <= 12
  {
    if m == 1 then 0 else DaysBefore(y, m - 1) + DaysInMonth(y, m - 1)
  }

  /** POSIX `tm_yday`: days since January 1. */
  function YearDay(u: Utc): nat
    requires ValidUtc(u)
  {
    DaysBefore(u.year, u.month) + u.day - 1
  }

  /** Days from the epoch to January 1 of year `y`: the leap-year terms of the POSIX formula. */
  function YearStart(y: nat): int
    requires y >= 1970
  {
    (y - 1970) * 365 + (y - 1969) / 4 - (y - 1901) / 100 + (y - 1601) / 400
  }

  /** Seconds Since the Epoch for a broken-down time, with `tm_year` counted from 1900. */
  function SinceEpoch(u: Utc): int
    requires ValidUtc(u) && u.year >= 1970
  {
    var y := u.year - 1900;
    u.second + u.minute * 60 + u.hour * 3600 + YearDay(u) * 86400
    + (y - 70) * 31536000 + ((y - 69) / 4) * 86400 - ((y - 1) / 100) * 86400 + ((y + 299) / 400) * 86400
  }

  // ---- The algorithm ----

  /** Day of a 400-year era to year of the era and day of the year, both counted from March 1. */
  function YearOfEra(doe: nat): nat
    requires doe <= 146096
  {
    (doe - doe / 1460 + doe / 36524 - doe / 146096) / 365
  }

  function DaysToYear(yoe: nat): nat { 365 * yoe + yoe / 4 - yoe / 100 }

  /** An era day splits into century, four-year group, year and day; the formulas find the split. */
  lemma EraDay(doe: nat)
    requires doe <= 146096
    ensures YearOfEra(doe) <= 399 && DaysToYear(YearOfEra(doe)) <= doe
    ensures doe - DaysToYear(YearOfEra(doe)) <= 365
    ensures doe - DaysToYear(YearOfEra(doe)) == 365 ==> Leap(YearOfEra(doe) + 1)
  {
    var c := if doe == 146096 then 3 else doe / 36524;
    var r := doe - 36524 * c;
    var q := r / 1461;
    var r2 := r - 1461 * q;
    var e := doe / 1460 - 25 * c - q;
    assert 0 <= c <= 3 && 0 <= r <= 36524 && 0 <= q <= 24 && 0 <= r2 <= 1460;
    assert doe == 1460 * (25 * c + q) + (24 * c + q + r2);
    assert 0 <= e <= 1 && (e == 1 <==> 24 * c + q + r2 >= 1460);
    var y1 := if r2 == 1460 then 3 else r2 / 365;
    assert doe - doe / 1460 + doe / 36524 - doe / 146096 == 365 * (100 * c + 4 * q) + r2 - e;
    assert (r2 - e) / 365 == y1;
    var yoe := 100 * c + 4 * q + y1;
    assert YearOfEra(doe) == yoe;
    assert yoe / 4 == 25 * c + q && yoe / 100 == c;
    assert DaysToYear(yoe) == 36524 * c + 1461 * q + 365 * y1;
  }

  /** Day of a year counted from March 1 to month and day of the month. */
  function MonthIndex(doy: nat): nat { (5 * doy + 2) / 153 }

  /** `format_utc` up to the padding of the numbers. Every subtraction stays in the naturals. */
  function FormatUtc(timestamp: nat): (u: Utc)
    requires timestamp <= U64_MAX
    ensures ValidUtc(u) && u.year >= 1970
  {
    var secs := timestamp % 86400;
    var z := timestamp / 86400 + 719468;
    var era := z / 146097;
    var doe := z - era * 146097;
    var yoe := YearOfEra(doe);
    EraDay(doe);
    var doy := doe - DaysToYear(yoe);
    var mp := MonthIndex(doy);
    var y := yoe + era * 400;
    Cycle(era, yoe);
    MonthDay(doy, if doy < 306 then y else y + 1);
    var d := doy - (153 * mp + 2) / 5 + 1;
    var m := if mp < 10 then mp + 3 else mp - 9;
    assert era >= 4 && (era == 4 ==> doe >= 135080);
    FromMarch1970(era, doe);
    Utc(if m <= 2 then y + 1 else y, m, d, secs / 3600, (secs % 3600) / 60, secs % 60)
  }

  /** The month table: months from March have 31, 30, 31, 30, 31 days over and over. `y` is the
      civil year, so that a 366th day needs `y` to be leap. */
  lemma MonthDay(doy: nat, y: nat)
    requires doy <= 365 && (doy == 365 ==> Leap(y))
    ensures MonthIndex(doy) <= 11 && (153 * MonthIndex(doy) + 2) / 5 <= doy
    ensures
      var mp := MonthIndex(doy);
      var m := if mp < 10 then mp + 3 else mp - 9;
      var d := doy - (153 * mp + 2) / 5 + 1;
      && (mp < 10 <==> doy < 306)
      && d <= DaysInMonth(y, m)
      && DaysBefore(y, m) + d == if mp < 10 then doy + 60 + LeapDay(y) else doy - 305
  {
    hide Leap;
    MonthStarts(y);
    var mp := MonthIndex(doy);
    assert 153 * mp <= 5 * doy + 2 < 153 * mp + 153;
    assert 0 <= mp <= 11;
  }

  lemma MonthStarts(y: nat)
    ensures DaysBefore(y, 2) == 31 && DaysBefore(y, 3) == 59 + LeapDay(y)
    ensures DaysBefore(y, 4) == 90 + LeapDay(y) && DaysBefore(y, 5) == 120 + LeapDay(y)
    ensures DaysBefore(y, 6) == 151 + LeapDay(y) && DaysBefore(y, 7) == 181 + LeapDay(y)
    ensures DaysBefore(y, 8) == 212 + LeapDay(y) && DaysBefore(y, 9) == 243 + LeapDay(y)
    ensures DaysBefore(y, 10) == 273 + LeapDay(y) && DaysBefore(y, 11) == 304 + LeapDay(y)
    ensures DaysBefore(y, 12) == 334 + LeapDay(y)
  {
    hide Leap;
    assert DaysBefore(y, 2) == 31;
    assert DaysBefore(y, 3) == 59 + LeapDay(y);
    assert DaysBefore(y, 4) == 90 + LeapDay(y);
    assert DaysBefore(y, 5) == 120 + LeapDay(y);
    assert DaysBefore(y, 6) == 151 + LeapDay(y);
    assert DaysBefore(y, 7) == 181 + LeapDay(y);
    assert DaysBefore(y, 8) == 212 + LeapDay(y);
    assert DaysBefore(y, 9) == 243 + LeapDay(y);
    assert DaysBefore(y, 10) == 273 + LeapDay(y);
    assert DaysBefore(y, 11) == 304 + LeapDay(y);
  }

  lemma Mod4(y: nat, n: nat)
    ensures (y + 4 * n) % 4 == y % 4
  {
  }

  lemma Mod100(y: nat, n: nat)
    ensures (y + 100 * n) % 100 == y % 100
  {
  }

  lemma Mod400(y: nat, n: nat)
    ensures (y + 400 * n) % 400 == y % 400
  {
  }

  /** The leap rule repeats every 400 years. */
  lemma Cycle(era: nat, yoe: nat)
    requires yoe <= 399
    ensures Leap(yoe + era * 400 + 1) <==> Leap(yoe + 1)
  {
    Mod4(yoe + 1, 100 * era);
    Mod100(yoe + 1, 4 * era);
    Mod400(yoe + 1, era);
  }

  /** Era days from 1 January 1970 on have a year of at least 1970 once January belongs to it. */
  lemma FromMarch1970(era: nat, doe: nat)
    requires doe <= 146096 && era >= 4 && (era == 4 ==> doe >= 135080)
    ensures
      var yoe := YearOfEra(doe);
      yoe + era * 400 >= 1970 || (yoe + era * 400 == 1969 && doe >= DaysToYear(yoe) + 306)
  {
    EraDay(doe);
    var yoe := YearOfEra(doe);
    if era == 4 {
      assert yoe >= 369;
      assert DaysToYear(369) == 134774;
    }
  }

  // ---- The round trip ----

  lemma EpochInDays(u: Utc)
    requires ValidUtc(u) && u.year >= 1970
    ensures SinceEpoch(u) == (YearStart(u.year) + YearDay(u)) * 86400 + u.hour * 3600 + u.minute * 60 + u.second
  {
    var y := u.year - 1900;
    assert y - 69 == u.year - 1969 && y - 1 == u.year - 1901 && y + 299 == u.year - 1601;
  }

  lemma By4(y: nat)
    requires y >= 1970
    ensures (y - 1968) / 4 - (y - 1969) / 4 == if y % 4 == 0 then 1 else 0
  {
  }

  lemma By100(y: nat)
    requires y >= 1970
    ensures (y - 1900) / 100 - (y - 1901) / 100 == if y % 100 == 0 then 1 else 0
    ensures y % 100 == 0 ==> y % 4 == 0
  {
  }

  lemma By400(y: nat)
    requires y >= 1970
    ensures (y - 1600) / 400 - (y - 1601) / 400 == if y % 400 == 0 then 1 else 0
    ensures y % 400 == 0 ==> y % 100 == 0
  {
  }

  lemma YearLength(y: nat)
    requires y >= 1970
    ensures YearStart(y + 1) == YearStart(y) + 365 + LeapDay(y)
  {
    By4(y);
    By100(y);
    By400(y);
  }

  /** The era count of days places the January after March-year `yoe` where POSIX does. */
  lemma JanuaryOfEra(era: nat, yoe: nat)
    requires yoe <= 399 && yoe + era * 400 >= 1969
    ensures YearStart(yoe + era * 400 + 1) + 719468 == 146097 * era + DaysToYear(yoe) + 306
  {
    var y := yoe + 400 * era;
    assert (y - 1968) / 4 == yoe / 4 + 100 * era - 492;
    assert (y - 1900) / 100 == yoe / 100 + 4 * era - 19;
    assert (y - 1600) / 400 == era - 4;
  }

  /** Reading the formatted time back gives the timestamp. */
  lemma FormatRoundTrip(timestamp: nat)
    requires timestamp <= U64_MAX
    ensures SinceEpoch(FormatUtc(timestamp)) == timestamp
  {
    hide Leap, DaysBefore, YearOfEra, DaysToYear, MonthIndex, DaysInMonth, YearStart, SinceEpoch;
    var u := FormatUtc(timestamp);
    var days, secs := timestamp / 86400, timestamp % 86400;
    EpochInDays(u);
    DateRoundTrip(timestamp);
    assert u.hour * 3600 + u.minute * 60 + u.second == secs;
  }

  lemma DateRoundTrip(timestamp: nat)
    requires timestamp <= U64_MAX
    ensures var u := FormatUtc(timestamp); YearStart(u.year) + YearDay(u) == timestamp / 86400
  {
    hide Leap, DaysBefore, YearOfEra, DaysToYear, DaysInMonth, YearStart;
    var z := timestamp / 86400 + 719468;
    var era := z / 146097;
    var doe := z - era * 146097;
    EraDay(doe);
    var yoe := YearOfEra(doe);
    var doy := doe - DaysToYear(yoe);
    var y := yoe + era * 400;
    Cycle(era, yoe);
    FromMarch1970(era, doe);
    JanuaryOfEra(era, yoe);
    if doy < 306 {
      MonthDay(doy, y);
      YearLength(y);
    } else {
      MonthDay(doy, y + 1);
    }
  }

  // ---- Nothing else reads back to the same timestamp ----

  lemma {:induction false} YearsAscend(y: nat, w: nat)
    requires 1970 <= y < w
    ensures YearStart(y) + 365 + LeapDay(y) <= YearStart(w)
    decreases w
  {
    hide YearStart, Leap;
    if w == y + 1 {
      YearLength(y);
    } else {
      YearsAscend(y, w - 1);
      YearLength(w - 1);
    }
  }

  lemma YearDayBound(u: Utc)
    requires ValidUtc(u)
    ensures 0 <= YearDay(u) < 365 + LeapDay(u.year)
  {
    hide Leap;
    MonthStarts(u.year);
  }

  lemma YearDayInjective(u: Utc, v: Utc)
    requires ValidUtc(u) && ValidUtc(v) && u.year == v.year && YearDay(u) == YearDay(v)
    ensures u.month == v.month && u.day == v.day
  {
    hide Leap;
    MonthStarts(u.year);
  }

  /** The POSIX formula gives distinct values to distinct valid times. */
  lemma EpochInjective(u: Utc, v: Utc)
    requires ValidUtc(u) && ValidUtc(v) && u.year >= 1970 && v.year >= 1970
    requires SinceEpoch(u) == SinceEpoch(v)
    ensures u == v
  {
    hide YearStart, Leap, DaysBefore, SinceEpoch, DaysInMonth, YearDay;
    EpochInDays(u);
    EpochInDays(v);
    YearDayBound(u);
    YearDayBound(v);
    assert YearStart(u.year) + YearDay(u) == YearStart(v.year) + YearDay(v);
    if u.year < v.year {
      YearsAscend(u.year, v.year);
    } else if v.year < u.year {
      YearsAscend(v.year, u.year);
    }
    YearDayInjective(u, v);
  }

  /** A timestamp formats to the one valid time whose Seconds Since the Epoch it is. */
  lemma FormatIsInverse(timestamp: nat, u: Utc)
    requires timestamp <= U64_MAX && ValidUtc(u) && u.year >= 1970
    ensures FormatUtc(timestamp) == u <==> SinceEpoch(u) == timestamp
  {
    hide YearStart, Leap, DaysBefore, SinceEpoch, DaysInMonth, YearDay;
    FormatRoundTrip(timestamp);
    if SinceEpoch(u) == timestamp {
      EpochInjective(u, FormatUtc(timestamp));
    }
  }
}

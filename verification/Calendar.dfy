/** nq_gmtimems of libnetq/Time.c against the Gregorian calendar. */
module Calendar {

  // ---------- the calendar

  predicate Leap(y: int) {
    y % 4 == 0 && (y % 100 != 0 || y % 400 == 0)
  }

  function YearLength(leap: bool): nat {
    if leap then 366 else 365
  }

  /** Days from 1970-01-01 to the first day of year `y`; the calendar is continued before its introduction. */
  function YearStart(y: int): int
    decreases if y < 1970 then 1970 - y else y - 1970
  {
    if y == 1970 then 0
    else if y > 1970 then YearStart(y - 1) + YearLength(Leap(y - 1))
    else YearStart(y + 1) - YearLength(Leap(y))
  }

  function MonthLength(leap: bool, m: nat): nat
    requires m < 12
  {
    if m == 1 then (if leap then 29 else 28)
    else if m == 3 || m == 5 || m == 8 || m == 10 then 30
    else 31
  }

  /** Days before month `m`, counted from 0. */
  function MonthStart(leap: bool, m: nat): nat
    requires m <= 12
  {
    if m == 0 then 0 else MonthStart(leap, m - 1) + MonthLength(leap, m - 1)
  }

  /** Days from 1970-01-01 to a date. */
  function DaysFromDate(y: int, m: nat, d: nat): int
    requires m < 12
  {
    YearStart(y) + MonthStart(Leap(y), m) + d - 1
  }

  // ---------- the fields of struct tm

  /** `year` is counted from 1900, `mon` and `yday` from 0, as in the C library. */
  datatype Tm = Tm(year: int, mon: nat, mday: int, yday: int, wday: int, hour: int, min: int, sec: int)

  const MS_PER_DAY := 86400000
  const MS_PER_YEAR := 365 * MS_PER_DAY
  const MS_PER_4YEAR := 1461 * MS_PER_DAY

  /** s_lpdays and s_days: the last day of each month. */
  function MonthEnds(leap: bool): (r: seq<int>)
    ensures |r| == 13
  {
    if leap then [-1, 30, 59, 90, 120, 151, 181, 212, 243, 273, 304, 334, 365]
    else [-1, 30, 58, 89, 119, 150, 180, 211, 242, 272, 303, 333, 364]
  }

  lemma MonthEndsAre(leap: bool, m: nat)
    requires m <= 12
    ensures MonthEnds(leap)[m] == MonthStart(leap, m) - 1
    decreases m
  {
  }

  /** The calendar the function follows: every fourth year is a leap year. */
  predicate FourLeap(y: int) {
    y % 4 == 0
  }

  function FourYearStart(y: int): (r: int)
    ensures y >= 1970 ==> r >= 0
    decreases if y < 1970 then 1970 - y else y - 1970
  {
    if y == 1970 then 0
    else if y > 1970 then FourYearStart(y - 1) + YearLength(FourLeap(y - 1))
    else FourYearStart(y + 1) - YearLength(FourLeap(y))
  }

  lemma {:induction false} FourYears(q: nat)
    ensures FourYearStart(1970 + 4 * q) == 1461 * q
    decreases q
  {
    if q > 0 {
      FourYears(q - 1);
      var y := 1970 + 4 * (q - 1);
      assert FourYearStart(y + 1) == FourYearStart(y) + 365;
      assert FourYearStart(y + 2) == FourYearStart(y + 1) + 365;
      assert FourYearStart(y + 3) == FourYearStart(y + 2) + 366;
      assert FourYearStart(y + 4) == FourYearStart(y + 3) + 365;
    }
  }

  /** Division of signed numbers in C: towards zero. */
  function CDiv(a: int, b: nat): int
    requires b > 0
  {
    if a >= 0 then a / b else -(-a / b)
  }

  function CMod(a: int, b: nat): int
    requires b > 0
  {
    a - CDiv(a, b) * b
  }

  /** What the function computes from 1970 on, whatever calendar it is compared with. */
  ghost predicate FourTime(time: nat, t: Tm, ms: int) {
    && t.year >= 70 && t.mon < 12 && 1 <= t.mday <= MonthLength(FourLeap(t.year + 1900), t.mon)
    && t.yday == MonthStart(FourLeap(t.year + 1900), t.mon) + t.mday - 1
    && FourYearStart(t.year + 1900) + t.yday == time / MS_PER_DAY
    && t.wday == (time / MS_PER_DAY + 4) % 7
    && 0 <= t.hour < 24 && 0 <= t.min < 60 && 0 <= t.sec < 60 && 0 <= ms < 1000
    && ((t.hour * 60 + t.min) * 60 + t.sec) * 1000 + ms == time % MS_PER_DAY
  }

  /** What it computes before 1970: no field of the time of day is above 0, and the fields count back from the first
      day of the year that is the next to start a period of four years. */
  ghost predicate BackTime(time: int, t: Tm, ms: int) {
    && t.year == 70 + 4 * CDiv(time, MS_PER_4YEAR) && t.mon == 0 && t.mday == t.yday + 1
    && -1461 < t.yday <= 0 && -24 < t.hour <= 0 && -60 < t.min <= 0 && -60 < t.sec <= 0 && -1000 < ms <= 0
    && t.yday * MS_PER_DAY + ((t.hour * 60 + t.min) * 60 + t.sec) * 1000 + ms == CMod(time, MS_PER_4YEAR)
    && t.wday == CMod(CDiv(time, MS_PER_DAY) + 4, 7)
  }

  method GmTimeMs(time: int) returns (tm: Tm, ms: int)
    ensures if time >= 0 then FourTime(time, tm, ms) else BackTime(time, tm, ms)
  {
    hide FourYearStart, MonthStart, MonthLength, CDiv, CMod, FourLeap, YearLength;
    ms := CMod(time, 1000);
    var year, leap, ctimer := FindYear(time);
    var yday := CDiv(ctimer, MS_PER_DAY);
    ctimer := ctimer - yday * MS_PER_DAY;
    if time >= 0 {
      CountsOn(time, FourYearStart(year + 1900), ctimer + yday * MS_PER_DAY, leap);
    } else {
      CountsBack(time, ctimer + yday * MS_PER_DAY);
    }
    var mon, mday := FindMonth(leap, yday);
    var hour, min, sec := Clock(ctimer);
    tm := Tm(year, mon, mday, yday, CMod(CDiv(time, MS_PER_DAY) + 4, 7), hour, min, sec);
  }

  /** The year, and how far into it the time is. */
  method FindYear(time: int) returns (year: int, leap: bool, ctimer: int)
    ensures time >= 0 ==>
              && year >= 70 && leap == FourLeap(year + 1900) && 0 <= ctimer < YearLength(leap) * MS_PER_DAY
              && time == FourYearStart(year + 1900) * MS_PER_DAY + ctimer
    ensures time < 0 ==> year == 70 + 4 * CDiv(time, MS_PER_4YEAR) && !leap && ctimer == CMod(time, MS_PER_4YEAR)
  {
    hide FourYearStart;
    leap, ctimer := false, time;
    var cycles := CDiv(ctimer, MS_PER_4YEAR);
    ctimer := ctimer - cycles * MS_PER_4YEAR;
    year := cycles * 4 + 70;
    if time >= 0 {
      FourYears(cycles);
      NextYears(1970 + 4 * cycles);
    }
    if ctimer >= MS_PER_YEAR {
      year := year + 1;
      ctimer := ctimer - MS_PER_YEAR;
      if ctimer >= MS_PER_YEAR {
        year := year + 1;
        ctimer := ctimer - MS_PER_YEAR;
        if ctimer < MS_PER_YEAR + MS_PER_DAY {
          leap := true;
        } else {
          year := year + 1;
          ctimer := ctimer - (MS_PER_YEAR + MS_PER_DAY);
        }
      }
    }
  }

  method Clock(time: int) returns (hour: int, min: int, sec: int)
    requires -MS_PER_DAY < time < MS_PER_DAY
    ensures time >= 0 ==> 0 <= hour < 24 && 0 <= min < 60 && 0 <= sec < 60
    ensures time <= 0 ==> -24 < hour <= 0 && -60 < min <= 0 && -60 < sec <= 0
    ensures ((hour * 60 + min) * 60 + sec) * 1000 + CMod(time, 1000) == time
  {
    var ctimer := time;
    hour := CDiv(ctimer, 3600000);
    ctimer := ctimer - hour * 3600000;
    min := CDiv(ctimer, 60000);
    ctimer := ctimer - min * 60000;
    sec := CDiv(ctimer, 1000);
  }

  /** The parts of a time before 1970 that the function cuts off are none of them above 0. */
  lemma CountsBack(time: int, rest: int)
    requires time < 0 && rest == CMod(time, MS_PER_4YEAR)
    ensures CMod(rest, MS_PER_DAY) == rest - CDiv(rest, MS_PER_DAY) * MS_PER_DAY
    ensures -1461 < CDiv(rest, MS_PER_DAY) <= 0 < YearLength(false) && -MS_PER_DAY < CMod(rest, MS_PER_DAY) <= 0
    ensures -1000 < CMod(time, 1000) == CMod(CMod(rest, MS_PER_DAY), 1000) <= 0
  {
    DayOfYear(-time, -time / MS_PER_4YEAR * 1461, -rest);
  }

  /** The parts of a time from 1970 on. */
  lemma CountsOn(time: nat, start: nat, rest: nat, leap: bool)
    requires time == start * MS_PER_DAY + rest && rest < YearLength(leap) * MS_PER_DAY
    ensures CMod(rest, MS_PER_DAY) == rest - CDiv(rest, MS_PER_DAY) * MS_PER_DAY
    ensures 0 <= CDiv(rest, MS_PER_DAY) < YearLength(leap) && start + CDiv(rest, MS_PER_DAY) == time / MS_PER_DAY
    ensures CMod(rest, MS_PER_DAY) == time % MS_PER_DAY < MS_PER_DAY
    ensures 0 <= CMod(time, 1000) == CMod(CMod(rest, MS_PER_DAY), 1000) < 1000
    ensures CMod(CDiv(time, MS_PER_DAY) + 4, 7) == (time / MS_PER_DAY + 4) % 7
  {
    DayOfYear(time, start, rest);
  }

  lemma DayOfYear(time: nat, start: nat, rest: nat)
    requires time == start * MS_PER_DAY + rest
    ensures start + rest / MS_PER_DAY == time / MS_PER_DAY && rest % MS_PER_DAY == time % MS_PER_DAY
    ensures time % 1000 == rest % MS_PER_DAY % 1000
  {
  }

  lemma NextYears(y: nat)
    requires y >= 1970 && y % 4 == 2
    ensures FourYearStart(y + 1) == FourYearStart(y) + 365 && FourYearStart(y + 2) == FourYearStart(y) + 730
    ensures FourYearStart(y + 3) == FourYearStart(y) + 1096
  {
  }

  /** The loop over the table of month ends. */
  method FindMonth(leap: bool, yday: int) returns (mon: nat, mday: int)
    requires yday < YearLength(leap)
    ensures yday >= 0 ==> mon < 12 && 1 <= mday <= MonthLength(leap, mon) && yday == MonthStart(leap, mon) + mday - 1
    ensures yday <= 0 ==> mon == 0 && mday == yday + 1
  {
    var mdays := MonthEnds(leap);
    var i := 1;
    while mdays[i] < yday
      invariant 1 <= i <= 12 && (i == 1 || mdays[i - 1] < yday)
      decreases 12 - i
    {
      i := i + 1;
    }
    mon := i - 1;
    mday := yday - mdays[mon];
    MonthEndsAre(leap, mon);
    MonthEndsAre(leap, i);
  }

  // ---------- against the Gregorian calendar

  /** The date and time are those of the Gregorian calendar, continued into the past. */
  ghost predicate Gregorian(time: int, t: Tm, ms: int) {
    && t.mon < 12 && 1 <= t.mday <= MonthLength(Leap(t.year + 1900), t.mon)
    && DaysFromDate(t.year + 1900, t.mon, t.mday) == time / MS_PER_DAY
    && t.yday == MonthStart(Leap(t.year + 1900), t.mon) + t.mday - 1
    && t.wday == (time / MS_PER_DAY + 4) % 7
    && 0 <= t.hour < 24 && 0 <= t.min < 60 && 0 <= t.sec < 60 && 0 <= ms < 1000
    && time == time / MS_PER_DAY * MS_PER_DAY + ((t.hour * 60 + t.min) * 60 + t.sec) * 1000 + ms
  }

  /** The first day after 28 February 2100, which the calendar calls 1 March. */
  const FIRST_WRONG_DAY := 47541

  lemma {:induction false} SameUntil2100(y: nat)
    requires 1970 <= y <= 2100
    ensures FourYearStart(y) == YearStart(y) && (y < 2100 ==> (Leap(y) <==> FourLeap(y)))
    decreases y
  {
    if y > 1970 { SameUntil2100(y - 1); }
  }

  lemma YearSteps(y: int)
    ensures YearStart(y + 1) == YearStart(y) + YearLength(Leap(y))
    ensures FourYearStart(y + 1) == FourYearStart(y) + YearLength(FourLeap(y))
    ensures Leap(y) ==> FourLeap(y)
    ensures y == 1900 || y == 2100 ==> FourLeap(y) && !Leap(y)
  {
  }

  lemma {:induction false} LaterAfter2100(y: nat)
    requires y > 2100
    ensures FourYearStart(y) > YearStart(y)
    decreases y
  {
    hide YearStart, FourYearStart, Leap, FourLeap;
    YearSteps(y - 1);
    if y == 2101 {
      SameUntil2100(2100);
    } else {
      LaterAfter2100(y - 1);
    }
  }

  lemma {:induction false} YearsGrow(y: nat, z: nat)
    requires 1970 <= y <= z
    ensures FourYearStart(y) + 365 * (z - y) <= FourYearStart(z)
    decreases z
  {
    if y < z { YearsGrow(y, z - 1); }
  }

  lemma Start2100()
    ensures FourYearStart(2100) + 59 == FIRST_WRONG_DAY
  {
    FourYears(32);
    NextYears(2098);
  }

  /** The date is right exactly up to 28 February 2100. */
  lemma RightUntil2100(time: nat, t: Tm, ms: int)
    requires FourTime(time, t, ms)
    ensures Gregorian(time, t, ms) <==> time / MS_PER_DAY < FIRST_WRONG_DAY
  {
    hide YearStart, FourYearStart, MonthStart;
    var y: nat := t.year + 1900;
    Start2100();
    SplitTime(time);
    if y < 2100 {
      SameUntil2100(y);
      YearsGrow(y, 2100);
      YearStarts(FourLeap(y), t.mon, t.mday);
      YearsGrow(y + 1, 2100);
      YearEnds(y);
    } else if y == 2100 {
      SameUntil2100(2100);
      FebruaryMarch(t.mon, t.mday);
    } else {
      LaterAfter2100(y);
      YearsGrow(2101, y);
      YearEnds(2100);
      LeapMonths(Leap(y), FourLeap(y), t.mon);
    }
  }

  lemma SplitTime(time: nat)
    ensures time == time / MS_PER_DAY * MS_PER_DAY + time % MS_PER_DAY
  {
  }

  lemma YearEnds(y: nat)
    requires y >= 1970
    ensures FourYearStart(y + 1) == FourYearStart(y) + YearLength(FourLeap(y))
  {
  }

  /** A day of a year is before the end of the year. */
  lemma YearStarts(leap: bool, m: nat, d: int)
    requires m < 12 && 1 <= d <= MonthLength(leap, m)
    ensures 0 <= MonthStart(leap, m) + d - 1 < if leap then 366 else 365
  {
    MonthEndsAre(leap, m);
    MonthEndsAre(leap, m + 1);
    var e := MonthEnds(leap);
  }

  lemma LeapMonths(leap: bool, four: bool, m: nat)
    requires m < 12 && (leap ==> four)
    ensures MonthStart(leap, m) <= MonthStart(four, m)
  {
  }

  /** In 2100 the two calendars agree through 28 February and on no later day. */
  lemma FebruaryMarch(m: nat, d: int)
    requires m < 12 && 1 <= d <= MonthLength(true, m)
    ensures (d <= MonthLength(false, m) && MonthStart(false, m) == MonthStart(true, m)) <==> MonthStart(true, m) + d - 1 < 59
    ensures MonthStart(false, m) <= MonthStart(true, m)
  {
    MonthEndsAre(true, m);
    MonthEndsAre(false, m);
    var e, f := MonthEnds(true), MonthEnds(false);
  }

  // ---------- before 1970

  /** The two calendars agree back to 1901. */
  lemma {:induction false} SameSince1901(y: int)
    requires 1901 <= y <= 1970
    ensures FourYearStart(y) == YearStart(y)
    decreases 1970 - y
  {
    if y < 1970 { SameSince1901(y + 1); }
  }

  lemma {:induction false} EarlierBefore1901(y: int)
    requires y <= 1900
    ensures FourYearStart(y) < YearStart(y)
    decreases 1970 - y
  {
    hide YearStart, FourYearStart, Leap, FourLeap;
    YearSteps(y);
    if y == 1900 { SameSince1901(1901); } else { EarlierBefore1901(y + 1); }
  }

  lemma {:induction false} FourYearsBack(q: nat)
    ensures FourYearStart(1970 - 4 * q) == -1461 * q
    decreases q
  {
    if q > 0 {
      FourYearsBack(q - 1);
      var y := 1970 - 4 * q;
      assert FourYearStart(y + 3) == FourYearStart(y + 4) - 365;
      assert FourYearStart(y + 2) == FourYearStart(y + 3) - 366;
      assert FourYearStart(y + 1) == FourYearStart(y + 2) - 365;
    }
  }

  /** The whole of the past: the fields are those of the calendar at two moments only, the first milliseconds of 1950
      and of 1922. */
  lemma RightTwiceBefore1970(time: int, t: Tm, ms: int)
    requires time < 0 && BackTime(time, t, ms)
    ensures Gregorian(time, t, ms) <==> time == -5 * MS_PER_4YEAR || time == -12 * MS_PER_4YEAR
  {
    hide YearStart, FourYearStart, CDiv, Leap;
    CutBack(time);
    var q: nat := -CDiv(time, MS_PER_4YEAR);
    if CMod(time, MS_PER_4YEAR) == 0 {
      var y := 1970 - 4 * q;
      FourYearsBack(q);
      if y >= 1901 { SameSince1901(y); } else { EarlierBefore1901(y); }
      WholePeriods(time, q);
      assert MonthStart(Leap(y), 0) == 0;
    }
  }

  lemma CutBack(time: int)
    requires time < 0
    ensures CDiv(time, MS_PER_4YEAR) <= 0
  {
  }

  /** The day of the week comes out right where it is a Sunday. */
  lemma WholePeriods(time: int, q: nat)
    requires q > 0 && time == -(q * MS_PER_4YEAR)
    ensures time / MS_PER_DAY == CDiv(time, MS_PER_DAY) == -1461 * q
    ensures CMod(-1461 * q + 4, 7) == (-1461 * q + 4) % 7 <==> q % 7 == 5
  {
    WholeDays(1461 * q);
    SundayOnly(q);
  }

  lemma WholeDays(d: nat)
    ensures d * MS_PER_DAY / MS_PER_DAY == d && (0 - d * MS_PER_DAY) / MS_PER_DAY == 0 - d
  {
  }

  lemma SundayOnly(q: nat)
    requires q > 0
    ensures CMod(-1461 * q + 4, 7) == (-1461 * q + 4) % 7 <==> q % 7 == 5
  {
    var a, k, r := 1461 * q - 4, q / 7, q % 7;
    assert a == 7 * (1461 * k) + (1461 * r - 4);
  }

  /** Every time: exactly when the fields are right. */
  lemma RightWhen(time: int, t: Tm, ms: int)
    requires if time >= 0 then FourTime(time, t, ms) else BackTime(time, t, ms)
    ensures Gregorian(time, t, ms) <==>
              0 <= time < FIRST_WRONG_DAY * MS_PER_DAY || time == -5 * MS_PER_4YEAR || time == -12 * MS_PER_4YEAR
  {
    hide Gregorian, FourTime, BackTime;
    if time >= 0 { RightUntil2100(time, t, ms); } else { RightTwiceBefore1970(time, t, ms); }
  }
}

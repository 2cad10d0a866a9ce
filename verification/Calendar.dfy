/** Conversion between seconds of the Unix epoch and the proleptic Gregorian calendar, from
    year 1 on and without a zone offset. */
module Calendar {
  import opened Basics

  datatype Date = Date(year: int, mon: int, day: int, hour: int, min: int, sec: int)

  /** `mod` of the library, for whole numbers. */
  function Mod(n: int, m: int): (r: int)
    requires m > 0
  {
    var x := n - m * Truncate(n as real / m as real);
    if x < 0 then x + m else x
  }

  lemma TruncOfQuotient(n: int, m: int)
    requires m > 0
    ensures n >= 0 ==> Truncate(n as real / m as real) == n / m
    ensures n < 0 ==> Truncate(n as real / m as real) == -(-n / m)
  {
    var a := if n < 0 then -n else n;
    var q := a / m;
    assert q * m <= a < q * m + m;
    QuotientFloor(a, m, q);
    if n < 0 {
      assert -(n as real / m as real) == a as real / m as real;
    }
  }

  lemma Scaled(x: real, y: real, m: real)
    requires m > 0.0 && x < y
    ensures x * m < y * m
  {
    assert (y - x) * m > 0.0;
  }

  lemma QuotientFloor(a: int, m: int, q: int)
    requires m > 0 && q * m <= a < q * m + m
    ensures (a as real / m as real).Floor == q
  {
    var x, k := a as real / m as real, m as real;
    assert x * k == a as real;
    FloorBetween(x, k, q, a, m);
  }

  lemma {:induction false} ProductAsReal(q: int, m: nat)
    ensures (q * m) as real == q as real * m as real
  {
    if m > 0 {
      ProductAsReal(q, m - 1);
      assert q * m == q * (m - 1) + q;
      assert q as real * m as real == q as real * (m - 1) as real + q as real;
    }
  }

  lemma FloorBetween(x: real, k: real, q: int, a: int, m: int)
    requires k == m as real && m > 0 && x * k == a as real && q * m <= a < q * m + m
    ensures x.Floor == q
  {
    ProductAsReal(q, m);
    ProductAsReal(q + 1, m);
    assert (q + 1) * m == q * m + m;
    FloorByScale(x, k, q as real, (q + 1) as real);
  }

  lemma FloorByScale(x: real, k: real, lo: real, hi: real)
    requires k > 0.0 && lo * k <= x * k < hi * k
    ensures lo <= x < hi
  {
    if x < lo { Scaled(x, lo, k); }
    if hi < x { Scaled(hi, x, k); }
  }

  /** The library's `mod` is the remainder between 0 and the modulus. */
  lemma ModIsRemainder(n: int, m: int)
    requires m > 0
    ensures Mod(n, m) == n % m
  {
    TruncOfQuotient(n, m);
    if n < 0 {
      var q, r := -n / m, -n % m;
      assert n - m * -q == -r;
      RemainderOf(n, m, if r == 0 then -q else -q - 1, if r == 0 then 0 else m - r);
    }
  }

  lemma RemainderOf(n: int, m: int, q: int, r: int)
    requires m > 0 && n == q * m + r && 0 <= r < m
    ensures n % m == r && n / m == q
  {
    var d := n / m - q;
    assert n == m * (n / m) + n % m;
    assert d * m == r - n % m;
    SmallMultiple(d, m);
  }

  lemma SmallMultiple(d: int, m: int)
    requires m > 0 && -m < d * m < m
    ensures d == 0
  {
    if d >= 1 { AtLeastOnce(d, m); }
    if d <= -1 { AtLeastOnce(-d, m); }
  }

  lemma AtLeastOnce(d: int, m: int)
    requires d >= 1 && m > 0
    ensures d * m >= m
  {
  }

  /** The days before the end of a year, from the start of year 1. */
  function YDays(y: int): int {
    y * 365 + Truncate(y as real / 4.0) - Truncate(y as real / 100.0) + Truncate(y as real / 400.0)
  }

  const YD1969 := 719162

  predicate Leap(y: int) {
    if Mod(y, 4) != 0 then false else if Mod(y, 100) != 0 then true else Mod(y, 400) == 0
  }

  const MDAYS := [31, 28, 31, 30, 31, 30, 31, 31, 30, 31, 30, 31]

  /** The days of a month, counted from 0. */
  function MonthDays(year: int, mon: int): (n: int)
    requires 0 <= mon < 12
    ensures 28 <= n <= 31
  {
    MDAYS[mon] + if mon == 1 && Leap(year) then 1 else 0
  }

  /** The days of the year before a month. */
  function DaysBefore(year: int, mon: int): (n: int)
    requires 0 <= mon <= 12
    ensures n >= 28 * mon
  {
    if mon == 0 then 0 else DaysBefore(year, mon - 1) + MonthDays(year, mon - 1)
  }

  lemma YDaysOf(y: int)
    ensures y >= 0 ==> YDays(y) == 365 * y + y / 4 - y / 100 + y / 400
    ensures -4 < y < 0 ==> YDays(y) == 365 * y
  {
    TruncOfQuotient(y, 4);
    TruncOfQuotient(y, 100);
    TruncOfQuotient(y, 400);
  }

  lemma Yd1969IsRight()
    ensures YDays(1969) == YD1969
  {
    YDaysOf(1969);
  }

  lemma LeapMeans(y: int)
    ensures Leap(y) <==> y % 4 == 0 && (y % 100 != 0 || y % 400 == 0)
  {
    hide Mod;
    ModIsRemainder(y, 4);
    ModIsRemainder(y, 100);
    ModIsRemainder(y, 400);
  }

  lemma CenturiesAreFours(y: int)
    ensures y % 400 == 0 ==> y % 100 == 0
    ensures y % 100 == 0 ==> y % 4 == 0
  {
    if y % 400 == 0 { RemainderOf(y, 100, 4 * (y / 400), 0); }
    if y % 100 == 0 { RemainderOf(y, 4, 25 * (y / 100), 0); }
  }

  /** The formula for whole years and the rule for leap years agree: a year has the days of its months. */
  lemma YearLength(y: int)
    requires y >= 1
    ensures YDays(y) - YDays(y - 1) == DaysBefore(y, 12) == if Leap(y) then 366 else 365
  {
    hide YDays, Leap, DaysBefore;
    YDaysOf(y);
    YDaysOf(y - 1);
    LeapMeans(y);
    CenturiesAreFours(y);
    YearStep(y, 4);
    YearStep(y, 100);
    YearStep(y, 400);
    DaysOfYear(y);
  }

  lemma YearStep(y: int, m: int)
    requires y >= 1 && m > 1
    ensures y / m - (y - 1) / m == if y % m == 0 then 1 else 0
  {
    var q, r := y / m, y % m;
    assert y == q * m + r;
    if r == 0 {
      RemainderOf(y - 1, m, q - 1, m - 1);
    } else {
      RemainderOf(y - 1, m, q, r - 1);
    }
  }

  lemma DaysOfYear(y: int)
    ensures DaysBefore(y, 12) == if Leap(y) then 366 else 365
  {
    assert MonthDays(y, 0) == 31 && MonthDays(y, 2) == 31 && MonthDays(y, 3) == 30;
    assert MonthDays(y, 4) == 31 && MonthDays(y, 5) == 30 && MonthDays(y, 6) == 31 && MonthDays(y, 7) == 31;
    assert MonthDays(y, 8) == 30 && MonthDays(y, 9) == 31 && MonthDays(y, 10) == 30 && MonthDays(y, 11) == 31;
    hide MonthDays;
    NextMonth(y, 0); NextMonth(y, 1); NextMonth(y, 2); NextMonth(y, 3);
    NextMonth(y, 4); NextMonth(y, 5); NextMonth(y, 6); NextMonth(y, 7);
    NextMonth(y, 8); NextMonth(y, 9); NextMonth(y, 10); NextMonth(y, 11);
    February(y);
  }

  lemma February(y: int)
    ensures MonthDays(y, 1) == (if Leap(y) then 29 else 28) && DaysBefore(y, 0) == 0
  {
  }

  lemma NextMonth(y: int, mon: int)
    requires 0 <= mon < 12
    ensures DaysBefore(y, mon + 1) == DaysBefore(y, mon) + MonthDays(y, mon)
  {
  }

  // ----- dates -----

  predicate Valid(d: Date) {
    && d.year >= 1 && 1 <= d.mon <= 12 && 1 <= d.day <= MonthDays(d.year, d.mon - 1)
    && 0 <= d.hour < 24 && 0 <= d.min < 60 && 0 <= d.sec < 60
  }

  /** Days from the start of 1970; month and day count from 0. */
  function EDays(year: int, mon: int, day: int): int
    requires 0 <= mon <= 12
  {
    YDays(year - 1) - YD1969 + DaysBefore(year, mon) + day
  }

  function Epoch(d: Date): int
    requires 1 <= d.mon <= 12
  {
    60 * (60 * (24 * EDays(d.year, d.mon - 1, d.day - 1) + d.hour) + d.min) + d.sec
  }

  /** The first second of year 1. */
  const FIRST := -719162 * 86400

  function Weekday(epoch: int): (w: int) {
    (4 + epoch / 86400) % 7
  }

  // ----- the epoch counts the days of the calendar -----

  function Tomorrow(d: Date): (t: Date)
    requires Valid(d)
    ensures Valid(t) && 1 <= t.mon <= 12 && t.hour == d.hour && t.min == d.min && t.sec == d.sec
  {
    if d.day < MonthDays(d.year, d.mon - 1) then d.(day := d.day + 1)
    else if d.mon < 12 then d.(mon := d.mon + 1, day := 1)
    else d.(year := d.year + 1, mon := 1, day := 1)
  }

  lemma EpochStarts()
    ensures Epoch(Date(1970, 1, 1, 0, 0, 0)) == 0 && Weekday(0) == 4
  {
    Yd1969IsRight();
    hide YDays, MonthDays, Leap;
    assert DaysBefore(1970, 0) == 0;
  }

  lemma DayAfter(d: Date)
    requires Valid(d)
    ensures var t := Tomorrow(d); EDays(t.year, t.mon - 1, t.day - 1) == EDays(d.year, d.mon - 1, d.day - 1) + 1
  {
    hide YDays, MonthDays, Leap;
    YearLength(d.year);
    NextMonth(d.year, d.mon - 1);
    assert DaysBefore(d.year + 1, 0) == 0;
  }

  /** Every day of the calendar adds 86400 seconds and one weekday; 1970 starts the epoch, on a Thursday. */
  lemma EpochCountsDays(d: Date)
    requires Valid(d)
    ensures Epoch(Tomorrow(d)) == Epoch(d) + 86400
    ensures Weekday(Epoch(Tomorrow(d))) == (Weekday(Epoch(d)) + 1) % 7
    ensures Epoch(Date(1970, 1, 1, 0, 0, 0)) == 0 && Weekday(0) == 4
  {
    hide EDays, MonthDays, Leap, Valid, Tomorrow, Epoch, Weekday;
    EpochStarts();
    DayAfter(d);
    assert 1 <= d.mon <= 12 by { MonthOf(d); }
    EpochOfSameTime(d, Tomorrow(d));
    WeekdayAfter(Epoch(d));
  }

  // ----- the months of the Gregorian calendar -----

  /** Thirty days have April, June, September and November; February has 28, and 29 in every fourth year but
      for three centuries of four. */
  function Civil(year: int, mon: int): int {
    if mon == 4 || mon == 6 || mon == 9 || mon == 11 then 30
    else if mon != 2 then 31
    else if year % 4 == 0 && (year % 100 != 0 || year % 400 == 0) then 29
    else 28
  }

  lemma MonthsAreCivil(year: int, mon: int)
    requires 1 <= mon <= 12
    ensures MonthDays(year, mon - 1) == Civil(year, mon)
  {
    hide Leap;
    LeapMeans(year);
  }

  /** The dates are those of the calendar. */
  lemma ValidIff(d: Date)
    ensures Valid(d) <==>
            && d.year >= 1 && 1 <= d.mon <= 12 && 1 <= d.day <= Civil(d.year, d.mon)
            && 0 <= d.hour <= 23 && 0 <= d.min <= 59 && 0 <= d.sec <= 59
  {
    hide MonthDays, Civil;
    if 1 <= d.mon <= 12 {
      MonthsAreCivil(d.year, d.mon);
    }
  }

  /** From the first of a month to the first of the next one. */
  lemma MonthLasts(year: int, mon: int)
    requires year >= 1 && 1 <= mon <= 12
    ensures Epoch(if mon == 12 then Date(year + 1, 1, 1, 0, 0, 0) else Date(year, mon + 1, 1, 0, 0, 0))
            - Epoch(Date(year, mon, 1, 0, 0, 0))
            == 86400 * Civil(year, mon)
  {
    hide YDays, MonthDays, Leap, Civil;
    MonthsAreCivil(year, mon);
    NextMonth(year, mon - 1);
    YearLength(year);
    assert DaysBefore(year + 1, 0) == 0;
  }

  /** From one day of a month to another. */
  lemma DaysLast(year: int, mon: int, day: int, hour: int, min: int, sec: int)
    requires 1 <= mon <= 12
    ensures Epoch(Date(year, mon, day, hour, min, sec))
            == Epoch(Date(year, mon, 1, 0, 0, 0)) + (day - 1) * 86400 + hour * 3600 + min * 60 + sec
  {
    hide YDays, DaysBefore;
  }

  lemma MonthOf(d: Date)
    requires Valid(d)
    ensures 1 <= d.mon <= 12
  {
  }

  lemma EpochOfSameTime(d: Date, t: Date)
    requires 1 <= d.mon <= 12 && 1 <= t.mon <= 12 && d.hour == t.hour && d.min == t.min && d.sec == t.sec
    requires EDays(t.year, t.mon - 1, t.day - 1) == EDays(d.year, d.mon - 1, d.day - 1) + 1
    ensures Epoch(t) == Epoch(d) + 86400
  {
    hide EDays;
  }

  lemma WeekdayAfter(e: int)
    ensures Weekday(e + 86400) == (Weekday(e) + 1) % 7
  {
    assert (e + 86400) / 86400 == e / 86400 + 1;
  }

  // ----- a second belongs to one date only -----

  lemma {:induction false} YDaysMonotone(a: int, b: int)
    requires 0 <= a <= b
    ensures YDays(a) + 365 * (b - a) <= YDays(b)
    decreases b - a
  {
    if a < b {
      YDaysMonotone(a, b - 1);
      YearLength(b);
    }
  }

  lemma {:induction false} DaysBeforeMonotone(year: int, a: int, b: int)
    requires 0 <= a < b <= 12
    ensures DaysBefore(year, a) + MonthDays(year, a) <= DaysBefore(year, b)
    decreases b - a
  {
    if a < b - 1 { DaysBeforeMonotone(year, a, b - 1); }
  }

  lemma DayInYear(d: Date)
    requires Valid(d)
    ensures YDays(d.year - 1) <= EDays(d.year, d.mon - 1, d.day - 1) + YD1969 < YDays(d.year)
  {
    YearLength(d.year);
    if d.mon < 12 { DaysBeforeMonotone(d.year, d.mon - 1, 12); } else { NextMonth(d.year, 11); }
  }

  lemma EpochSplits(d: Date)
    requires Valid(d)
    ensures var s := d.hour * 3600 + d.min * 60 + d.sec;
      Epoch(d) == 86400 * EDays(d.year, d.mon - 1, d.day - 1) + s && 0 <= s < 86400
  {
  }

  lemma SameDay(a: Date, b: Date)
    requires Valid(a) && Valid(b)
    requires EDays(a.year, a.mon - 1, a.day - 1) == EDays(b.year, b.mon - 1, b.day - 1)
    ensures a.year == b.year && a.mon == b.mon && a.day == b.day
  {
    hide YDays, MonthDays, DaysBefore;
    DayInYear(a);
    DayInYear(b);
    if a.year < b.year { YDaysMonotone(a.year, b.year - 1); }
    if b.year < a.year { YDaysMonotone(b.year, a.year - 1); }
    if a.mon < b.mon { DaysBeforeMonotone(a.year, a.mon - 1, b.mon - 1); }
    if b.mon < a.mon { DaysBeforeMonotone(a.year, b.mon - 1, a.mon - 1); }
  }

  lemma EpochIsInjective(a: Date, b: Date)
    requires Valid(a) && Valid(b) && Epoch(a) == Epoch(b)
    ensures a == b
  {
    EpochSplits(a);
    EpochSplits(b);
    hide Epoch, EDays, Valid;
    var da, db := EDays(a.year, a.mon - 1, a.day - 1), EDays(b.year, b.mon - 1, b.day - 1);
    assert da == db;
    SameDay(a, b);
    SameTime(a, b);
  }

  lemma SameTime(a: Date, b: Date)
    requires Valid(a) && Valid(b) && a.hour * 3600 + a.min * 60 + a.sec == b.hour * 3600 + b.min * 60 + b.sec
    ensures a.hour == b.hour && a.min == b.min && a.sec == b.sec
  {
  }

  // ----- the library functions -----

  method EpochDays(year: int, mon: int, day: int) returns (result: int)
    requires 0 <= mon <= 12
    ensures result == EDays(year, mon, day)
  {
    result := YDays(year - 1) - YD1969;
    var i := 0;
    while i < mon
      invariant 0 <= i <= mon && result == YDays(year - 1) - YD1969 + DaysBefore(year, i)
    {
      result := result + MDAYS[i] + if i == 1 && Leap(year) then 1 else 0;
      i := i + 1;
    }
    result := result + day;
  }

  method ToEpoch(d: Date) returns (e: int)
    requires 1 <= d.mon <= 12
    ensures e == Epoch(d)
  {
    var days := EpochDays(d.year, d.mon - 1, d.day - 1);
    e := 60 * (60 * (24 * days + d.hour) + d.min) + d.sec;
  }

  /** The guessed year ends no later than the day. */
  lemma GuessIsLow(day: real)
    requires day >= 0.0
    ensures Truncate(day / 365.2425) - 2 >= -2
    ensures YDays(Truncate(day / 365.2425) - 2) as real <= day
  {
    var g := Truncate(day / 365.2425) - 2;
    YDaysOf(g);
    if g >= 0 {
      assert 400 * YDays(g) <= 146097 * g + 396;
      assert (g + 2) as real <= day / 365.2425;
    }
  }

  /** The year that holds a day, from the guess up. */
  method YearOf(day: real) returns (year: int)
    requires day >= 0.0
    ensures year >= 1 && YDays(year - 1) as real <= day < YDays(year) as real
  {
    var guess := Truncate(day / 365.2425) - 2;
    GuessIsLow(day);
    year := guess;
    YDaysOf(0);
    hide YDays;
    while YDays(year) as real <= day
      invariant year >= guess >= -2 && (year > guess ==> YDays(year - 1) as real <= day)
      invariant year > 1 ==> year - 1 <= day.Floor
      decreases day.Floor + 2 - year
    {
      YearsTakeDays(year);
      year := year + 1;
    }
    if year <= 0 { YDaysOf(year); }
  }

  lemma YearsTakeDays(y: int)
    requires y >= -2
    ensures y >= 0 ==> YDays(y) >= 365 * y
  {
    YDaysOf(y);
  }

  /** The month that holds a day of the year, and the rest of the day count. */
  method MonthOfDay(year: int, start: real, ghost n: int, ghost part: real) returns (mon: int, day: real)
    requires start == n as real + part && 0.0 <= part < 1.0 && 0 <= n < DaysBefore(year, 12)
    ensures 0 <= mon < 12 && day == (n - DaysBefore(year, mon)) as real + part
    ensures 0 <= n - DaysBefore(year, mon) < MonthDays(year, mon)
  {
    hide MonthDays;
    mon, day := 0, start;
    assert DaysBefore(year, 0) == 0;
    while mon < 12
      invariant 0 <= mon <= 12 && 0 <= n - DaysBefore(year, mon)
      invariant day == (n - DaysBefore(year, mon)) as real + part
    {
      var md := MonthDays(year, mon);
      NextMonth(year, mon);
      if day < md as real { break; }
      day := day - md as real;
      mon := mon + 1;
    }
  }

  /** The clock part of a second. */
  method TimeOf(epoch: int) returns (hour: int, min: int, sec: int)
    ensures 0 <= hour < 24 && 0 <= min < 60 && 0 <= sec < 60
    ensures hour * 3600 + min * 60 + sec == epoch % 86400
  {
    ModIsRemainder(epoch, 86400);
    sec := Mod(epoch, 86400);
    hide Truncate, Mod;
    TruncOfQuotient(sec, 3600);
    hour := Truncate(sec as real / 3600.0);
    sec := sec - 3600 * hour;
    TruncOfQuotient(sec, 60);
    min := Truncate(sec as real / 60.0);
    sec := sec - 60 * min;
  }

  /** The day count of a second, its whole part, and the weekday. */
  method DayOf(epoch: int) returns (day: real, wday: int, ghost n: int, ghost part: real)
    requires epoch >= FIRST
    ensures n == YD1969 + epoch / 86400 >= 0 && day == n as real + part && 0.0 <= part < 1.0
    ensures wday == Weekday(epoch)
  {
    n, part := YD1969 + epoch / 86400, (epoch % 86400) as real / 86400.0;
    day := YD1969 as real + epoch as real / 86400.0;
    DaySplits(epoch);
    FloorOfDay(day, n, part);
    ModIsRemainder(n + 1, 7);
    wday := Mod(Truncate(day) + 1, 7);
    hide Truncate, Mod;
    assert (YD1969 + epoch / 86400 + 1) % 7 == (4 + epoch / 86400) % 7;
  }

  /** The fields of a day count. */
  method DateOf(day: real, ghost n: int, ghost part: real) returns (year: int, mon: int, mday: int)
    requires n >= 0 && day == n as real + part && 0.0 <= part < 1.0
    ensures year >= 1 && 1 <= mon <= 12 && 1 <= mday <= MonthDays(year, mon - 1)
    ensures EDays(year, mon - 1, mday - 1) == n - YD1969
  {
    hide Truncate, YDays, Leap, MonthDays;
    year := YearOf(day);
    assert YDays(year - 1) <= n < YDays(year);
    YearLength(year);
    var m, dd := MonthOfDay(year, day - YDays(year - 1) as real, n - YDays(year - 1), part);
    FloorOfDay(dd, n - YDays(year - 1) - DaysBefore(year, m), part);
    mon, mday := m + 1, Truncate(dd) + 1;
  }

  /** The one valid date of a second, and its weekday. */
  method FromEpoch(epoch: int) returns (d: Date, wday: int)
    requires epoch >= FIRST
    ensures Valid(d) && Epoch(d) == epoch
    ensures forall other :: Valid(other) && Epoch(other) == epoch ==> other == d
    ensures wday == Weekday(epoch)
  {
    hide EDays, MonthDays, Leap, Epoch, Weekday;
    var day, w, n, part := DayOf(epoch);
    var year, mon, mday := DateOf(day, n, part);
    var hour, min, sec := TimeOf(epoch);
    d, wday := Date(year, mon, mday, hour, min, sec), w;
    FieldsGiveEpoch(d, epoch);
    forall other | Valid(other) && Epoch(other) == epoch
      ensures other == d
    {
      EpochIsInjective(other, d);
    }
  }

  lemma DaySplits(epoch: int)
    ensures epoch as real / 86400.0 == (epoch / 86400) as real + (epoch % 86400) as real / 86400.0
  {
    assert epoch == 86400 * (epoch / 86400) + epoch % 86400;
  }

  lemma FloorOfDay(day: real, n: int, part: real)
    requires day == n as real + part && 0.0 <= part < 1.0 && n >= 0
    ensures Truncate(day) == n
  {
  }

  lemma FieldsGiveEpoch(d: Date, epoch: int)
    requires Valid(d) && EDays(d.year, d.mon - 1, d.day - 1) == epoch / 86400
    requires d.hour * 3600 + d.min * 60 + d.sec == epoch % 86400
    ensures Epoch(d) == epoch
  {
    EpochSplits(d);
    hide Epoch, EDays;
  }

  /** Both ways round: a valid date comes back from its epoch value. */
  method RoundTrip(d: Date) returns (back: Date)
    requires Valid(d)
    ensures back == d
  {
    EpochIsFromYearOne(d);
    var e := ToEpoch(d);
    var wday;
    back, wday := FromEpoch(e);
  }

  lemma EpochIsFromYearOne(d: Date)
    requires Valid(d)
    ensures Epoch(d) >= FIRST
  {
    DayInYear(d);
    EpochSplits(d);
    YDaysOf(0);
    YDaysMonotone(0, d.year - 1);
    hide Epoch, EDays, YDays;
  }
}

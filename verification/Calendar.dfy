/**
 The civil date of a day number (src/solve.rs `chrono_utc`), for every integer
 day, day 0 being 1 January 1970.
 */
module Calendar {

  datatype Date = Date(year: int, month: int, day: int)

  // ----- The Gregorian calendar -----

  predicate Leap(y: int)
  {
    y % 4 == 0 && (y % 100 != 0 || y % 400 == 0)
  }

  function MonthLength(y: int, m: int): int
  {
    if m == 2 then (if Leap(y) then 29 else 28)
    else if m == 4 || m == 6 || m == 9 || m == 11 then 30
    else 31
  }

  predicate IsDate(t: Date)
  {
    1 <= t.month <= 12 && 1 <= t.day <= MonthLength(t.year, t.month)
  }

  function Tomorrow(t: Date): Date
  {
    if t.day < MonthLength(t.year, t.month) then t.(day := t.day + 1)
    else if t.month < 12 then Date(t.year, t.month + 1, 1)
    else Date(t.year + 1, 1, 1)
  }

  // ----- The conversion -----

  function YearOfEra(doe: int): int
  {
    (doe - doe / 1460 + doe / 36524 - doe / 146096) / 365
  }

  /** Month and day of day `doy` of a year that begins on 1 March. */
  function MonthDay(doy: int): (int, int)
  {
    var mp := (5 * doy + 2) / 153;
    (if mp < 10 then mp + 3 else mp - 9, doy - (153 * mp + 2) / 5 + 1)
  }

  function Civil(days: int): Date
  {
    var z := days + 719468;
    var era, doe := z / 146097, z % 146097;
    var yoe := YearOfEra(doe);
    var doy := doe - (365 * yoe + yoe / 4 - yoe / 100);
    var (m, d) := MonthDay(doy);
    Date(yoe + era * 400 + (if m <= 2 then 1 else 0), m, d)
  }

  // ----- Its inverse -----

  /** Days before 1 March of year `y`, from 1 March of year 0. */
  function YearStart(y: int): int
  {
    365 * y + y / 4 - y / 100 + y / 400
  }

  /** Days before month `mp` of a year that begins in March. */
  function MonthStart(mp: int): int
  {
    (153 * mp + 2) / 5
  }

  function MarchYear(t: Date): int
  {
    if t.month <= 2 then t.year - 1 else t.year
  }

  function MarchMonth(m: int): int
  {
    if m <= 2 then m + 9 else m - 3
  }

  function DayNumber(t: Date): int
  {
    YearStart(MarchYear(t)) + MonthStart(MarchMonth(t.month)) + t.day - 1 - 719468
  }

  lemma YearLength(y: int)
    ensures YearStart(y + 1) - YearStart(y) == if Leap(y + 1) then 366 else 365
  {
    Quotient(y, 4);
    Quotient(y, 100);
    Quotient(y, 400);
    LeapIs(y + 1);
  }

  lemma Quotient(y: int, n: int)
    requires n == 4 || n == 100 || n == 400
    ensures (y + 1) / n - y / n == if (y + 1) % n == 0 then 1 else 0
  {
  }

  lemma LeapIs(y: int)
    ensures y % 400 == 0 ==> y % 100 == 0
    ensures y % 100 == 0 ==> y % 4 == 0
  {
  }

  lemma YearStartOfEra(era: int, yoe: int)
    requires 0 <= yoe <= 400
    ensures YearStart(yoe + era * 400) == 146097 * era + YearStart(yoe)
  {
    assert (yoe + era * 400) / 4 == era * 100 + yoe / 4;
    assert (yoe + era * 400) / 100 == era * 4 + yoe / 100;
    assert (yoe + era * 400) / 400 == era + yoe / 400;
  }

  /** Days before year 100 c + 4 q + k of the era. */
  lemma YearStartOf(c: int, q: int, k: int)
    requires 0 <= c <= 3 && 0 <= q <= 24 && 0 <= k <= 3
    ensures YearStart(100 * c + 4 * q + k) == 36524 * c + 1461 * q + 365 * k
  {
    var y := 100 * c + 4 * q + k;
    assert y / 4 == 25 * c + q && y / 100 == c && y / 400 == 0;
  }

  lemma YearOfEraOf(doe: int, c: int, q: int, s: int)
    requires 0 <= c <= 3 && 0 <= q <= 24 && 0 <= s <= 1460 && doe == 36524 * c + 1461 * q + s
    requires s == 1460 && q == 24 ==> c == 3
    ensures YearOfEra(doe) == 100 * c + 4 * q + if s < 1095 then s / 365 else 3
  {
    var e := if 24 * c + q + s >= 1460 then 1 else 0;
    assert doe / 1460 == 25 * c + q + e;
    assert doe / 36524 - doe / 146096 == c;
    assert YearOfEra(doe) == (365 * (100 * c + 4 * q) + (s - e)) / 365;
  }

  /** The year of a day of the era: the day is not before it, and before the next. */
  lemma YearOfEraIs(doe: int)
    requires 0 <= doe < 146097
    ensures var yoe := YearOfEra(doe); 0 <= yoe < 400 && YearStart(yoe) <= doe < YearStart(yoe + 1)
  {
    var c := if doe == 146096 then 3 else doe / 36524;
    var q := (doe - 36524 * c) / 1461;
    var s := doe - 36524 * c - 1461 * q;
    YearOfEraOf(doe, c, q, s);
    var k := if s < 1095 then s / 365 else 3;
    YearStartOf(c, q, k);
    if k < 3 {
      YearStartOf(c, q, k + 1);
    } else if q < 24 {
      YearStartOf(c, q + 1, 0);
    } else if c < 3 {
      YearStartOf(c + 1, 0, 0);
    }
  }

  lemma MonthDayIs(doy: int)
    requires 0 <= doy <= 365
    ensures var (m, d) := MonthDay(doy);
      && 1 <= m <= 12 && 1 <= d && MonthStart(MarchMonth(m)) + d - 1 == doy
      && (m == 2 ==> d <= 29 && (d == 29 <==> doy == 365)) && (m != 2 ==> d <= MonthLength(0, m))
      && (doy < 306 <==> m > 2)
  {
  }

  // ----- Both ways -----

  lemma CivilParts(days: int, era: int, doe: int, yoe: int, doy: int)
    requires era == (days + 719468) / 146097 && doe == (days + 719468) % 146097
    requires yoe == YearOfEra(doe) && doy == doe - YearStart(yoe) && 0 <= yoe < 400
    ensures var (m, d) := MonthDay(doy); Civil(days) == Date(yoe + era * 400 + (if m <= 2 then 1 else 0), m, d)
  {
    assert yoe / 400 == 0;
  }

  lemma DayOfEra(z: int, era: int, doe: int, yoe: int, doy: int, y: int)
    requires z == 146097 * era + doe && 0 <= doe < 146097
    requires yoe == YearOfEra(doe) && doy == doe - YearStart(yoe) && y == yoe + era * 400
    ensures 0 <= yoe < 400 && 0 <= doy <= (if Leap(y + 1) then 365 else 364)
    ensures z == YearStart(y) + doy
  {
    YearOfEraIs(doe);
    YearStartOfEra(era, yoe);
    YearStartOfEra(era, yoe + 1);
    YearLength(y);
  }

  /** Every day number has a date of the calendar, and the date gives the day number back. */
  lemma CivilIsDate(days: int)
    ensures IsDate(Civil(days)) && DayNumber(Civil(days)) == days
  {
    var era, doe := (days + 719468) / 146097, (days + 719468) % 146097;
    var yoe := YearOfEra(doe);
    var doy := doe - YearStart(yoe);
    DayOfEra(days + 719468, era, doe, yoe, doy, yoe + era * 400);
    CivilParts(days, era, doe, yoe, doy);
    MonthDayIs(doy);
  }

  /** The months but February, as they lie in a March year. */
  lemma MonthIs(m: int)
    requires 1 <= m <= 12 && m != 2
    ensures 0 <= MarchMonth(m) < 11
    ensures MonthStart(MarchMonth(m) + 1) - MonthStart(MarchMonth(m)) == MonthLength(0, m)
    ensures forall y :: MonthLength(y, m) == MonthLength(0, m)
  {
  }

  /** The day after a date has the next day number. */
  lemma TomorrowIsNext(t: Date)
    requires IsDate(t)
    ensures IsDate(Tomorrow(t)) && DayNumber(Tomorrow(t)) == DayNumber(t) + 1
  {
    if t.day < MonthLength(t.year, t.month) {
    } else if t.month == 2 {
      YearLength(t.year - 1);
      FebruaryEnds(t.year);
    } else {
      MonthIs(t.month);
    }
  }

  lemma FebruaryEnds(y: int)
    ensures MonthStart(11) + MonthLength(y, 2) == if Leap(y) then 366 else 365
    ensures MonthStart(0) == 0
  {
  }

  lemma {:induction false} YearsRise(y: int, z: int)
    requires y <= z
    ensures YearStart(y) <= YearStart(z)
    decreases z - y
  {
    if y < z {
      YearsRise(y, z - 1);
      YearLength(z - 1);
    }
  }

  lemma MonthDayOf(m: int, d: int, doy: int)
    requires 1 <= m <= 12 && 1 <= d <= (if m == 2 then 29 else MonthLength(0, m)) && doy == MonthStart(MarchMonth(m)) + d - 1
    ensures MonthDay(doy) == (m, d) && 0 <= doy <= 365 && (doy == 365 <==> m == 2 && d == 29)
  {
  }

  /** A date's day of its March year. */
  lemma DayOfYear(t: Date, doy: int)
    requires IsDate(t) && doy == MonthStart(MarchMonth(t.month)) + t.day - 1
    ensures 0 <= doy < YearStart(MarchYear(t) + 1) - YearStart(MarchYear(t))
    ensures MonthDay(doy) == (t.month, t.day)
  {
    if t.month != 2 { MonthIs(t.month); }
    MonthDayOf(t.month, t.day, doy);
    YearLength(MarchYear(t));
  }

  /** The date of day `doy` of the year that begins in March of year `y`. */
  function DateAt(y: int, doy: int): Date
  {
    var (m, d) := MonthDay(doy);
    Date(y + (if m <= 2 then 1 else 0), m, d)
  }

  lemma DatePlace(t: Date) returns (y: int, doy: int)
    requires IsDate(t)
    ensures DayNumber(t) == YearStart(y) + doy - 719468 && 0 <= doy < YearStart(y + 1) - YearStart(y)
    ensures t == DateAt(y, doy)
  {
    y, doy := MarchYear(t), MonthStart(MarchMonth(t.month)) + t.day - 1;
    DayOfYear(t, doy);
  }

  /** No two dates have the same day number. */
  lemma DayNumberTells(t: Date, u: Date, days: int)
    requires IsDate(t) && IsDate(u) && DayNumber(t) == days && DayNumber(u) == days
    ensures t == u
  {
    var y, a := DatePlace(t);
    var z, b := DatePlace(u);
    SameYear(y, a, z, b);
  }

  lemma SameYear(y: int, a: int, z: int, b: int)
    requires YearStart(y) + a == YearStart(z) + b
    requires 0 <= a < YearStart(y + 1) - YearStart(y) && 0 <= b < YearStart(z + 1) - YearStart(z)
    ensures y == z && a == b
  {
    if y < z { YearsRise(y + 1, z); }
    if z < y { YearsRise(z + 1, y); }
  }

  /** The conversion is the calendar: from 1 January 1970 on, and back, the next day is the next date. */
  lemma NextDayNextDate(days: int)
    ensures Civil(days + 1) == Tomorrow(Civil(days))
  {
    CivilIsDate(days);
    CivilIsDate(days + 1);
    TomorrowIsNext(Civil(days));
    DayNumberTells(Civil(days + 1), Tomorrow(Civil(days)), days + 1);
  }

  lemma EpochDate()
    ensures Civil(0) == Date(1970, 1, 1)
  {
    assert YearOfEra(135080) == 369 && YearStart(369) == 134774 && MonthDay(306) == (1, 1);
    CivilParts(0, 4, 135080, 369, 306);
  }

  /** Every date of the calendar is the date of its day number. */
  lemma CivilOfDayNumber(t: Date)
    requires IsDate(t)
    ensures Civil(DayNumber(t)) == t
  {
    CivilIsDate(DayNumber(t));
    DayNumberTells(Civil(DayNumber(t)), t, DayNumber(t));
  }
}

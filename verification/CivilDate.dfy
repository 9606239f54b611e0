/** The proleptic Gregorian calendar as day numbers from 1970-01-01, and back. */
module CivilDate {
  import opened MachineIntegers

  /** The first day of the year 0 and the last of the year 9999. */
  const MIN_EPOCH_DAYS: int := -719528
  const MAX_EPOCH_DAYS: int := 2932896

  datatype Civil = Civil(year: int, month: int, day: int)

  predicate LeapYear(year: int) {
    year % 4 == 0 && (year % 100 != 0 || year % 400 == 0)
  }

  function DaysInMonth(year: int, month: int): int {
    if month == 2 then (if LeapYear(year) then 29 else 28)
    else if month == 4 || month == 6 || month == 9 || month == 11 then 30
    else 31
  }

  predicate ValidDate(c: Civil) {
    1 <= c.month <= 12 && 1 <= c.day <= DaysInMonth(c.year, c.month)
  }

  function DaysFromCivil(c: Civil): int {
    var year := if c.month <= 2 then c.year - 1 else c.year;
    var era := year / 400;
    var yearOfEra := year - era * 400;
    var shiftedMonth := c.month + (if c.month > 2 then -3 else 9);
    var dayOfYear := (153 * shiftedMonth + 2) / 5 + c.day - 1;
    var dayOfEra := yearOfEra * 365 + yearOfEra / 4 - yearOfEra / 100 + dayOfYear;
    era * 146097 + dayOfEra - 719468
  }

  function YearOfEra(dayOfEra: int): int {
    (dayOfEra - dayOfEra / 1460 + dayOfEra / 36524 - dayOfEra / 146096) / 365
  }

  function CivilFromDays(days: int): Civil {
    var shifted := days + 719468;
    var era := shifted / 146097;
    var dayOfEra := shifted - era * 146097;
    var yearOfEra := YearOfEra(dayOfEra);
    var dayOfYear := dayOfEra - YearStart(yearOfEra);
    var shiftedMonth := (5 * dayOfYear + 2) / 153;
    var day := dayOfYear - (153 * shiftedMonth + 2) / 5 + 1;
    var month := shiftedMonth + (if shiftedMonth < 10 then 3 else -9);
    Civil(yearOfEra + era * 400 + (if month <= 2 then 1 else 0), month, day)
  }

  // ------------------------------------------------ years that begin in March

  /** The first day of a year of the era. */
  function YearStart(yearOfEra: int): int {
    365 * yearOfEra + yearOfEra / 4 - yearOfEra / 100
  }

  /** A March year ends in the February of the next calendar year. */
  function YearLength(yearOfEra: int): int {
    if LeapYear(yearOfEra + 1) then 366 else 365
  }

  lemma {:induction false} Quotient(n: int, d: int, q: int)
    requires d > 0 && q * d <= n < q * d + d
    ensures n / d == q
  {
    Divides(n, d, q, n - q * d);
  }

  /** A year as its century, its group of four years and its place in the group. */
  predicate Parts(y: int, c: int, q: int, r: int) {
    0 <= c < 4 && 0 <= q < 25 && 0 <= r < 4 && y == 100 * c + 4 * q + r
  }

  lemma {:induction false} PartsOfYear(y: int) returns (c: int, q: int, r: int)
    requires 0 <= y < 400
    ensures Parts(y, c, q, r)
  {
    c := y / 100;
    q := (y % 100) / 4;
    r := y % 4;
  }

  lemma {:induction false} YearByParts(y: int, c: int, q: int, r: int)
    requires Parts(y, c, q, r)
    ensures YearStart(y) == 36524 * c + 1461 * q + 365 * r
    ensures YearLength(y) == if r == 3 && (q < 24 || c == 3) then 366 else 365
  {
    Quotient(y, 4, 25 * c + q);
    Quotient(y, 100, c);
    var next, ofCentury := y + 1, 4 * q + r + 1;
    if r < 3 {
      Divides(next, 4, 25 * c + q, r + 1);
    } else {
      Divides(next, 4, 25 * c + q + 1, 0);
    }
    if ofCentury < 100 {
      Divides(next, 100, c, ofCentury);
    } else {
      Divides(next, 100, c + 1, 0);
    }
    if next < 400 {
      Divides(next, 400, 0, next);
    } else {
      Divides(next, 400, 1, 0);
    }
  }

  /** The divisions of the formula, one by one. */
  lemma {:induction false} FormulaByParts(y: int, c: int, q: int, r: int, dayOfYear: int)
    requires Parts(y, c, q, r) && 0 <= dayOfYear < if r == 3 && (q < 24 || c == 3) then 366 else 365
    ensures var day := 36524 * c + 1461 * q + 365 * r + dayOfYear; 0 <= day < 146097 && YearOfEra(day) == y
  {
    var day := 36524 * c + 1461 * q + 365 * r + dayOfYear;
    var last := if day == 146096 then 1 else 0;
    Quotient(day, 36524, c + last);
    Quotient(day, 146096, last);
    var over := if 24 * c + q + 365 * r + dayOfYear >= 1460 then 1 else 0;
    Quotient(day, 1460, 25 * c + q + over);
    Quotient(365 * y + dayOfYear - over, 365, y);
  }

  lemma {:induction false} YearOfEraInverts(y: int, dayOfYear: int)
    requires 0 <= y < 400 && 0 <= dayOfYear < YearLength(y)
    ensures 0 <= YearStart(y) + dayOfYear < 146097
    ensures YearOfEra(YearStart(y) + dayOfYear) == y
  {
    var c, q, r := PartsOfYear(y);
    YearByParts(y, c, q, r);
    FormulaByParts(y, c, q, r, dayOfYear);
  }

  lemma {:induction false} YearOfEraMeaning(dayOfEra: int)
    requires 0 <= dayOfEra < 146097
    ensures var y := YearOfEra(dayOfEra);
      0 <= y < 400 && YearStart(y) <= dayOfEra < YearStart(y) + YearLength(y)
  {
    var c := if dayOfEra == 146096 then 3 else dayOfEra / 36524;
    var e := dayOfEra - 36524 * c;
    var q := if e == 36524 then 24 else e / 1461;
    var f := e - 1461 * q;
    var r := if f >= 1460 then 3 else f / 365;
    var y := 100 * c + 4 * q + r;
    YearByParts(y, c, q, r);
    FormulaByParts(y, c, q, r, f - 365 * r);
  }

  // ------------------------------------------------- months that begin in March

  /** Months are numbered from March; this is the first day of one. */
  function MonthStart(shiftedMonth: int): int {
    (153 * shiftedMonth + 2) / 5
  }

  function MonthOf(dayOfYear: int): int {
    (5 * dayOfYear + 2) / 153
  }

  lemma {:induction false} MonthOfMeaning(dayOfYear: int)
    requires 0 <= dayOfYear < 366
    ensures var m := MonthOf(dayOfYear); 0 <= m < 12 && MonthStart(m) <= dayOfYear && (m < 11 ==> dayOfYear < MonthStart(m + 1))
  {
  }

  lemma {:induction false} MonthOfInverts(m: int, day: int)
    requires 0 <= m < 12 && MonthStart(m) <= day < 366 && (m < 11 ==> day < MonthStart(m + 1))
    ensures MonthOf(day) == m
  {
  }

  /** The days of every month, and the length of the year. */
  lemma {:induction false} MonthLengths(year: int, m: int)
    requires 0 <= m < 12
    ensures var month := m + (if m < 10 then 3 else -9);
      var calendarYear := year + (if month <= 2 then 1 else 0);
      1 <= month <= 12
      && DaysInMonth(calendarYear, month) == (if m < 11 then MonthStart(m + 1) else YearLength(year)) - MonthStart(m)
  {
  }

  // ------------------------------------------------------------- main results

  /** A day number as its era, its March year in the era and its day of that year. */
  predicate March(days: int, era: int, year: int, dayOfYear: int) {
    && days == era * 146097 + YearStart(year) + dayOfYear - 719468
    && 0 <= year < 400 && 0 <= dayOfYear < YearLength(year)
  }

  lemma {:induction false} LeapByEra(year: int, era: int)
    ensures LeapYear(year + era * 400) == LeapYear(year)
  {
    Divides(year + era * 400, 4, year / 4 + 100 * era, year % 4);
    Divides(year + era * 400, 100, year / 100 + 4 * era, year % 100);
    Divides(year + era * 400, 400, year / 400 + era, year % 400);
  }

  lemma {:induction false} CivilOfMarch(days: int, era: int, year: int, dayOfYear: int)
    requires March(days, era, year, dayOfYear)
    ensures var m := MonthOf(dayOfYear);
      var month := m + (if m < 10 then 3 else -9);
      CivilFromDays(days) == Civil(year + era * 400 + (if month <= 2 then 1 else 0), month, dayOfYear - MonthStart(m) + 1)
  {
    YearOfEraInverts(year, dayOfYear);
    Divides(days + 719468, 146097, era, YearStart(year) + dayOfYear);
  }

  lemma {:induction false} MarchOfDays(days: int) returns (era: int, year: int, dayOfYear: int)
    ensures March(days, era, year, dayOfYear)
  {
    era := (days + 719468) / 146097;
    var dayOfEra := (days + 719468) % 146097;
    YearOfEraMeaning(dayOfEra);
    year := YearOfEra(dayOfEra);
    dayOfYear := dayOfEra - YearStart(year);
  }

  lemma {:induction false} MarchOfCivil(c: Civil) returns (era: int, year: int, m: int)
    requires ValidDate(c)
    ensures m == c.month + (if c.month > 2 then -3 else 9) && 0 <= m < 12
    ensures c.year == year + era * 400 + (if c.month <= 2 then 1 else 0)
    ensures March(DaysFromCivil(c), era, year, MonthStart(m) + c.day - 1)
    ensures MonthOf(MonthStart(m) + c.day - 1) == m
  {
    var y := if c.month <= 2 then c.year - 1 else c.year;
    era, year, m := y / 400, y % 400, c.month + (if c.month > 2 then -3 else 9);
    MonthLengths(year, m);
    var calendarYear := year + (if c.month <= 2 then 1 else 0);
    LeapByEra(calendarYear, era);
    assert DaysInMonth(c.year, c.month) == DaysInMonth(calendarYear, c.month);
    MonthOfInverts(m, MonthStart(m) + c.day - 1);
  }

  /** Every valid date is what its day number converts back to. */
  lemma {:induction false} CivilRoundTrip(c: Civil)
    requires ValidDate(c)
    ensures CivilFromDays(DaysFromCivil(c)) == c
  {
    var era, year, m := MarchOfCivil(c);
    CivilOfMarch(DaysFromCivil(c), era, year, MonthStart(m) + c.day - 1);
  }

  lemma {:induction false} MarchIsValid(days: int, era: int, year: int, dayOfYear: int)
    requires March(days, era, year, dayOfYear)
    ensures ValidDate(CivilFromDays(days))
  {
    CivilOfMarch(days, era, year, dayOfYear);
    MonthOfMeaning(dayOfYear);
    var m, c := MonthOf(dayOfYear), CivilFromDays(days);
    MonthLengths(year, m);
    LeapByEra(year + (if c.month <= 2 then 1 else 0), era);
  }

  /** Every day number is that of exactly one valid date. */
  lemma {:induction false} DaysRoundTrip(days: int)
    ensures ValidDate(CivilFromDays(days)) && DaysFromCivil(CivilFromDays(days)) == days
  {
    var era, year, dayOfYear := MarchOfDays(days);
    CivilOfMarch(days, era, year, dayOfYear);
    MonthOfMeaning(dayOfYear);
    MarchIsValid(days, era, year, dayOfYear);
    var e, y, n := MarchOfCivil(CivilFromDays(days));
    Divides(year + era * 400, 400, era, year);
    Divides(y + e * 400, 400, e, y);
  }

  predicate Before(a: Civil, b: Civil) {
    a.year < b.year || (a.year == b.year && (a.month < b.month || (a.month == b.month && a.day < b.day)))
  }

  lemma {:induction false} NextYear(y: int)
    requires 0 <= y < 399
    ensures YearStart(y + 1) == YearStart(y) + YearLength(y)
  {
    var c, q, r := PartsOfYear(y);
    YearByParts(y, c, q, r);
    if r < 3 {
      YearByParts(y + 1, c, q, r + 1);
    } else if q < 24 {
      YearByParts(y + 1, c, q + 1, 0);
    } else {
      YearByParts(y + 1, c + 1, 0, 0);
    }
  }

  lemma {:induction false} LaterYear(y: int, z: int)
    requires 0 <= y < z < 400
    ensures YearStart(y) + YearLength(y) <= YearStart(z)
    decreases z - y
  {
    NextYear(y);
    if y + 1 < z {
      LaterYear(y + 1, z);
    }
  }

  /** A later March year has greater day numbers. */
  lemma {:induction false} LaterMarch(d1: int, e1: int, y1: int, n1: int, d2: int, e2: int, y2: int, n2: int)
    requires March(d1, e1, y1, n1) && March(d2, e2, y2, n2)
    requires e1 * 400 + y1 < e2 * 400 + y2 || (e1 == e2 && y1 == y2 && n1 < n2)
    ensures d1 < d2
  {
    if e1 < e2 {
      YearOfEraInverts(y1, n1);
    } else if y1 < y2 {
      LaterYear(y1, y2);
    }
  }

  lemma {:induction false} LaterMonth(m1: int, day1: int, m2: int, day2: int)
    requires 0 <= m1 < 12 && 0 <= m2 < 12 && 0 <= day1 && 0 <= day2 && (m1 < 11 ==> MonthStart(m1) + day1 < MonthStart(m1 + 1))
    requires m1 < m2 || (m1 == m2 && day1 < day2)
    ensures MonthStart(m1) + day1 < MonthStart(m2) + day2
  {
  }

  /** Later dates have greater day numbers. */
  lemma {:induction false} DaysIncrease(a: Civil, b: Civil)
    requires ValidDate(a) && ValidDate(b) && Before(a, b)
    ensures DaysFromCivil(a) < DaysFromCivil(b)
  {
    var e1, y1, m1 := MarchOfCivil(a);
    var e2, y2, m2 := MarchOfCivil(b);
    if e1 == e2 && y1 == y2 {
      MonthOfMeaning(MonthStart(m1) + a.day - 1);
      LaterMonth(m1, a.day - 1, m2, b.day - 1);
    }
    LaterMarch(DaysFromCivil(a), e1, y1, MonthStart(m1) + a.day - 1, DaysFromCivil(b), e2, y2, MonthStart(m2) + b.day - 1);
  }
}

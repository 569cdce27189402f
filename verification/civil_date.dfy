/**
 The calendar arithmetic of session timestamps: from days since 1970-01-01 to a date of the proleptic
 Gregorian calendar of section 5.7 and appendix C of RFC 3339.
 */
module CivilDate {
  // ----- The calendar, by counting

  datatype Date = Date(year: int, month: int, day: int)

  predicate IsLeap(year: int) { year % 4 == 0 && (year % 100 != 0 || year % 400 == 0) }

  function Leap(year: int): int { if IsLeap(year) then 1 else 0 }

  function DaysInMonth(year: int, month: int): int {
    if month == 2 then 28 + Leap(year)
    else if month in {4, 6, 9, 11} then 30
    else 31
  }

  predicate IsDate(d: Date) { 1 <= d.month <= 12 && 1 <= d.day <= DaysInMonth(d.year, d.month) }

  /** Days from 1970-01-01 to the first of January, counted year by year in either direction. */
  function DaysBeforeYear(year: int): int
    decreases if year >= 1970 then year - 1970 else 1970 - year
  {
    if year == 1970 then 0
    else if year > 1970 then DaysBeforeYear(year - 1) + 365 + Leap(year - 1)
    else DaysBeforeYear(year + 1) - 365 - Leap(year)
  }

  function DaysBeforeMonth(year: int, month: int): int
    requires 1 <= month <= 13
    decreases month
  {
    if month == 1 then 0 else DaysBeforeMonth(year, month - 1) + DaysInMonth(year, month - 1)
  }

  function DayNumber(d: Date): int
    requires IsDate(d)
  {
    DaysBeforeYear(d.year) + DaysBeforeMonth(d.year, d.month) + d.day - 1
  }

  // ----- The conversion

  /** Division as the source language does it, rounding toward zero. */
  function Quotient(n: int, divisor: int): int
    requires divisor > 0
  {
    if n >= 0 then n / divisor else -(-n / divisor)
  }

  function Era(z: int): int { Quotient(if z >= 0 then z else z - 146096, 146097) }

  function YearOfEra(doe: int): int {
    Quotient(doe - Quotient(doe, 1460) + Quotient(doe, 36524) - Quotient(doe, 146096), 365)
  }

  function DayOfYear(doe: int, yoe: int): int { doe - (365 * yoe + Quotient(yoe, 4) - Quotient(yoe, 100)) }

  /** The date `doy` days after the first of March. */
  function MarchDate(year: int, doy: int): Date {
    var mp := Quotient(5 * doy + 2, 153);
    var day := doy - Quotient(153 * mp + 2, 5) + 1;
    var month := mp + if mp < 10 then 3 else -9;
    Date(year + if month <= 2 then 1 else 0, month, day)
  }

  function CivilFromDays(days: int): Date {
    var z := days + 719468;
    var era := Era(z);
    var doe := z - era * 146097;
    var yoe := YearOfEra(doe);
    MarchDate(yoe + era * 400, DayOfYear(doe, yoe))
  }

  // ----- Closed forms

  /** Leap years up to `year`, as a closed form. */
  function LeapsTo(year: int): int { year / 4 - year / 100 + year / 400 }

  lemma LeapsStep(year: int)
    ensures LeapsTo(year) == LeapsTo(year - 1) + Leap(year)
  {
    Steps(year, 4);
    Steps(year, 100);
    Steps(year, 400);
    Multiples(year);
  }

  lemma Multiples(n: int)
    ensures n % 400 == 0 ==> n % 100 == 0
    ensures n % 100 == 0 ==> n % 4 == 0
  {
    var (a, b) := (n / 400, n / 100);
    assert n == a * 400 + n % 400 && n == b * 100 + n % 100;
    if n % 400 == 0 {
      QuotientIs(n, 100, 4 * a);
    }
    if n % 100 == 0 {
      QuotientIs(n, 4, 25 * b);
    }
  }

  lemma QuotientIs(n: int, divisor: int, q: int)
    requires divisor in {4, 100, 365, 400, 1460, 36524, 146096}
    requires q * divisor <= n < q * divisor + divisor
    ensures n / divisor == q && n % divisor == n - q * divisor
  {
  }

  lemma Steps(n: int, divisor: int)
    requires divisor in {4, 100, 400}
    ensures n / divisor == (n - 1) / divisor + if n % divisor == 0 then 1 else 0
  {
  }

  lemma {:induction false} YearsClosed(year: int)
    ensures DaysBeforeYear(year) == 365 * (year - 1970) + LeapsTo(year - 1) - 477
    decreases if year >= 1970 then year - 1970 else 1970 - year
  {
    if year > 1970 {
      YearsClosed(year - 1);
      LeapsStep(year - 1);
    } else if year < 1970 {
      YearsClosed(year + 1);
      LeapsStep(year);
    }
  }

  /** Days of the years of an era before year `yoe`, where years begin in March. */
  function EraDays(yoe: int): int { 365 * yoe + yoe / 4 - yoe / 100 + yoe / 400 }

  /** Year `yoe` of an era has 366 days exactly if the next calendar year is a leap year. */
  lemma EraYearLength(yoe: int)
    requires 0 <= yoe < 400
    ensures EraDays(yoe + 1) - EraDays(yoe) == 365 + Leap(yoe + 1)
  {
    LeapsStep(yoe + 1);
  }

  /** A year as quarter and remainder, and as century and rest. */
  lemma Parts(yoe: int)
    requires 0 <= yoe < 400
    ensures
      var (k, c) := (yoe / 4, yoe / 100);
      && 0 <= yoe - 4 * k < 4 && 0 <= yoe - 100 * c < 100 && 0 <= c <= 3 && 25 * c <= k < 25 * c + 25
      && (Leap(yoe + 1) == 1 ==> yoe - 4 * k == 3 && (yoe - 100 * c != 99 || yoe == 399))
      && EraDays(yoe) == 365 * yoe + k - c
  {
    var (k, c) := (yoe / 4, yoe / 100);
    assert 25 * c <= k < 25 * c + 25;
  }

  /** The day is at least the first of its four-year group, and less than two groups past it. */
  lemma QuarterQuotient(doe: int, yoe: int) returns (q: int)
    requires 0 <= yoe < 400 && EraDays(yoe) <= doe < EraDays(yoe + 1)
    ensures doe / 1460 == q
    ensures q == if doe - 1460 * (yoe / 4) >= 1460 then yoe / 4 + 1 else yoe / 4
  {
    EraYearLength(yoe);
    Parts(yoe);
    q := if doe - 1460 * (yoe / 4) >= 1460 then yoe / 4 + 1 else yoe / 4;
    QuotientIs(doe, 1460, q);
  }

  lemma CenturyQuotient(doe: int, yoe: int)
    requires 0 <= yoe < 400 && EraDays(yoe) <= doe < EraDays(yoe + 1)
    ensures doe / 36524 == if doe == 146096 then 4 else yoe / 100
    ensures doe / 146096 == if doe == 146096 then 1 else 0
  {
    EraYearLength(yoe);
    Parts(yoe);
    QuotientIs(doe, 36524, if doe == 146096 then 4 else yoe / 100);
    QuotientIs(doe, 146096, if doe == 146096 then 1 else 0);
  }

  /** The corrections the source subtracts and adds leave the day within its year. */
  lemma Corrections(doe: int, yoe: int) returns (q1: int, q2: int, q3: int)
    requires 0 <= yoe < 400 && EraDays(yoe) <= doe < EraDays(yoe + 1)
    ensures doe / 1460 == q1 && doe / 36524 == q2 && doe / 146096 == q3
    ensures 365 * yoe <= doe - q1 + q2 - q3 < 365 * yoe + 365
  {
    EraYearLength(yoe);
    Parts(yoe);
    q1 := QuarterQuotient(doe, yoe);
    CenturyQuotient(doe, yoe);
    q2 := if doe == 146096 then 4 else yoe / 100;
    q3 := if doe == 146096 then 1 else 0;
  }

  /** The source's formula finds the year that contains the day. */
  lemma YearFound(doe: int, yoe: int)
    requires 0 <= yoe < 400 && 0 <= doe && EraDays(yoe) <= doe < EraDays(yoe + 1)
    ensures YearOfEra(doe) == yoe
  {
    var q1, q2, q3 := Corrections(doe, yoe);
    QuotientIs(doe - q1 + q2 - q3, 365, yoe);
  }

  /** Some year of the era contains the day. */
  lemma {:induction false} SomeYear(doe: int, n: nat) returns (yoe: int)
    requires n <= 400 && 0 <= doe < EraDays(n)
    ensures 0 <= yoe < n && EraDays(yoe) <= doe < EraDays(yoe + 1)
    decreases n
  {
    if EraDays(n - 1) <= doe {
      yoe := n - 1;
    } else {
      yoe := SomeYear(doe, n - 1);
    }
  }

  /** Months counted from March: the month and its first day of the year. */
  lemma MonthFound(doy: int)
    requires 0 <= doy <= 365
    ensures
      var mp := Quotient(5 * doy + 2, 153);
      0 <= mp <= 11 && MarchDays(mp) <= doy < MarchDays(mp + 1) && Quotient(153 * mp + 2, 5) == MarchDays(mp)
  {
  }

  /** Days from the first of March to the first of the month `mp` months later; the last month is left open. */
  function MarchDays(mp: int): int
    requires 0 <= mp <= 12
  {
    match mp
    case 0 => 0 case 1 => 31 case 2 => 61 case 3 => 92 case 4 => 122 case 5 => 153
    case 6 => 184 case 7 => 214 case 8 => 245 case 9 => 275 case 10 => 306 case 11 => 337 case _ => 366
  }

  lemma MonthStarts(year: int, month: int)
    requires 1 <= month <= 12
    ensures DaysBeforeMonth(year, month) ==
      if month <= 2 then MarchDays(month + 9) - 306 else MarchDays(month - 3) + 59 + Leap(year)
    decreases month
  {
    if month > 1 {
      MonthStarts(year, month - 1);
    }
  }

  function MarchFirst(year: int): int { DaysBeforeYear(year) + 59 + Leap(year) }

  lemma MarchDateExists(year: int, doy: int)
    requires 0 <= doy < 365 + Leap(year + 1)
    ensures IsDate(MarchDate(year, doy)) && DayNumber(MarchDate(year, doy)) == MarchFirst(year) + doy
  {
    MonthFound(doy);
    var d := MarchDate(year, doy);
    MonthStarts(d.year, d.month);
    NextJanuary(year);
  }

  lemma NextJanuary(year: int)
    ensures DaysBeforeYear(year + 1) == MarchFirst(year) + 306
  {
    YearsClosed(year);
    YearsClosed(year + 1);
    LeapsStep(year);
  }

  /** The first of March of a year, counted within its era of 400 years. */
  lemma MarchFirstInEra(era: int, yoe: int)
    requires 0 <= yoe < 400
    ensures MarchFirst(yoe + era * 400) == era * 146097 + EraDays(yoe) - 719468
    ensures Leap(yoe + era * 400 + 1) == Leap(yoe + 1)
  {
    var year := yoe + era * 400;
    YearsClosed(year);
    LeapsStep(year);
    LeapsInEra(era, yoe);
    LeapInEra(era, yoe + 1);
  }

  lemma LeapsInEra(era: int, yoe: int)
    requires 0 <= yoe < 400
    ensures LeapsTo(yoe + era * 400) == yoe / 4 - yoe / 100 + era * 97
  {
    var year := yoe + era * 400;
    assert year / 4 == yoe / 4 + era * 100;
    assert year / 100 == yoe / 100 + era * 4;
    assert year / 400 == era;
  }

  lemma LeapInEra(era: int, year: int)
    ensures Leap(year + era * 400) == Leap(year)
  {
    var n := year + era * 400;
    QuotientIs(n, 4, year / 4 + era * 100);
    QuotientIs(n, 100, year / 100 + era * 4);
    QuotientIs(n, 400, year / 400 + era);
  }

  lemma EraFloors(z: int)
    ensures 0 <= z - Era(z) * 146097 < 146097
  {
  }

  // ----- The conversion is exact

  /** Every day count is converted to the Gregorian date with that number. */
  lemma CivilFromDaysCorrect(days: int)
    ensures IsDate(CivilFromDays(days)) && DayNumber(CivilFromDays(days)) == days
  {
    var z := days + 719468;
    EraFloors(z);
    var era := Era(z);
    var doe := z - era * 146097;
    var yoe := SomeYear(doe, 400);
    YearFound(doe, yoe);
    EraYearLength(yoe);
    var doy := doe - EraDays(yoe);
    assert DayOfYear(doe, yoe) == doy;
    MarchFirstInEra(era, yoe);
    MarchDateExists(yoe + era * 400, doy);
    Composed(days, era, yoe, doy);
  }

  lemma Composed(days: int, era: int, yoe: int, doy: int)
    requires era == Era(days + 719468) && yoe == YearOfEra(days + 719468 - era * 146097)
    requires doy == DayOfYear(days + 719468 - era * 146097, yoe)
    ensures CivilFromDays(days) == MarchDate(yoe + era * 400, doy)
  {
  }

  /** The copy that the terminal host uses for today's date computes the same. */
  method UtcCivilFromDays(daysSinceUnixEpoch: int) returns (year: int, month: int, day: int)
    ensures Date(year, month, day) == CivilFromDays(daysSinceUnixEpoch)
  {
    var z := daysSinceUnixEpoch + 719468;
    var era := Quotient(if z >= 0 then z else z - 146096, 146097);
    EraFloors(z);
    var dayOfEra := z - era * 146097;
    var yearOfEra := Quotient(
      dayOfEra - Quotient(dayOfEra, 1460) + Quotient(dayOfEra, 36524) - Quotient(dayOfEra, 146096), 365);
    year := yearOfEra + era * 400;
    var dayOfYear := dayOfEra - (365 * yearOfEra + Quotient(yearOfEra, 4) - Quotient(yearOfEra, 100));
    Composed(daysSinceUnixEpoch, era, yearOfEra, dayOfYear);
    month, day := MonthAndDay(dayOfYear);
    year := year + if month <= 2 then 1 else 0;
  }

  method MonthAndDay(dayOfYear: int) returns (month: int, day: int)
    ensures forall year :: MarchDate(year, dayOfYear) == Date(year + if month <= 2 then 1 else 0, month, day)
  {
    var monthPrime := Quotient(5 * dayOfYear + 2, 153);
    day := dayOfYear - Quotient(153 * monthPrime + 2, 5) + 1;
    month := monthPrime + if monthPrime < 10 then 3 else -9;
  }

  /** Earlier in the calendar. */
  predicate Before(a: Date, b: Date) {
    a.year < b.year || (a.year == b.year && (a.month < b.month || (a.month == b.month && a.day < b.day)))
  }

  lemma {:induction false} YearsGrow(a: int, b: int)
    requires a < b
    ensures DaysBeforeYear(a) + 365 + Leap(a) <= DaysBeforeYear(b)
    decreases b - a
  {
    YearsClosed(a);
    YearsClosed(a + 1);
    LeapsStep(a);
    if a + 1 < b {
      YearsGrow(a + 1, b);
    }
  }

  lemma MonthsGrow(year: int, a: int, b: int)
    requires 1 <= a < b <= 13
    ensures 0 <= DaysBeforeMonth(year, a) && DaysBeforeMonth(year, a) + DaysInMonth(year, a) <= DaysBeforeMonth(year, b)
    decreases b
  {
    if a + 1 < b {
      MonthsGrow(year, a, b - 1);
    }
    if a > 1 {
      MonthsGrow(year, a - 1, a);
    }
  }

  lemma YearHolds(d: Date)
    requires IsDate(d)
    ensures 0 <= DayNumber(d) - DaysBeforeYear(d.year) < 365 + Leap(d.year)
  {
    MonthsGrow(d.year, d.month, 13);
    MonthStarts(d.year, 12);
  }

  /** Day numbers grow strictly with the calendar, so a date has its own number. */
  lemma DayNumberMonotone(a: Date, b: Date)
    requires IsDate(a) && IsDate(b)
    ensures DayNumber(a) < DayNumber(b) <==> Before(a, b)
    ensures DayNumber(a) == DayNumber(b) <==> a == b
  {
    if Before(a, b) {
      Grows(a, b);
    } else if Before(b, a) {
      Grows(b, a);
    }
  }

  lemma Grows(a: Date, b: Date)
    requires IsDate(a) && IsDate(b) && Before(a, b)
    ensures DayNumber(a) < DayNumber(b)
  {
    if a.year < b.year {
      YearHolds(a);
      YearHolds(b);
      YearsGrow(a.year, b.year);
    } else if a.month < b.month {
      MonthsGrow(a.year, a.month, b.month);
    }
  }

  /** The conversion and the day number undo each other, and later days are later dates. */
  lemma CivilFromDaysExactly(days: int, d: Date)
    requires IsDate(d)
    ensures CivilFromDays(days) == d <==> DayNumber(d) == days
    ensures DayNumber(d) < days <==> Before(d, CivilFromDays(days))
  {
    CivilFromDaysCorrect(days);
    DayNumberMonotone(d, CivilFromDays(days));
  }

  // ----- Machine integers

  const I64_MIN: int := -0x8000_0000_0000_0000
  const I64_MAX: int := 0x7FFF_FFFF_FFFF_FFFF

  predicate Fits(n: int) { I64_MIN <= n <= I64_MAX }

  /** The 64-bit computation overflows in its first addition or not at all. */
  lemma FitsExactly(days: int)
    requires Fits(days)
    ensures
      var z := days + 719468;
      var era := Era(z);
      (&& Fits(z) && (z < 0 ==> Fits(z - 146096)) && Fits(era * 146097) && Fits(z - era * 146097)
       && Fits(era * 400) && Fits(CivilFromDays(days).year))
      <==> days <= I64_MAX - 719468
  {
    var z := days + 719468;
    EraFloors(z);
    YearBound(days);
  }

  lemma YearBound(days: int)
    requires Fits(days)
    ensures -0x8000_0000_0000_0000 < Era(days + 719468) * 400 && Fits(Era(days + 719468) * 400 + 400)
    ensures Era(days + 719468) * 400 <= CivilFromDays(days).year <= Era(days + 719468) * 400 + 400
  {
    var z := days + 719468;
    EraFloors(z);
    var yoe := SomeYear(z - Era(z) * 146097, 400);
    YearFound(z - Era(z) * 146097, yoe);
  }
}

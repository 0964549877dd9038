/** Civil-calendar arithmetic: the closed-form day-number algorithms and the plain
    leap-year calendar they are measured against. */
module Calendar {
  import opened Text

  datatype Date = Date(year: int, month: int, day: int)

  // ---------------------------------------------------------------------------
  // The plain leap-year calendar
  // ---------------------------------------------------------------------------

  // Divisibility is the only use of `%` here, so the sign convention is immaterial.
  predicate IsLeap(year: int) {
    year % 4 == 0 && (year % 100 != 0 || year % 400 == 0)
  }

  function DaysInMonth(year: int, month: int): int {
    if month in {4, 6, 9, 11} then 30
    else if month == 2 then (if IsLeap(year) then 29 else 28)
    else 31
  }

  predicate IsDate(date: Date) {
    1 <= date.month <= 12 && 1 <= date.day <= DaysInMonth(date.year, date.month)
  }

  /** The day after `date`, by turning the page of a calendar. */
  function Tomorrow(date: Date): Date {
    if date.day < DaysInMonth(date.year, date.month) then date.(day := date.day + 1)
    else if date.month < 12 then Date(date.year, date.month + 1, 1)
    else Date(date.year + 1, 1, 1)
  }

  function DaysInYear(year: int): int {
    if IsLeap(year) then 366 else 365
  }

  /** Days from 1970-01-01 to the first of January of `year`, one year at a time. */
  function YearStart(year: int): int
    decreases if year >= 1970 then year - 1970 else 1970 - year
  {
    if year == 1970 then 0
    else if year > 1970 then YearStart(year - 1) + DaysInYear(year - 1)
    else YearStart(year + 1) - DaysInYear(year)
  }

  /** Days of `year` before its `month`, one month at a time. */
  function MonthStart(year: int, month: int): int
    requires 1 <= month <= 12
    decreases month
  {
    if month == 1 then 0 else MonthStart(year, month - 1) + DaysInMonth(year, month - 1)
  }

  /** The day number of `date` counted out on the plain calendar. */
  function CountedDay(date: Date): int
    requires 1 <= date.month <= 12
  {
    YearStart(date.year) + MonthStart(date.year, date.month) + date.day - 1
  }

  // ---------------------------------------------------------------------------
  // The closed forms
  // ---------------------------------------------------------------------------

  /** Integer division that truncates toward zero. */
  function TruncDiv(a: int, b: int): int
    requires b > 0
  {
    if a >= 0 then a / b else -((-a) / b)
  }

  function Era(value: int, length: int): (era: int)
    requires length > 0
  {
    TruncDiv(if value >= 0 then value else value - (length - 1), length)
  }

  function DayOfMarchYear(month: int, day: int): int {
    (153 * (month + if month > 2 then -3 else 9) + 2) / 5 + day - 1
  }

  function DaysFromCivil(year: int, month: int, day: int): int {
    var y := if month <= 2 then year - 1 else year;
    var era := Era(y, 400);
    var yoe := y - era * 400;
    era * 146_097 + (yoe * 365 + yoe / 4 - yoe / 100 + DayOfMarchYear(month, day)) - 719_468
  }

  function DayNumber(date: Date): int {
    DaysFromCivil(date.year, date.month, date.day)
  }

  function YearOfEra(doe: int): int {
    (doe - doe / 1460 + doe / 36_524 - doe / 146_096) / 365
  }

  /** The date of day `doy` of March year `yoe` of `era`. */
  function DateOfMarchDay(era: int, yoe: int, doy: int): Date {
    var mp := (5 * doy + 2) / 153;
    var day := doy - (153 * mp + 2) / 5 + 1;
    var month := mp + if mp < 10 then 3 else -9;
    Date(yoe + era * 400 + (if month <= 2 then 1 else 0), month, day)
  }

  function DateOfEraDay(era: int, doe: int): Date {
    var yoe := YearOfEra(doe);
    DateOfMarchDay(era, yoe, doe - (365 * yoe + yoe / 4 - yoe / 100))
  }

  function CivilFromDays(days: int): Date {
    var z := days + 719_468;
    var era := Era(z, 146_097);
    DateOfEraDay(era, z - era * 146_097)
  }

  // ---------------------------------------------------------------------------
  // The closed forms against the calendar
  // ---------------------------------------------------------------------------

  lemma {:induction false} EraIsFloor(value: int, length: int)
    requires length > 0
    ensures Era(value, length) == value / length
  {
    var q, r := value / length, value % length;
    assert value == q * length + r;
    if value < 0 {
      FloorUnique(length - 1 - value, length, -q);
    }
  }

  lemma {:induction false} MulMono(x: int, y: int, b: int)
    ensures x <= y && 0 <= b ==> x * b <= y * b
  {
  }

  lemma {:induction false} FloorUnique(a: int, b: int, q: int)
    requires b > 0 && q * b <= a < q * b + b
    ensures a / b == q
  {
    var p, r := a / b, a % b;
    assert a == p * b + r;
    MulMono(p + 1, q, b);
    MulMono(q + 1, p, b);
    assert (p + 1) * b == p * b + b && (q + 1) * b == q * b + b;
  }

  /** Days in the whole years before the March that opens `year`, up to a constant. */
  function MarchYears(year: int): int {
    365 * year + year / 4 - year / 100 + year / 400
  }

  // Splitting a year into era and year of era loses nothing.
  lemma {:induction false} EraSplit(year: int)
    ensures var era := Era(year, 400); var yoe := year - era * 400;
            0 <= yoe < 400 && era * 146_097 + (yoe * 365 + yoe / 4 - yoe / 100) == MarchYears(year)
  {
    EraIsFloor(year, 400);
    var era, yoe := year / 400, year % 400;
    FloorUnique(year, 4, 100 * era + yoe / 4);
    FloorUnique(year, 100, 4 * era + yoe / 100);
  }

  lemma {:induction false} ClosedForm(date: Date)
    ensures DayNumber(date)
         == MarchYears(date.year - if date.month <= 2 then 1 else 0)
            + DayOfMarchYear(date.month, date.day) - 719_468
  {
    EraSplit(date.year);
    EraSplit(date.year - 1);
  }

  lemma {:induction false} DivStep(year: int, k: int)
    requires k > 0
    ensures year / k - (year - 1) / k == if year % k == 0 then 1 else 0
  {
    var q, r := year / k, year % k;
    assert year == q * k + r;
    FloorUnique(year - 1, k, if r == 0 then q - 1 else q);
  }

  lemma {:induction false} MarchYearLength(year: int)
    ensures MarchYears(year) - MarchYears(year - 1) == DaysInYear(year)
  {
    DivStep(year, 4);
    DivStep(year, 100);
    DivStep(year, 400);
  }

  // Within a year counted from March the closed form steps by the length of the month; February ends it.
  lemma {:induction false} MarchMonthStep(year: int, month: int)
    requires 1 <= month < 12
    ensures month != 2 ==> DayOfMarchYear(month + 1, 1) == DayOfMarchYear(month, 1) + DaysInMonth(year, month)
    ensures DayOfMarchYear(1, 1) == 306 && DayOfMarchYear(2, 1) == 337 && DayOfMarchYear(3, 1) == 0
  {
    hide IsLeap;
  }

  lemma {:induction false} MonthStartIsClosed(year: int, month: int)
    requires 1 <= month <= 12
    ensures MonthStart(year, month) + (if month > 2 then 0 else 365 + if IsLeap(year) then 1 else 0)
         == DayOfMarchYear(month, 1) + 59 + (if IsLeap(year) then 1 else 0)
  {
    hide IsLeap, DayOfMarchYear;
    MarchMonthStep(year, if month > 1 then month - 1 else 1);
    if month > 1 {
      MonthStartIsClosed(year, month - 1);
    }
  }

  lemma {:induction false} YearStartIsClosed(year: int)
    ensures YearStart(year) == MarchYears(year - 1) + 306 - 719_468
    decreases if year >= 1970 then year - 1970 else 1970 - year
  {
    if year > 1970 {
      YearStartIsClosed(year - 1);
      MarchYearLength(year - 1);
    } else if year < 1970 {
      YearStartIsClosed(year + 1);
      MarchYearLength(year);
    }
  }

  /** The closed form is the day count of the plain calendar. */
  lemma {:induction false} DayNumberIsCounted(date: Date)
    requires 1 <= date.month <= 12
    ensures DayNumber(date) == CountedDay(date)
  {
    ClosedForm(date);
    YearStartIsClosed(date.year);
    MonthStartIsClosed(date.year, date.month);
    MarchYearLength(date.year);
  }

  lemma {:induction false} YearStartStep(year: int)
    ensures YearStart(year + 1) == YearStart(year) + DaysInYear(year)
  {
  }

  lemma {:induction false} YearEndsInDecember(year: int)
    ensures MonthStart(year, 12) + 31 == DaysInYear(year)
  {
    MonthStartIsClosed(year, 12);
  }

  lemma {:induction false} TomorrowCountsOne(date: Date)
    requires IsDate(date)
    ensures IsDate(Tomorrow(date))
    ensures CountedDay(Tomorrow(date)) == CountedDay(date) + 1
  {
    YearStartStep(date.year);
    YearEndsInDecember(date.year);
  }

  /** Stepping to the next date of the plain calendar always adds exactly one. */
  lemma {:induction false} TomorrowAddsOne(date: Date)
    requires IsDate(date)
    ensures IsDate(Tomorrow(date))
    ensures DayNumber(Tomorrow(date)) == DayNumber(date) + 1
  {
    TomorrowCountsOne(date);
    DayNumberIsCounted(date);
    DayNumberIsCounted(Tomorrow(date));
  }

  /** The first day of March year `yoe` of an era. */
  function EraYearStart(yoe: int): int {
    365 * yoe + yoe / 4 - yoe / 100
  }

  // Century c, four-year cycle q, year r and day d of an era: how many leap days the formula takes off.
  lemma {:induction false} LeapDaysTakenOff(c: int, q: int, r: int, d: int)
    requires 0 <= c < 4 && 0 <= q < 25 && 0 <= r < 4 && 0 <= d <= 365
    requires d == 365 ==> r == 3 && (q == 24 ==> c == 3)
    ensures var doe := 36_524 * c + 1461 * q + 365 * r + d;
            doe / 1460 - doe / 36_524 + doe / 146_096
            == 24 * c + q + if 24 * c + q + 365 * r + d >= 1460 then 1 else 0
  {
    var doe := 36_524 * c + 1461 * q + 365 * r + d;
    var e := if 24 * c + q + 365 * r + d >= 1460 then 1 else 0;
    var f := if doe == 146_096 then 1 else 0;
    FloorUnique(doe, 1460, 25 * c + q + e);
    FloorUnique(doe, 36_524, c + f);
    FloorUnique(doe, 146_096, f);
  }

  // The formula finds the year.
  lemma {:induction false} YearOfEraAt(c: int, q: int, r: int, d: int)
    requires 0 <= c < 4 && 0 <= q < 25 && 0 <= r < 4 && 0 <= d <= 365
    requires d == 365 ==> r == 3 && (q == 24 ==> c == 3)
    ensures var doe := 36_524 * c + 1461 * q + 365 * r + d; var yoe := 100 * c + 4 * q + r;
            YearOfEra(doe) == yoe && EraYearStart(yoe) == doe - d
  {
    var yoe := 100 * c + 4 * q + r;
    var e := if 24 * c + q + 365 * r + d >= 1460 then 1 else 0;
    LeapDaysTakenOff(c, q, r, d);
    FloorUnique(365 * yoe + d - e, 365, yoe);
    FloorUnique(yoe, 4, 25 * c + q);
    FloorUnique(yoe, 100, c);
  }

  // A day of an era lies in a century, a cycle of four years and a year of those.
  lemma {:induction false} PartsOfEra(doe: int) returns (c: int, q: int, r: int, d: int)
    requires 0 <= doe < 146_097
    ensures 0 <= c < 4 && 0 <= q < 25 && 0 <= r < 4 && 0 <= d <= 365 && (d == 365 ==> r == 3 && (q == 24 ==> c == 3))
    ensures doe == 36_524 * c + 1461 * q + 365 * r + d
  {
    c := if doe == 146_096 then 3 else doe / 36_524;
    var inCentury := doe - 36_524 * c;
    q := inCentury / 1461;
    var inCycle := inCentury - 1461 * q;
    r := if inCycle == 1460 then 3 else inCycle / 365;
    d := inCycle - 365 * r;
  }

  lemma {:induction false} LeapAfterCycle(c: int, q: int)
    requires 0 <= c < 4 && 0 <= q < 25 && (q == 24 ==> c == 3)
    ensures IsLeap(100 * c + 4 * q + 4)
  {
    FloorUnique(100 * c + 4 * q + 4, 4, 25 * c + q + 1);
    if q < 24 {
      FloorUnique(100 * c + 4 * q + 4, 100, c);
    }
  }

  // Within one era, the year-of-era formula finds the March year a day falls in.
  lemma {:induction false} YearOfEraIsExact(doe: int)
    requires 0 <= doe < 146_097
    ensures var yoe := YearOfEra(doe);
            0 <= yoe < 400 && 0 <= doe - EraYearStart(yoe) <= 365
            && (doe - EraYearStart(yoe) == 365 ==> IsLeap(yoe + 1))
  {
    hide YearOfEra, EraYearStart, IsLeap;
    var c, q, r, d := PartsOfEra(doe);
    YearOfEraAt(c, q, r, d);
    if d == 365 {
      LeapAfterCycle(c, q);
    }
  }

  // The month formula cuts a March year into its months.
  lemma {:induction false} MonthOfMarchYear(doy: int)
    requires 0 <= doy <= 365
    ensures var mp := (5 * doy + 2) / 153;
            var month := mp + if mp < 10 then 3 else -9;
            var day := doy - (153 * mp + 2) / 5 + 1;
            1 <= month <= 12 && 1 <= day && DayOfMarchYear(month, day) == doy
            && day <= (if month == 2 then (if doy == 365 then 29 else 28) else DaysInMonth(1, month))
  {
  }

  lemma {:induction false} LeapIsPeriodic(year: int, era: int)
    ensures IsLeap(year + era * 400) == IsLeap(year)
  {
    FloorUnique(year + era * 400, 4, year / 4 + 100 * era);
    FloorUnique(year + era * 400, 100, year / 100 + 4 * era);
    FloorUnique(year + era * 400, 400, year / 400 + era);
  }

  // The closed form on a date whose March year is already split into era and year of era.
  lemma {:induction false} DayNumberOfParts(era: int, yoe: int, month: int, day: int)
    requires 0 <= yoe < 400
    ensures DaysFromCivil(yoe + era * 400 + (if month <= 2 then 1 else 0), month, day)
         == era * 146_097 + EraYearStart(yoe) + DayOfMarchYear(month, day) - 719_468
  {
    EraIsFloor(yoe + era * 400, 400);
    FloorUnique(yoe + era * 400, 400, era);
  }

  // Reassembling a date from its era and day of era; `doe` stays symbolic here.
  lemma {:induction false} DateOfDayOfEra(era: int, doe: int)
    requires 0 <= doe < 146_097
    ensures IsDate(DateOfEraDay(era, doe))
    ensures DayNumber(DateOfEraDay(era, doe)) == era * 146_097 + doe - 719_468
  {
    hide IsDate, DayNumber, DateOfMarchDay, YearOfEra, IsLeap;
    YearOfEraIsExact(doe);
    var yoe := YearOfEra(doe);
    var doy := doe - EraYearStart(yoe);
    DateInMarchYear(era, yoe, doy);
  }

  lemma {:induction false} DateInMarchYear(era: int, yoe: int, doy: int)
    requires 0 <= yoe < 400 && 0 <= doy <= 365
    requires doy == 365 ==> IsLeap(yoe + 1)
    ensures IsDate(DateOfMarchDay(era, yoe, doy))
    ensures DayNumber(DateOfMarchDay(era, yoe, doy)) == era * 146_097 + EraYearStart(yoe) + doy - 719_468
  {
    MonthOfMarchYear(doy);
    LeapIsPeriodic(yoe + 1, era);
    var date := DateOfMarchDay(era, yoe, doy);
    DayNumberOfParts(era, yoe, date.month, date.day);
  }

  /** Every day number is the number of the date computed from it. */
  lemma {:induction false} CivilFromDaysIsExact(days: int)
    ensures IsDate(CivilFromDays(days))
    ensures DayNumber(CivilFromDays(days)) == days
  {
    hide IsDate, DayNumber, DateOfEraDay, Era;
    var z := days + 719_468;
    EraIsFloor(z, 146_097);
    DateOfDayOfEra(z / 146_097, z % 146_097);
  }

  predicate Before(a: Date, b: Date) {
    a.year < b.year
    || (a.year == b.year && (a.month < b.month || (a.month == b.month && a.day < b.day)))
  }

  lemma {:induction false} YearsAccumulate(a: int, b: int)
    requires a <= b
    ensures YearStart(a) <= YearStart(b)
    decreases b - a
  {
    if a < b {
      YearStartStep(a);
      YearsAccumulate(a + 1, b);
    }
  }

  lemma {:induction false} MonthsAccumulate(year: int, a: int, b: int)
    requires 1 <= a < b <= 12
    ensures MonthStart(year, a) + DaysInMonth(year, a) <= MonthStart(year, b)
    decreases b
  {
    if a < b - 1 {
      MonthsAccumulate(year, a, b - 1);
    }
  }

  lemma {:induction false} CountedDayIsMonotone(a: Date, b: Date)
    requires IsDate(a) && IsDate(b) && Before(a, b)
    ensures CountedDay(a) < CountedDay(b)
  {
    if a.year < b.year {
      YearEndsInDecember(a.year);
      if a.month < 12 {
        MonthsAccumulate(a.year, a.month, 12);
      }
      YearStartStep(a.year);
      YearsAccumulate(a.year + 1, b.year);
      if b.month > 1 {
        MonthsAccumulate(b.year, 1, b.month);
      }
    } else if a.month < b.month {
      MonthsAccumulate(a.year, a.month, b.month);
    }
  }

  /** Day numbers order dates as the calendar does. */
  lemma {:induction false} DayNumberIsMonotone(a: Date, b: Date)
    requires IsDate(a) && IsDate(b) && Before(a, b)
    ensures DayNumber(a) < DayNumber(b)
  {
    CountedDayIsMonotone(a, b);
    DayNumberIsCounted(a);
    DayNumberIsCounted(b);
  }

  /** Every valid date is the date computed from its number. */
  lemma {:induction false} DayNumberIsInverted(date: Date)
    requires IsDate(date)
    ensures CivilFromDays(DayNumber(date)) == date
  {
    var back := CivilFromDays(DayNumber(date));
    CivilFromDaysIsExact(DayNumber(date));
    if Before(back, date) {
      DayNumberIsMonotone(back, date);
    } else if Before(date, back) {
      DayNumberIsMonotone(date, back);
    }
  }

  // ---------------------------------------------------------------------------
  // Integer widths
  // ---------------------------------------------------------------------------

  const I32_MIN := -0x8000_0000
  const I32_MAX := 0x7fff_ffff

  predicate FitsI32(n: int) {
    I32_MIN <= n <= I32_MAX
  }

  /** `DaysFromCivil` computed in 32-bit arithmetic: None when any step overflows. */
  function CheckedDaysFromCivil(year: int, month: int, day: int): Option<int> {
    var y := if month <= 2 then year - 1 else year;
    if !FitsI32(y) || !FitsI32(if y >= 0 then y else y - 399) then None
    else
      var era := Era(y, 400);
      var yoe := y - era * 400;
      var doe := yoe * 365 + yoe / 4 - yoe / 100 + DayOfMarchYear(month, day);
      var eraDays := era * 146_097;
      if !FitsI32(era * 400) || !FitsI32(eraDays) || !FitsI32(eraDays + doe)
         || !FitsI32(eraDays + doe - 719_468) then None
      else Some(eraDays + doe - 719_468)
  }

  lemma {:induction false} MarchDayIsSmall(date: Date)
    requires IsDate(date)
    ensures 0 <= DayOfMarchYear(date.month, date.day) <= 365
    ensures DayOfMarchYear(date.month, date.day) == 365 ==> date.month == 2 && IsLeap(date.year)
  {
  }

  /** The 32-bit computation succeeds exactly on the day numbers that leave room for the epoch shift. */
  lemma {:induction false} CheckedDaysAreExact(date: Date)
    requires IsDate(date)
    ensures CheckedDaysFromCivil(date.year, date.month, date.day)
         == if I32_MIN <= DayNumber(date) <= I32_MAX - 719_468 then Some(DayNumber(date)) else None
  {
    var y := if date.month <= 2 then date.year - 1 else date.year;
    EraIsFloor(y, 400);
    MarchDayIsSmall(date);
    EraDayIsSmall(y - y / 400 * 400, date);
  }

  // A date's day of era stays below one era.
  lemma {:induction false} EraDayIsSmall(yoe: int, date: Date)
    requires 0 <= yoe < 400 && IsDate(date)
    ensures 0 <= yoe * 365 + yoe / 4 - yoe / 100 + DayOfMarchYear(date.month, date.day) <= 146_097
  {
    MarchDayIsSmall(date);
  }

  /** A 64-bit year narrowed to 32 bits. */
  function NarrowToI32(n: int): (r: int)
    ensures FitsI32(r)
    ensures FitsI32(n) ==> r == n
  {
    (n - I32_MIN) % 0x1_0000_0000 + I32_MIN
  }

  /** `CivilFromDays` computed in 64-bit arithmetic: None when any step overflows. */
  function CheckedCivilFromDays(days: int): Option<Date> {
    var z := days + 719_468;
    if !IsI64(z) || !IsI64(if z >= 0 then z else z - 146_096) then None
    else
      var era := Era(z, 146_097);
      var doe := z - era * 146_097;
      var yoe := YearOfEra(doe);
      if !IsI64(era * 146_097) || !IsI64(doe) || !IsI64(era * 400) || !IsI64(yoe + era * 400)
         || !IsI64(yoe + era * 400 + 1) || !IsI64(365 * yoe + yoe / 4 - yoe / 100)
      then None
      else Some(DateOfEraDay(era, doe))
  }

  /** The 64-bit computation of a date succeeds exactly on the day numbers that leave room for the epoch shift. */
  lemma {:induction false} CheckedCivilIsExact(days: int)
    requires IsI64(days)
    ensures CheckedCivilFromDays(days) == if days <= I64_MAX - 719_468 then Some(CivilFromDays(days)) else None
  {
    var z := days + 719_468;
    EraIsFloor(z, 146_097);
    var era, doe := z / 146_097, z % 146_097;
    assert z == era * 146_097 + doe;
    YearOfEraIsSmall(doe);
    hide YearOfEra, DateOfEraDay;
  }

  lemma {:induction false} YearOfEraIsSmall(doe: int)
    requires 0 <= doe < 146_097
    ensures 0 <= YearOfEra(doe) <= 401
  {
  }
}

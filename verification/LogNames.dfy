/** Names of the daemon's daily diagnostic logs: a strict parser and the printer it inverts. */
module LogNames {
  import opened Text
  import opened Calendar

  const LOG_PREFIX := "daemon."
  const LOG_SUFFIX := ".ndjson"
  const SECONDS_PER_DAY := 86_400

  function StripPrefix(s: string, prefix: string): Option<string> {
    if prefix <= s then Some(s[|prefix|..]) else None
  }

  function StripSuffix(s: string, suffix: string): Option<string> {
    if |suffix| <= |s| && s[|s| - |suffix|..] == suffix then Some(s[..|s| - |suffix|]) else None
  }

  predicate HasDateShape(s: string) {
    |s| == 10 && s[4] == '-' && s[7] == '-'
    && AllDigits(s[0..4]) && AllDigits(s[5..7]) && AllDigits(s[8..10])
  }

  /** The day number a log name stands for, or None when the daemon does not own the name. */
  function ParseOwnedDay(name: string): Option<int> {
    var rest :- StripPrefix(name, LOG_PREFIX);
    var date :- StripSuffix(rest, LOG_SUFFIX);
    if !HasDateShape(date) then None
    else
      var year := DigitsValue(date[0..4]);
      var month := DigitsValue(date[5..7]);
      var day := DigitsValue(date[8..10]);
      if !(1 <= month <= 12) || day == 0 || day > DaysInMonth(year, month) then None
      else Some(DaysFromCivil(year, month, day))
  }

  // A signed number zero-filled to `width`, the sign counting toward the width.
  function PadSigned(n: int, width: nat): string
    requires width > 0
  {
    if n >= 0 then Pad(n, width) else "-" + Pad(-n, width - 1)
  }

  function FormatDate(date: Date): string
    requires date.month >= 0 && date.day >= 0
  {
    PadSigned(date.year, 4) + "-" + Pad(date.month, 2) + "-" + Pad(date.day, 2)
  }

  /** The log name for the instant `now`, in seconds since the epoch. */
  function DailyName(now: int): string {
    var days := now / SECONDS_PER_DAY;
    var date := CivilFromDays(days);
    CivilFromDaysIsExact(days);
    LOG_PREFIX + FormatDate(date.(year := NarrowToI32(date.year))) + LOG_SUFFIX
  }

  // Month and day as printed always take two digits; the year need not be theirs.
  predicate InYearShape(date: Date) {
    1 <= date.month <= 12 && 1 <= date.day <= 31
  }

  predicate FourDigitYear(year: int) {
    0 <= year <= 9999
  }

  lemma {:induction false} PrintedYear(year: int)
    requires FourDigitYear(year)
    ensures var s := PadSigned(year, 4); |s| == 4 && AllDigits(s) && DigitsValue(s) == year
  {
    hide DigitsValue, Pad, AllDigits;
    assert Pow10(4) == 10 * (10 * Pow10(2));
    PadSpells(year, 4);
  }

  lemma {:induction false} PartsOfPrintedDate(date: Date)
    requires InYearShape(date) && FourDigitYear(date.year)
    ensures var s := FormatDate(date);
            HasDateShape(s) && DigitsValue(s[0..4]) == date.year
            && DigitsValue(s[5..7]) == date.month && DigitsValue(s[8..10]) == date.day
  {
    hide DigitsValue, Pad, PadSigned, AllDigits;
    PrintedYear(date.year);
    PadSpells(date.month, 2);
    PadSpells(date.day, 2);
    var s := FormatDate(date);
    assert s[0..4] == PadSigned(date.year, 4) && s[5..7] == Pad(date.month, 2) && s[8..10] == Pad(date.day, 2);
  }

  // A year outside four digits prints too long, or with a sign where a digit must be.
  lemma {:induction false} OtherYearsHaveNoDateShape(date: Date)
    requires InYearShape(date) && !FourDigitYear(date.year)
    ensures !HasDateShape(FormatDate(date))
  {
    var s := FormatDate(date);
    PadSpells(date.month, 2);
    PadSpells(date.day, 2);
    assert Pow10(2) == 100 && Pow10(4) == 10 * (10 * Pow10(2));
    if date.year < 0 {
      assert s[0..4][0] == '-';
    } else {
      var digits := Pad(date.year, 4);
      PadSpells(date.year, 4);
      DigitsAreBounded(digits);
      assert |digits| != 4;
    }
  }

  lemma {:induction false} StripsToDate(date: string)
    ensures var name := LOG_PREFIX + date + LOG_SUFFIX;
            StripPrefix(name, LOG_PREFIX) == Some(date + LOG_SUFFIX)
            && StripSuffix(date + LOG_SUFFIX, LOG_SUFFIX) == Some(date)
  {
    assert LOG_PREFIX + date + LOG_SUFFIX == LOG_PREFIX + (date + LOG_SUFFIX);
  }

  lemma {:induction false} PrintedDateParses(date: Date)
    requires InYearShape(date)
    ensures ParseOwnedDay(LOG_PREFIX + FormatDate(date) + LOG_SUFFIX)
         == if FourDigitYear(date.year) && IsDate(date) then Some(DayNumber(date)) else None
  {
    StripsToDate(FormatDate(date));
    if FourDigitYear(date.year) {
      PartsOfPrintedDate(date);
    } else {
      OtherYearsHaveNoDateShape(date);
    }
  }

  /** A generated name is read back as its floor day exactly in the years 0000 to 9999: later and
      earlier years are never mistaken for them, even where the year wraps in 32 bits. */
  lemma {:induction false} GeneratedNameParsesBack(now: int)
    ensures var day := now / 86_400;
            ParseOwnedDay(DailyName(now)) == Some(day) <==> FourDigitYear(CivilFromDays(day).year)
  {
    var day := now / SECONDS_PER_DAY;
    CivilFromDaysIsExact(day);
    PrintedYearDecides(day, CivilFromDays(day));
  }

  // A wrapped year may turn 29 February into no date at all; otherwise it names another day.
  lemma {:induction false} PrintedYearDecides(day: int, date: Date)
    requires IsDate(date) && DayNumber(date) == day
    ensures var printed := date.(year := NarrowToI32(date.year));
            ParseOwnedDay(LOG_PREFIX + FormatDate(printed) + LOG_SUFFIX) == Some(day)
            <==> FourDigitYear(date.year)
  {
    var printed := date.(year := NarrowToI32(date.year));
    PrintedDateParses(printed);
    if IsDate(printed) && DayNumber(printed) == day {
      DayNumberIsInverted(printed);
      DayNumberIsInverted(date);
    }
  }

  // Four digits spell a four-digit year.
  lemma {:induction false} YearSpells(s: string)
    requires AllDigits(s) && |s| == 4
    ensures FourDigitYear(DigitsValue(s)) && PadSigned(DigitsValue(s), 4) == s
  {
    hide DigitsValue, Pad, AllDigits;
    PadOfDigits(s);
    DigitsAreBounded(s);
    assert Pow10(4) == 10 * (10 * Pow10(2));
  }

  // A date-shaped text spells the date read from it.
  lemma {:induction false} ShapeSpells(s: string)
    requires HasDateShape(s)
    ensures var date := Date(DigitsValue(s[0..4]), DigitsValue(s[5..7]), DigitsValue(s[8..10]));
            FourDigitYear(date.year) && date.month >= 0 && date.day >= 0 && FormatDate(date) == s
  {
    hide DigitsValue, Pad, PadSigned, AllDigits;
    YearSpells(s[0..4]);
    PadOfDigits(s[5..7]);
    PadOfDigits(s[8..10]);
    assert s == s[0..4] + "-" + s[5..7] + "-" + s[8..10];
  }

  /** Every accepted name is the generated name of every instant of the day it stands for. */
  lemma {:induction false} AcceptedNameIsGenerated(name: string, now: int)
    requires ParseOwnedDay(name) == Some(now / 86_400)
    ensures DailyName(now) == name
  {
    var s := StripSuffix(StripPrefix(name, LOG_PREFIX).value, LOG_SUFFIX).value;
    var date := Date(DigitsValue(s[0..4]), DigitsValue(s[5..7]), DigitsValue(s[8..10]));
    assert name == LOG_PREFIX + s + LOG_SUFFIX;
    ShapeSpells(s);
    assert DayNumber(date) == now / SECONDS_PER_DAY && IsDate(date);
    hide HasDateShape, ParseOwnedDay, FormatDate, DayNumber, CivilFromDays, IsDate;
    DayNumberIsInverted(date);
  }

  lemma {:induction false} DayOf(now: int, day: int)
    requires day * 86_400 <= now < (day + 1) * 86_400
    ensures now / 86_400 == day
  {
  }

  /** The name for any second of a day, spelled out: the sign of a year before 0000 counts toward its four characters. */
  lemma {:induction false} NameIsSpelled(now: int, date: Date)
    requires IsDate(date) && -0x8000_0000 <= date.year <= 0x7fff_ffff
    requires CountedDay(date) * 86_400 <= now < (CountedDay(date) + 1) * 86_400
    ensures DailyName(now)
         == "daemon." + ((if date.year < 0 then "-" + Pad(-date.year, 3) else Pad(date.year, 4)) + "-" + Pad(date.month, 2)
                         + "-" + Pad(date.day, 2)) + ".ndjson"
  {
    hide CivilFromDays, DayNumber, CountedDay, Pad, NarrowToI32;
    DayNumberIsCounted(date);
    DayNumberIsInverted(date);
    DayOf(now, CountedDay(date));
  }
}

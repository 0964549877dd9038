/** Wire timestamps: the parser of `YYYY-MM-DD HH:MM:SS` and what its numbers mean. */
module Timestamps {
  import opened Text
  import opened Calendar

  /** A decimal integer with an optional sign, refused outside 64 bits. */
  function ParseI64(s: string): Option<int> {
    var negative := s != "" && s[0] == '-';
    var digits := if s != "" && (s[0] == '-' || s[0] == '+') then s[1..] else s;
    if digits == "" || !AllDigits(digits) then None
    else
      var n: int := if negative then 0 - DigitsValue(digits) else DigitsValue(digits);
      if IsI64(n) then Some(n) else None
  }

  /** A field is read as a number exactly if it is written as one: digits, with or without a sign, that fit 64 bits. */
  lemma {:induction false} NumberIsSigned(s: string, n: int)
    ensures ParseI64(s) == Some(n)
       <==> exists sign, digits :: IsSigned(s, sign, digits, n)
  {
    hide DigitsValue, AllDigits;
    if ParseI64(s) == Some(n) {
      var sign := if s[0] == '-' then "-" else if s[0] == '+' then "+" else "";
      assert s == [s[0]] + s[1..] && s == s[0..];
      assert s == sign + s[|sign|..];
      assert IsSigned(s, sign, s[|sign|..], n);
    }
    forall sign, digits | IsSigned(s, sign, digits, n)
      ensures ParseI64(s) == Some(n)
    {
      DigitsAreUnsigned(digits);
      assert s[|sign|..] == digits;
      assert s[0] == (sign + digits)[0];
    }
  }

  predicate IsSigned(s: string, sign: string, digits: string, n: int) {
    s == sign + digits && sign in ["", "+", "-"] && digits != "" && AllDigits(digits)
    && n == (if sign == "-" then 0 - DigitsValue(digits) as int else DigitsValue(digits))
    && -0x8000_0000_0000_0000 <= n <= 0x7fff_ffff_ffff_ffff
  }

  lemma {:induction false} DigitsAreUnsigned(digits: string)
    requires digits != "" && AllDigits(digits)
    ensures digits[0] != '-' && digits[0] != '+'
  {
    assert IsDigit(digits[0]);
  }

  datatype Stamp = Stamp(date: Date, hour: int, minute: int, second: int)

  /** The year, month, day, hour, minute and second of split text; parts beyond them are not looked at. */
  function FieldValues(d: seq<string>, t: seq<string>): Option<Stamp> {
    if |d| < 3 then None
    else
      var year :- ParseI64(d[0]);
      var month :- ParseI64(d[1]);
      var day :- ParseI64(d[2]);
      if |t| < 2 then None
      else
        var hour :- ParseI64(t[0]);
        var minute :- ParseI64(t[1]);
        var second :- ParseI64(if |t| > 2 then t[2] else "0");
        Some(Stamp(Date(year, month, day), hour, minute, second))
  }

  function EpochSeconds(stamp: Stamp): int {
    DayNumber(stamp.date) * 86400 + stamp.hour * 3600 + stamp.minute * 60 + stamp.second
  }

  function TextFields(s: string): Option<Stamp> {
    var (date, time) :- SplitOnce(s, ' ');
    FieldValues(Split(date, '-'), Split(time, ':'))
  }

  /** Epoch seconds of a wire timestamp. */
  function ParseTimestamp(s: string): Option<int> {
    var stamp :- TextFields(s);
    Some(EpochSeconds(stamp))
  }

  // ---------------------------------------------------------------------------
  // Well-formed texts
  // ---------------------------------------------------------------------------

  predicate HasStampShape(s: string) {
    |s| == 19
    && s[4] == '-' && s[7] == '-' && s[10] == ' ' && s[13] == ':' && s[16] == ':'
    && AllDigits(s[0..4]) && AllDigits(s[5..7]) && AllDigits(s[8..10])
    && AllDigits(s[11..13]) && AllDigits(s[14..16]) && AllDigits(s[17..19])
  }

  function StampOf(s: string): Stamp
    requires HasStampShape(s)
  {
    Stamp(Date(DigitsValue(s[0..4]), DigitsValue(s[5..7]), DigitsValue(s[8..10])),
          DigitsValue(s[11..13]), DigitsValue(s[14..16]), DigitsValue(s[17..19]))
  }

  predicate IsStamp(stamp: Stamp) {
    IsDate(stamp.date) && 0 <= stamp.hour < 24 && 0 <= stamp.minute < 60 && 0 <= stamp.second < 60
  }

  /** `YYYY-MM-DD HH:MM:SS` with a real date and a real time of day. */
  predicate WellFormed(s: string) {
    HasStampShape(s) && IsStamp(StampOf(s))
  }

  /** Seconds since 1970-01-01 00:00:00, counting days on the plain calendar. */
  function CountedSeconds(stamp: Stamp): int
    requires IsStamp(stamp)
  {
    86400 * CountedDay(stamp.date) + 3600 * stamp.hour + 60 * stamp.minute + stamp.second
  }

  predicate Earlier(a: Stamp, b: Stamp) {
    Before(a.date, b.date)
    || (a.date == b.date
        && (a.hour < b.hour
            || (a.hour == b.hour && (a.minute < b.minute || (a.minute == b.minute && a.second < b.second)))))
  }

  lemma {:induction false} ShortDigitsParse(s: string)
    requires 0 < |s| <= 4 && AllDigits(s)
    ensures ParseI64(s) == Some(DigitsValue(s))
  {
    DigitsAreBounded(s);
    assert IsDigit(s[0]);
    Pow10IsSmall(|s|);
  }

  lemma {:induction false} Pow10IsSmall(n: nat)
    requires n <= 4
    ensures Pow10(n) <= 10_000
  {
    assert Pow10(1) == 10 && Pow10(2) == 100 && Pow10(3) == 10 * Pow10(2) && Pow10(4) == 10 * Pow10(3);
  }

  lemma {:induction false} FieldsOfText(s: string)
    requires HasStampShape(s)
    ensures SplitOnce(s, ' ') == Some((s[0..10], s[11..19]))
    ensures Split(s[0..10], '-') == [s[0..4], s[5..7], s[8..10]]
    ensures Split(s[11..19], ':') == [s[11..13], s[14..16], s[17..19]]
  {
    assert forall i :: 0 <= i < 10 && i != 4 && i != 7 ==> IsDigit(s[i]) by {
      assert forall i :: 0 <= i < 4 ==> s[i] == s[0..4][i];
      assert forall i :: 5 <= i < 7 ==> s[i] == s[5..7][i - 5];
      assert forall i :: 8 <= i < 10 ==> s[i] == s[8..10][i - 8];
    }
    assert s == s[0..10] + [' '] + s[11..19];
    SplitOnceAt(s[0..10], ' ', s[11..19]);
    SplitThree(s[0..10], '-', s[0..4], s[5..7], s[8..10]);
    SplitThree(s[11..19], ':', s[11..13], s[14..16], s[17..19]);
  }

  lemma {:induction false} SplitThree(s: string, sep: char, a: string, b: string, c: string)
    requires !IsDigit(sep) && AllDigits(a) && AllDigits(b) && AllDigits(c)
    requires s == a + [sep] + (b + [sep] + c)
    ensures Split(s, sep) == [a, b, c]
  {
    SplitAtSeparator(a, sep, b + [sep] + c);
    SplitAtSeparator(b, sep, c);
    SplitOfOnePart(c, sep);
  }

  lemma {:induction false} ShapedTextFields(s: string)
    requires HasStampShape(s)
    ensures TextFields(s) == Some(StampOf(s))
  {
    FieldsOfText(s);
    ShortDigitsParse(s[0..4]);
    ShortDigitsParse(s[5..7]);
    ShortDigitsParse(s[8..10]);
    ShortDigitsParse(s[11..13]);
    ShortDigitsParse(s[14..16]);
    ShortDigitsParse(s[17..19]);
  }

  // Counting days and computing them agree on whole timestamps.
  lemma {:induction false} EpochSecondsAreCounted(stamp: Stamp)
    requires IsStamp(stamp)
    ensures EpochSeconds(stamp) == CountedSeconds(stamp)
  {
    DayNumberIsCounted(stamp.date);
  }

  /** A well-formed timestamp parses to 86400 times the plain calendar's day count plus the second
      of its day. */
  lemma {:induction false} TimestampIsCountedSeconds(s: string)
    requires WellFormed(s)
    ensures ParseTimestamp(s) == Some(CountedSeconds(StampOf(s)))
  {
    ShapedTextFields(s);
    EpochSecondsAreCounted(StampOf(s));
  }

  /** A timestamp written out. */
  function Written(year: int, month: int, day: int, hour: int, minute: int, second: int): string
    requires 0 <= year && 0 <= month && 0 <= day && 0 <= hour && 0 <= minute && 0 <= second
  {
    Pad(year, 4) + "-" + Pad(month, 2) + "-" + Pad(day, 2) + " " + Pad(hour, 2) + ":" + Pad(minute, 2) + ":" + Pad(second, 2)
  }

  lemma {:induction false} PadIsExact(n: int, width: nat)
    requires width in [2, 4] && 0 <= n < (if width == 2 then 100 else 10_000)
    ensures |Pad(n, width)| == width && AllDigits(Pad(n, width)) && DigitsValue(Pad(n, width)) == n
  {
    PadSpells(n, width);
    assert Pow10(2) == 100 && Pow10(4) == 10 * (10 * Pow10(2));
  }

  lemma {:induction false} WrittenHasShape(date: Date, hour: int, minute: int, second: int)
    requires 0 <= date.year <= 9999 && 0 <= date.month < 100 && 0 <= date.day < 100
    requires 0 <= hour < 100 && 0 <= minute < 100 && 0 <= second < 100
    ensures var s := Written(date.year, date.month, date.day, hour, minute, second);
            HasStampShape(s) && StampOf(s) == Stamp(date, hour, minute, second)
  {
    hide Pad, DigitsValue, AllDigits;
    PadIsExact(date.year, 4);
    PadIsExact(date.month, 2);
    PadIsExact(date.day, 2);
    PadIsExact(hour, 2);
    PadIsExact(minute, 2);
    PadIsExact(second, 2);
    var s := Written(date.year, date.month, date.day, hour, minute, second);
    assert s[0..4] == Pad(date.year, 4) && s[5..7] == Pad(date.month, 2) && s[8..10] == Pad(date.day, 2);
    assert s[11..13] == Pad(hour, 2) && s[14..16] == Pad(minute, 2) && s[17..19] == Pad(second, 2);
  }

  lemma {:induction false} WrittenSeconds(date: Date, hour: int, minute: int, second: int)
    requires IsDate(date) && 0 <= date.year <= 9999 && 0 <= hour < 24 && 0 <= minute < 60 && 0 <= second < 60
    ensures var stamp := Stamp(date, hour, minute, second);
            IsStamp(stamp) && CountedSeconds(stamp) == 86_400 * CountedDay(date) + 3_600 * hour + 60 * minute + second
    ensures date.month < 100 && date.day < 100
  {
    hide CountedDay;
  }

  /** Every second of the years 0000 to 9999, written out, is read back as the seconds counted to it. */
  lemma {:induction false} TimestampRoundTrip(date: Date, hour: int, minute: int, second: int)
    requires IsDate(date) && 0 <= date.year <= 9999 && 0 <= hour < 24 && 0 <= minute < 60 && 0 <= second < 60
    ensures ParseTimestamp(Written(date.year, date.month, date.day, hour, minute, second))
         == Some(86_400 * CountedDay(date) + 3_600 * hour + 60 * minute + second)
  {
    hide Written, HasStampShape, CountedDay, CountedSeconds, StampOf, ParseTimestamp, IsStamp, DaysInMonth;
    WrittenSeconds(date, hour, minute, second);
    WrittenHasShape(date, hour, minute, second);
    TimestampIsCountedSeconds(Written(date.year, date.month, date.day, hour, minute, second));
  }

  lemma {:induction false} OmittedFields(s: string)
    requires WellFormed(s) && s[17..19] == "00"
    ensures TextFields(s[..16]) == TextFields(s)
  {
    FieldsOfText(s);
    assert s[..16] == s[0..10] + [' '] + s[11..16];
    SplitOnceAtSame(s);
    assert s[11..16] == s[11..13] + [':'] + s[14..16];
    SplitAtSeparator(s[11..13], ':', s[14..16]);
    SplitOfOnePart(s[14..16], ':');
    SecondsDefault([s[0..4], s[5..7], s[8..10]], s[11..13], s[14..16]);
  }

  /** Leaving out the seconds means second zero. */
  lemma {:induction false} OmittedSecondsAreZero(s: string)
    requires WellFormed(s) && s[17..19] == "00"
    ensures ParseTimestamp(s[..16]) == ParseTimestamp(s)
  {
    hide TextFields;
    OmittedFields(s);
  }

  lemma {:induction false} SecondsDefault(d: seq<string>, hour: string, minute: string)
    ensures FieldValues(d, [hour, minute]) == FieldValues(d, [hour, minute, "00"])
  {
    assert ParseI64("00") == ParseI64("0") by {
      assert "00"[..1] == "0" && "0"[..0] == "";
    }
  }

  lemma {:induction false} SplitOnceAtSame(s: string)
    requires HasStampShape(s)
    ensures SplitOnce(s[0..10] + [' '] + s[11..16], ' ') == Some((s[0..10], s[11..16]))
  {
    assert ' ' !in s[0..10] by {
      assert forall i :: 0 <= i < 4 ==> s[i] == s[0..4][i];
      assert forall i :: 5 <= i < 7 ==> s[i] == s[5..7][i - 5];
      assert forall i :: 8 <= i < 10 ==> s[i] == s[8..10][i - 8];
    }
    SplitOnceAt(s[0..10], ' ', s[11..16]);
  }

  // ---------------------------------------------------------------------------
  // Order
  // ---------------------------------------------------------------------------

  lemma {:induction false} CountedSecondsAreMonotone(a: Stamp, b: Stamp)
    requires IsStamp(a) && IsStamp(b) && Earlier(a, b)
    ensures CountedSeconds(a) < CountedSeconds(b)
  {
    if Before(a.date, b.date) {
      CountedDayIsMonotone(a.date, b.date);
    }
  }

  // A two-field comparison: the first field decides unless it is equal.
  lemma {:induction false} FieldOrder(s: string, t: string, a: string, b: string, u: string, v: string, sep: char)
    requires s == a + [sep] + u && t == b + [sep] + v
    requires AllDigits(a) && AllDigits(b) && |a| == |b|
    ensures LexLess(s, t)
       <==> DigitsValue(a) < DigitsValue(b) || (DigitsValue(a) == DigitsValue(b) && LexLess(u, v))
  {
    assert s == a + ([sep] + u) && t == b + ([sep] + v);
    LexLessAppend(a, b, [sep] + u, [sep] + v);
    LexLessAppend([sep], [sep], u, v);
    DigitsOrder(a, b);
    LexLessIsStrictOrder([sep], [sep]);
  }

  lemma {:induction false} DateOrder(s: string, t: string)
    requires HasStampShape(s) && HasStampShape(t)
    ensures var a, b := StampOf(s).date, StampOf(t).date;
            LexLess(s, t) <==> Before(a, b) || (a == b && LexLess(s[11..], t[11..]))
  {
    FieldOrder(s, t, s[0..4], t[0..4], s[5..], t[5..], '-');
    FieldOrder(s[5..], t[5..], s[5..7], t[5..7], s[8..], t[8..], '-');
    FieldOrder(s[8..], t[8..], s[8..10], t[8..10], s[11..], t[11..], ' ');
  }

  lemma {:induction false} TimeOrder(s: string, t: string)
    requires HasStampShape(s) && HasStampShape(t)
    ensures var a, b := StampOf(s), StampOf(t);
            LexLess(s[11..], t[11..])
            <==> a.hour < b.hour
                 || (a.hour == b.hour && (a.minute < b.minute || (a.minute == b.minute && a.second < b.second)))
  {
    FieldOrder(s[11..], t[11..], s[11..13], t[11..13], s[14..], t[14..], ':');
    FieldOrder(s[14..], t[14..], s[14..16], t[14..16], s[17..], t[17..], ':');
    assert s[17..] == s[17..19] && t[17..] == t[17..19];
    DigitsOrder(s[17..19], t[17..19]);
  }

  lemma {:induction false} TextOrderIsStampOrder(s: string, t: string)
    requires HasStampShape(s) && HasStampShape(t)
    ensures LexLess(s, t) <==> Earlier(StampOf(s), StampOf(t))
  {
    DateOrder(s, t);
    TimeOrder(s, t);
  }

  /** Later timestamps are exactly the lexicographically larger texts. */
  lemma {:induction false} TimestampsOrderAsText(s: string, t: string)
    requires WellFormed(s) && WellFormed(t)
    ensures ParseTimestamp(s).Some? && ParseTimestamp(t).Some?
    ensures LexLess(s, t) <==> ParseTimestamp(s).value < ParseTimestamp(t).value
  {
    TimestampIsCountedSeconds(s);
    TimestampIsCountedSeconds(t);
    TextOrderIsStampOrder(s, t);
    TextOrderIsStampOrder(t, s);
    var a, b := StampOf(s), StampOf(t);
    if Earlier(a, b) {
      CountedSecondsAreMonotone(a, b);
    } else if Earlier(b, a) {
      CountedSecondsAreMonotone(b, a);
    }
  }
}

/** Text shared by the parsers and printers: options, results, decimal numbers, lexicographic order, splitting. */
module Text {

  datatype Option<+T> = None | Some(value: T) {
    predicate IsFailure() {
      None?
    }

    function PropagateFailure<U>(): Option<U>
      requires None?
    {
      None
    }

    function Extract(): T
      requires Some?
    {
      value
    }
  }

  datatype Result<+T, +E> = Ok(value: T) | Error(error: E) {
    predicate IsFailure() {
      Error?
    }

    function PropagateFailure<U>(): Result<U, E>
      requires Error?
    {
      Error(error)
    }

    function Extract(): T
      requires Ok?
    {
      value
    }
  }

  // ---------------------------------------------------------------------------
  // 64-bit integers
  // ---------------------------------------------------------------------------

  const I64_MAX: int := 0x7FFF_FFFF_FFFF_FFFF
  const I64_MIN: int := -I64_MAX - 1

  predicate IsI64(n: int) {
    I64_MIN <= n <= I64_MAX
  }

  // ---------------------------------------------------------------------------
  // Sequences
  // ---------------------------------------------------------------------------

  function Concat(parts: seq<string>): string {
    if parts == [] then "" else parts[0] + Concat(parts[1..])
  }

  lemma {:induction false} ConcatAppend(a: seq<string>, b: seq<string>)
    ensures Concat(a + b) == Concat(a) + Concat(b)
  {
    if a == [] {
      assert a + b == b;
    } else {
      ConcatAppend(a[1..], b);
      assert (a + b)[0] == a[0] && (a + b)[1..] == a[1..] + b;
      Regroup(a[0], Concat(a[1..]), Concat(b));
    }
  }

  predicate EndsWith(s: string, end: string) {
    |end| <= |s| && s[|s| - |end|..] == end
  }

  predicate AreDistinct<T(==)>(s: seq<T>) {
    forall i, j :: 0 <= i < j < |s| ==> s[i] != s[j]
  }

  // ---------------------------------------------------------------------------
  // White space
  // ---------------------------------------------------------------------------

  /** The characters with the Unicode White_Space property. */
  predicate IsSpace(c: char) {
    var n := c as int;
    9 <= n <= 13 || n == 0x20 || n == 0x85 || n == 0xA0 || n == 0x1680 || 0x2000 <= n <= 0x200A
    || n == 0x2028 || n == 0x2029 || n == 0x202F || n == 0x205F || n == 0x3000
  }

  lemma {:induction false} SpacesByNumber(c: char)
    ensures IsSpace(c)
       <==> 0x09 <= c as int <= 0x0D || 0x2000 <= c as int <= 0x200A
            || c as int in [0x20, 0x85, 0xA0, 0x1680, 0x2028, 0x2029, 0x202F, 0x205F, 0x3000]
  {
  }

  predicate Blank(s: string) {
    forall i :: 0 <= i < |s| ==> IsSpace(s[i])
  }

  // ---------------------------------------------------------------------------
  // Decimal numbers
  // ---------------------------------------------------------------------------

  predicate IsDigit(c: char) {
    '0' <= c <= '9'
  }

  predicate AllDigits(s: string) {
    forall i :: 0 <= i < |s| ==> IsDigit(s[i])
  }

  predicate IsHexDigit(c: char) {
    IsDigit(c) || 'a' <= c <= 'f' || 'A' <= c <= 'F'
  }

  function LeadingDigits(s: string): (n: nat)
    ensures n <= |s| && AllDigits(s[..n]) && (n < |s| ==> !IsDigit(s[n]))
  {
    if s != "" && IsDigit(s[0]) then
      var n := LeadingDigits(s[1..]);
      assert forall i :: 0 < i < 1 + n ==> s[i] == s[1..][..n][i - 1];
      1 + n
    else 0
  }

  function Digit(d: int): char
    requires 0 <= d < 10
  {
    '0' + d as char
  }

  function DigitValue(c: char): (d: int)
    requires IsDigit(c)
    ensures 0 <= d < 10 && Digit(d) == c
  {
    (c - '0') as int
  }

  function Decimal(n: nat): (s: string)
    ensures |s| > 0 && AllDigits(s)
  {
    if n < 10 then [Digit(n)] else Decimal(n / 10) + [Digit(n % 10)]
  }

  /** The number a digit string spells. */
  function DigitsValue(s: string): (n: nat)
    requires AllDigits(s)
  {
    if s == "" then 0 else 10 * DigitsValue(s[..|s| - 1]) + DigitValue(s[|s| - 1])
  }

  /** `n` in decimal, zero-filled on the left to at least `width` characters. */
  function Pad(n: nat, width: nat): (s: string)
    ensures AllDigits(s) && |s| >= width
  {
    var digits := Decimal(n);
    Zeros(width - |digits|) + digits
  }

  function Zeros(n: int): (s: string)
    ensures |s| == if n < 0 then 0 else n
    ensures forall i :: 0 <= i < |s| ==> s[i] == '0'
  {
    if n <= 0 then "" else "0" + Zeros(n - 1)
  }

  function Pow10(n: nat): (p: nat)
    ensures p > 0
  {
    if n == 0 then 1 else 10 * Pow10(n - 1)
  }

  lemma {:induction false} DecimalSpells(n: nat)
    ensures DigitsValue(Decimal(n)) == n
  {
    if n < 10 {
      assert Decimal(n)[..0] == "";
    } else {
      DecimalSpells(n / 10);
      assert Decimal(n)[..|Decimal(n)| - 1] == Decimal(n / 10);
    }
  }

  lemma {:induction false} DecimalIsShort(n: nat, width: nat)
    requires width > 0 && n < Pow10(width)
    ensures |Decimal(n)| <= width
  {
    if n >= 10 {
      assert width > 1;
      DecimalIsShort(n / 10, width - 1);
    }
  }

  lemma {:induction false} LeadingZeros(zeros: string, s: string)
    requires AllDigits(s) && forall i :: 0 <= i < |zeros| ==> zeros[i] == '0'
    ensures AllDigits(zeros + s) && DigitsValue(zeros + s) == DigitsValue(s)
    decreases |zeros| + |s|
  {
    var t := zeros + s;
    if s != "" {
      assert t[..|t| - 1] == zeros + s[..|s| - 1];
      LeadingZeros(zeros, s[..|s| - 1]);
    } else if zeros != "" {
      assert t == zeros && t[..|t| - 1] == zeros[..|zeros| - 1] + "";
      LeadingZeros(zeros[..|zeros| - 1], "");
    }
  }

  /** Padding is read back, and short numbers fill the width exactly. */
  lemma {:induction false} PadSpells(n: nat, width: nat)
    ensures DigitsValue(Pad(n, width)) == n
    ensures width > 0 && n < Pow10(width) ==> |Pad(n, width)| == width
  {
    DecimalSpells(n);
    LeadingZeros(Zeros(width - |Decimal(n)|), Decimal(n));
    if width > 0 && n < Pow10(width) {
      DecimalIsShort(n, width);
    }
  }

  lemma {:induction false} DigitsAreBounded(s: string)
    requires AllDigits(s)
    ensures DigitsValue(s) < Pow10(|s|)
  {
    if s != "" {
      DigitsAreBounded(s[..|s| - 1]);
    }
  }

  lemma {:induction false} LastDigit(s: string)
    requires AllDigits(s) && s != ""
    ensures var n := |s| - 1;
            AllDigits(s[..n]) && IsDigit(s[n]) && s == s[..n] + [s[n]]
            && DigitsValue(s) == 10 * DigitsValue(s[..n]) + DigitValue(s[n])
  {
  }

  lemma {:induction false} DigitOrder(c: char, d: char)
    requires IsDigit(c) && IsDigit(d)
    ensures DigitValue(c) < DigitValue(d) <==> LexLess([c], [d])
    ensures DigitValue(c) == DigitValue(d) <==> c == d
    ensures 0 <= DigitValue(c) <= 9 && 0 <= DigitValue(d) <= 9
  {
    assert c == Digit(DigitValue(c)) && d == Digit(DigitValue(d));
  }

  lemma {:induction false} NothingLess()
    ensures !LexLess("", "")
  {
  }

  /** On digit strings of one length, numeric order is lexicographic order. */
  lemma {:induction false} DigitsOrder(s: string, t: string)
    requires AllDigits(s) && AllDigits(t) && |s| == |t|
    ensures DigitsValue(s) < DigitsValue(t) <==> LexLess(s, t)
    ensures DigitsValue(s) == DigitsValue(t) <==> s == t
  {
    hide LexLess, DigitsValue, DigitValue, IsDigit, AllDigits;
    if s == "" {
      assert s == t;
      NothingLess();
    } else {
      var n := |s| - 1;
      LastDigit(s);
      LastDigit(t);
      DigitOrder(s[n], t[n]);
      DigitsOrder(s[..n], t[..n]);
      LexLessAppend(s[..n], t[..n], [s[n]], [t[n]]);
      SameWithLast(s[..n], t[..n], s[n], t[n]);
    }
  }

  lemma {:induction false} SameWithLast(s: string, t: string, c: char, d: char)
    requires |s| == |t|
    ensures s + [c] == t + [d] <==> s == t && c == d
  {
    assert (s + [c])[..|s|] == s && (t + [d])[..|t|] == t && (s + [c])[|s|] == c && (t + [d])[|t|] == d;
  }

  /** A digit string is the padded form of the number it spells. */
  lemma {:induction false} PadOfDigits(s: string)
    requires AllDigits(s) && s != ""
    ensures Pad(DigitsValue(s), |s|) == s
  {
    DigitsAreBounded(s);
    PadSpells(DigitsValue(s), |s|);
    DigitsOrder(Pad(DigitsValue(s), |s|), s);
  }

  // ---------------------------------------------------------------------------
  // Lexicographic order by code point
  // ---------------------------------------------------------------------------

  predicate LexLess(s: string, t: string) {
    t != "" && (s == "" || s[0] < t[0] || (s[0] == t[0] && LexLess(s[1..], t[1..])))
  }

  lemma {:induction false} LexLessAppend(s: string, t: string, u: string, v: string)
    requires |s| == |t|
    ensures LexLess(s + u, t + v) <==> LexLess(s, t) || (s == t && LexLess(u, v))
  {
    if s == "" {
      assert s + u == u && t + v == v;
    } else {
      assert (s + u)[1..] == s[1..] + u && (t + v)[1..] == t[1..] + v;
      LexLessAppend(s[1..], t[1..], u, v);
      assert s == [s[0]] + s[1..] && t == [t[0]] + t[1..];
    }
  }

  lemma {:induction false} LexLessIsStrictOrder(s: string, t: string)
    ensures LexLess(s, t) ==> !LexLess(t, s) && s != t
    ensures LexLess(s, t) || LexLess(t, s) || s == t
  {
    if s != "" && t != "" {
      LexLessIsStrictOrder(s[1..], t[1..]);
      assert s == [s[0]] + s[1..] && t == [t[0]] + t[1..];
    }
  }

  lemma {:induction false} LexLessTransitive(s: string, t: string, u: string)
    requires LexLess(s, t) && LexLess(t, u)
    ensures LexLess(s, u)
  {
    if s != "" && s[0] == t[0] && t[0] == u[0] {
      LexLessTransitive(s[1..], t[1..], u[1..]);
    }
  }

  // ---------------------------------------------------------------------------
  // Splitting
  // ---------------------------------------------------------------------------

  /** The parts of `s` between occurrences of `sep`; one part when there is none. */
  function Split(s: string, sep: char): (parts: seq<string>)
    ensures |parts| > 0
  {
    if s == "" then [""]
    else if s[0] == sep then [""] + Split(s[1..], sep)
    else var rest := Split(s[1..], sep); [[s[0]] + rest[0]] + rest[1..]
  }

  lemma {:induction false} SplitAtSeparator(part: string, sep: char, rest: string)
    requires sep !in part
    ensures Split(part + [sep] + rest, sep) == [part] + Split(rest, sep)
  {
    var s := part + [sep] + rest;
    if part == "" {
      assert s[1..] == rest;
    } else {
      assert s[1..] == part[1..] + [sep] + rest;
      SplitAtSeparator(part[1..], sep, rest);
      assert part == [part[0]] + part[1..];
    }
  }

  lemma {:induction false} SplitOfOnePart(part: string, sep: char)
    requires sep !in part
    ensures Split(part, sep) == [part]
  {
    if part != "" {
      SplitOfOnePart(part[1..], sep);
      assert part == [part[0]] + part[1..];
    }
  }

  /** The text before and after the first `sep`, if there is one. */
  function SplitOnce(s: string, sep: char): (r: Option<(string, string)>) {
    if s == "" then None
    else if s[0] == sep then Some(("", s[1..]))
    else
      var (before, after) :- SplitOnce(s[1..], sep);
      Some(([s[0]] + before, after))
  }

  lemma {:induction false} SplitOnceAt(before: string, sep: char, after: string)
    requires sep !in before
    ensures SplitOnce(before + [sep] + after, sep) == Some((before, after))
  {
    var s := before + [sep] + after;
    if before == "" {
      assert s[1..] == after;
    } else {
      assert s[1..] == before[1..] + [sep] + after;
      SplitOnceAt(before[1..], sep, after);
      assert before == [before[0]] + before[1..];
    }
  }

  lemma {:induction false} SplitOnceShrinks(s: string, sep: char)
    requires SplitOnce(s, sep).Some?
    ensures var (before, after) := SplitOnce(s, sep).value;
            s == before + [sep] + after && sep !in before
  {
    if s[0] != sep {
      SplitOnceShrinks(s[1..], sep);
    }
  }

  lemma {:induction false} SplitOnceMisses(s: string, sep: char)
    requires SplitOnce(s, sep).None?
    ensures sep !in s
  {
    if s != "" {
      SplitOnceMisses(s[1..], sep);
    }
  }

  lemma {:induction false} Regroup<T>(a: seq<T>, b: seq<T>, c: seq<T>)
    ensures a + b + c == a + (b + c)
  {
  }

  lemma {:induction false} Slices<T>(a: seq<T>, b: seq<T>)
    ensures (a + b)[..|a|] == a && (a + b)[|a|..] == b
  {
  }
}

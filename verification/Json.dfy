/** The JSON grammar of RFC 8259 as concrete syntax, and a line-by-line brace scan over its texts. */
module Json {
  import opened Text

  // ---------------------------------------------------------------------------
  // Concrete syntax (sections 2 to 7 of RFC 8259)
  // ---------------------------------------------------------------------------

  /** One unit inside a string literal; raw control characters, newlines included, are not among them. */
  datatype Piece = Plain(c: char) | Escape(c: char) | Hex(digits: string)

  datatype Value =
    | Literal(word: string)
    | Number(digits: string)
    | Str(pieces: seq<Piece>)
    | Array(blank: string, items: Items)
    | Object(blank: string, members: Members)

  datatype Items = NoItem | Item(before: string, value: Value, after: string, tail: Items)

  datatype Members =
    | NoMember
    | Member(before: string, key: seq<Piece>, colon: string, gap: string, value: Value, after: string, tail: Members)

  predicate IsBlank(s: string) {
    forall i :: 0 <= i < |s| ==> s[i] in " \t\n\r"
  }

  predicate IsPiece(p: Piece) {
    match p
    case Plain(c) => c >= ' ' && c != '"' && c != '\\'
    case Escape(c) => c in "\"\\/bfnrt"
    case Hex(digits) => |digits| == 4 && forall i :: 0 <= i < 4 ==> IsHexDigit(digits[i])
  }

  predicate ArePieces(pieces: seq<Piece>) {
    forall i :: 0 <= i < |pieces| ==> IsPiece(pieces[i])
  }

  predicate IsNumber(s: string) {
    IsUnsigned(if s != "" && s[0] == '-' then s[1..] else s)
  }

  predicate IsUnsigned(t: string) {
    var n := LeadingDigits(t);
    n > 0 && (n == 1 || t[0] != '0') && IsFraction(t[n..])
  }

  predicate IsFraction(t: string) {
    if t != "" && t[0] == '.' then
      var n := LeadingDigits(t[1..]);
      n > 0 && IsExponent(t[1..][n..])
    else IsExponent(t)
  }

  predicate IsExponent(t: string) {
    t == ""
    || (t[0] in "eE"
        && var u := if |t| > 1 && t[1] in "+-" then t[2..] else t[1..]; u != "" && AllDigits(u))
  }

  predicate IsValue(v: Value) {
    match v
    case Literal(word) => word in ["null", "true", "false"]
    case Number(digits) => IsNumber(digits)
    case Str(pieces) => ArePieces(pieces)
    case Array(blank, items) => IsBlank(blank) && AreItems(items)
    case Object(blank, members) => IsBlank(blank) && AreMembers(members)
  }

  predicate AreItems(items: Items) {
    match items
    case NoItem => true
    case Item(before, value, after, tail) =>
      IsBlank(before) && IsValue(value) && IsBlank(after) && AreItems(tail)
  }

  predicate AreMembers(members: Members) {
    match members
    case NoMember => true
    case Member(before, key, colon, gap, value, after, tail) =>
      IsBlank(before) && ArePieces(key) && IsBlank(colon) && IsBlank(gap)
      && IsValue(value) && IsBlank(after) && AreMembers(tail)
  }

  function PieceText(p: Piece): string {
    match p
    case Plain(c) => [c]
    case Escape(c) => ['\\', c]
    case Hex(digits) => "\\u" + digits
  }

  function PiecesText(pieces: seq<Piece>): string {
    if pieces == [] then "" else PieceText(pieces[0]) + PiecesText(pieces[1..])
  }

  function StringText(pieces: seq<Piece>): string {
    "\"" + (PiecesText(pieces) + "\"")
  }

  function ValueText(v: Value): string {
    match v
    case Literal(word) => word
    case Number(digits) => digits
    case Str(pieces) => StringText(pieces)
    case Array(blank, items) => "[" + ((if items.NoItem? then blank else ItemsText(items)) + "]")
    case Object(blank, members) => "{" + ObjectBody(blank, members) + "}"
  }

  function ObjectBody(blank: string, members: Members): string
    decreases members, 1
  {
    if members.NoMember? then blank else MembersText(members)
  }

  function ItemsText(items: Items): string {
    match items
    case NoItem => ""
    case Item(before, value, after, tail) =>
      before + (ValueText(value) + (after + (if tail.NoItem? then "" else "," + ItemsText(tail))))
  }

  function MembersText(members: Members): string
    decreases members, 0
  {
    match members
    case NoMember => ""
    case Member(before, key, colon, gap, value, after, tail) =>
      before + (StringText(key) + (colon + (":" + (gap + (ValueText(value)
      + (after + (if tail.NoMember? then "" else "," + MembersText(tail))))))))
  }

  ghost predicate IsJson(text: string) {
    exists before: string, v: Value, after: string ::
      IsBlank(before) && IsValue(v) && IsBlank(after) && text == before + (ValueText(v) + after)
  }

  // ---------------------------------------------------------------------------
  // What the grammar takes in
  // ---------------------------------------------------------------------------

  predicate AreNumerals(s: string) {
    forall i :: 0 <= i < |s| ==> 0x30 <= s[i] as int <= 0x39
  }

  function Fraction(decimals: string): string {
    if decimals == "" then "" else "." + decimals
  }

  function Exponent(mark: string, sign: string, power: string): string {
    if power == "" then "" else mark + sign + power
  }

  lemma {:induction false} DigitsLead(digits: string, rest: string)
    requires AreNumerals(digits) && (rest == "" || !IsDigit(rest[0]))
    ensures LeadingDigits(digits + rest) == |digits|
  {
    var n := LeadingDigits(digits + rest);
    assert forall i :: 0 <= i < |digits| ==> (digits + rest)[i] == digits[i];
    assert rest != "" ==> (digits + rest)[|digits|] == rest[0];
    assert forall i :: 0 <= i < n ==> IsDigit((digits + rest)[..n][i]);
  }

  lemma {:induction false} ExponentIsTaken(mark: string, sign: string, power: string)
    requires mark in ["e", "E"] && sign in ["", "+", "-"] && AreNumerals(power)
    ensures var e := Exponent(mark, sign, power); IsExponent(e) && (e != "" ==> e[0] in "eE")
  {
    var e := Exponent(mark, sign, power);
    if power != "" {
      var digits := e[1..];
      assert digits == sign + power;
      if sign == "" {
        assert digits == power && e[1] == power[0] && power[0] !in "+-";
      } else {
        assert e[2..] == power && e[1] == sign[0] && sign[0] in "+-";
      }
    }
  }

  lemma {:induction false} MarkIsNoDigit(exponent: string)
    requires exponent != "" && exponent[0] in "eE"
    ensures exponent[0] != '.' && !IsDigit(exponent[0])
  {
  }

  lemma {:induction false} FractionIsTaken(decimals: string, exponent: string)
    requires AreNumerals(decimals) && IsExponent(exponent) && (exponent != "" ==> exponent[0] in "eE")
    ensures var t := Fraction(decimals) + exponent; IsFraction(t) && (t == "" || !IsDigit(t[0]))
  {
    hide IsExponent, LeadingDigits;
    if exponent != "" {
      MarkIsNoDigit(exponent);
    }
    if decimals == "" {
      assert Fraction(decimals) + exponent == exponent;
    } else {
      DecimalsAreTaken(decimals, exponent);
    }
  }

  lemma {:induction false} DecimalsAreTaken(decimals: string, exponent: string)
    requires AreNumerals(decimals) && decimals != "" && IsExponent(exponent) && (exponent == "" || !IsDigit(exponent[0]))
    ensures var t := Fraction(decimals) + exponent; IsFraction(t) && t != "" && !IsDigit(t[0])
  {
    hide IsExponent, LeadingDigits;
    DigitsLead(decimals, exponent);
    FractionOf(decimals);
    hide AreNumerals, Fraction;
    var t, after := "." + decimals + exponent, decimals + exponent;
    assert t[0] == '.' && t[1..] == after && after[|decimals|..] == exponent;
  }

  lemma {:induction false} FractionOf(decimals: string)
    requires decimals != ""
    ensures Fraction(decimals) == "." + decimals
  {
  }

  lemma {:induction false} WholeIsTaken(whole: string, rest: string)
    requires AreNumerals(whole) && whole != "" && (whole[0] == '0' ==> whole == "0")
    requires IsFraction(rest) && (rest == "" || !IsDigit(rest[0]))
    ensures IsUnsigned(whole + rest) && whole[0] != '-'
  {
    hide IsFraction, LeadingDigits;
    DigitsLead(whole, rest);
    assert (whole + rest)[|whole|..] == rest && (whole + rest)[0] == whole[0];
  }

  /** A number may have a minus sign, no leading zero, a fraction, and an exponent with either sign. */
  lemma {:induction false} NumberIsTaken(sign: string, whole: string, decimals: string, mark: string, more: string, power: string)
    requires sign in ["", "-"] && AreNumerals(whole) && whole != "" && (whole[0] == '0' ==> whole == "0")
    requires AreNumerals(decimals) && AreNumerals(power) && mark in ["e", "E"] && more in ["", "+", "-"]
    ensures IsNumber(sign + (whole + (Fraction(decimals) + Exponent(mark, more, power))))
  {
    ExponentIsTaken(mark, more, power);
    FractionIsTaken(decimals, Exponent(mark, more, power));
    hide IsFraction, IsExponent, Exponent, Fraction, IsUnsigned, AreNumerals;
    var rest := Fraction(decimals) + Exponent(mark, more, power);
    WholeIsTaken(whole, rest);
    var t := whole + rest;
    assert t[0] == whole[0];
    assert "" + t == t && ("-" + t)[1..] == t;
  }

  predicate IsUnit(s: string) {
    (|s| == 1 && s[0] as int >= 0x20 && s[0] != '"' && s[0] != '\\')
    || s in ["\\\"", "\\\\", "\\/", "\\b", "\\f", "\\n", "\\r", "\\t"]
    || (|s| == 6 && s[..2] == "\\u"
        && forall i :: 2 <= i < 6 ==>
             0x30 <= s[i] as int <= 0x39 || 0x41 <= s[i] as int <= 0x46 || 0x61 <= s[i] as int <= 0x66)
  }

  function PieceOf(s: string): (p: Piece)
    requires IsUnit(s)
    ensures IsPiece(p) && PieceText(p) == s
  {
    if |s| == 1 then Plain(s[0]) else if |s| == 2 then Escape(s[1]) else Hex(s[2..])
  }

  lemma {:induction false} UnitsArePieces(units: seq<string>) returns (pieces: seq<Piece>)
    requires forall i :: 0 <= i < |units| ==> IsUnit(units[i])
    ensures ArePieces(pieces) && StringText(pieces) == "\"" + (Concat(units) + "\"")
  {
    hide IsUnit, IsPiece, PieceText;
    pieces := [];
    if units != [] {
      var rest := UnitsArePieces(units[1..]);
      assert "\"" + (PiecesText(rest) + "\"") == "\"" + (Concat(units[1..]) + "\"");
      SameInside(PiecesText(rest), Concat(units[1..]));
      pieces := [PieceOf(units[0])] + rest;
      assert pieces[1..] == rest;
    }
  }

  lemma {:induction false} SameInside(a: string, b: string)
    requires "\"" + (a + "\"") == "\"" + (b + "\"")
    ensures a == b
  {
    var s, t := "\"" + (a + "\""), "\"" + (b + "\"");
    assert |s| == |t| && s[1..|s| - 1] == a && t[1..|t| - 1] == b;
  }

  lemma {:induction false} ValueIsJson(v: Value)
    requires IsValue(v)
    ensures IsJson(ValueText(v))
  {
    var text := ValueText(v);
    assert IsBlank("");
    hide ValueText, IsValue, IsBlank;
    assert text == "" + (text + "");
  }

  /** The words, numbers and strings of JSON: a string holds anything but quotes, backslashes and control characters, or
      those escaped. */
  lemma {:induction false} ScalarsAreJson(number: string, units: seq<string>)
    requires forall i :: 0 <= i < |units| ==> IsUnit(units[i])
    ensures IsJson("null") && IsJson("true") && IsJson("false")
    ensures IsNumber(number) ==> IsJson(number)
    ensures IsJson("\"" + (Concat(units) + "\""))
  {
    var pieces := UnitsArePieces(units);
    hide IsJson, IsNumber, StringText, Concat, IsUnit;
    ValueIsJson(Literal("null"));
    ValueIsJson(Literal("true"));
    ValueIsJson(Literal("false"));
    ValueIsJson(Str(pieces));
    if IsNumber(number) {
      ValueIsJson(Number(number));
    }
  }

  /** Blanks may stand around a text. */
  lemma {:induction false} BlanksAreTaken(before: string, text: string, after: string)
    requires IsJson(text)
    requires forall c :: c in before + after ==> c in [' ', '\t', '\n', '\r']
    ensures IsJson(before + (text + after))
  {
    hide IsValue, ValueText;
    var b, v, a :| IsBlank(b) && IsValue(v) && IsBlank(a) && text == b + (ValueText(v) + a);
    assert forall i :: 0 <= i < |before| ==> before[i] in before + after;
    assert forall i :: 0 <= i < |after| ==> after[i] in before + after;
    assert IsBlank(before + b) && IsBlank(a + after);
    assert before + (text + after) == (before + b) + (ValueText(v) + (a + after));
  }

  /** The texts with commas between them. */
  function Commas(texts: seq<string>): string {
    if texts == [] then "" else texts[0] + (if |texts| == 1 then "" else "," + Commas(texts[1..]))
  }

  lemma {:induction false} ItemFirst(text: string, rest: Items) returns (items: Items)
    requires IsJson(text) && AreItems(rest)
    ensures items.Item? && AreItems(items) && ItemsText(items) == text + if rest.NoItem? then "" else "," + ItemsText(rest)
  {
    hide IsValue, ValueText, IsBlank;
    var b, v, a :| IsBlank(b) && IsValue(v) && IsBlank(a) && text == b + (ValueText(v) + a);
    items := Item(b, v, a, rest);
    var tail := if rest.NoItem? then "" else "," + ItemsText(rest);
    assert b + (ValueText(v) + (a + tail)) == text + tail;
  }

  lemma {:induction false} TextsAreItems(texts: seq<string>) returns (items: Items)
    requires forall i :: 0 <= i < |texts| ==> IsJson(texts[i])
    ensures AreItems(items) && ItemsText(items) == Commas(texts) && (items.NoItem? <==> texts == [])
  {
    items := NoItem;
    if texts != [] {
      hide IsJson;
      var rest := TextsAreItems(texts[1..]);
      items := ItemFirst(texts[0], rest);
    }
  }

  /** Lists of texts, the empty one too. */
  lemma {:induction false} ListIsJson(texts: seq<string>)
    requires forall i :: 0 <= i < |texts| ==> IsJson(texts[i])
    ensures IsJson("[" + (Commas(texts) + "]"))
  {
    var items := TextsAreItems(texts);
    hide IsJson, AreItems, ItemsText, Commas;
    ValueIsJson(Array("", items));
    if texts == [] {
      assert Commas(texts) == "" by {
        NoCommas();
      }
    }
  }

  lemma {:induction false} NoCommas()
    ensures Commas([]) == ""
  {
  }

  /** A name before its colon, with blanks around it. */
  ghost predicate IsName(text: string, before: string, units: seq<string>, after: string) {
    text == before + (("\"" + (Concat(units) + "\"")) + after) && IsBlank(before) && IsBlank(after)
    && forall i :: 0 <= i < |units| ==> IsUnit(units[i])
  }

  ghost predicate IsMember(text: string, value: string) {
    IsJson(value)
    && exists name, before, units, after :: IsName(name, before, units, after) && text == name + (":" + value)
  }

  lemma {:induction false} MemberFirst(text: string, value: string, rest: Members) returns (members: Members)
    requires IsMember(text, value) && AreMembers(rest)
    ensures members.Member? && AreMembers(members)
    ensures MembersText(members) == text + if rest.NoMember? then "" else "," + MembersText(rest)
  {
    hide IsValue, ValueText, IsBlank, IsUnit, StringText, Concat;
    var b, v, a :| IsBlank(b) && IsValue(v) && IsBlank(a) && value == b + (ValueText(v) + a);
    var name, before, units, after :| IsName(name, before, units, after) && text == name + (":" + value);
    var key := UnitsArePieces(units);
    members := Member(before, key, after, b, v, a, rest);
    var tail := if rest.NoMember? then "" else "," + MembersText(rest);
    assert MembersText(members) == before + (StringText(key) + (after + (":" + (b + (ValueText(v) + (a + tail))))));
    hide IsJson, AreMembers, MembersText, ArePieces;
    MemberParts(before, StringText(key), after, b, ValueText(v), a, tail);
  }

  lemma {:induction false} MemberParts(before: string, key: string, after: string, b: string, v: string, a: string, tail: string)
    ensures before + (key + (after + (":" + (b + (v + (a + tail)))))) == (before + (key + after)) + (":" + (b + (v + a))) + tail
  {
  }

  lemma {:induction false} TextsAreMembers(texts: seq<string>, values: seq<string>) returns (members: Members)
    requires |texts| == |values| && forall i :: 0 <= i < |texts| ==> IsMember(texts[i], values[i])
    ensures AreMembers(members) && MembersText(members) == Commas(texts) && (members.NoMember? <==> texts == [])
  {
    members := NoMember;
    if texts != [] {
      hide IsMember;
      var rest := TextsAreMembers(texts[1..], values[1..]);
      members := MemberFirst(texts[0], values[0], rest);
    }
  }

  /** Lists of members, the empty one too. */
  lemma {:induction false} MembersAreJson(texts: seq<string>, values: seq<string>)
    requires |texts| == |values| && forall i :: 0 <= i < |texts| ==> IsMember(texts[i], values[i])
    ensures IsJson("{" + (Commas(texts) + "}"))
  {
    var members := TextsAreMembers(texts, values);
    hide IsJson, AreMembers, MembersText, Commas, IsMember;
    ValueIsJson(Object("", members));
    assert "{" + ObjectBody("", members) + "}" == "{" + (ObjectBody("", members) + "}");
    if texts == [] {
      NoCommas();
    }
  }

  // ---------------------------------------------------------------------------
  // What a string literal means (section 7 of RFC 8259)
  // ---------------------------------------------------------------------------

  function HexDigitValue(c: char): (n: nat)
    requires IsHexDigit(c)
    ensures n < 16
  {
    if IsDigit(c) then DigitValue(c) else if c >= 'a' then (c - 'a') as int + 10 else (c - 'A') as int + 10
  }

  function HexValue(digits: string): (n: nat)
    requires |digits| == 4 && forall i :: 0 <= i < 4 ==> IsHexDigit(digits[i])
    ensures n < 0x1_0000
  {
    0x1000 * HexDigitValue(digits[0]) + 0x100 * HexDigitValue(digits[1]) + 0x10 * HexDigitValue(digits[2])
    + HexDigitValue(digits[3])
  }

  function Unescaped(c: char): char {
    match c
    case 'b' => '\U{8}'
    case 'f' => '\U{c}'
    case 'n' => '\n'
    case 'r' => '\r'
    case 't' => '\t'
    case _ => c
  }

  predicate IsLeading(n: nat) {
    0xD800 <= n < 0xDC00
  }

  predicate IsTrailing(n: nat) {
    0xDC00 <= n < 0xE000
  }

  /** The characters a string literal stands for; None when an escaped surrogate stands alone. */
  function Decoded(pieces: seq<Piece>): Option<string>
    requires ArePieces(pieces)
    decreases |pieces|
  {
    if pieces == [] then Some("")
    else
      match pieces[0]
      case Plain(c) => var rest :- Decoded(pieces[1..]); Some([c] + rest)
      case Escape(c) => var rest :- Decoded(pieces[1..]); Some([Unescaped(c)] + rest)
      case Hex(digits) =>
        var n := HexValue(digits);
        if IsLeading(n) then
          if |pieces| > 1 && pieces[1].Hex? && IsTrailing(HexValue(pieces[1].digits)) then
            var c := 0x1_0000 + 0x400 * (n - 0xD800) + (HexValue(pieces[1].digits) - 0xDC00);
            var rest :- Decoded(pieces[2..]);
            Some([c as char] + rest)
          else None
        else if IsTrailing(n) then None
        else var rest :- Decoded(pieces[1..]); Some([n as char] + rest)
  }

  /** The value of the last member of a name. */
  function LastValue(members: Members, name: string): Option<Value>
    requires AreMembers(members)
  {
    match members
    case NoMember => None
    case Member(before, key, colon, gap, value, after, tail) =>
      var later := LastValue(tail, name);
      if later.Some? then later else if Decoded(key) == Some(name) then Some(value) else None
  }

  /** The names of the members, decoded. */
  function Keys(members: Members): seq<string>
    requires AreMembers(members)
  {
    match members
    case NoMember => []
    case Member(before, key, colon, gap, value, after, tail) =>
      (if Decoded(key).Some? then [Decoded(key).value] else []) + Keys(tail)
  }

  /** The members with one more at the end. */
  function WithMember(members: Members, key: seq<Piece>, value: Value): Members {
    match members
    case NoMember => Member("", key, "", "", value, "", NoMember)
    case Member(before, k, colon, gap, v, after, tail) => Member(before, k, colon, gap, v, after, WithMember(tail, key, value))
  }

  /** Of members with the same name the last counts, and every name is among the keys, in order. */
  lemma {:induction false} LastMemberCounts(members: Members, key: seq<Piece>, value: Value, name: string)
    requires AreMembers(members) && ArePieces(key) && IsValue(value)
    ensures var all := WithMember(members, key, value);
            AreMembers(all)
            && LastValue(all, name) == (if Decoded(key) == Some(name) then Some(value) else LastValue(members, name))
            && Keys(all) == Keys(members) + if Decoded(key).Some? then [Decoded(key).value] else []
  {
    hide Decoded, IsValue, ArePieces;
    if members.Member? {
      LastMemberCounts(members.tail, key, value, name);
    }
  }

  lemma {:induction false} LastValueIsValue(members: Members, name: string)
    requires AreMembers(members) && LastValue(members, name).Some?
    ensures IsValue(LastValue(members, name).value)
  {
    if LastValue(members.tail, name).Some? {
      LastValueIsValue(members.tail, name);
    }
  }

  function HexDigit(n: nat): (c: char)
    requires n < 16
    ensures IsHexDigit(c) && HexDigitValue(c) == n
  {
    if n < 10 then Digit(n) else 'a' + (n - 10) as char
  }

  function HexOf(n: nat): (p: Piece)
    requires n < 0x1_0000
    ensures p.Hex? && IsPiece(p)
  {
    var upper := n / 16;
    var top := upper / 16;
    Hex([HexDigit(top / 16), HexDigit(top % 16), HexDigit(upper % 16), HexDigit(n % 16)])
  }

  /** One way to spell a character: plain where that is allowed, or by its code in one or two units. */
  function Spelled(c: char, plain: bool): (pieces: seq<Piece>)
    ensures ArePieces(pieces)
  {
    var n := c as int;
    if plain && IsPiece(Plain(c)) then [Plain(c)]
    else if n < 0x1_0000 then [HexOf(n)]
    else [HexOf(0xD800 + (n - 0x1_0000) / 0x400), HexOf(0xDC00 + (n - 0x1_0000) % 0x400)]
  }

  function Spelling(s: string, plain: bool): (pieces: seq<Piece>)
    ensures ArePieces(pieces)
  {
    if s == "" then [] else Spelled(s[0], plain) + Spelling(s[1..], plain)
  }

  lemma {:induction false} HexOfValue(n: nat)
    requires n < 0x1_0000
    ensures HexValue(HexOf(n).digits) == n
  {
    hide IsHexDigit, HexDigitValue, HexDigit;
  }

  lemma {:induction false} DecodedSpelled(c: char, plain: bool, rest: seq<Piece>)
    requires ArePieces(rest)
    ensures Decoded(Spelled(c, plain) + rest) == match Decoded(rest) case None => None case Some(s) => Some([c] + s)
  {
    hide HexOf, HexValue;
    var n, pieces := c as int, Spelled(c, plain) + rest;
    if |Spelled(c, plain)| == 1 {
      assert pieces[1..] == rest;
      if n < 0x1_0000 {
        HexOfValue(n);
      }
    } else {
      assert pieces[2..] == rest;
      HexOfValue(0xD800 + (n - 0x1_0000) / 0x400);
      HexOfValue(0xDC00 + (n - 0x1_0000) % 0x400);
    }
  }

  /** Hexadecimal digits count up in small letters and in capitals. */
  lemma {:induction false} HexCounts(n: nat)
    requires n < 16
    ensures var small, large := "0123456789abcdef"[n], "0123456789ABCDEF"[n];
            IsHexDigit(small) && HexDigitValue(small) == n && IsHexDigit(large) && HexDigitValue(large) == n
  {
  }

  /** What the short escapes stand for, by number. */
  lemma {:induction false} EscapesAreRead(c: char)
    requires IsPiece(Escape(c))
    ensures Decoded([Escape(c)])
         == Some([(if c == 'b' then 8 else if c == 't' then 9 else if c == 'n' then 10 else if c == 'f' then 12
                   else if c == 'r' then 13 else c as int) as char])
  {
    assert [Escape(c)][1..] == [] && Decoded([]) == Some("");
    assert [Unescaped(c)] + "" == [Unescaped(c)];
  }

  /** Every string can be spelled, with or without escaping all of it, and is read back. */
  lemma {:induction false} SpellingIsDecoded(s: string, plain: bool)
    ensures Decoded(Spelling(s, plain)) == Some(s)
  {
    if s != "" {
      SpellingIsDecoded(s[1..], plain);
      DecodedSpelled(s[0], plain, Spelling(s[1..], plain));
      assert s == [s[0]] + s[1..];
    }
  }

  // ---------------------------------------------------------------------------
  // The brace scan: string state is forgotten at every newline
  // ---------------------------------------------------------------------------

  datatype Scan = Scan(depth: int, inString: bool, escaped: bool)

  function Outside(depth: int): Scan {
    Scan(depth, false, false)
  }

  function Inside(depth: int): Scan {
    Scan(depth, true, false)
  }

  function ScanChar(s: Scan, c: char): Option<Scan> {
    if c == '\n' then Some(Outside(s.depth))
    else if s.inString then
      if s.escaped then Some(s.(escaped := false))
      else if c == '\\' then Some(s.(escaped := true))
      else if c == '"' then Some(s.(inString := false))
      else Some(s)
    else if c == '"' then Some(s.(inString := true))
    else if c == '{' then Some(s.(depth := s.depth + 1))
    else if c == '}' then (if s.depth - 1 < 0 then None else Some(s.(depth := s.depth - 1)))
    else Some(s)
  }

  function ScanText(s: Scan, text: string): Option<Scan>
    decreases |text|
  {
    if text == "" then Some(s)
    else
      var s' :- ScanChar(s, text[0]);
      ScanText(s', text[1..])
  }

  lemma {:induction false} ScanAppend(s: Scan, a: string, b: string)
    decreases |a|
    ensures ScanText(s, a + b)
         == match ScanText(s, a) case None => None case Some(s') => ScanText(s', b)
  {
    if a == "" {
      assert a + b == b;
    } else {
      assert (a + b)[1..] == a[1..] + b;
      match ScanChar(s, a[0])
      case None =>
      case Some(s') => ScanAppend(s', a[1..], b);
    }
  }

  // The state reached after the first k characters.
  function After(s: Scan, text: string, k: nat): Option<Scan>
    requires k <= |text|
  {
    ScanText(s, text[..k])
  }

  /** A text that keeps the brace depth: it never closes below where it starts, ends where it starts,
      and holds a slash only inside a string. */
  ghost predicate Level(text: string, d: nat) {
    ScanText(Outside(d), text) == Some(Outside(d))
    && forall k :: 0 <= k <= |text| ==>
         Above(Outside(d), text, k, d) && (k < |text| && text[k] == '/' ==> SlashQuoted(Outside(d), text, k))
  }

  predicate Above(s: Scan, text: string, k: nat, d: nat)
    requires k <= |text|
  {
    After(s, text, k).Some? && After(s, text, k).value.depth >= d
  }

  predicate SlashQuoted(s: Scan, text: string, k: nat)
    requires k <= |text|
  {
    After(s, text, k).Some? && After(s, text, k).value.inString
  }

  /** A text inside a string literal that stays inside it. */
  ghost predicate Quoted(text: string, d: nat) {
    ScanText(Inside(d), text) == Some(Inside(d))
    && forall k :: 0 <= k <= |text| ==> Above(Inside(d), text, k, d) && SlashQuoted(Inside(d), text, k)
  }

  lemma {:induction false} AfterAppend(s: Scan, a: string, b: string, s': Scan, k: nat)
    requires ScanText(s, a) == Some(s') && k <= |a + b|
    ensures After(s, a + b, k) == if k <= |a| then After(s, a, k) else After(s', b, k - |a|)
  {
    if k <= |a| {
      assert (a + b)[..k] == a[..k];
    } else {
      assert (a + b)[..k] == a + b[..k - |a|];
      ScanAppend(s, a, b[..k - |a|]);
    }
  }

  lemma {:induction false} LevelOpensQuietly(text: string, d: nat)
    requires Level(text, d)
    ensures text != "" ==> text[0] != '/'
  {
    if text != "" {
      var quoted := SlashQuoted(Outside(d), text, 0);
      assert text[..0] == "";
      assert !quoted;
    }
  }

  lemma {:induction false} LevelAppend(a: string, b: string, d: nat)
    requires Level(a, d) && Level(b, d)
    ensures Level(a + b, d)
  {
    ScanAppend(Outside(d), a, b);
    forall k | 0 <= k <= |a + b|
      ensures Above(Outside(d), a + b, k, d)
      ensures k < |a + b| && (a + b)[k] == '/' ==> SlashQuoted(Outside(d), a + b, k)
    {
      AfterAppend(Outside(d), a, b, Outside(d), k);
      if k <= |a| {
        assert Above(Outside(d), a, k, d);
        if k == |a| {
          assert Above(Outside(d), b, 0, d);
          LevelOpensQuietly(b, d);
          assert a[..|a|] == a && b[..0] == "";
        }
      } else {
        assert Above(Outside(d), b, k - |a|, d);
      }
    }
  }

  lemma {:induction false} QuotedAppend(a: string, b: string, d: nat)
    requires Quoted(a, d) && Quoted(b, d)
    ensures Quoted(a + b, d)
  {
    ScanAppend(Inside(d), a, b);
    forall k | 0 <= k <= |a + b|
      ensures Above(Inside(d), a + b, k, d) && SlashQuoted(Inside(d), a + b, k)
    {
      AfterAppend(Inside(d), a, b, Inside(d), k);
      if k <= |a| {
        assert Above(Inside(d), a, k, d) && SlashQuoted(Inside(d), a, k);
      } else {
        assert Above(Inside(d), b, k - |a|, d) && SlashQuoted(Inside(d), b, k - |a|);
      }
    }
  }

  predicate IsQuiet(c: char) {
    c != '"' && c != '{' && c != '}' && c != '/'
  }

  lemma {:induction false} QuietIsLevel(text: string, d: nat)
    requires AreQuiet(text)
    ensures Level(text, d)
  {
    if text == "" {
      assert After(Outside(d), text, 0) == Some(Outside(d));
    } else {
      QuietIsLevel(text[1..], d);
      OneCharIsLevel(text[0], d);
      LevelAppend([text[0]], text[1..], d);
      assert text == [text[0]] + text[1..];
    }
  }

  lemma {:induction false} OneCharIsLevel(c: char, d: nat)
    requires IsQuiet(c)
    ensures Level([c], d)
  {
    assert [c][..1] == [c] && [c][..0] == "" && [c][1..] == "";
    assert ScanText(Outside(d), [c]) == Some(Outside(d));
  }

  lemma {:induction false} PlainTextIsQuoted(text: string, d: nat)
    requires forall i :: 0 <= i < |text| ==> text[i] >= ' ' && text[i] != '"' && text[i] != '\\'
    ensures Quoted(text, d)
  {
    if text == "" {
      assert After(Inside(d), text, 0) == Some(Inside(d));
    } else {
      PlainTextIsQuoted(text[1..], d);
      OneCharIsQuoted(text[0], d);
      QuotedAppend([text[0]], text[1..], d);
      assert text == [text[0]] + text[1..];
    }
  }

  lemma {:induction false} OneCharIsQuoted(c: char, d: nat)
    requires c >= ' ' && c != '"' && c != '\\'
    ensures Quoted([c], d)
  {
    assert [c][..1] == [c] && [c][..0] == "" && [c][1..] == "";
    assert ScanText(Inside(d), [c]) == Some(Inside(d));
  }

  // A backslash and the character it escapes.
  lemma {:induction false} EscapePairIsQuoted(c: char, d: nat)
    requires c != '\n'
    ensures Quoted(['\\', c], d)
  {
    var t := ['\\', c];
    assert t[..0] == "" && t[..1] == ['\\'] && t[..2] == t && t[1..] == [c] && t[1..][1..] == "" && ['\\'][1..] == "";
    assert ScanText(Scan(d, true, true), [c]) == Some(Inside(d));
    assert ScanText(Inside(d), ['\\']) == Some(Scan(d, true, true));
    assert ScanText(Inside(d), t) == Some(Inside(d));
  }

  lemma {:induction false} PieceIsQuoted(p: Piece, d: nat)
    requires IsPiece(p)
    ensures Quoted(PieceText(p), d)
  {
    match p
    case Plain(c) => OneCharIsQuoted(c, d);
    case Escape(c) => EscapePairIsQuoted(c, d);
    case Hex(digits) =>
      EscapePairIsQuoted('u', d);
      PlainTextIsQuoted(digits, d);
      QuotedAppend("\\u", digits, d);
  }

  lemma {:induction false} PiecesAreQuoted(pieces: seq<Piece>, d: nat)
    requires ArePieces(pieces)
    ensures Quoted(PiecesText(pieces), d)
  {
    if pieces == [] {
      PlainTextIsQuoted("", d);
    } else {
      PieceIsQuoted(pieces[0], d);
      PiecesAreQuoted(pieces[1..], d);
      QuotedAppend(PieceText(pieces[0]), PiecesText(pieces[1..]), d);
    }
  }

  lemma {:induction false} StringIsLevel(pieces: seq<Piece>, d: nat)
    requires ArePieces(pieces)
    ensures Level(StringText(pieces), d)
  {
    PiecesAreQuoted(pieces, d);
    QuotesAreLevel(PiecesText(pieces), d);
  }

  lemma {:induction false} QuotesAreLevel(t: string, d: nat)
    requires Quoted(t, d)
    ensures Level("\"" + (t + "\""), d)
  {
    var inner := t + "\"";
    var text := "\"" + inner;
    var out := Outside(d);
    assert ScanText(out, "\"") == Some(Inside(d));
    assert ScanText(Inside(d), "\"") == Some(out);
    ScanAppend(Inside(d), t, "\"");
    ScanAppend(out, "\"", inner);
    forall k | 0 <= k <= |text|
      ensures Above(out, text, k, d)
      ensures k < |text| && text[k] == '/' ==> SlashQuoted(out, text, k)
    {
      AfterAppend(out, "\"", inner, Inside(d), k);
      if k > 0 {
        AfterAppend(Inside(d), t, "\"", Inside(d), k - 1);
        if k - 1 <= |t| {
          assert Above(Inside(d), t, k - 1, d) && SlashQuoted(Inside(d), t, k - 1);
          if k == 1 {
            assert "\""[..1] == "\"" && t[..0] == "";
          }
        } else {
          assert "\""[..1] == "\"";
        }
      }
    }
  }

  /** Inside the text the depth stays at `floor` or above. */
  ghost predicate Deep(text: string, d: nat, floor: nat) {
    forall k :: 0 < k < |text| ==> Above(Outside(d), text, k, floor)
  }

  lemma {:induction false} BracesAreLevel(t: string, d: nat)
    requires Level(t, d + 1)
    ensures Level("{" + t + "}", d) && Deep("{" + t + "}", d, d + 1)
  {
    var text := "{" + t + "}";
    var out, floor := Outside(d), d + 1;
    BracesScan(t, d);
    forall k | 0 < k < |text|
      ensures Above(out, text, k, floor)
    {
      BraceInterior(t, d, k);
      assert Above(Outside(floor), t, k - 1, floor);
    }
    forall k | 0 <= k <= |text|
      ensures Above(out, text, k, d)
      ensures k < |text| && text[k] == '/' ==> SlashQuoted(out, text, k)
    {
      if k == 0 {
        assert text[..0] == "";
      } else if k == |text| {
        assert text[..k] == text;
      } else {
        BraceInterior(t, d, k);
        assert Above(Outside(floor), t, k - 1, floor);
        if k - 1 < |t| && t[k - 1] == '/' {
          assert SlashQuoted(Outside(floor), t, k - 1);
        }
      }
    }
  }

  lemma {:induction false} BracesScan(t: string, d: nat)
    requires Level(t, d + 1)
    ensures ScanText(Outside(d), "{" + t + "}") == Some(Outside(d))
  {
    assert ScanText(Outside(d), "{") == Some(Outside(d + 1));
    assert ScanText(Outside(d + 1), "}") == Some(Outside(d));
    ScanAppend(Outside(d), "{", t);
    ScanAppend(Outside(d), "{" + t, "}");
  }

  // Within braces the scan is one level deeper than the text it is in.
  lemma {:induction false} BraceInterior(t: string, d: nat, k: nat)
    requires Level(t, d + 1) && 0 < k <= |t| + 1
    ensures After(Outside(d), "{" + t + "}", k) == After(Outside(d + 1), t, k - 1)
  {
    assert ("{" + t + "}")[..k] == "{" + t[..k - 1];
    assert ScanText(Outside(d), "{") == Some(Outside(d + 1));
    ScanAppend(Outside(d), "{", t[..k - 1]);
  }

  predicate AreQuiet(s: string) {
    forall i :: 0 <= i < |s| ==> IsQuiet(s[i])
  }

  lemma {:induction false} QuietParts(s: string, n: nat)
    requires n <= |s| && AreQuiet(s[..n]) && AreQuiet(s[n..])
    ensures AreQuiet(s)
  {
    assert s == s[..n] + s[n..];
  }

  lemma {:induction false} NumberIsQuiet(s: string)
    requires IsNumber(s)
    ensures AreQuiet(s)
  {
    var sign := if s != "" && s[0] == '-' then 1 else 0;
    var t := s[sign..];
    var n := LeadingDigits(t);
    FractionIsQuiet(t[n..]);
    QuietParts(t, n);
    QuietParts(s, sign);
  }

  lemma {:induction false} FractionIsQuiet(t: string)
    requires IsFraction(t)
    ensures AreQuiet(t)
  {
    if t != "" && t[0] == '.' {
      var u := t[1..];
      var n := LeadingDigits(u);
      ExponentIsQuiet(u[n..]);
      QuietParts(u, n);
      QuietParts(t, 1);
    } else {
      ExponentIsQuiet(t);
    }
  }

  lemma {:induction false} ExponentIsQuiet(t: string)
    requires IsExponent(t)
    ensures AreQuiet(t)
  {
    if t != "" {
      QuietParts(t, if |t| > 1 && t[1] in "+-" then 2 else 1);
    }
  }

  lemma {:induction false} ValueIsLevel(v: Value, d: nat)
    requires IsValue(v)
    ensures Level(ValueText(v), d)
    decreases v, 0
  {
    hide Level, Quoted, Deep;
    match v
    case Literal(word) => QuietIsLevel(word, d);
    case Number(digits) =>
      NumberIsQuiet(digits);
      QuietIsLevel(digits, d);
    case Str(pieces) => StringIsLevel(pieces, d);
    case Array(blank, items) =>
      ArrayIsLevel(blank, items, d);
    case Object(blank, members) =>
      ObjectIsLevel(blank, members, d);
  }

  lemma {:induction false} ArrayIsLevel(blank: string, items: Items, d: nat)
    requires IsBlank(blank) && AreItems(items)
    ensures Level("[" + ((if items.NoItem? then blank else ItemsText(items)) + "]"), d)
    decreases items, 1
  {
    hide Level, ItemsText, AreItems;
    var body := if items.NoItem? then blank else ItemsText(items);
    QuietIsLevel(blank, d);
    ItemsAreLevel(items, d);
    QuietIsLevel("[", d);
    QuietIsLevel("]", d);
    LevelAppend(body, "]", d);
    LevelAppend("[", body + "]", d);
  }

  lemma {:induction false} ObjectIsLevel(blank: string, members: Members, d: nat)
    requires IsBlank(blank) && AreMembers(members)
    ensures Level("{" + ObjectBody(blank, members) + "}", d) && Deep("{" + ObjectBody(blank, members) + "}", d, d + 1)
    decreases members, 1
  {
    QuietIsLevel(blank, d + 1);
    MembersAreLevel(members, d + 1);
    BracesAreLevel(ObjectBody(blank, members), d);
  }

  lemma {:induction false} ItemsAreLevel(items: Items, d: nat)
    requires AreItems(items)
    ensures Level(ItemsText(items), d)
    decreases items, 0
  {
    hide Level, Quoted, Deep;
    match items
    case NoItem => QuietIsLevel("", d);
    case Item(before, value, after, tail) =>
      var rest := if tail.NoItem? then "" else "," + ItemsText(tail);
      ItemsAreLevel(tail, d);
      QuietIsLevel(",", d);
      QuietIsLevel("", d);
      LevelAppend(",", ItemsText(tail), d);
      BlankAround(before, value, after, rest, d);
  }

  lemma {:induction false} BlankAround(before: string, value: Value, after: string, rest: string, d: nat)
    requires IsBlank(before) && IsValue(value) && IsBlank(after) && Level(rest, d)
    ensures Level(before + (ValueText(value) + (after + rest)), d)
    decreases value, 1
  {
    hide Level, Quoted, Deep;
    ValueIsLevel(value, d);
    QuietIsLevel(before, d);
    QuietIsLevel(after, d);
    LevelAppend(after, rest, d);
    LevelAppend(ValueText(value), after + rest, d);
    LevelAppend(before, ValueText(value) + (after + rest), d);
  }

  lemma {:induction false} MembersAreLevel(members: Members, d: nat)
    requires AreMembers(members)
    ensures Level(MembersText(members), d)
    decreases members, 0
  {
    hide Level, Quoted, Deep;
    match members
    case NoMember => QuietIsLevel("", d);
    case Member(before, key, colon, gap, value, after, tail) =>
      var rest := if tail.NoMember? then "" else "," + MembersText(tail);
      MembersAreLevel(tail, d);
      QuietIsLevel(",", d);
      QuietIsLevel("", d);
      LevelAppend(",", MembersText(tail), d);
      BlankAround(gap, value, after, rest, d);
      var valued := gap + (ValueText(value) + (after + rest));
      QuietIsLevel(":", d);
      QuietIsLevel(colon, d);
      QuietIsLevel(before, d);
      StringIsLevel(key, d);
      LevelAppend(":", valued, d);
      LevelAppend(colon, ":" + valued, d);
      LevelAppend(StringText(key), colon + (":" + valued), d);
      LevelAppend(before, StringText(key) + (colon + (":" + valued)), d);
  }

  /** Every JSON text is balanced line by line: no string crosses a newline, so forgetting the string
      state there loses nothing. */
  lemma {:induction false} JsonIsLevel(text: string)
    requires IsJson(text)
    ensures Level(text, 0)
  {
    var before: string, v: Value, after: string :|
      IsBlank(before) && IsValue(v) && IsBlank(after) && text == before + (ValueText(v) + after);
    hide Level, IsJson;
    ValueIsLevel(v, 0);
    QuietIsLevel(before, 0);
    QuietIsLevel(after, 0);
    LevelAppend(ValueText(v), after, 0);
    LevelAppend(before, ValueText(v) + after, 0);
  }
}

/** The files that carry the release version beside the changelog: Cargo.toml, the plugin manifest, Cargo.lock
    and the install pins in the documents. */
module Manifests {
  import opened Text
  import opened Outcomes
  import opened Changelog

  // ---------------------------------------------------------------------------
  // Versions
  // ---------------------------------------------------------------------------

  predicate IsTen(n: int, zero: int) {
    zero <= n < zero + 10
  }

  /** The decimal digits of all scripts (general category Nd in Unicode 14.0), as the patterns take them. */
  predicate IsDecimal(c: char) {
    var n := c as int;
    IsTen(n, 0x30) || IsTen(n, 0x660) || IsTen(n, 0x6F0) || IsTen(n, 0x7C0) || IsTen(n, 0x966) || IsTen(n, 0x9E6)
    || IsTen(n, 0xA66) || IsTen(n, 0xAE6) || IsTen(n, 0xB66) || IsTen(n, 0xBE6) || IsTen(n, 0xC66) || IsTen(n, 0xCE6)
    || IsTen(n, 0xD66) || IsTen(n, 0xDE6) || IsTen(n, 0xE50) || IsTen(n, 0xED0) || IsTen(n, 0xF20)
    || IsTen(n, 0x1040) || IsTen(n, 0x1090) || IsTen(n, 0x17E0) || IsTen(n, 0x1810) || IsTen(n, 0x1946)
    || IsTen(n, 0x19D0) || IsTen(n, 0x1A80) || IsTen(n, 0x1A90) || IsTen(n, 0x1B50) || IsTen(n, 0x1BB0)
    || IsTen(n, 0x1C40) || IsTen(n, 0x1C50) || IsTen(n, 0xA620) || IsTen(n, 0xA8D0) || IsTen(n, 0xA900)
    || IsTen(n, 0xA9D0) || IsTen(n, 0xA9F0) || IsTen(n, 0xAA50) || IsTen(n, 0xABF0) || IsTen(n, 0xFF10)
    || IsTen(n, 0x104A0) || IsTen(n, 0x10D30) || IsTen(n, 0x11066) || IsTen(n, 0x110F0) || IsTen(n, 0x11136)
    || IsTen(n, 0x111D0) || IsTen(n, 0x112F0) || IsTen(n, 0x11450) || IsTen(n, 0x114D0) || IsTen(n, 0x11650)
    || IsTen(n, 0x116C0) || IsTen(n, 0x11730) || IsTen(n, 0x118E0) || IsTen(n, 0x11950) || IsTen(n, 0x11C50)
    || IsTen(n, 0x11D50) || IsTen(n, 0x11DA0) || IsTen(n, 0x16A60) || IsTen(n, 0x16AC0) || IsTen(n, 0x16B50)
    || IsTen(n, 0x1E140) || IsTen(n, 0x1E2F0) || IsTen(n, 0x1E950) || IsTen(n, 0x1FBF0) || 0x1D7CE <= n <= 0x1D7FF
  }

  lemma {:induction false} DecimalIsPlain(c: char)
    ensures IsDecimal(c) ==> !IsPySpace(c) && c != ']' && c != '"' && c != '-' && c != 'U' && c != '.'
  {
  }

  function LeadingDecimals(s: string): (n: nat)
    ensures n <= |s| && (forall i :: 0 <= i < n ==> IsDecimal(s[i])) && (n < |s| ==> !IsDecimal(s[n]))
  {
    if s != "" && IsDecimal(s[0]) then
      var n := LeadingDecimals(s[1..]);
      assert forall i :: 0 < i < 1 + n ==> s[i] == s[1..][i - 1];
      1 + n
    else 0
  }

  // Digits that both texts open with.
  lemma {:induction false} LeadingDecimalsAgree(s: string, t: string)
    requires LeadingDecimals(s) <= |t| && forall i :: 0 <= i < LeadingDecimals(s) ==> t[i] == s[i]
    ensures LeadingDecimals(t) >= LeadingDecimals(s)
    ensures (LeadingDecimals(s) < |t| ==> !IsDecimal(t[LeadingDecimals(s)])) ==> LeadingDecimals(t) == LeadingDecimals(s)
  {
    hide IsDecimal;
    var a, b := LeadingDecimals(s), LeadingDecimals(t);
  }

  /** Where a number and a dot at the start of the text end. */
  function NumberAndDot(s: string): (n: Option<nat>)
    ensures n.Some? ==> 1 < n.value <= |s|
  {
    var a := LeadingDecimals(s);
    if a == 0 || a == |s| || s[a] != '.' then None else Some(a + 1)
  }

  /** Length of digits, a dot and all digits after it at the start of the text. */
  function MinorLength(s: string): (n: nat)
    ensures n <= |s|
  {
    match NumberAndDot(s)
    case None => 0
    case Some(b) =>
      var c := LeadingDecimals(s[b..]);
      if c == 0 then 0 else b + c
  }

  /** How much of the text is a version: digits, a dot, digits, a dot and all digits after it. */
  function VersionLength(s: string): (n: nat)
    ensures n <= |s|
  {
    match NumberAndDot(s)
    case None => 0
    case Some(a) =>
      var m := MinorLength(s[a..]);
      if m == 0 then 0 else a + m
  }

  /** `x.y.z` in decimal digits. */
  predicate IsSemver(s: string) {
    0 < |s| == VersionLength(s)
  }

  predicate IsVersionChar(c: char) {
    IsDecimal(c) || c == '.'
  }

  lemma {:induction false} NumberChars(s: string)
    ensures NumberAndDot(s).Some? ==> forall i :: 0 <= i < NumberAndDot(s).value ==> IsVersionChar(s[i])
    ensures NumberAndDot(s).Some? ==> IsDecimal(s[0])
    ensures forall i :: 0 <= i < LeadingDecimals(s) ==> IsDecimal(s[i])
  {
    hide IsDecimal;
  }

  lemma {:induction false} MinorChars(s: string)
    ensures var n := MinorLength(s);
            (forall i :: 0 <= i < n ==> IsVersionChar(s[i])) && (0 < n < |s| ==> !IsDecimal(s[n]))
  {
    hide NumberAndDot, LeadingDecimals, IsDecimal;
    NumberChars(s);
    if MinorLength(s) > 0 {
      var b := NumberAndDot(s).value;
      NumberChars(s[b..]);
      assert forall i :: b <= i < |s| ==> s[i] == s[b..][i - b];
    }
  }

  lemma {:induction false} VersionChars(s: string)
    ensures var n := VersionLength(s);
            (forall i :: 0 <= i < n ==> IsVersionChar(s[i])) && (n > 0 ==> IsDecimal(s[0]))
            && (0 < n < |s| ==> !IsDecimal(s[n]))
  {
    hide NumberAndDot, MinorLength;
    NumberChars(s);
    if VersionLength(s) > 0 {
      var a := NumberAndDot(s).value;
      MinorChars(s[a..]);
      assert forall i :: a <= i < |s| ==> s[i] == s[a..][i - a];
    }
  }

  lemma {:induction false} SameNumber(s: string, t: string)
    requires NumberAndDot(s).Some? && NumberAndDot(s).value <= |t|
    requires forall i :: 0 <= i < NumberAndDot(s).value ==> t[i] == s[i]
    ensures NumberAndDot(t) == NumberAndDot(s)
  {
    LeadingDecimalsAgree(s, t);
  }

  // A number, or a version, is told by its own characters and what follows it.
  lemma {:induction false} SameMinor(s: string, t: string)
    requires 0 < MinorLength(s) <= |t| && forall i :: 0 <= i < MinorLength(s) ==> t[i] == s[i]
    ensures MinorLength(t) >= MinorLength(s)
    ensures (MinorLength(s) < |t| ==> !IsDecimal(t[MinorLength(s)])) ==> MinorLength(t) == MinorLength(s)
  {
    hide NumberAndDot, LeadingDecimals, IsDecimal;
    var b := NumberAndDot(s).value;
    SameNumber(s, t);
    SameFrom(s, t, b, MinorLength(s));
    LeadingDecimalsAgree(s[b..], t[b..]);
  }

  lemma {:induction false} SameVersion(s: string, t: string)
    requires 0 < VersionLength(s) <= |t| && forall i :: 0 <= i < VersionLength(s) ==> t[i] == s[i]
    ensures VersionLength(t) >= VersionLength(s)
    ensures (VersionLength(s) < |t| ==> !IsDecimal(t[VersionLength(s)])) ==> VersionLength(t) == VersionLength(s)
  {
    hide NumberAndDot, MinorLength, IsDecimal;
    var a := NumberAndDot(s).value;
    SameNumber(s, t);
    SameFrom(s, t, a, VersionLength(s));
    SameMinor(s[a..], t[a..]);
  }

  lemma {:induction false} SameFrom(s: string, t: string, a: nat, n: nat)
    requires a <= n <= |s| && n <= |t| && forall i :: 0 <= i < n ==> t[i] == s[i]
    ensures |t[a..]| == |t| - a && forall i :: 0 <= i < n - a ==> t[a..][i] == s[a..][i]
    ensures n < |t| ==> t[a..][n - a] == t[n]
  {
  }

  /** A version is safe in headings, links and quoted fields. */
  lemma {:induction false} SemverIsClean(s: string)
    requires IsSemver(s)
    ensures IsCleanTarget(s) && '"' !in s && s != ""
  {
    hide IsDecimal, IsPySpace, VersionLength;
    VersionChars(s);
    forall i | 0 <= i < |s|
      ensures !IsPySpace(s[i]) && s[i] != ']' && s[i] != '"' && s[i] != 'U'
    {
      DecimalIsPlain(s[i]);
      DotIsPlain();
    }
    assert UNRELEASED[0] == 'U';
  }

  lemma {:induction false} DotIsPlain()
    ensures !IsPySpace('.')
  {
  }

  // ---------------------------------------------------------------------------
  // Quoted version lines. Manifests are held as lines without their newlines.
  // ---------------------------------------------------------------------------

  /** The quoted text of `key = "value"`, blanks around the sign and at the end allowed, split around
      the value. */
  datatype Quoted = Quoted(before: string, value: string, after: string)

  function AfterQuote(before: string, s: string): Option<Quoted> {
    var (value, after) :- SplitOnce(s, '"');
    if value == "" || !PyBlank(after) then None else Some(Quoted(before, value, after))
  }

  /** Where `c` stands from an index on, if only blanks come before it. */
  function SkipTo(s: string, begin: nat, c: char): (r: Option<nat>)
    requires begin <= |s|
    ensures r.Some? ==> begin <= r.value < |s|
  {
    var i := begin + LeadingSpaces(s[begin..]);
    if i == |s| || s[i] != c then None else Some(i)
  }

  /** Where the quote of a version field opens. */
  function QuoteAt(s: string): (r: Option<nat>)
    ensures r.Some? ==> r.value < |s|
  {
    if !("version" <= s) then None
    else
      var sign :- SkipTo(s, 7, '=');
      SkipTo(s, sign + 1, '"')
  }

  /** A version field as the manifest patterns see it. */
  function VersionField(s: string): Option<Quoted> {
    var quote :- QuoteAt(s);
    AfterQuote(s[..quote + 1], s[quote + 1..])
  }

  function VersionText(version: string): string {
    "version = \"" + version + "\""
  }

  lemma {:induction false} VersionTextQuote(version: string)
    ensures QuoteAt(VersionText(version)) == Some(10)
  {
    var s := VersionText(version);
    assert s[..7] == "version" && s[7..] == " " + ("= \"" + version + "\"");
    SpacesStop("= \"" + version + "\"");
    assert s[8] == '=' && s[9..] == " " + ("\"" + version + "\"");
    SpacesStop("\"" + version + "\"");
    assert s[10] == '"';
  }

  lemma {:induction false} VersionTextField(version: string)
    requires version != "" && '"' !in version
    ensures VersionField(VersionText(version)) == Some(Quoted("version = \"", version, ""))
  {
    hide QuoteAt, LeadingSpaces;
    VersionTextQuote(version);
    var after := version + ['"'] + "";
    assert VersionText(version) == "version = \"" + after;
    Slices("version = \"", after);
    SplitOnceAt(version, '"', "");
  }

  function Strip(s: string): string {
    StripRight(s[LeadingSpaces(s)..])
  }

  function StripRight(s: string): string {
    if s != "" && IsPySpace(s[|s| - 1]) then StripRight(s[..|s| - 1]) else s
  }

  // ---------------------------------------------------------------------------
  // Cargo.toml
  // ---------------------------------------------------------------------------

  const PACKAGE_TABLE := "[workspace.package]"

  predicate IsTable(line: string) {
    var s := Strip(line);
    s != "" && s[0] == '[' && s[|s| - 1] == ']'
  }

  /** Whether line `i` stands in the [workspace.package] table. */
  predicate InPackage(lines: seq<string>, i: nat)
    requires i <= |lines|
  {
    i > 0 && if IsTable(lines[i - 1]) then Strip(lines[i - 1]) == PACKAGE_TABLE else InPackage(lines, i - 1)
  }

  predicate IsVersionAt(lines: seq<string>, i: nat)
    requires i < |lines|
  {
    !IsTable(lines[i]) && InPackage(lines, i) && VersionField(Strip(lines[i])).Some?
  }

  /** The first version line of the package table from `begin`, or the end. */
  function VersionAt(lines: seq<string>, begin: nat): (i: nat)
    requires begin <= |lines|
    ensures begin <= i <= |lines|
    ensures i < |lines| ==> IsVersionAt(lines, i)
    ensures forall j :: begin <= j < i ==> !IsVersionAt(lines, j)
    decreases |lines| - begin
  {
    if begin == |lines| || IsVersionAt(lines, begin) then begin else VersionAt(lines, begin + 1)
  }

  function ParseWorkspaceVersion(lines: seq<string>): Outcome<string> {
    var i := VersionAt(lines, 0);
    if i == |lines| then Error(NoWorkspaceVersion)
    else Ok(VersionField(Strip(lines[i])).value.value)
  }

  function Indented(line: string, version: string): string {
    line[..LeadingSpaces(line)] + VersionText(version)
  }

  /** The manifest with its one package version line rewritten. */
  function WithVersion(lines: seq<string>, target: string): Outcome<seq<string>> {
    var i := VersionAt(lines, 0);
    if i == |lines| then Error(NoWorkspaceVersion)
    else if VersionAt(lines, i + 1) < |lines| then Error(ManyWorkspaceVersions)
    else Ok(lines[i := Indented(lines[i], target)])
  }

  method RewriteWorkspaceVersion(lines: seq<string>, target: string) returns (r: Outcome<seq<string>>)
    ensures r == WithVersion(lines, target)
  {
    hide IsTable, VersionField, Strip, Indented;
    var out: seq<string> := [];
    var inPackage, replaced := false, false;
    ghost var at := VersionAt(lines, 0);
    for i := 0 to |lines|
      invariant inPackage == InPackage(lines, i)
      invariant replaced == (at < i)
      invariant forall j :: 0 <= j < i && j != at ==> !IsVersionAt(lines, j)
      invariant out == if replaced then lines[..i][at := Indented(lines[at], target)] else lines[..i]
    {
      var raw := lines[i];
      assert lines[..i + 1] == lines[..i] + [raw];
      var line := Strip(raw);
      assert IsVersionAt(lines, i) == (!IsTable(raw) && inPackage && VersionField(line).Some?);
      assert at == i ==> IsVersionAt(lines, i);
      if IsTable(raw) {
        inPackage := line == PACKAGE_TABLE;
        out := out + [raw];
        continue;
      }
      if inPackage && VersionField(line).Some? {
        if replaced {
          assert IsVersionAt(lines, i);
          return Error(ManyWorkspaceVersions);
        }
        out := out + [Indented(raw, target)];
        replaced := true;
      } else {
        out := out + [raw];
      }
    }
    assert lines[..|lines|] == lines;
    if !replaced {
      return Error(NoWorkspaceVersion);
    }
    r := Ok(out);
  }

  lemma {:induction false} StripRightStops(s: string)
    requires s != "" && !IsPySpace(s[|s| - 1])
    ensures StripRight(s) == s
  {
  }

  // A rewritten line reads back as the target, opens no table, and rewrites to itself.
  lemma {:induction false} IndentedReadsBack(line: string, target: string)
    requires target != "" && '"' !in target
    ensures var s := Indented(line, target);
            !IsTable(s) && VersionField(Strip(s)) == Some(Quoted("version = \"", target, ""))
            && Indented(s, target) == s
  {
    var blank, text := line[..LeadingSpaces(line)], VersionText(target);
    GapStops(blank, text);
    assert (blank + text)[|blank|..] == text && (blank + text)[..|blank|] == blank;
    assert text[|text| - 1] == '"' && text[0] == 'v';
    StripRightStops(text);
    VersionTextField(target);
  }

  lemma {:induction false} InPackageUnchanged(lines: seq<string>, at: nat, line: string, i: nat)
    requires at < |lines| && i <= |lines| && !IsTable(lines[at]) && !IsTable(line)
    ensures InPackage(lines[at := line], i) == InPackage(lines, i)
  {
    if i > 0 {
      InPackageUnchanged(lines, at, line, i - 1);
    }
  }

  /** A rewritten manifest carries the target and rewrites to itself. */
  lemma {:induction false} CargoIsSettled(lines: seq<string>, target: string)
    requires WithVersion(lines, target).Ok? && target != "" && '"' !in target
    ensures var after := WithVersion(lines, target).value;
            ParseWorkspaceVersion(after) == Ok(target) && WithVersion(after, target) == Ok(after)
  {
    hide IsTable, VersionField, Strip, Indented, InPackage;
    var at := VersionAt(lines, 0);
    var line := Indented(lines[at], target);
    var lines' := lines[at := line];
    IndentedReadsBack(lines[at], target);
    forall i | 0 <= i < |lines|
      ensures IsVersionAt(lines', i) == IsVersionAt(lines, i)
    {
      InPackageUnchanged(lines, at, line, i);
    }
    assert VersionAt(lines', 0) == at;
    assert VersionAt(lines', at + 1) == |lines|;
    assert lines'[at := line] == lines';
  }

  // ---------------------------------------------------------------------------
  // herdr-plugin.toml: the first version line, its value replaced in place
  // ---------------------------------------------------------------------------

  predicate HasVersionField(line: string) {
    VersionField(line).Some?
  }

  function PluginAt(lines: seq<string>): (i: nat)
    ensures i <= |lines|
    ensures i < |lines| ==> VersionField(lines[i]).Some?
  {
    FindFrom(lines, 0, HasVersionField)
  }

  function ParsePluginVersion(lines: seq<string>): Outcome<string> {
    var i := PluginAt(lines);
    if i == |lines| then Error(NoPluginVersion) else Ok(VersionField(lines[i]).value.value)
  }

  function WithPluginVersion(lines: seq<string>, target: string): Outcome<seq<string>> {
    var i := PluginAt(lines);
    if i == |lines| then Error(NoPluginVersion)
    else
      var field := VersionField(lines[i]).value;
      Ok(lines[i := field.before + (target + ['"'] + field.after)])
  }

  predicate Agree(s: string, t: string, n: nat) {
    n <= |s| && n <= |t| && forall i :: 0 <= i < n ==> s[i] == t[i]
  }

  lemma {:induction false} AgreeFrom(s: string, t: string, begin: nat, n: nat)
    requires Agree(s, t, n) && begin <= n
    ensures Agree(s[begin..], t[begin..], n - begin)
  {
  }

  lemma {:induction false} SkipToPrefix(s: string, t: string, begin: nat, c: char)
    requires begin <= |s| && SkipTo(s, begin, c).Some? && Agree(s, t, SkipTo(s, begin, c).value + 1)
    ensures SkipTo(t, begin, c) == SkipTo(s, begin, c)
  {
    var i := SkipTo(s, begin, c).value;
    AgreeFrom(s, t, begin, i + 1);
    SameLeadingSpaces(s[begin..], t[begin..], i - begin);
    assert s[i] == t[i];
  }

  // The quote is found by looking at nothing after it.
  lemma {:induction false} QuoteAtPrefix(s: string, t: string)
    requires QuoteAt(s).Some? && Agree(s, t, QuoteAt(s).value + 1)
    ensures QuoteAt(t) == QuoteAt(s)
  {
    hide SkipTo;
    var sign := SkipTo(s, 7, '=').value;
    assert t[..7] == s[..7];
    SkipToPrefix(s, t, 7, '=');
    SkipToPrefix(s, t, sign + 1, '"');
  }

  // A field line is its parts put together.
  lemma {:induction false} FieldParts(s: string)
    requires VersionField(s).Some?
    ensures var f := VersionField(s).value;
            s == f.before + (f.value + ['"'] + f.after) && f.value != "" && PyBlank(f.after)
            && QuoteAt(s).Some? && f.before == s[..QuoteAt(s).value + 1]
  {
    var q := QuoteAt(s).value;
    SplitOnceShrinks(s[q + 1..], '"');
    hide QuoteAt, SplitOnce;
    assert s == s[..q + 1] + s[q + 1..];
  }

  // It reads the same with another value put in.
  lemma {:induction false} FieldSwap(s: string, version: string)
    requires VersionField(s).Some? && version != "" && '"' !in version
    ensures var f := VersionField(s).value;
            VersionField(f.before + (version + ['"'] + f.after)) == Some(Quoted(f.before, version, f.after))
  {
    hide QuoteAt, SplitOnce, PyBlank;
    var f := VersionField(s).value;
    FieldParts(s);
    var q := QuoteAt(s).value;
    var rest := version + ['"'] + f.after;
    var t := f.before + rest;
    SplitOnceAt(version, '"', f.after);
    PrefixAgrees(s, t, f.before);
    QuoteAtPrefix(s, t);
    assert t[..q + 1] == f.before && t[q + 1..] == rest;
  }

  lemma {:induction false} PrefixAgrees(s: string, t: string, prefix: string)
    requires prefix <= s && prefix <= t
    ensures Agree(s, t, |prefix|)
  {
    assert forall i :: 0 <= i < |prefix| ==> s[i] == prefix[i] && t[i] == prefix[i];
  }

  lemma {:induction false} SameLeadingSpaces(s: string, t: string, n: nat)
    requires n < |s| && LeadingSpaces(s) == n && Agree(s, t, n + 1)
    ensures LeadingSpaces(t) == n
  {
    if n > 0 {
      AgreeFrom(s, t, 1, n + 1);
      SameLeadingSpaces(s[1..], t[1..], n - 1);
    }
  }

  /** A rewritten plugin manifest carries the target, rewrites to itself, and differs only if its version did. */
  lemma {:induction false} PluginIsSettled(lines: seq<string>, target: string)
    requires WithPluginVersion(lines, target).Ok? && target != "" && '"' !in target
    ensures var lines' := WithPluginVersion(lines, target).value;
            ParsePluginVersion(lines') == Ok(target) && WithPluginVersion(lines', target) == Ok(lines')
            && (ParsePluginVersion(lines) == Ok(target) ==> lines' == lines)
  {
    var i := PluginAt(lines);
    var lines' := WithPluginVersion(lines, target).value;
    FieldParts(lines[i]);
    FieldSwap(lines[i], target);
    PluginAtSame(lines, lines'[i]);
    hide VersionField, FindFrom, QuoteAt;
    assert lines'[i := lines'[i]] == lines' && lines[i := lines[i]] == lines;
  }

  lemma {:induction false} PluginAtSame(lines: seq<string>, line: string)
    requires PluginAt(lines) < |lines| && HasVersionField(line)
    ensures PluginAt(lines[PluginAt(lines) := line]) == PluginAt(lines)
  {
    hide VersionField;
    var i := PluginAt(lines);
    FoundAt(lines[i := line], 0, HasVersionField, i);
  }

  // ---------------------------------------------------------------------------
  // Install pins in the documents
  // ---------------------------------------------------------------------------

  const REF := "--ref"

  /** Length of `--ref`, blanks and `v` at the start of a text; 0 if it does not start so. */
  function PinOpening(s: string): (n: nat)
    ensures n <= |s| && (n > 0 ==> n > 6)
  {
    if !(REF <= s) then 0
    else
      var blanks := LeadingSpaces(s[5..]);
      if blanks == 0 || 5 + blanks == |s| || s[5 + blanks] != 'v' then 0 else 6 + blanks
  }

  /** Length of the version after it, if a pin stands at the start. */
  function PinLength(s: string): (n: nat)
    ensures n > 0 ==> PinOpening(s) > 0 && PinOpening(s) + n <= |s|
  {
    if PinOpening(s) == 0 then 0 else VersionLength(s[PinOpening(s)..])
  }

  /** A document taken apart: prose, and the version of each pin. */
  datatype Chunk = Prose(text: string) | Pin(version: string)

  function Chunks(doc: string): seq<Chunk>
    decreases |doc|
  {
    if doc == "" then []
    else if PinLength(doc) == 0 then [Prose([doc[0]])] + Chunks(doc[1..])
    else
      var p, n := PinOpening(doc), PinLength(doc);
      [Prose(doc[..p]), Pin(doc[p..p + n])] + Chunks(doc[p + n..])
  }

  predicate PinsAt(doc: string, version: string) {
    forall i :: 0 <= i < |Chunks(doc)| && Chunks(doc)[i].Pin? ==> Chunks(doc)[i].version == version
  }

  function WithPins(chunks: seq<Chunk>, version: string): seq<Chunk> {
    seq(|chunks|, i requires 0 <= i < |chunks| => if chunks[i].Pin? then Pin(version) else chunks[i])
  }

  /** Every pin of a document repinned. */
  function Repinned(doc: string, target: string): (r: string)
    ensures doc != "" ==> r != "" && r[0] == doc[0]
    ensures doc == "" ==> r == ""
    decreases |doc|
  {
    if doc == "" then ""
    else if PinLength(doc) == 0 then [doc[0]] + Repinned(doc[1..], target)
    else
      var p, n := PinOpening(doc), PinLength(doc);
      doc[..p] + target + Repinned(doc[p + n..], target)
  }

  // An opening is told by its own characters, and holds no hyphens but its first two.
  lemma {:induction false} SameOpening(s: string, t: string)
    requires 0 < PinOpening(s) <= |t| && forall i :: 0 <= i < PinOpening(s) ==> t[i] == s[i]
    ensures PinOpening(t) == PinOpening(s)
    ensures forall i :: 2 <= i < PinOpening(s) ==> s[i] != '-'
  {
    var n := PinOpening(s);
    var blanks := n - 6;
    assert REF <= t;
    assert forall i :: 0 <= i < blanks ==> s[5..][..blanks][i] == s[5 + i] == t[5..][i];
    assert t[5..] == s[5..][..blanks] + t[n - 1..];
    BlanksThenInk(s[5..][..blanks], t[n - 1..]);
  }

  lemma {:induction false} BlanksThenInk(blanks: string, rest: string)
    requires PyBlank(blanks) && (rest == "" || !IsPySpace(rest[0]))
    ensures LeadingSpaces(blanks + rest) == |blanks|
  {
    var s := blanks + rest;
    var n := LeadingSpaces(s);
    assert forall i :: 0 <= i < n ==> s[..n][i] == s[i];
    assert forall i :: 0 <= i < |blanks| ==> s[i] == blanks[i];
    assert rest != "" ==> s[|blanks|] == rest[0];
  }

  /** How far a document stays as it is: up to the version of its first pin. */
  function Unchanged(doc: string): (n: nat)
    ensures n <= |doc|
    decreases |doc|
  {
    if doc == "" then 0
    else if PinLength(doc) == 0 then 1 + Unchanged(doc[1..])
    else PinOpening(doc)
  }

  lemma {:induction false} ProseStep(doc: string, target: string)
    requires doc != "" && PinLength(doc) == 0
    ensures Repinned(doc, target) == [doc[0]] + Repinned(doc[1..], target)
    ensures Unchanged(doc) == 1 + Unchanged(doc[1..])
    ensures Chunks(doc) == [Prose([doc[0]])] + Chunks(doc[1..])
  {
    hide PinLength;
  }

  lemma {:induction false} NoText(target: string)
    ensures Repinned("", target) == "" && Unchanged("") == 0 && Chunks("") == []
  {
  }

  lemma {:induction false} PinStep(doc: string)
    requires doc != "" && PinLength(doc) > 0
    ensures var p, end := PinOpening(doc), PinOpening(doc) + PinLength(doc);
            Unchanged(doc) == p && Chunks(doc) == [Prose(doc[..p]), Pin(doc[p..end])] + Chunks(doc[end..])
  {
    hide PinLength, PinOpening;
  }

  // Up to its first pin a document is unchanged; there it ends, or that pin opens with two hyphens.
  lemma {:induction false} UnchangedText(doc: string, target: string) returns (i: nat)
    ensures Unchanged(doc) <= |Repinned(doc, target)|
    ensures forall j :: 0 <= j < Unchanged(doc) ==> Repinned(doc, target)[j] == doc[j]
    ensures if Unchanged(doc) == |doc| then Repinned(doc, target) == doc
            else i + 6 < Unchanged(doc) && doc[i] == '-' && doc[i + 1] == '-' && (PinLength(doc) == 0 ==> i > 0)
    decreases |doc|
  {
    hide Repinned, Unchanged, PinLength, PinOpening;
    i := 0;
    if doc == "" {
      NoText(target);
    } else if PinLength(doc) == 0 {
      ProseStep(doc, target);
      var rest, after := doc[1..], Repinned(doc[1..], target);
      var k := UnchangedText(rest, target);
      i := k + 1;
      assert doc == [doc[0]] + rest;
    } else {
      PinStep(doc);
      OpeningIsKept(doc, target);
      OpensWithHyphens(doc);
    }
  }

  lemma {:induction false} OpensWithHyphens(doc: string)
    requires PinLength(doc) > 0
    ensures 6 < PinOpening(doc) < |doc| && doc[0] == '-' && doc[1] == '-'
  {
    hide VersionLength, LeadingSpaces;
    assert doc[0] == REF[0] && doc[1] == REF[1];
  }

  lemma {:induction false} PinIsReplaced(doc: string, target: string)
    requires doc != "" && PinLength(doc) > 0
    ensures var p, n := PinOpening(doc), PinLength(doc);
            Repinned(doc, target) == doc[..p] + target + Repinned(doc[p + n..], target)
  {
    hide PinOpening, PinLength;
  }

  lemma {:induction false} OpeningIsKept(doc: string, target: string)
    requires doc != "" && PinLength(doc) > 0
    ensures PinOpening(doc) + |target| <= |Repinned(doc, target)|
    ensures forall j :: 0 <= j < PinOpening(doc) ==> Repinned(doc, target)[j] == doc[j]
    ensures Repinned(doc, target)[PinOpening(doc)..] == target + Repinned(doc[PinOpening(doc) + PinLength(doc)..], target)
  {
    hide PinOpening, PinLength, Repinned;
    var p, rest := PinOpening(doc), Repinned(doc[PinOpening(doc) + PinLength(doc)..], target);
    PinIsReplaced(doc, target);
    Joined(doc[..p], target, rest);
  }

  lemma {:induction false} Joined(a: string, b: string, c: string)
    ensures forall j :: 0 <= j < |a| ==> (a + b + c)[j] == a[j]
    ensures (a + b + c)[|a|..] == b + c && |a + b + c| == |a| + |b| + |c|
  {
  }

  // Where no pin stood none appears: one would hold the hyphens of a later one, or have been one before.
  lemma {:induction false} NoNewPin(doc: string, target: string)
    requires doc != "" && PinLength(doc) == 0
    ensures PinLength(Repinned(doc, target)) == 0
  {
    hide Repinned, Unchanged, VersionLength, LeadingSpaces;
    var after, n := Repinned(doc, target), Unchanged(doc);
    var i := UnchangedText(doc, target);
    if PinLength(after) > 0 {
      var p, v := PinOpening(after), PinLength(after);
      PinHasFewHyphens(after);
      assert p + v <= n by {
        if n < |doc| {
          assert after[i] == '-' && after[i + 1] == '-';
        }
      }
      PinStaysPin(after, doc);
    }
  }

  // A pin holds no hyphen but its first two.
  lemma {:induction false} PinHasFewHyphens(s: string)
    requires PinLength(s) > 0
    ensures forall i :: 2 <= i < PinOpening(s) + PinLength(s) ==> s[i] != '-'
  {
    hide PinOpening, VersionLength, IsDecimal;
    var p, v := PinOpening(s), PinLength(s);
    SameOpening(s, s);
    VersionChars(s[p..]);
    forall i | p <= i < p + v
      ensures s[i] != '-'
    {
      assert s[i] == s[p..][i - p];
      DecimalIsPlain(s[i]);
    }
  }

  // A text that opens as a pin does is one, perhaps of a longer version.
  lemma {:induction false} PinStaysPin(s: string, t: string)
    requires var n := PinOpening(s) + PinLength(s);
             PinLength(s) > 0 && n <= |t| && forall i :: 0 <= i < n ==> t[i] == s[i]
    ensures PinOpening(t) == PinOpening(s) && PinLength(t) >= PinLength(s)
    ensures (PinOpening(s) + PinLength(s) < |t| ==> !IsDecimal(t[PinOpening(s) + PinLength(s)])) ==> PinLength(t) == PinLength(s)
  {
    hide PinOpening, VersionLength, IsDecimal;
    var p, v := PinOpening(s), PinLength(s);
    SameOpening(s, t);
    assert forall i :: 0 <= i < v ==> t[p..][i] == t[p + i] == s[p + i] == s[p..][i];
    SameVersion(s[p..], t[p..]);
  }

  lemma {:induction false} PinIsRepinned(doc: string, target: string)
    requires doc != "" && PinLength(doc) > 0 && IsSemver(target)
    ensures PinOpening(Repinned(doc, target)) == PinOpening(doc) && PinLength(Repinned(doc, target)) == |target| > 0
  {
    hide Repinned, VersionLength, PinOpening;
    var p, end, after := PinOpening(doc), PinOpening(doc) + PinLength(doc), Repinned(doc, target);
    var rest := Repinned(doc[end..], target);
    OpeningIsKept(doc, target);
    SameOpening(doc, after);
    NoDigitFollows(doc, target);
    SameVersion(target, target + rest);
  }

  lemma {:induction false} NoDigitFollows(doc: string, target: string)
    requires doc != "" && PinLength(doc) > 0
    ensures var rest := Repinned(doc[PinOpening(doc) + PinLength(doc)..], target);
            rest != "" ==> !IsDecimal(rest[0])
  {
    var p, n := PinOpening(doc), PinLength(doc);
    VersionChars(doc[p..]);
    hide PinOpening, VersionLength, Repinned;
    assert doc[p + n..] != "" ==> doc[p + n..][0] == doc[p..][n];
  }

  /** A repinned document taken apart is the document taken apart with every version replaced: prose stays,
      no pin is lost and none appears. */
  lemma {:induction false} RepinnedChunks(doc: string, target: string)
    requires IsSemver(target)
    ensures Chunks(Repinned(doc, target)) == WithPins(Chunks(doc), target)
    decreases |doc|
  {
    hide IsSemver, PinLength, PinOpening, Repinned, Chunks;
    NoText(target);
    if doc != "" {
      var after := Repinned(doc, target);
      if PinLength(doc) == 0 {
        ProseStep(doc, target);
        NoNewPin(doc, target);
        ProseStep(after, target);
        RepinnedChunks(doc[1..], target);
        assert after[1..] == Repinned(doc[1..], target);
        assert WithPins([Prose([doc[0]])] + Chunks(doc[1..]), target) == [Prose([doc[0]])] + WithPins(Chunks(doc[1..]), target);
      } else {
        PinIsRepinned(doc, target);
        OpeningIsKept(doc, target);
        PinStep(doc);
        PinStep(after);
        var p, end := PinOpening(doc), PinOpening(doc) + PinLength(doc);
        RepinnedChunks(doc[end..], target);
        var rest := Repinned(doc[end..], target);
        assert after[p..] == target + rest && after[p..][|target|..] == rest;
        assert after[..p] == doc[..p] && after[p..p + |target|] == target && after[p + |target|..] == rest;
        assert WithPins([Prose(doc[..p]), Pin(doc[p..end])] + Chunks(doc[end..]), target)
            == [Prose(doc[..p]), Pin(target)] + WithPins(Chunks(doc[end..]), target);
      }
    }
  }

  lemma {:induction false} PinnedIsKept(doc: string, target: string)
    requires PinsAt(doc, target)
    ensures Repinned(doc, target) == doc
    decreases |doc|
  {
    hide PinLength, PinOpening, Repinned, Chunks;
    NoText(target);
    if doc != "" {
      var chunks := Chunks(doc);
      if PinLength(doc) == 0 {
        ProseStep(doc, target);
        var rest := Chunks(doc[1..]);
        assert forall i :: 0 <= i < |rest| ==> rest[i] == chunks[i + 1];
        PinnedIsKept(doc[1..], target);
        assert doc == [doc[0]] + doc[1..];
      } else {
        PinStep(doc);
        OpeningIsKept(doc, target);
        var p, end := PinOpening(doc), PinOpening(doc) + PinLength(doc);
        var rest := Chunks(doc[end..]);
        assert forall i :: 0 <= i < |rest| ==> rest[i] == chunks[i + 2];
        assert chunks[1] == Pin(doc[p..end]);
        PinnedIsKept(doc[end..], target);
        WholeText(doc, Repinned(doc, target), p, end);
      }
    }
  }

  lemma {:induction false} WholeText(doc: string, after: string, p: nat, end: nat)
    requires p <= end <= |doc| && p <= |after|
    requires (forall j :: 0 <= j < p ==> after[j] == doc[j]) && after[p..] == doc[p..end] + doc[end..]
    ensures after == doc
  {
    assert after == after[..p] + after[p..] && doc == doc[..p] + doc[p..end] + doc[end..];
    assert after[..p] == doc[..p];
  }

  /** Every pin ends up at the target; a document is unchanged exactly if its pins were there already. */
  lemma {:induction false} RepinnedIsPinned(doc: string, target: string)
    requires IsSemver(target)
    ensures PinsAt(Repinned(doc, target), target) && Repinned(Repinned(doc, target), target) == Repinned(doc, target)
    ensures Repinned(doc, target) == doc <==> PinsAt(doc, target)
  {
    RepinnedChunks(doc, target);
    hide Chunks, IsSemver;
    PinnedIsKept(Repinned(doc, target), target);
    if PinsAt(doc, target) {
      PinnedIsKept(doc, target);
    }
  }

  function RepinnedAll(docs: seq<string>, target: string): (r: seq<string>)
    ensures |r| == |docs| && forall i :: 0 <= i < |docs| ==> r[i] == Repinned(docs[i], target)
  {
    seq(|docs|, i requires 0 <= i < |docs| => Repinned(docs[i], target))
  }

  // ---------------------------------------------------------------------------
  // Cargo.lock: package blocks, each held as its lines after the [[package]] line
  // ---------------------------------------------------------------------------

  const LOCAL_PACKAGES := ["board-cli", "board-core", "board-daemon", "board-herdr", "board-tui"]
  const PACKAGE_LINE := "[[package]]"

  type Block = seq<string>

  /** `ended` says whether a newline follows the last line. */
  datatype Lock = Lock(preamble: seq<string>, blocks: seq<Block>, ended: bool)

  function LastLine(lines: seq<string>): string {
    if lines == [] then "" else lines[|lines| - 1]
  }

  function EndOf(blocks: seq<Block>): string
    requires blocks != []
  {
    LastLine([PACKAGE_LINE] + blocks[|blocks| - 1])
  }

  /** The one way to hold a text: without a final newline there is something on the last line. */
  predicate IsText(lock: Lock) {
    lock.ended || (if lock.blocks == [] then LastLine(lock.preamble) else EndOf(lock.blocks)) != ""
  }

  /** The value of a `key = "value"` line. */
  function LineValue(line: string, key: string): Option<string> {
    var opening := key + " = \"";
    if !(opening <= line) then None
    else
      var field :- AfterQuote(opening, line[|opening|..]);
      Some(field.value)
  }

  function FieldAt(block: Block, key: string): (i: nat)
    ensures i <= |block|
    ensures i < |block| ==> LineValue(block[i], key).Some?
    ensures forall j :: 0 <= j < i ==> LineValue(block[j], key).None?
    decreases |block|
  {
    if block == [] || LineValue(block[0], key).Some? then 0 else 1 + FieldAt(block[1..], key)
  }

  function Field(block: Block, key: string): Option<string> {
    var i := FieldAt(block, key);
    if i < |block| then LineValue(block[i], key) else None
  }

  predicate IsLocal(block: Block) {
    Field(block, "name").Some? && Field(block, "name").value in LOCAL_PACKAGES
  }

  function DropBlank(lines: seq<string>): seq<string> {
    if lines != [] && PyBlank(lines[0]) then DropBlank(lines[1..]) else lines
  }

  /** A local block with its version replaced: the blanks the pattern takes in after the version go too. */
  function BlockWithVersion(block: Block, target: string): Block
    requires FieldAt(block, "version") < |block|
  {
    var v := FieldAt(block, "version");
    block[..v] + [VersionText(target)] + DropBlank(block[v + 1..])
  }

  /** Nothing but blanks follow the version, so the newline that ends the block is taken in as well: the
      block runs into the next one, or the file loses its final newline. */
  predicate Swallows(block: Block) {
    IsLocal(block) && var v := FieldAt(block, "version"); v < |block| && DropBlank(block[v + 1..]) == []
  }

  function NewBlock(block: Block, target: string): Block
    requires IsLocal(block) ==> FieldAt(block, "version") < |block|
  {
    if IsLocal(block) then BlockWithVersion(block, target) else block
  }

  /** The blocks of the rewritten text: a block that lost its last newline runs into the next one. */
  function NewBlocks(blocks: seq<Block>, target: string): Outcome<seq<Block>> {
    if blocks == [] then Ok([])
    else if IsLocal(blocks[0]) && FieldAt(blocks[0], "version") == |blocks[0]| then Error(NoLockVersion)
    else
      var rest :- NewBlocks(blocks[1..], target);
      var first := NewBlock(blocks[0], target);
      if Swallows(blocks[0]) && rest != [] then
        Ok([first[..|first| - 1] + [first[|first| - 1] + PACKAGE_LINE] + rest[0]] + rest[1..])
      else Ok([first] + rest)
  }

  predicate LastSwallows(blocks: seq<Block>) {
    blocks != [] && Swallows(blocks[|blocks| - 1])
  }

  function WithLockVersions(lock: Lock, target: string): Outcome<Lock> {
    var blocks :- NewBlocks(lock.blocks, target);
    Ok(lock.(blocks := blocks, ended := lock.ended && !LastSwallows(lock.blocks)))
  }

  /** The versions of the local packages, a later block replacing an earlier one. */
  function LocalVersions(blocks: seq<Block>): map<string, string> {
    if blocks == [] then map[]
    else
      var last := blocks[|blocks| - 1];
      var before := LocalVersions(blocks[..|blocks| - 1]);
      if IsLocal(last) && Field(last, "version").Some?
      then before[Field(last, "name").value := Field(last, "version").value]
      else before
  }

  function ParseLockVersions(lock: Lock): Outcome<map<string, string>> {
    var versions := LocalVersions(lock.blocks);
    if forall i :: 0 <= i < |LOCAL_PACKAGES| ==> LOCAL_PACKAGES[i] in versions then Ok(versions)
    else Error(MissingPackages)
  }

  lemma {:induction false} BlocksAreKept(blocks: seq<Block>, target: string)
    requires NewBlocks(blocks, target).Ok?
    ensures |NewBlocks(blocks, target).value| <= |blocks|
    ensures |NewBlocks(blocks, target).value| == |blocks|
       <==> forall i :: 0 <= i < |blocks| - 1 ==> !Swallows(blocks[i])
  {
    hide Swallows, IsLocal;
    if blocks != [] {
      BlocksAreKept(blocks[1..], target);
      assert forall i :: 0 <= i < |blocks| - 1 ==> blocks[1..][i] == blocks[i + 1];
      if blocks[1..] != [] {
        assert NewBlocks(blocks[1..], target).value != [];
      }
      assert forall i :: 1 <= i < |blocks| - 1 ==> blocks[i] == blocks[1..][i - 1];
    }
  }

  // What comes before the blocks leaves their end, alone or run into the first of them.
  lemma {:induction false} EndOfRest(first: Block, rest: seq<Block>)
    requires rest != []
    ensures EndOf([first] + rest) == EndOf(rest)
    ensures first != [] && EndOf(rest) != "" ==>
              EndOf([first[..|first| - 1] + [first[|first| - 1] + PACKAGE_LINE] + rest[0]] + rest[1..]) != ""
  {
    if first != [] {
      var joined := first[..|first| - 1] + [first[|first| - 1] + PACKAGE_LINE] + rest[0];
      if |rest| > 1 {
        assert ([joined] + rest[1..])[|rest| - 1] == rest[|rest| - 1];
      } else if rest[0] == [] {
        assert joined[|joined| - 1] == first[|first| - 1] + PACKAGE_LINE;
      } else {
        assert joined[|joined| - 1] == rest[0][|rest[0]| - 1];
      }
    }
  }

  lemma {:induction false} NewBlocksStep(blocks: seq<Block>, target: string)
    requires blocks != [] && NewBlocks(blocks, target).Ok?
    ensures NewBlocks(blocks[1..], target).Ok? && (IsLocal(blocks[0]) ==> FieldAt(blocks[0], "version") < |blocks[0]|)
    ensures var rest, first := NewBlocks(blocks[1..], target).value, NewBlock(blocks[0], target);
            (Swallows(blocks[0]) ==> first != [])
            && NewBlocks(blocks, target).value
               == if Swallows(blocks[0]) && rest != [] then
                    [first[..|first| - 1] + [first[|first| - 1] + PACKAGE_LINE] + rest[0]] + rest[1..]
                  else [first] + rest
  {
    hide LineValue, PyBlank, DropBlank;
  }

  // A text that does not end in a newline still does not.
  lemma {:induction false} EndIsKept(blocks: seq<Block>, target: string)
    requires NewBlocks(blocks, target).Ok? && blocks != []
    ensures var after := NewBlocks(blocks, target).value;
            after != [] && (LastSwallows(blocks) || EndOf(blocks) != "" ==> EndOf(after) != "")
  {
    hide IsLocal, FieldAt, Swallows, NewBlock, NewBlocks;
    var rest := blocks[1..];
    NewBlocksStep(blocks, target);
    if rest != [] {
      EndIsKept(rest, target);
      EndOfRest(NewBlock(blocks[0], target), NewBlocks(rest, target).value);
      assert rest[|rest| - 1] == blocks[|blocks| - 1];
    } else {
      NoNewBlocks(target);
      NewEnd(blocks[0], target);
    }
  }

  lemma {:induction false} NoNewBlocks(target: string)
    ensures NewBlocks([], target) == Ok([])
  {
  }

  lemma {:induction false} NewEnd(block: Block, target: string)
    requires IsLocal(block) ==> FieldAt(block, "version") < |block|
    ensures Swallows(block) || EndOf([block]) != "" ==> EndOf([NewBlock(block, target)]) != ""
  {
    hide IsLocal, LineValue, PyBlank;
    if IsLocal(block) {
      DropBlankEnd(block[FieldAt(block, "version") + 1..]);
    }
  }

  lemma {:induction false} DropBlankEnd(lines: seq<string>)
    ensures DropBlank(lines) != [] ==> lines != [] && LastLine(DropBlank(lines)) == LastLine(lines)
  {
    if lines != [] && PyBlank(lines[0]) {
      DropBlankEnd(lines[1..]);
    }
  }

  /** The lock keeps its blocks and its end exactly when no local block ends at its version, as that of a
      package without dependencies does; a last block may, if the file has no final newline to lose. */
  lemma {:induction false} LockKeepsBlocks(lock: Lock, target: string)
    requires WithLockVersions(lock, target).Ok? && IsText(lock)
    ensures var lock' := WithLockVersions(lock, target).value;
            IsText(lock') && |lock'.blocks| <= |lock.blocks|
            && (|lock'.blocks| == |lock.blocks| && lock'.ended == lock.ended
                <==> forall i :: 0 <= i < |lock.blocks| && Swallows(lock.blocks[i]) ==>
                       i == |lock.blocks| - 1 && !lock.ended)
  {
    hide Swallows, NewBlocks, EndOf;
    BlocksAreKept(lock.blocks, target);
    if lock.blocks != [] {
      EndIsKept(lock.blocks, target);
    }
  }

  /** A local block the rewriter leaves as it is: its version line is bare, and followed by a line that is not blank
      or by the end of a file without a final newline. */
  predicate IsTidyBlock(block: Block, target: string, atEnd: bool) {
    var v := FieldAt(block, "version");
    v < |block| && block[v] == VersionText(target) && if v + 1 < |block| then !PyBlank(block[v + 1]) else atEnd
  }

  predicate IsTidy(lock: Lock, target: string) {
    forall i :: 0 <= i < |lock.blocks| && IsLocal(lock.blocks[i]) ==>
      IsTidyBlock(lock.blocks[i], target, i == |lock.blocks| - 1 && !lock.ended)
  }

  lemma {:induction false} NewBlockIsSame(block: Block, target: string)
    requires IsLocal(block) ==> FieldAt(block, "version") < |block|
    ensures NewBlock(block, target) == block <==> IsLocal(block) ==> IsTidyBlock(block, target, true)
    ensures NewBlock(block, target) == block ==>
              (Swallows(block) <==> IsLocal(block) && !IsTidyBlock(block, target, false))
  {
    hide LineValue, IsLocal, VersionText, PyBlank;
    if IsLocal(block) {
      var v := FieldAt(block, "version");
      var rest, after := block[v + 1..], BlockWithVersion(block, target);
      DropBlankIsSame(rest);
      assert after[..v] == block[..v] && after[v] == VersionText(target) && after[v + 1..] == DropBlank(rest);
      assert block == block[..v] + [block[v]] + rest;
    }
  }

  lemma {:induction false} DropBlankIsSame(lines: seq<string>)
    ensures |DropBlank(lines)| <= |lines|
    ensures DropBlank(lines) == lines <==> lines == [] || !PyBlank(lines[0])
  {
    hide PyBlank;
    if lines != [] && PyBlank(lines[0]) {
      DropBlankIsSame(lines[1..]);
    }
  }

  lemma {:induction false} NewBlocksAreSame(blocks: seq<Block>, target: string)
    ensures NewBlocks(blocks, target) == Ok(blocks)
       <==> forall i :: 0 <= i < |blocks| && IsLocal(blocks[i]) ==> IsTidyBlock(blocks[i], target, i == |blocks| - 1)
  {
    hide IsLocal, IsTidyBlock, Swallows, NewBlock, FieldAt;
    if blocks != [] {
      var rest, first := blocks[1..], blocks[0];
      NewBlocksAreSame(rest, target);
      TidyAnywhere(first, target);
      FirstAndRest(blocks, target);
      if NewBlocks(blocks, target).Ok? {
        BlocksAreKept(blocks, target);
        NewBlockIsSame(first, target);
        assert rest != [] ==> blocks[0] == first && |NewBlocks(rest, target).value| <= |rest| by {
          BlocksAreKept(rest, target);
        }
        assert blocks == [first] + rest;
      }
    }
  }

  lemma {:induction false} TidyAnywhere(block: Block, target: string)
    ensures IsTidyBlock(block, target, false) ==> IsTidyBlock(block, target, true)
    ensures IsTidyBlock(block, target, true) ==> FieldAt(block, "version") < |block|
  {
  }

  lemma {:induction false} FirstAndRest(blocks: seq<Block>, target: string)
    requires blocks != []
    ensures (forall i :: 0 <= i < |blocks| && IsLocal(blocks[i]) ==> IsTidyBlock(blocks[i], target, i == |blocks| - 1))
       <==> (IsLocal(blocks[0]) ==> IsTidyBlock(blocks[0], target, |blocks| == 1))
            && forall i :: 0 <= i < |blocks[1..]| && IsLocal(blocks[1..][i]) ==>
                 IsTidyBlock(blocks[1..][i], target, i == |blocks[1..]| - 1)
  {
    hide IsLocal, IsTidyBlock;
    var rest := blocks[1..];
    assert forall i :: 1 <= i < |blocks| ==> blocks[i] == rest[i - 1];
  }

  // A tidy lock has every local package at the target.
  lemma {:induction false} TidyIsAtTarget(lock: Lock, target: string)
    requires IsTidy(lock, target) && target != "" && '"' !in target
    ensures VersionsAt(LocalVersions(lock.blocks), target)
  {
    TidyVersions(lock.blocks, target);
  }

  lemma {:induction false} TidyVersions(blocks: seq<Block>, target: string)
    requires target != "" && '"' !in target
    requires forall i :: 0 <= i < |blocks| && IsLocal(blocks[i]) ==> IsTidyBlock(blocks[i], target, true)
    ensures VersionsAt(LocalVersions(blocks), target)
  {
    hide IsLocal, IsTidyBlock, Field;
    if blocks != [] {
      var n := |blocks| - 1;
      TidyVersions(blocks[..n], target);
      if IsLocal(blocks[n]) {
        TidyVersion(blocks[n], target);
        NamedIfLocal(blocks[n]);
      }
    }
  }

  lemma {:induction false} TidyVersion(block: Block, target: string)
    requires IsTidyBlock(block, target, true) && target != "" && '"' !in target
    ensures Field(block, "version") == Some(target)
  {
    hide LineValue, VersionText;
    LineValueOfVersion(target, "");
    assert VersionText(target) + "" == VersionText(target);
  }

  /** The locks that rewriting leaves as they are, told by their lines. */
  lemma {:induction false} TidyIsKept(lock: Lock, target: string)
    ensures WithLockVersions(lock, target) == Ok(lock) <==> IsTidy(lock, target)
  {
    NewBlocksAreSame(lock.blocks, target);
    hide IsLocal, IsTidyBlock, NewBlocks, Swallows, NewBlock;
    if lock.blocks != [] {
      var last := lock.blocks[|lock.blocks| - 1];
      TidyAnywhere(last, target);
      if IsLocal(last) && IsTidyBlock(last, target, true) {
        TidySwallows(last, target);
      } else if !IsLocal(last) {
        OtherSwallowsNothing(last);
      }
    }
  }

  lemma {:induction false} TidySwallows(block: Block, target: string)
    requires IsLocal(block) && IsTidyBlock(block, target, true)
    ensures Swallows(block) <==> !IsTidyBlock(block, target, false)
  {
    hide LineValue, IsLocal, VersionText, PyBlank;
    DropBlankIsSame(block[FieldAt(block, "version") + 1..]);
  }

  lemma {:induction false} OtherSwallowsNothing(block: Block)
    requires !IsLocal(block)
    ensures !Swallows(block)
  {
  }

  /** As cargo writes it: version lines bare and followed by more of their block, and each local package
      there once. */
  predicate IsCanonical(lock: Lock) {
    (forall i :: 0 <= i < |lock.blocks| && IsLocal(lock.blocks[i]) ==>
       IsCanonicalBlock(lock.blocks[i]))
    && (forall i, j :: 0 <= i < j < |lock.blocks| && IsLocal(lock.blocks[i]) && IsLocal(lock.blocks[j]) ==>
          Field(lock.blocks[i], "name") != Field(lock.blocks[j], "name"))
  }

  predicate IsCanonicalBlock(block: Block) {
    var v := FieldAt(block, "version");
    v + 1 < |block| && block[v] == VersionText(Field(block, "version").value) && !PyBlank(block[v + 1])
  }

  // What rewriting a canonical block comes to: one line replaced.
  function Bumped(block: Block, target: string): Block {
    var v := FieldAt(block, "version");
    if IsLocal(block) && v < |block| then block[v := VersionText(target)] else block
  }

  lemma {:induction false} LineValueOf(key: string, value: string, end: string)
    requires value != "" && '"' !in value && PyBlank(end)
    ensures LineValue(key + " = \"" + value + "\"" + end, key) == Some(value)
  {
    var opening := key + " = \"";
    var line := opening + value + "\"" + end;
    assert opening <= line && line[|opening|..] == value + ['"'] + end;
    SplitOnceAt(value, '"', end);
  }

  lemma {:induction false} LineValueOfVersion(version: string, end: string)
    requires version != "" && '"' !in version && PyBlank(end)
    ensures LineValue(VersionText(version) + end, "version") == Some(version)
    ensures LineValue(VersionText(version) + end, "name") == None
  {
    var line := VersionText(version) + end;
    assert line == "version" + " = \"" + version + "\"" + end;
    LineValueOf("version", version, end);
    assert ("name" + " = \"")[0] == 'n' && line[0] == 'v';
  }

  lemma {:induction false} FieldAtChange(block: Block, key: string, i: nat, line: string)
    requires i < |block|
    requires i == FieldAt(block, key) ==> LineValue(line, key).Some?
    requires i != FieldAt(block, key) ==> (LineValue(line, key).Some? <==> LineValue(block[i], key).Some?)
    ensures FieldAt(block[i := line], key) == FieldAt(block, key)
  {
    hide LineValue;
    var b, j := block[i := line], FieldAt(block, key);
    assert forall m :: 0 <= m < |b| ==> b[m] == if m == i then line else block[m];
    FieldFound(b, key, j);
  }

  lemma {:induction false} FieldFound(block: Block, key: string, j: nat)
    requires j <= |block| && (j < |block| ==> LineValue(block[j], key).Some?)
    requires forall m :: 0 <= m < j ==> LineValue(block[m], key).None?
    ensures FieldAt(block, key) == j
  {
    hide LineValue;
    if j > 0 {
      assert LineValue(block[0], key).None?;
      FieldFound(block[1..], key, j - 1);
    }
  }

  // Two keys never share a line.
  lemma {:induction false} NameIsNoVersion(line: string)
    requires LineValue(line, "version").Some?
    ensures LineValue(line, "name").None?
  {
    assert ("version" + " = \"")[0] == 'v' && ("name" + " = \"")[0] == 'n';
  }

  lemma {:induction false} BumpedBlock(block: Block, target: string)
    requires target != "" && '"' !in target && (IsLocal(block) ==> IsCanonicalBlock(block))
    ensures var b := Bumped(block, target);
            IsLocal(b) == IsLocal(block) && Field(b, "name") == Field(block, "name")
            && (IsLocal(b) ==> IsCanonicalBlock(b) && Field(b, "version") == Some(target))
            && Bumped(b, target) == b
            && (IsLocal(block) && Field(block, "version") == Some(target) ==> b == block)
  {
    hide LineValue, VersionText, PyBlank;
    var v := FieldAt(block, "version");
    if IsLocal(block) {
      LineValueOfVersion(target, "");
      assert VersionText(target) + "" == VersionText(target);
      NameIsNoVersion(block[v]);
      FieldAtChange(block, "version", v, VersionText(target));
      FieldAtChange(block, "name", v, VersionText(target));
    }
  }

  function BumpedAll(blocks: seq<Block>, target: string): (r: seq<Block>)
    ensures |r| == |blocks| && forall i :: 0 <= i < |blocks| ==> r[i] == Bumped(blocks[i], target)
  {
    seq(|blocks|, i requires 0 <= i < |blocks| => Bumped(blocks[i], target))
  }

  lemma {:induction false} ReplacedBeforeInk(block: Block, v: nat, line: string)
    requires v + 1 < |block| && !PyBlank(block[v + 1])
    ensures DropBlank(block[v + 1..]) != [] && block[..v] + [line] + DropBlank(block[v + 1..]) == block[v := line]
  {
    hide PyBlank;
    var rest := block[v + 1..];
    assert rest[0] == block[v + 1];
    assert DropBlank(rest) == rest;
  }

  lemma {:induction false} NewBlockIsBumped(block: Block, target: string)
    requires IsLocal(block) ==> IsCanonicalBlock(block)
    ensures IsLocal(block) ==> FieldAt(block, "version") < |block|
    ensures NewBlock(block, target) == Bumped(block, target)
    ensures !Swallows(block)
  {
    hide IsLocal, FieldAt, Field, DropBlank, VersionText, PyBlank;
    if IsLocal(block) {
      ReplacedBeforeInk(block, FieldAt(block, "version"), VersionText(target));
    }
  }

  predicate CanonicalFrom(blocks: seq<Block>) {
    forall i :: 0 <= i < |blocks| && IsLocal(blocks[i]) ==> IsCanonicalBlock(blocks[i])
  }

  lemma {:induction false} NewBlocksAreBumped(blocks: seq<Block>, target: string)
    requires CanonicalFrom(blocks)
    ensures NewBlocks(blocks, target) == Ok(BumpedAll(blocks, target))
  {
    hide IsLocal, IsCanonicalBlock, Swallows;
    if blocks != [] {
      var rest := blocks[1..];
      forall i | 0 <= i < |rest| && IsLocal(rest[i])
        ensures IsCanonicalBlock(rest[i])
      {
        assert rest[i] == blocks[i + 1];
      }
      NewBlocksAreBumped(rest, target);
      NewBlockIsBumped(blocks[0], target);
      assert BumpedAll(blocks, target) == [Bumped(blocks[0], target)] + BumpedAll(rest, target);
    }
  }

  // A local package listed once has the version of its block.
  lemma {:induction false} LocalVersionOf(blocks: seq<Block>, i: nat)
    requires i < |blocks| && IsLocal(blocks[i]) && Field(blocks[i], "version").Some?
    requires forall j :: i < j < |blocks| && IsLocal(blocks[j]) ==> Field(blocks[j], "name") != Field(blocks[i], "name")
    ensures var name := Field(blocks[i], "name").value;
            name in LocalVersions(blocks) && LocalVersions(blocks)[name] == Field(blocks[i], "version").value
  {
    hide Field, IsLocal;
    var n := |blocks| - 1;
    if i < n {
      assert blocks[..n][i] == blocks[i];
      assert forall j :: i < j < n ==> blocks[..n][j] == blocks[j];
      NamedIfLocal(blocks[i]);
      NamedIfLocal(blocks[n]);
      LocalVersionOf(blocks[..n], i);
    }
  }

  lemma {:induction false} NamedIfLocal(block: Block)
    ensures IsLocal(block) ==> Field(block, "name").Some?
  {
  }

  predicate VersionsAt(versions: map<string, string>, target: string) {
    forall name :: name in versions ==> versions[name] == target
  }

  lemma {:induction false} CanonicalSwallowsNothing(blocks: seq<Block>)
    requires CanonicalFrom(blocks)
    ensures !LastSwallows(blocks)
  {
    hide IsLocal, IsCanonicalBlock, Swallows;
    if blocks != [] {
      NewBlockIsBumped(blocks[|blocks| - 1], "");
    }
  }

  lemma {:induction false} BumpedIsSettled(lock: Lock, i: nat, target: string)
    requires i < |lock.blocks| && IsCanonical(lock) && target != "" && '"' !in target
    ensures var block, block' := lock.blocks[i], Bumped(lock.blocks[i], target);
            IsLocal(block') == IsLocal(block) && Field(block', "name") == Field(block, "name")
            && (IsLocal(block') ==> IsCanonicalBlock(block')) && Bumped(block', target) == block'
            && (VersionsAt(LocalVersions(lock.blocks), target) ==> block' == block)
  {
    hide LineValue, LocalVersions, VersionText, PyBlank;
    BumpedBlock(lock.blocks[i], target);
    if IsLocal(lock.blocks[i]) && VersionsAt(LocalVersions(lock.blocks), target) {
      LocalVersionOf(lock.blocks, i);
    }
  }

  /** A canonical lock stays canonical, rewrites to itself, and changes only if some version did. */
  lemma {:induction false} LockIsSettled(lock: Lock, target: string)
    requires IsCanonical(lock) && target != "" && '"' !in target
    ensures WithLockVersions(lock, target).Ok?
    ensures var lock' := WithLockVersions(lock, target).value;
            IsCanonical(lock') && WithLockVersions(lock', target) == Ok(lock')
            && (VersionsAt(LocalVersions(lock.blocks), target) ==> lock' == lock)
  {
    hide IsLocal, IsCanonicalBlock, Field, Bumped, LocalVersions, NewBlocks, VersionsAt, LastSwallows;
    var blocks := lock.blocks;
    var blocks' := BumpedAll(blocks, target);
    NewBlocksAreBumped(blocks, target);
    forall i | 0 <= i < |blocks|
      ensures IsLocal(blocks'[i]) == IsLocal(blocks[i]) && Field(blocks'[i], "name") == Field(blocks[i], "name")
      ensures IsLocal(blocks'[i]) ==> IsCanonicalBlock(blocks'[i])
      ensures Bumped(blocks'[i], target) == blocks'[i]
      ensures VersionsAt(LocalVersions(blocks), target) ==> blocks'[i] == blocks[i]
    {
      BumpedIsSettled(lock, i, target);
    }
    NewBlocksAreBumped(blocks', target);
    CanonicalSwallowsNothing(blocks);
    CanonicalSwallowsNothing(blocks');
    assert BumpedAll(blocks', target) == blocks';
    assert VersionsAt(LocalVersions(blocks), target) ==> blocks' == blocks;
  }

  // Rewritten, every local package has the target and none is lost.
  lemma {:induction false} BumpedVersions(blocks: seq<Block>, target: string)
    requires target != "" && '"' !in target && CanonicalFrom(blocks)
    ensures VersionsAt(LocalVersions(BumpedAll(blocks, target)), target)
    ensures LocalVersions(BumpedAll(blocks, target)).Keys == LocalVersions(blocks).Keys
  {
    hide Field, IsCanonicalBlock, Bumped, IsLocal;
    if blocks != [] {
      var n := |blocks| - 1;
      BumpedVersions(blocks[..n], target);
      assert BumpedAll(blocks, target)[..n] == BumpedAll(blocks[..n], target);
      if IsLocal(blocks[n]) {
        BumpedBlock(blocks[n], target);
        BlockHasVersion(blocks[n]);
      } else {
        OtherBlockIsKept(blocks[n], target);
      }
    }
  }

  lemma {:induction false} OtherBlockIsKept(block: Block, target: string)
    requires !IsLocal(block)
    ensures Bumped(block, target) == block
  {
  }

  lemma {:induction false} BlockHasVersion(block: Block)
    requires IsCanonicalBlock(block)
    ensures Field(block, "version").Some?
  {
    hide LineValue, VersionText, PyBlank;
  }

  lemma {:induction false} RewrittenLockVersions(lock: Lock, target: string)
    requires IsCanonical(lock) && ParseLockVersions(lock).Ok? && target != "" && '"' !in target
    ensures WithLockVersions(lock, target).Ok?
    ensures var versions := ParseLockVersions(WithLockVersions(lock, target).value);
            versions.Ok? && VersionsAt(versions.value, target)
  {
    CanonicalBlocks(lock);
    NewBlocksAreBumped(lock.blocks, target);
    BumpedVersions(lock.blocks, target);
    hide LocalVersions, NewBlocks, IsCanonical, VersionsAt, BumpedAll;
  }

  lemma {:induction false} CanonicalBlocks(lock: Lock)
    requires IsCanonical(lock)
    ensures CanonicalFrom(lock.blocks)
  {
    hide IsLocal, IsCanonicalBlock, Field;
  }

  // ---------------------------------------------------------------------------
  // The crates of the workspace
  // ---------------------------------------------------------------------------

  /** Block `i` is the last of the package with a version in it. */
  predicate IsLastVersioned(blocks: seq<Block>, i: nat, name: string) {
    i < |blocks| && Field(blocks[i], "name") == Some(name) && Field(blocks[i], "version").Some?
    && forall j :: i < j < |blocks| && Field(blocks[j], "name") == Some(name) ==> Field(blocks[j], "version").None?
  }

  // The version read for a package is that of its last block with one; no other package is read.
  lemma {:induction false} LastVersionIsRead(blocks: seq<Block>, name: string)
    ensures name in LocalVersions(blocks) ==>
              name in ["board-cli", "board-core", "board-daemon", "board-herdr", "board-tui"]
              && exists i: nat :: IsLastVersioned(blocks, i, name)
    ensures forall i: nat ::
              (IsLastVersioned(blocks, i, name) && name in ["board-cli", "board-core", "board-daemon", "board-herdr", "board-tui"]) ==>
              name in LocalVersions(blocks) && Some(LocalVersions(blocks)[name]) == Field(blocks[i], "version")
  {
    hide Field;
    if blocks != [] {
      var n := |blocks| - 1;
      LastVersionIsRead(blocks[..n], name);
      var here := Field(blocks[n], "name") == Some(name) && Field(blocks[n], "version").Some?;
      assert here ==> IsLastVersioned(blocks, n, name);
      forall i: nat
        ensures !here && IsLastVersioned(blocks[..n], i, name) ==> IsLastVersioned(blocks, i, name)
        ensures IsLastVersioned(blocks, i, name) ==> if here then i == n else IsLastVersioned(blocks[..n], i, name)
      {
      }
    }
  }

  /** A lock is read exactly if each of the five crates has a block with a version in it; what is read is the version of
      the last such block of each. */
  lemma {:induction false} LockIsRead(lock: Lock)
    ensures ParseLockVersions(lock).Ok?
       <==> forall name :: name in ["board-cli", "board-core", "board-daemon", "board-herdr", "board-tui"] ==>
              exists i: nat :: IsLastVersioned(lock.blocks, i, name)
    ensures ParseLockVersions(lock).Ok? ==>
              forall name, i: nat ::
                (name in ["board-cli", "board-core", "board-daemon", "board-herdr", "board-tui"] && IsLastVersioned(lock.blocks, i, name)) ==>
                name in ParseLockVersions(lock).value && Some(ParseLockVersions(lock).value[name]) == Field(lock.blocks[i], "version")
  {
    hide Field, LocalVersions;
    forall name | name in ["board-cli", "board-core", "board-daemon", "board-herdr", "board-tui"]
      ensures name in LocalVersions(lock.blocks) <==> exists i: nat :: IsLastVersioned(lock.blocks, i, name)
      ensures forall i: nat :: IsLastVersioned(lock.blocks, i, name) ==>
                name in LocalVersions(lock.blocks) && Some(LocalVersions(lock.blocks)[name]) == Field(lock.blocks[i], "version")
    {
      LastVersionIsRead(lock.blocks, name);
    }
    FiveCrates(lock);
  }

  lemma {:induction false} FiveCrates(lock: Lock)
    ensures ParseLockVersions(lock).Ok?
       <==> forall name :: name in ["board-cli", "board-core", "board-daemon", "board-herdr", "board-tui"] ==> name in LocalVersions(lock.blocks)
    ensures ParseLockVersions(lock).Ok? ==> ParseLockVersions(lock).value == LocalVersions(lock.blocks)
  {
    hide LocalVersions;
    assert LOCAL_PACKAGES[0] == "board-cli" && LOCAL_PACKAGES[1] == "board-core" && LOCAL_PACKAGES[2] == "board-daemon"
           && LOCAL_PACKAGES[3] == "board-herdr" && LOCAL_PACKAGES[4] == "board-tui";
    assert forall i :: 0 <= i < |LOCAL_PACKAGES| ==>
      LOCAL_PACKAGES[i] in ["board-cli", "board-core", "board-daemon", "board-herdr", "board-tui"];
  }

  /** Where no local block ends at its version, rewriting puts every block of one of the five crates at the target, and
      leaves every other block as it is. */
  lemma {:induction false} CratesAreRewritten(lock: Lock, target: string, i: nat)
    requires WithLockVersions(lock, target).Ok? && target != "" && '"' !in target
    requires forall j :: 0 <= j < |lock.blocks| - 1 ==> !Swallows(lock.blocks[j])
    requires i < |lock.blocks|
    ensures var blocks := WithLockVersions(lock, target).value.blocks;
            |blocks| == |lock.blocks|
            && if Field(lock.blocks[i], "name") in [Some("board-cli"), Some("board-core"), Some("board-daemon"), Some("board-herdr"), Some("board-tui")]
               then Field(blocks[i], "name") == Field(lock.blocks[i], "name") && Field(blocks[i], "version") == Some(target)
               else blocks[i] == lock.blocks[i]
  {
    hide Field, Swallows, FieldAt, BlockWithVersion;
    NewBlocksApart(lock.blocks, target, i);
    if IsLocal(lock.blocks[i]) {
      VersionIsReplaced(lock.blocks[i], target);
    }
  }

  lemma {:induction false} NewBlocksApart(blocks: seq<Block>, target: string, i: nat)
    requires NewBlocks(blocks, target).Ok? && i < |blocks| && forall j :: 0 <= j < |blocks| - 1 ==> !Swallows(blocks[j])
    ensures |NewBlocks(blocks, target).value| == |blocks|
    ensures IsLocal(blocks[i]) ==> FieldAt(blocks[i], "version") < |blocks[i]|
    ensures NewBlocks(blocks, target).value[i] == NewBlock(blocks[i], target)
  {
    hide NewBlocks, Swallows, IsLocal, FieldAt, NewBlock;
    NewBlocksStep(blocks, target);
    if |blocks| > 1 {
      assert forall j :: 0 <= j < |blocks[1..]| - 1 ==> blocks[1..][j] == blocks[j + 1];
      NewBlocksApart(blocks[1..], target, if i > 0 then i - 1 else 0);
    } else {
      assert blocks[1..] == [];
      NoNewBlocks(target);
    }
  }

  predicate IsCrate(block: Block) {
    Field(block, "name")
    in [Some("board-cli"), Some("board-core"), Some("board-daemon"), Some("board-herdr"), Some("board-tui")]
  }

  predicate AreCratesAt(blocks: seq<Block>, target: string) {
    forall i :: 0 <= i < |blocks| && IsCrate(blocks[i]) ==> Field(blocks[i], "version") == Some(target)
  }

  /** Block `i` of a crate ends at its version, and what follows is no crate's and not at the target. */
  predicate RunsOn(blocks: seq<Block>, i: int, target: string)
    requires 0 <= i < |blocks| - 1
  {
    Swallows(blocks[i]) && !IsCrate(blocks[i + 1]) && Field(blocks[i + 1], "version") != Some(target)
  }

  lemma {:induction false} CrateIsLocal(block: Block)
    ensures IsCrate(block) <==> IsLocal(block)
  {
    hide Field;
  }

  // The run-on line is no field of a block.
  lemma {:induction false} RunOnLine(target: string)
    requires target != "" && '"' !in target
    ensures LineValue(VersionText(target) + PACKAGE_LINE, "version") == None && LineValue(VersionText(target) + PACKAGE_LINE, "name") == None
  {
    var line := VersionText(target) + PACKAGE_LINE;
    var rest := target + ['"'] + PACKAGE_LINE;
    assert line == "version = \"" + rest;
    assert line[..11] == "version = \"" && line[11..] == rest && "version" + " = \"" == "version = \"";
    SplitOnceAt(target, '"', PACKAGE_LINE);
    assert !IsPySpace(PACKAGE_LINE[0]);
    assert ("name" + " = \"")[0] == 'n' && line[0] == 'v';
  }

  // A block that ends at its version is its lines before that, and nothing that counts after.
  lemma {:induction false} EndsAtVersion(block: Block, target: string)
    requires Swallows(block)
    ensures var head := block[..FieldAt(block, "version")];
            NewBlock(block, target) == head + [VersionText(target)]
            && Field(head, "name") == Field(block, "name") && Field(head, "version") == None
  {
    hide LineValue, VersionText, PyBlank, DropBlank, Field;
    var v := FieldAt(block, "version");
    var head, rest := block[..v], block[v + 1..];
    assert head + [VersionText(target)] + [] == head + [VersionText(target)];
    NameIsNoVersion(block[v]);
    DropBlankKeepsField(rest, "name");
    NoField("name");
    FieldCons(block[v], rest, "name");
    FieldAppend(head, [block[v]] + rest, "name");
    NoFieldBefore(block, "version");
    assert block == head + ([block[v]] + rest);
  }

  // Run on into the next, it keeps its name and takes over the version.
  lemma {:induction false} RunOnBlock(block: Block, next: Block, target: string)
    requires Swallows(block) && target != "" && '"' !in target
    ensures var first := NewBlock(block, target);
            first != [] && var merged := first[..|first| - 1] + [first[|first| - 1] + PACKAGE_LINE] + next;
            Field(merged, "name") == Field(block, "name") && Field(merged, "version") == Field(next, "version")
  {
    assert Field(block, "name").Some?;
    EndsAtVersion(block, target);
    RunOnLine(target);
    hide Swallows, IsLocal, FieldAt, NewBlock, VersionText, Field, LineValue;
    var head, line := block[..FieldAt(block, "version")], VersionText(target) + PACKAGE_LINE;
    var first := NewBlock(block, target);
    assert first[..|first| - 1] == head && first[|first| - 1] == VersionText(target);
    assert head + [line] + next == head + ([line] + next);
    FieldAppend(head, [line] + next, "name");
    FieldAppend(head, [line] + next, "version");
    FieldCons(line, next, "name");
    FieldCons(line, next, "version");
  }

  lemma {:induction false} NoField(key: string)
    ensures Field([], key) == None
  {
  }

  // What the first of the new blocks is.
  lemma {:induction false} FirstOfNew(blocks: seq<Block>, target: string)
    requires blocks != [] && NewBlocks(blocks, target).Ok? && target != "" && '"' !in target
    ensures var now := NewBlocks(blocks, target).value;
            now != [] && Field(now[0], "name") == Field(blocks[0], "name") && (!IsLocal(blocks[0]) ==> now[0] == blocks[0])
  {
    hide NewBlocks, Swallows, IsLocal, FieldAt, NewBlock, Field;
    NewBlocksStep(blocks, target);
    if Swallows(blocks[0]) && NewBlocks(blocks[1..], target).value != [] {
      RunOnBlock(blocks[0], NewBlocks(blocks[1..], target).value[0], target);
      SwallowsLocal(blocks[0]);
    } else {
      NewBlockNamed(blocks[0], target);
    }
  }

  lemma {:induction false} SwallowsLocal(block: Block)
    ensures Swallows(block) ==> IsLocal(block)
  {
  }

  lemma {:induction false} NewBlockNamed(block: Block, target: string)
    requires (IsLocal(block) ==> FieldAt(block, "version") < |block|) && target != "" && '"' !in target
    ensures Field(NewBlock(block, target), "name") == Field(block, "name")
    ensures if IsLocal(block) then Field(NewBlock(block, target), "version") == Some(target) else NewBlock(block, target) == block
  {
    hide Field, FieldAt, BlockWithVersion;
    if IsLocal(block) {
      VersionIsReplaced(block, target);
    }
  }

  /** Every block of one of the five crates is at the target exactly if no crate's block that ends at its version is
      followed by another package's that is not at the target: it would keep its name and take over that version. */
  lemma {:induction false} CratesSettleExactly(blocks: seq<Block>, target: string)
    requires NewBlocks(blocks, target).Ok? && target != "" && '"' !in target
    ensures AreCratesAt(NewBlocks(blocks, target).value, target)
       <==> forall i :: 0 <= i < |blocks| - 1 ==> !RunsOn(blocks, i, target)
  {
    hide NewBlocks, Swallows, IsLocal, IsCrate, FieldAt, NewBlock, Field;
    if blocks == [] {
      NoNewBlocks(target);
    } else {
      var later := blocks[1..];
      NewBlocksStep(blocks, target);
      CratesSettleExactly(later, target);
      CrateIsLocal(blocks[0]);
      var now, rest := NewBlocks(blocks, target).value, NewBlocks(later, target).value;
      RunsOnLater(blocks, target);
      if later == [] {
        NoNewBlocks(target);
      } else {
        FirstOfNew(later, target);
        CrateIsLocal(later[0]);
        SameCrate(rest[0], later[0]);
      }
      if Swallows(blocks[0]) && rest != [] {
        RunOnBlock(blocks[0], rest[0], target);
        SwallowsLocal(blocks[0]);
        SameCrate(now[0], blocks[0]);
        FirstAt(now[0], rest[1..], target);
        FirstAt(rest[0], rest[1..], target);
        assert now == [now[0]] + rest[1..] && rest == [rest[0]] + rest[1..];
      } else {
        NewBlockNamed(blocks[0], target);
        SameCrate(now[0], blocks[0]);
        FirstAt(now[0], rest, target);
        assert now == [now[0]] + rest;
      }
    }
  }

  lemma {:induction false} RunsOnLater(blocks: seq<Block>, target: string)
    requires blocks != []
    ensures (forall i :: 0 <= i < |blocks| - 1 ==> !RunsOn(blocks, i, target))
       <==> (|blocks| > 1 ==> !RunsOn(blocks, 0, target)) && forall i :: 0 <= i < |blocks[1..]| - 1 ==> !RunsOn(blocks[1..], i, target)
  {
    hide Swallows, IsCrate, Field;
    var later := blocks[1..];
    if forall i :: 0 <= i < |later| - 1 ==> !RunsOn(later, i, target) {
      forall i | 0 < i < |blocks| - 1
        ensures !RunsOn(blocks, i, target)
      {
        assert !RunsOn(later, i - 1, target);
      }
    }
    forall i | 0 <= i < |later| - 1 && !RunsOn(blocks, i + 1, target)
      ensures !RunsOn(later, i, target)
    {
    }
  }

  lemma {:induction false} SameCrate(a: Block, b: Block)
    requires Field(a, "name") == Field(b, "name")
    ensures IsCrate(a) <==> IsCrate(b)
  {
    hide Field;
  }

  lemma {:induction false} FirstAt(first: Block, rest: seq<Block>, target: string)
    ensures AreCratesAt([first] + rest, target)
       <==> (IsCrate(first) ==> Field(first, "version") == Some(target)) && AreCratesAt(rest, target)
  {
    hide IsCrate, Field;
    assert forall i :: 0 <= i < |rest| ==> ([first] + rest)[i + 1] == rest[i];
    assert ([first] + rest)[0] == first;
  }

  lemma {:induction false} FieldAppend(a: Block, b: Block, key: string)
    ensures Field(a + b, key) == if Field(a, key).Some? then Field(a, key) else Field(b, key)
  {
    hide LineValue;
    if a == [] {
      assert a + b == b;
    } else {
      FieldAppend(a[1..], b, key);
      FieldCons(a[0], a[1..], key);
      FieldCons(a[0], a[1..] + b, key);
      assert a == [a[0]] + a[1..] && a + b == [a[0]] + (a[1..] + b);
    }
  }

  lemma {:induction false} FieldCons(line: string, rest: Block, key: string)
    ensures Field([line] + rest, key) == if LineValue(line, key).Some? then LineValue(line, key) else Field(rest, key)
  {
    hide LineValue;
    var block := [line] + rest;
    assert block[1..] == rest && block[0] == line;
  }

  lemma {:induction false} DropBlankKeepsField(lines: Block, key: string)
    ensures Field(DropBlank(lines), key) == Field(lines, key)
  {
    hide LineValue, PyBlank, Field;
    if lines != [] && PyBlank(lines[0]) {
      DropBlankKeepsField(lines[1..], key);
      FieldCons(lines[0], lines[1..], key);
      assert lines == [lines[0]] + lines[1..];
      BlankHasNoValue(lines[0], key);
    }
  }

  lemma {:induction false} BlankHasNoValue(line: string, key: string)
    requires PyBlank(line)
    ensures LineValue(line, key).None?
  {
    var opening := key + " = \"";
    assert opening[|opening| - 1] == '"';
  }

  lemma {:induction false} VersionIsReplaced(block: Block, target: string)
    requires FieldAt(block, "version") < |block| && target != "" && '"' !in target && Field(block, "name").Some?
    ensures var b := BlockWithVersion(block, target);
            Field(b, "name") == Field(block, "name") && Field(b, "version") == Some(target)
  {
    hide LineValue, VersionText, PyBlank, DropBlank, Field;
    var v, b := FieldAt(block, "version"), BlockWithVersion(block, target);
    var head, line, rest := block[..v], VersionText(target), block[v + 1..];
    LineValueOfVersion(target, "");
    assert line + "" == line;
    NameIsNoVersion(block[v]);
    NameIsNoVersion(line);
    DropBlankKeepsField(rest, "name");
    FieldCons(line, DropBlank(rest), "name");
    FieldCons(line, DropBlank(rest), "version");
    FieldCons(block[v], rest, "name");
    FieldAppend(head, [block[v]] + rest, "name");
    FieldAppend(head, [line] + DropBlank(rest), "name");
    FieldAppend(head, [line] + DropBlank(rest), "version");
    NoFieldBefore(block, "version");
    assert block == head + ([block[v]] + rest) && b == head + ([line] + DropBlank(rest));
  }

  lemma {:induction false} NoFieldBefore(block: Block, key: string)
    ensures Field(block[..FieldAt(block, key)], key) == None
  {
    hide LineValue;
    FieldFound(block[..FieldAt(block, key)], key, FieldAt(block, key));
  }

  // ---------------------------------------------------------------------------
  // The patterns, spelled out
  // ---------------------------------------------------------------------------

  /** The zeros of all scripts, and the nine characters after each, are decimals. */
  lemma {:induction false} DecimalsByZero(zero: int, c: char)
    requires zero <= c as int < zero + 10
    requires zero in {0x30, 0x660, 0x6F0, 0x7C0, 0x966, 0x9E6, 0xA66, 0xAE6, 0xB66, 0xBE6, 0xC66, 0xCE6, 0xD66, 0xDE6,
                      0xE50, 0xED0, 0xF20, 0x1040, 0x1090, 0x17E0, 0x1810, 0x1946, 0x19D0, 0x1A80, 0x1A90, 0x1B50,
                      0x1BB0, 0x1C40, 0x1C50, 0xA620, 0xA8D0, 0xA900, 0xA9D0, 0xA9F0, 0xAA50, 0xABF0, 0xFF10, 0x104A0,
                      0x10D30, 0x11066, 0x110F0, 0x11136, 0x111D0, 0x112F0, 0x11450, 0x114D0, 0x11650, 0x116C0,
                      0x11730, 0x118E0, 0x11950, 0x11C50, 0x11D50, 0x11DA0, 0x16A60, 0x16AC0, 0x16B50, 0x1E140,
                      0x1E2F0, 0x1E950, 0x1FBF0, 0x1D7CE, 0x1D7D8, 0x1D7E2, 0x1D7EC, 0x1D7F6}
    ensures IsDecimal(c)
  {
  }

  /** Among the characters of ASCII the decimals are the ten digits. */
  lemma {:induction false} AsciiDecimals(c: char)
    ensures c as int < 0x80 ==> (IsDecimal(c) <==> c in "0123456789")
  {
    assert c in "0123456789" <==> '0' <= c <= '9' by {
      var digits := "0123456789";
      assert '0' <= c <= '9' ==> digits[c as int - 0x30] == c;
    }
  }

  predicate AreDecimals(s: string) {
    s != "" && forall i :: 0 <= i < |s| ==> IsDecimal(s[i])
  }

  predicate IsTriple(s: string, a: string, b: string, c: string) {
    s == a + "." + b + "." + c && AreDecimals(a) && AreDecimals(b) && AreDecimals(c)
  }

  lemma {:induction false} DecimalsStop(a: string, rest: string)
    requires AreDecimals(a) && (rest == "" || !IsDecimal(rest[0]))
    ensures LeadingDecimals(a + rest) == |a|
  {
    hide IsDecimal;
    var n := LeadingDecimals(a + rest);
    assert forall i :: 0 <= i < |a| ==> (a + rest)[i] == a[i];
    assert rest != "" ==> (a + rest)[|a|] == rest[0];
  }

  /** A version is three numbers with dots between them. */
  lemma {:induction false} SemverIsSpelled(s: string)
    ensures IsSemver(s) <==> exists a, b, c :: IsTriple(s, a, b, c)
  {
    hide IsDecimal, LeadingDecimals;
    if IsSemver(s) {
      var m := NumberAndDot(s).value;
      var t := s[m..];
      var n := NumberAndDot(t).value;
      assert s == s[..m - 1] + "." + t && t == t[..n - 1] + "." + t[n..];
      assert IsTriple(s, s[..m - 1], t[..n - 1], t[n..]);
    }
    forall a, b, c | IsTriple(s, a, b, c)
      ensures IsSemver(s)
    {
      TripleIsSemver(s, a, b, c);
    }
  }

  lemma {:induction false} TripleIsSemver(s: string, a: string, b: string, c: string)
    requires IsTriple(s, a, b, c)
    ensures IsSemver(s)
  {
    hide LeadingDecimals;
    var t := b + "." + c;
    assert s == a + ("." + t) && t == b + ("." + c) && c + "" == c;
    DecimalsStop(a, "." + t);
    DecimalsStop(b, "." + c);
    DecimalsStop(c, "");
    hide IsDecimal;
    assert s[|a| + 1..] == t && t[|b| + 1..] == c;
  }

  /** How far a version goes: all its digits, and no more of them follow. */
  lemma {:induction false} VersionEnds(s: string, n: nat)
    requires 0 < n <= |s|
    ensures VersionLength(s) == n <==> IsSemver(s[..n]) && (n < |s| ==> !IsDecimal(s[n]))
  {
    hide VersionLength, IsDecimal;
    if VersionLength(s) == n {
      VersionChars(s);
      SameVersion(s, s[..n]);
    }
    if IsSemver(s[..n]) && (n < |s| ==> !IsDecimal(s[n])) {
      SameVersion(s[..n], s);
    }
  }

  ghost predicate IsPinAt(s: string, gap: string, version: string, rest: string) {
    s == "--ref" + gap + "v" + version + rest && gap != "" && PyBlank(gap) && IsSemver(version)
    && (rest == "" || !IsDecimal(rest[0]))
  }

  /** A text starts with a pin exactly if it is `--ref`, blanks, `v` and a version, with no digit after it. */
  lemma {:induction false} PinIsSpelled(s: string, p: nat, n: nat)
    requires n > 0
    ensures PinOpening(s) == p && PinLength(s) == n
       <==> exists gap, version, rest :: IsPinAt(s, gap, version, rest) && p == 6 + |gap| && n == |version|
  {
    hide IsDecimal, IsPySpace, IsSemver, VersionLength, LeadingSpaces;
    if PinOpening(s) == p && PinLength(s) == n {
      VersionEnds(s[p..], n);
      var gap, version, rest := s[5..p - 1], s[p..p + n], s[p + n..];
      assert s[p..][..n] == version && (n < |s[p..]| ==> s[p..][n] == rest[0]);
      assert s == "--ref" + gap + "v" + version + rest;
      assert gap == s[5..][..LeadingSpaces(s[5..])];
      assert IsPinAt(s, gap, version, rest);
    }
    forall gap, version, rest | IsPinAt(s, gap, version, rest) && p == 6 + |gap| && n == |version|
      ensures PinOpening(s) == p && PinLength(s) == n
    {
      PinAtIsPin(s, gap, version, rest);
    }
  }

  lemma {:induction false} PinAtIsPin(s: string, gap: string, version: string, rest: string)
    requires IsPinAt(s, gap, version, rest)
    ensures PinOpening(s) == 6 + |gap| && PinLength(s) == |version|
  {
    hide IsDecimal, VersionLength, LeadingSpaces;
    var after := "v" + version + rest;
    assert s[..5] == "--ref" && s[5..] == gap + after;
    assert !IsPySpace(after[0]);
    hide IsPySpace;
    GapStops(gap, after);
    var p := 6 + |gap|;
    assert s[p..] == version + rest;
    assert version != "";
    VersionEnds(version + rest, |version|);
    assert (version + rest)[..|version|] == version;
  }

  ghost predicate IsVersionLine(line: string, a: string, b: string, value: string, tail: string) {
    line == "version" + a + "=" + b + "\"" + value + "\"" + tail && PyBlank(a) && PyBlank(b) && PyBlank(tail)
    && value != "" && '"' !in value
  }

  // What stands between the word and the value.
  ghost predicate IsOpening(before: string, a: string, b: string) {
    before == "version" + a + "=" + b + "\"" && PyBlank(a) && PyBlank(b)
  }

  lemma {:induction false} SkipsBlank(s: string, begin: nat, blank: string, c: char, rest: string)
    requires begin <= |s| && s[begin..] == blank + ([c] + rest) && PyBlank(blank) && !IsPySpace(c)
    ensures SkipTo(s, begin, c) == Some(begin + |blank|) && begin + |blank| < |s| && s[begin + |blank| + 1..] == rest
  {
    hide IsPySpace, LeadingSpaces;
    GapStops(blank, [c] + rest);
    var i := begin + |blank|;
    assert s[begin..][|blank|] == s[i];
    assert s[i + 1..] == s[begin..][|blank| + 1..];
  }

  lemma {:induction false} OpeningParts(line: string, before: string, a: string, b: string, rest: string)
    requires IsOpening(before, a, b) && line == before + rest
    ensures |before| == 9 + |a| + |b| && PyBlank(a) && PyBlank(b) && "version" <= line
    ensures |line| >= |before| && line[7..] == a + (['='] + (b + (['"'] + rest)))
  {
    hide PyBlank;
    assert line == "version" + (a + (['='] + (b + (['"'] + rest))));
  }

  lemma {:induction false} QuoteAfterSign(line: string, sign: nat, b: string, rest: string)
    requires "version" <= line && SkipTo(line, 7, '=') == Some(sign) && sign < |line|
    requires line[sign + 1..] == b + (['"'] + rest) && PyBlank(b)
    ensures QuoteAt(line) == Some(sign + 1 + |b|)
  {
    assert !IsPySpace('"');
    hide IsPySpace, SkipTo, PyBlank;
    SkipsBlank(line, sign + 1, b, '"', rest);
  }

  lemma {:induction false} QuoteIsSpelled(line: string, before: string, a: string, b: string, rest: string)
    requires IsOpening(before, a, b) && line == before + rest
    ensures QuoteAt(line) == Some(|before| - 1)
  {
    assert !IsPySpace('=');
    hide IsPySpace, SkipTo, PyBlank, IsOpening, QuoteAt;
    OpeningParts(line, before, a, b, rest);
    SkipsBlank(line, 7, a, '=', b + (['"'] + rest));
    QuoteAfterSign(line, 7 + |a|, b, rest);
  }

  lemma {:induction false} QuoteHasOpening(line: string) returns (a: string, b: string)
    requires QuoteAt(line).Some?
    ensures IsOpening(line[..QuoteAt(line).value + 1], a, b)
  {
    hide LeadingSpaces, IsPySpace;
    var sign, quote := SkipTo(line, 7, '=').value, QuoteAt(line).value;
    a, b := line[7..sign], line[sign + 1..quote];
    assert a == line[7..][..LeadingSpaces(line[7..])] && b == line[sign + 1..][..LeadingSpaces(line[sign + 1..])];
    assert line[..quote + 1] == "version" + a + "=" + b + "\"";
  }

  /** A version field: the word, an equals sign among blanks, and a quoted text that is not empty, up to blanks at the end. */
  lemma {:induction false} FieldIsSpelled(line: string, f: Quoted)
    ensures VersionField(line) == Some(f)
       <==> exists a, b :: IsVersionLine(line, a, b, f.value, f.after) && f.before == "version" + a + "=" + b + "\""
  {
    hide QuoteAt, SkipTo, IsPySpace, SplitOnce;
    if VersionField(line) == Some(f) {
      var quote := QuoteAt(line).value;
      var a, b := QuoteHasOpening(line);
      FieldParts(line);
      SplitOnceShrinks(line[quote + 1..], '"');
      assert line == f.before + f.value + "\"" + f.after;
      assert IsVersionLine(line, a, b, f.value, f.after);
    }
    hide VersionField;
    forall a, b | IsVersionLine(line, a, b, f.value, f.after) && f.before == "version" + a + "=" + b + "\""
      ensures VersionField(line) == Some(f)
    {
      VersionLineHasField(line, a, b, f.value, f.after);
    }
  }

  lemma {:induction false} VersionLineHasField(line: string, a: string, b: string, value: string, tail: string)
    requires IsVersionLine(line, a, b, value, tail)
    ensures VersionField(line) == Some(Quoted("version" + a + "=" + b + "\"", value, tail))
  {
    hide QuoteAt, SplitOnce, IsPySpace;
    var before, rest := "version" + a + "=" + b + "\"", value + ['"'] + tail;
    assert line == before + rest;
    QuoteIsSpelled(line, before, a, b, rest);
    Slices(before, rest);
    SplitOnceAt(value, '"', tail);
  }

  predicate IsKeyLine(line: string, key: string, value: string, tail: string) {
    line == key + " = \"" + value + "\"" + tail && value != "" && '"' !in value && PyBlank(tail)
  }

  /** A field of a lock block: key, equals sign and quoted text, up to blanks at the end. */
  lemma {:induction false} LineIsSpelled(line: string, key: string, value: string)
    ensures LineValue(line, key) == Some(value) <==> exists tail :: IsKeyLine(line, key, value, tail)
  {
    hide SplitOnce, PyBlank;
    var opening := key + " = \"";
    if LineValue(line, key) == Some(value) {
      var rest := line[|opening|..];
      SplitOnceShrinks(rest, '"');
      assert line == opening + rest;
      assert IsKeyLine(line, key, value, SplitOnce(rest, '"').value.1);
    }
    forall tail | IsKeyLine(line, key, value, tail)
      ensures LineValue(line, key) == Some(value)
    {
      assert line[..|opening|] == opening && line[|opening|..] == value + ['"'] + tail;
      SplitOnceAt(value, '"', tail);
    }
  }

  predicate IsStripped(line: string, before: string, s: string, after: string) {
    line == before + s + after && PyBlank(before) && PyBlank(after)
    && (s != "" ==> !IsPySpace(s[0]) && !IsPySpace(s[|s| - 1]))
  }

  lemma {:induction false} StripRightIsSpelled(line: string)
    ensures StripRight(line) <= line && PyBlank(line[|StripRight(line)|..])
    ensures StripRight(line) != "" ==> !IsPySpace(StripRight(line)[|StripRight(line)| - 1])
  {
    hide IsPySpace;
    if line != "" && IsPySpace(line[|line| - 1]) {
      var rest := line[..|line| - 1];
      StripRightIsSpelled(rest);
      assert line[|StripRight(rest)|..] == rest[|StripRight(rest)|..] + [line[|line| - 1]];
    }
  }

  lemma {:induction false} StripRightBlank(s: string, after: string)
    requires PyBlank(after) && (s != "" ==> !IsPySpace(s[|s| - 1]))
    ensures StripRight(s + after) == s
  {
    hide IsPySpace;
    if after == "" {
      assert s + after == s;
    } else {
      StripRightBlank(s, after[..|after| - 1]);
      assert (s + after)[..|s + after| - 1] == s + after[..|after| - 1];
    }
  }

  /** Stripping leaves what is between the blanks at the two ends. */
  lemma {:induction false} StripIsSpelled(line: string, s: string)
    ensures Strip(line) == s <==> exists before, after :: IsStripped(line, before, s, after)
  {
    hide IsPySpace, StripRight, LeadingSpaces;
    if Strip(line) == s {
      var n := LeadingSpaces(line);
      StripRightIsSpelled(line[n..]);
      assert line == line[..n] + s + line[n..][|s|..];
      assert IsStripped(line, line[..n], s, line[n..][|s|..]);
    }
    forall before, after | IsStripped(line, before, s, after)
      ensures Strip(line) == s
    {
      StrippedIsLeft(line, before, s, after);
    }
  }

  lemma {:induction false} StrippedIsLeft(line: string, before: string, s: string, after: string)
    requires IsStripped(line, before, s, after)
    ensures Strip(line) == s
  {
    hide IsPySpace, StripRight, LeadingSpaces;
    assert line == before + (s + after);
    if s == "" {
      assert PyBlank(line);
      BlankIsLeading(line);
      StripRightBlank("", "");
      assert line[|line|..] == "" + "";
    } else {
      GapStops(before, s + after);
      StripRightBlank(s, after);
      assert line[|before|..] == s + after;
    }
  }

  lemma {:induction false} BlankIsLeading(line: string)
    requires PyBlank(line)
    ensures LeadingSpaces(line) == |line|
  {
    var n := LeadingSpaces(line);
  }

  /** Line `i` is the version line of the package table that line `t` opens. */
  ghost predicate IsWorkspaceVersion(lines: seq<string>, t: int, i: int, value: string) {
    0 <= t < i < |lines| && Strip(lines[t]) == "[workspace.package]"
    && (forall j :: t < j <= i ==> !("[" <= Strip(lines[j]) && EndsWith(Strip(lines[j]), "]")))
    && exists a, b, tail :: IsVersionLine(Strip(lines[i]), a, b, value, tail)
  }

  /** Line `t` is the last to open a table before line `i`, and opens the package table. */
  ghost predicate IsOpener(lines: seq<string>, t: int, i: nat)
    requires i <= |lines|
  {
    0 <= t < i && Strip(lines[t]) == PACKAGE_TABLE && forall j :: t < j < i ==> !IsTable(lines[j])
  }

  lemma {:induction false} OpenerIsTable(line: string)
    requires Strip(line) == PACKAGE_TABLE
    ensures IsTable(line)
  {
    hide Strip;
  }

  lemma {:induction false} PackageHasOpener(lines: seq<string>, i: nat) returns (t: int)
    requires i <= |lines| && InPackage(lines, i)
    ensures IsOpener(lines, t, i)
  {
    hide IsTable, Strip;
    t := i - 1;
    if !IsTable(lines[i - 1]) {
      t := PackageHasOpener(lines, i - 1);
    }
  }

  lemma {:induction false} OpenerOpens(lines: seq<string>, t: int, i: nat)
    requires i <= |lines| && IsOpener(lines, t, i)
    ensures InPackage(lines, i)
  {
    hide IsTable, Strip;
    if t == i - 1 {
      OpenerIsTable(lines[t]);
    } else {
      assert !IsTable(lines[i - 1]);
      OpenerOpens(lines, t, i - 1);
    }
  }

  lemma {:induction false} TableIsSpelled(line: string)
    ensures IsTable(line) <==> "[" <= Strip(line) && EndsWith(Strip(line), "]")
  {
    hide Strip;
  }

  lemma {:induction false} VersionAtIsSpelled(lines: seq<string>, i: nat)
    requires i < |lines|
    ensures IsVersionAt(lines, i) <==> exists t, value :: IsWorkspaceVersion(lines, t, i, value)
  {
    hide IsWorkspaceVersion, IsVersionAt;
    if IsVersionAt(lines, i) {
      var t, value := VersionAtHasOpener(lines, i);
    }
    forall t, value | IsWorkspaceVersion(lines, t, i, value)
      ensures IsVersionAt(lines, i)
    {
      WorkspaceVersionIsAt(lines, t, i, value);
    }
  }

  lemma {:induction false} VersionAtHasOpener(lines: seq<string>, i: nat) returns (t: int, value: string)
    requires i < |lines| && IsVersionAt(lines, i)
    ensures IsWorkspaceVersion(lines, t, i, value)
  {
    hide Strip, VersionField, IsVersionLine, InPackage, EndsWith;
    t := PackageHasOpener(lines, i);
    var f := VersionField(Strip(lines[i])).value;
    value := f.value;
    FieldIsSpelled(Strip(lines[i]), f);
    var a, b :| IsVersionLine(Strip(lines[i]), a, b, f.value, f.after);
    hide IsTable;
    forall j | t < j <= i
      ensures !("[" <= Strip(lines[j]) && EndsWith(Strip(lines[j]), "]"))
    {
      TableIsSpelled(lines[j]);
      assert !IsTable(lines[j]);
    }
  }

  lemma {:induction false} WorkspaceVersionIsAt(lines: seq<string>, t: int, i: nat, value: string)
    requires IsWorkspaceVersion(lines, t, i, value)
    ensures i < |lines| && IsVersionAt(lines, i) && VersionField(Strip(lines[i])).value.value == value
  {
    hide Strip, VersionField, IsVersionLine, InPackage, EndsWith, IsTable;
    var a, b, tail :| IsVersionLine(Strip(lines[i]), a, b, value, tail);
    VersionLineHasField(Strip(lines[i]), a, b, value, tail);
    forall j | t < j <= i
      ensures !IsTable(lines[j])
    {
      TableIsSpelled(lines[j]);
    }
    OpenerOpens(lines, t, i);
  }

  /** The manifest is read as its first version line in a package table, and rewritten exactly if there is one and no
      other: at the indentation there was, and plainly. */
  lemma {:induction false} CargoIsRewritten(lines: seq<string>, t: int, i: nat, value: string, target: string)
    requires IsWorkspaceVersion(lines, t, i, value)
    requires forall u, j, v :: IsWorkspaceVersion(lines, u, j, v) ==> i <= j
    ensures ParseWorkspaceVersion(lines) == Ok(value)
    ensures WithVersion(lines, target)
         == if forall u, j, v :: IsWorkspaceVersion(lines, u, j, v) ==> j == i
            then Ok(lines[i := lines[i][..LeadingSpaces(lines[i])] + ("version = \"" + target + "\"")])
            else Error(ManyWorkspaceVersions)
  {
    hide IsVersionAt, VersionField, Strip, IsWorkspaceVersion, LeadingSpaces;
    WorkspaceVersionIsAt(lines, t, i, value);
    forall j: nat | j < |lines|
      ensures IsVersionAt(lines, j) <==> exists u, v :: IsWorkspaceVersion(lines, u, j, v)
    {
      VersionAtIsSpelled(lines, j);
    }
    var second := VersionAt(lines, i + 1);
    assert VersionAt(lines, 0) == i;
    if second < |lines| {
      var u, v :| IsWorkspaceVersion(lines, u, second, v);
    }
    forall u, j, v | IsWorkspaceVersion(lines, u, j, v)
      ensures second == |lines| ==> j == i
    {
      WorkspaceVersionIsLine(lines, u, j, v);
      assert IsVersionAt(lines, j);
    }
  }

  lemma {:induction false} WorkspaceVersionIsLine(lines: seq<string>, t: int, i: int, value: string)
    requires IsWorkspaceVersion(lines, t, i, value)
    ensures 0 <= i < |lines|
  {
  }

  /** A manifest without one is refused by both. */
  lemma {:induction false} NoWorkspaceVersionIsRefused(lines: seq<string>, target: string)
    requires forall t, i, value :: !IsWorkspaceVersion(lines, t, i, value)
    ensures ParseWorkspaceVersion(lines) == Error(NoWorkspaceVersion) && WithVersion(lines, target) == Error(NoWorkspaceVersion)
  {
    hide IsVersionAt, IsWorkspaceVersion;
    var i := VersionAt(lines, 0);
    if i < |lines| {
      VersionAtIsSpelled(lines, i);
    }
  }

  /** The plugin manifest is read as its first version line, and rewritten there in place of the value alone. */
  lemma {:induction false} PluginIsRewritten(lines: seq<string>, i: nat, a: string, b: string, value: string, tail: string, target: string)
    requires i < |lines| && IsVersionLine(lines[i], a, b, value, tail)
    requires forall j, a, b, v, t :: 0 <= j < i ==> !IsVersionLine(lines[j], a, b, v, t)
    ensures ParsePluginVersion(lines) == Ok(value)
    ensures WithPluginVersion(lines, target) == Ok(lines[i := "version" + a + "=" + b + "\"" + (target + "\"" + tail)])
  {
    hide VersionField, IsVersionLine;
    VersionLineHasField(lines[i], a, b, value, tail);
    forall j | 0 <= j < i
      ensures !HasVersionField(lines[j])
    {
      if VersionField(lines[j]).Some? {
        FieldIsSpelled(lines[j], VersionField(lines[j]).value);
      }
    }
    FoundAt(lines, 0, HasVersionField, i);
  }

  /** Where a block's last line is the version rewritten, the mark of the next block runs on in that line. */
  lemma {:induction false} BlocksRunTogether(first: Block, rest: seq<Block>, name: string, target: string)
    requires Field(first, "name") == Some(name) && name in ["board-cli", "board-core", "board-daemon", "board-herdr", "board-tui"]
    requires FieldAt(first, "version") == |first| - 1 && rest != [] && NewBlocks(rest, target).Ok?
    ensures var now := NewBlocks(rest, target).value;
            NewBlocks([first] + rest, target)
            == Ok([first[..|first| - 1] + ["version = \"" + target + "\"" + "[[package]]"] + now[0]] + now[1..])
  {
    hide LineValue, Field;
    var block := first[..|first| - 1] + [VersionText(target)];
    assert first[|first|..] == [];
    assert block + [] == block && block[..|block| - 1] == first[..|first| - 1];
    assert ([first] + rest)[1..] == rest;
  }

  // ---------------------------------------------------------------------------
  // A block that is left behind
  // ---------------------------------------------------------------------------

  function NameLine(name: string): string {
    "name = \"" + name + "\""
  }

  // A block of two lines is read as they say.
  lemma {:induction false} TwoLines(name: string, version: string)
    requires name != "" && '"' !in name && version != "" && '"' !in version
    ensures var block := [NameLine(name), VersionText(version)];
            Field(block, "name") == Some(name) && Field(block, "version") == Some(version) && FieldAt(block, "version") == 1
  {
    hide LineValue;
    var block := [NameLine(name), VersionText(version)];
    assert IsKeyLine(NameLine(name), "name", name, "") && IsKeyLine(VersionText(version), "version", version, "");
    LineIsSpelled(NameLine(name), "name", name);
    LineIsSpelled(VersionText(version), "version", version);
    NameLineIsNoVersion(name);
    assert block[1..] == [VersionText(version)] && block[1..][1..] == [];
    assert FieldAt([VersionText(version)], "version") == 0;
  }

  lemma {:induction false} NameLineIsNoVersion(name: string)
    ensures LineValue(NameLine(name), "version") == None && LineValue(VersionText(name), "name") == None
  {
    assert NameLine(name)[0] == 'n' && ("version" + " = \"")[0] == 'v' && VersionText(name)[0] == 'v' && ("name" + " = \"")[0] == 'n';
  }

  // Versions of packages that come again later do not count.
  lemma {:induction false} LaterVersionsCount(first: Block, blocks: seq<Block>)
    requires Field(first, "name").Some? ==> Field(first, "name").value in LocalVersions(blocks)
    ensures LocalVersions([first] + blocks) == LocalVersions(blocks)
  {
    hide Field, LocalVersions;
    LocalVersionsAfter(first, blocks);
  }

  lemma {:induction false} LocalVersionsAfter(first: Block, blocks: seq<Block>)
    ensures LocalVersions([first] + blocks)
         == (if IsLocal(first) && Field(first, "version").Some? then map[Field(first, "name").value := Field(first, "version").value] else map[])
            + LocalVersions(blocks)
  {
    hide Field;
    var all := [first] + blocks;
    if blocks == [] {
      assert all[..0] == [] && all[0] == first;
    } else {
      var n := |blocks| - 1;
      LocalVersionsAfter(first, blocks[..n]);
      assert all[..|all| - 1] == [first] + blocks[..n] && all[|all| - 1] == blocks[n];
    }
  }

  /** Not every block of a crate ends at the target: before any lock that is rewritten and read back at the target, put a
      block of a crate that ends at its version, and another package's after it. It is rewritten and read back no less, and
      the crate's first block comes out at the other package's version. */
  lemma {:induction false} StaleCrateIsLeft(lock: Lock, target: string, other: string, version: string)
    requires WithLockVersions(lock, target).Ok? && target != "" && '"' !in target
    requires ParseLockVersions(WithLockVersions(lock, target).value).Ok?
    requires other != "" && '"' !in other && version != "" && '"' !in version && version != target
    requires other !in ["board-cli", "board-core", "board-daemon", "board-herdr", "board-tui"]
    ensures var stale := lock.(blocks := [["name = \"board-cli\"", VersionText(version)], [NameLine(other), VersionText(version)]] + lock.blocks);
            WithLockVersions(stale, target).Ok?
            && ParseLockVersions(WithLockVersions(stale, target).value) == ParseLockVersions(WithLockVersions(lock, target).value)
            && !AreCratesAt(WithLockVersions(stale, target).value.blocks, target)
  {
    hide Field, FieldAt, VersionText, LocalVersions;
    var a, b := [NameLine("board-cli"), VersionText(version)], [NameLine(other), VersionText(version)];
    TwoLines("board-cli", version);
    TwoLines(other, version);
    assert NameLine("board-cli") == "name = \"board-cli\"";
    var blocks := [a, b] + lock.blocks;
    assert blocks[1..] == [b] + lock.blocks && blocks[1..][1..] == lock.blocks;
    assert Swallows(a) && !IsLocal(b) && IsLocal(a) by {
      assert a[2..] == [];
      CrateIsLocal(a);
      CrateIsLocal(b);
    }
    var rest := NewBlocks(lock.blocks, target).value;
    assert NewBlocks(blocks[1..], target) == Ok([b] + rest) by {
      hide NewBlock;
      assert NewBlocks(blocks[1..], target).Ok?;
      NewBlocksStep(blocks[1..], target);
    }
    CrateIsLocal(b);
    assert NewBlocks(blocks, target).Ok?;
    NewBlocksStep(blocks, target);
    RunOnBlock(a, b, target);
    CratesSettleExactly(blocks, target);
    assert RunsOn(blocks, 0, target);
    var merged := NewBlocks(blocks, target).value[0];
    assert NewBlocks(blocks, target).value == [merged] + rest;
    CratesAreRead(WithLockVersions(lock, target).value);
    LaterVersionsCount(merged, rest);
  }

  lemma {:induction false} CratesAreRead(lock: Lock)
    requires ParseLockVersions(lock).Ok?
    ensures "board-cli" in LocalVersions(lock.blocks)
  {
    assert LOCAL_PACKAGES[0] == "board-cli";
  }
}

/** CHANGELOG.md as text: splitting it into sections and links, judging it, and cutting a release from it. */
module Changelog {
  import opened Text
  import opened Outcomes

  // ---------------------------------------------------------------------------
  // Lines, each with its terminator. Carriage returns never reach here: reading
  // a file as text turns them into newlines.
  // ---------------------------------------------------------------------------

  predicate IsBreak(c: char) {
    var n := c as int;
    n == 0x0A || n == 0x0B || n == 0x0C || 0x1C <= n <= 0x1E || n == 0x85 || n == 0x2028 || n == 0x2029
  }

  /** White space as the regular expressions and `strip` see it. */
  predicate IsPySpace(c: char) {
    IsSpace(c) || 0x1C <= c as int <= 0x1F
  }

  predicate PyBlank(s: string) {
    forall i :: 0 <= i < |s| ==> IsPySpace(s[i])
  }

  predicate NoBreak(s: string) {
    forall i :: 0 <= i < |s| ==> !IsBreak(s[i])
  }

  /** A terminated line: one break, at the end. */
  predicate IsLine(s: string) {
    s != "" && IsBreak(s[|s| - 1]) && NoBreak(s[..|s| - 1])
  }

  predicate AreLines(lines: seq<string>) {
    forall i :: 0 <= i < |lines| ==> IsLine(lines[i])
  }

  /** The ends of lines and the blanks, by their numbers. */
  lemma {:induction false} BreaksAndBlanks(c: char)
    ensures IsBreak(c) <==> c as int in [0x0A, 0x0B, 0x0C, 0x1C, 0x1D, 0x1E, 0x85, 0x2028, 0x2029]
    ensures IsPySpace(c)
       <==> 0x09 <= c as int <= 0x0D || 0x1C <= c as int <= 0x20 || 0x2000 <= c as int <= 0x200A
            || c as int in [0x85, 0xA0, 0x1680, 0x2028, 0x2029, 0x202F, 0x205F, 0x3000]
  {
  }

  function KeepLines(s: string): seq<string> {
    if s == "" then []
    else if IsBreak(s[0]) then [[s[0]]] + KeepLines(s[1..])
    else
      var rest := KeepLines(s[1..]);
      if rest == [] then [[s[0]]] else [[s[0]] + rest[0]] + rest[1..]
  }

  lemma {:induction false} ConcatCons(line: string, rest: seq<string>)
    ensures Concat([line] + rest) == line + Concat(rest)
  {
    assert ([line] + rest)[1..] == rest;
  }

  lemma {:induction false} ConcatNone()
    ensures Concat([]) == ""
  {
  }

  lemma {:induction false} ConcatKeepLines(s: string)
    ensures Concat(KeepLines(s)) == s
  {
    hide Concat, IsBreak;
    if s == "" {
      ConcatNone();
    } else {
      ConcatKeepLines(s[1..]);
      var rest := KeepLines(s[1..]);
      assert s == [s[0]] + s[1..];
      if IsBreak(s[0]) || rest == [] {
        ConcatCons([s[0]], rest);
        assert [[s[0]]] + [] == [[s[0]]];
      } else {
        ConcatCons([s[0]] + rest[0], rest[1..]);
        ConcatCons(rest[0], rest[1..]);
        Regroup([s[0]], rest[0], Concat(rest[1..]));
        assert rest == [rest[0]] + rest[1..];
      }
    }
  }

  // A terminated line starts the line list of whatever follows it.
  lemma {:induction false} KeepFirstLine(line: string, rest: string)
    requires IsLine(line)
    ensures KeepLines(line + rest) == [line] + KeepLines(rest)
  {
    var s := line + rest;
    assert s[1..] == line[1..] + rest;
    if |line| > 1 {
      assert line[..|line| - 1][0] == line[0];
      assert line[1..][..|line| - 2] == line[..|line| - 1][1..];
      KeepFirstLine(line[1..], rest);
      assert line == [line[0]] + line[1..];
    } else {
      assert line == [line[0]];
      assert s[1..] == rest;
    }
  }

  lemma {:induction false} KeepLinesOf(lines: seq<string>, rest: string)
    requires AreLines(lines)
    ensures KeepLines(Concat(lines) + rest) == lines + KeepLines(rest)
  {
    if lines == [] {
      assert Concat(lines) + rest == rest;
    } else {
      var more := Concat(lines[1..]);
      hide KeepLines, IsLine, Concat;
      KeepLinesOf(lines[1..], rest);
      KeepFirstLine(lines[0], more + rest);
      Regroup(lines[0], more, rest);
      ConcatTail(lines);
      Regroup([lines[0]], lines[1..], KeepLines(rest));
      assert [lines[0]] + lines[1..] == lines;
    }
  }

  lemma {:induction false} ConcatTail(lines: seq<string>)
    requires lines != []
    ensures Concat(lines) == lines[0] + Concat(lines[1..])
  {
  }

  predicate LastLineOk(line: string) {
    IsLine(line) || (line != "" && NoBreak(line))
  }

  // All lines but perhaps the last are terminated.
  predicate LineList(lines: seq<string>) {
    lines != [] ==> AreLines(lines[..|lines| - 1]) && LastLineOk(lines[|lines| - 1])
  }

  lemma {:induction false} PrependChar(c: char, line: string)
    requires !IsBreak(c) && LastLineOk(line)
    ensures LastLineOk([c] + line) && (IsLine(line) ==> IsLine([c] + line))
  {
    if IsLine(line) {
      assert ([c] + line)[..|line|] == [c] + line[..|line| - 1];
    }
  }

  lemma {:induction false} PrependLine(line: string, lines: seq<string>)
    requires IsLine(line) && LineList(lines)
    ensures LineList([line] + lines) && (AreLines(lines) ==> AreLines([line] + lines))
  {
    var all := [line] + lines;
    if lines != [] {
      assert all[..|all| - 1] == [line] + lines[..|lines| - 1];
    }
  }

  lemma {:induction false} ExtendFirst(c: char, lines: seq<string>)
    requires !IsBreak(c) && LineList(lines) && lines != []
    ensures var all := [[c] + lines[0]] + lines[1..];
            LineList(all) && (AreLines(lines) ==> AreLines(all))
  {
    var all := [[c] + lines[0]] + lines[1..];
    var n := |lines| - 1;
    PrependChar(c, lines[0]);
    assert all[..n] == if n == 0 then [] else [[c] + lines[0]] + lines[..n][1..];
  }

  lemma {:induction false} KeepLinesAreLines(s: string)
    ensures LineList(KeepLines(s))
    ensures Ended(s) ==> AreLines(KeepLines(s))
  {
    if s != "" {
      KeepLinesAreLines(s[1..]);
      var rest := KeepLines(s[1..]);
      hide AreLines, LineList;
      if IsBreak(s[0]) {
        PrependLine([s[0]], rest);
      } else if rest != [] {
        ExtendFirst(s[0], rest);
      } else {
        ConcatKeepLines(s[1..]);
        LastUnterminated([s[0]]);
      }
    } else {
      NoLines();
    }
  }

  lemma {:induction false} NoLines()
    ensures LineList([]) && AreLines([])
  {
  }

  lemma {:induction false} LastUnterminated(line: string)
    requires line != "" && NoBreak(line)
    ensures LineList([line])
  {
  }

  predicate Ended(s: string) {
    s == "" || IsBreak(s[|s| - 1])
  }

  // A list of lines, the last one perhaps unterminated, is the line list of its text.
  lemma {:induction false} KeepLinesOfList(lines: seq<string>)
    requires LineList(lines)
    ensures KeepLines(Concat(lines)) == lines
  {
    if lines != [] {
      var n := |lines| - 1;
      var last := lines[n];
      KeepLinesOf(lines[..n], last);
      ConcatAppend(lines[..n], [last]);
      assert lines == lines[..n] + [last] && Concat([last]) == last;
      if IsLine(last) {
        KeepFirstLine(last, "");
        assert last + "" == last;
      } else {
        KeepUnterminated(last);
      }
    }
  }

  lemma {:induction false} KeepUnterminated(s: string)
    requires s != "" && NoBreak(s)
    ensures KeepLines(s) == [s]
  {
    if |s| > 1 {
      KeepUnterminated(s[1..]);
      assert s == [s[0]] + s[1..];
    } else {
      assert s == [s[0]];
    }
  }

  // ---------------------------------------------------------------------------
  // Link and heading lines
  // ---------------------------------------------------------------------------

  // How many leading characters satisfy, or fail, the white-space test.
  function LeadingSpaces(s: string): (n: nat)
    ensures n <= |s| && PyBlank(s[..n]) && (n < |s| ==> !IsPySpace(s[n]))
  {
    if s != "" && IsPySpace(s[0]) then
      var n := 1 + LeadingSpaces(s[1..]);
      assert forall i :: 0 < i < n ==> s[i] == s[1..][..n - 1][i - 1];
      n
    else 0
  }

  function LeadingInk(s: string): (n: nat)
    ensures n <= |s| && (forall i :: 0 <= i < n ==> !IsPySpace(s[i])) && (n < |s| ==> IsPySpace(s[n]))
  {
    if s != "" && !IsPySpace(s[0]) then
      var n := 1 + LeadingInk(s[1..]);
      assert forall i :: 0 < i < n ==> s[i] == s[1..][i - 1];
      n
    else 0
  }

  datatype Link = Link(name: string, url: string)

  /** A link reference line: `[name]: url`, blanks allowed after. */
  function ParseLink(line: string): Option<Link> {
    if line == "" || line[0] != '[' then None
    else
      var (name, rest) :- SplitOnce(line[1..], ']');
      if name == "" || rest == "" || rest[0] != ':' then None
      else
        var tail := rest[1..];
        var n := LeadingSpaces(tail);
        var m := LeadingInk(tail[n..]);
        if n == 0 || m == 0 || !PyBlank(tail[n..][m..]) then None
        else Some(Link(name, tail[n..][..m]))
  }

  predicate IsLink(line: string) {
    ParseLink(line).Some?
  }

  const HASHES := "## "
  const UNRELEASED_HEADING := "## [Unreleased]"
  const UNRELEASED := "Unreleased"

  predicate IsHeading(line: string) {
    HASHES <= line
  }

  /** The version of a release heading `## [version] - date`. */
  function HeadingVersion(line: string): Option<string> {
    if !("## [" <= line) then None
    else
      var (version, rest) :- SplitOnce(line[4..], ']');
      if version == "" || !(" - " <= rest) then None
      else
        var date := rest[3..];
        var shown := if date != "" && date[|date| - 1] == '\n' then date[..|date| - 1] else date;
        if shown == "" || '\n' in shown then None else Some(version)
  }

  // ---------------------------------------------------------------------------
  // Splitting and judging
  // ---------------------------------------------------------------------------

  /** The first index from `begin` whose line satisfies the test, or the end. */
  function FindFrom(lines: seq<string>, begin: nat, test: string -> bool): (i: nat)
    requires begin <= |lines|
    ensures begin <= i <= |lines|
    ensures forall j :: begin <= j < i ==> !test(lines[j])
    ensures i < |lines| ==> test(lines[i])
    decreases |lines| - begin
  {
    if begin == |lines| || test(lines[begin]) then begin else FindFrom(lines, begin + 1, test)
  }

  lemma {:induction false} FoundAt(lines: seq<string>, begin: nat, test: string -> bool, i: nat)
    requires begin <= i < |lines| && test(lines[i]) && forall j :: begin <= j < i ==> !test(lines[j])
    ensures FindFrom(lines, begin, test) == i
  {
    var k := FindFrom(lines, begin, test);
  }

  lemma {:induction false} FoundNowhere(lines: seq<string>, begin: nat, test: string -> bool)
    requires begin <= |lines| && forall j :: begin <= j < |lines| ==> !test(lines[j])
    ensures FindFrom(lines, begin, test) == |lines|
  {
    var k := FindFrom(lines, begin, test);
  }

  datatype Parts = Parts(sections: seq<string>, links: seq<string>)

  function SplitChangelog(text: string): Outcome<Parts> {
    var lines := KeepLines(text);
    var start := FindFrom(lines, 0, IsLink);
    if start == |lines| then Error(NoLinks)
    else Ok(Parts(lines[..start], lines[start..]))
  }

  function UnreleasedAt(sections: seq<string>): (i: nat)
    ensures i <= |sections|
  {
    FindFrom(sections, 0, line => UNRELEASED_HEADING <= line)
  }

  function NextHeading(sections: seq<string>, begin: nat): (i: nat)
    requires begin <= |sections|
    ensures begin <= i <= |sections|
  {
    FindFrom(sections, begin, IsHeading)
  }

  function StripStart(s: string): string {
    if s != "" && s[0] == '\n' then StripStart(s[1..]) else s
  }

  function StripEnd(s: string): string {
    if s != "" && s[|s| - 1] == '\n' then StripEnd(s[..|s| - 1]) else s
  }

  /** The text under the heading at index `i`, newlines stripped at both ends. */
  function BodyUnder(sections: seq<string>, i: nat): string
    requires i < |sections|
  {
    StripEnd(StripStart(Concat(sections[i + 1..NextHeading(sections, i + 1)])))
  }

  function CompareUrl(repo: string, target: string): string {
    repo + "/compare/v" + target + "...HEAD"
  }

  function ReleaseUrl(repo: string, target: string): string {
    repo + "/releases/tag/v" + target
  }

  /** The last link with a name, as in a mapping filled line by line. */
  function LookUp(links: seq<string>, name: string): Option<string> {
    if links == [] then None
    else
      var link := ParseLink(links[|links| - 1]);
      if link.Some? && link.value.name == name then Some(link.value.url)
      else LookUp(links[..|links| - 1], name)
  }

  predicate AllLinks(links: seq<string>) {
    forall i :: 0 <= i < |links| ==> IsLink(links[i])
  }

  predicate HasSection(sections: seq<string>, target: string) {
    exists i :: 0 <= i < |sections| && HeadingVersion(sections[i]) == Some(target)
  }

  datatype Analysis = Analysis(unreleasedBody: string, targetExists: bool, prepared: bool)

  function Analyze(text: string, target: string, repo: string): Outcome<Analysis> {
    var parts :- SplitChangelog(text);
    var u := UnreleasedAt(parts.sections);
    if u == |parts.sections| then Error(NoUnreleased)
    else if !AllLinks(parts.links) then Error(BadLink)
    else
      var body := BodyUnder(parts.sections, u);
      var there := HasSection(parts.sections, target);
      Ok(Analysis(body, there,
                  there && PyBlank(body)
                  && LookUp(parts.links, UNRELEASED) == Some(CompareUrl(repo, target))
                  && LookUp(parts.links, target) == Some(ReleaseUrl(repo, target))))
  }

  predicate IsPrepared(text: string, target: string, repo: string) {
    Analyze(text, target, repo).Ok? && Analyze(text, target, repo).value.prepared
  }

  // ---------------------------------------------------------------------------
  // Cutting a release
  // ---------------------------------------------------------------------------

  function LinkLine(name: string, url: string): string {
    "[" + name + "]: " + url + "\n"
  }

  function HeadingLine(target: string, date: string): string {
    "## [" + target + "] - " + date + "\n"
  }

  datatype Rendering = Rendering(lines: seq<string>, inserted: bool, seen: bool)

  /** One link line: Unreleased is repointed and followed by the target once, old target lines go. */
  function RenderLine(r: Rendering, line: string, target: string, repo: string): Rendering
    requires IsLink(line)
  {
    var name := ParseLink(line).value.name;
    var targetLine := if r.inserted then [] else [LinkLine(target, ReleaseUrl(repo, target))];
    if name == UNRELEASED then
      Rendering(r.lines + [LinkLine(UNRELEASED, CompareUrl(repo, target))] + targetLine, true, true)
    else if name == target then Rendering(r.lines + targetLine, true, r.seen)
    else r.(lines := r.lines + [line])
  }

  function RenderLinks(links: seq<string>, target: string, repo: string): Rendering
    requires AllLinks(links)
  {
    if links == [] then Rendering([], false, false)
    else RenderLine(RenderLinks(links[..|links| - 1], target, repo), links[|links| - 1], target, repo)
  }

  /** The text under the new heading and after, and the links, put together. */
  function Assembled(parts: Parts, u: nat, links: seq<string>, target: string, date: string): string
    requires u < |parts.sections|
  {
    var suffix := StripStart(Concat(parts.sections[NextHeading(parts.sections, u + 1)..]));
    Concat(parts.sections[..u + 1]) + "\n" + ("## [" + target + "] - " + date + "\n\n")
    + StripEnd(BodyUnder(parts.sections, u)) + "\n"
    + (if suffix == "" then "" else "\n" + suffix)
    + Concat(links)
  }

  function Rewritten(text: string, target: string, date: string, repo: string): Outcome<string> {
    var parts :- SplitChangelog(text);
    var u := UnreleasedAt(parts.sections);
    if u == |parts.sections| then Error(NoUnreleased)
    else if PyBlank(BodyUnder(parts.sections, u)) then Error(EmptyUnreleased)
    else if !AllLinks(parts.links) then Error(BadLink)
    else
      var r := RenderLinks(parts.links, target, repo);
      if !r.seen then Error(NoUnreleasedLink)
      else if !r.inserted then Error(NoTargetLink)
      else Ok(Assembled(parts, u, r.lines, target, date))
  }

  /** Render the link lines one by one, stopping at the first that is none. */
  method RenderEach(links: seq<string>, target: string, repo: string) returns (r: Option<Rendering>)
    ensures r == if AllLinks(links) then Some(RenderLinks(links, target, repo)) else None
  {
    hide ParseLink, LinkLine, CompareUrl, ReleaseUrl;
    var rendered: seq<string> := [];
    var inserted, seen := false, false;
    for i := 0 to |links|
      invariant AllLinks(links[..i])
      invariant Rendering(rendered, inserted, seen) == RenderLinks(links[..i], target, repo)
    {
      var line := links[i];
      assert links[..i + 1][..i] == links[..i];
      var link := ParseLink(line);
      if link.None? {
        assert !IsLink(links[i]);
        return None;
      }
      if link.value.name == UNRELEASED {
        rendered := rendered + [LinkLine(UNRELEASED, CompareUrl(repo, target))];
        if !inserted {
          rendered := rendered + [LinkLine(target, ReleaseUrl(repo, target))];
          inserted := true;
        }
        seen := true;
      } else if link.value.name == target {
        if !inserted {
          rendered := rendered + [LinkLine(target, ReleaseUrl(repo, target))];
          inserted := true;
        }
      } else {
        rendered := rendered + [line];
      }
    }
    assert links[..|links|] == links;
    r := Some(Rendering(rendered, inserted, seen));
  }

  /** Move the Unreleased body under a release heading and repoint the links. */
  method RewriteChangelog(text: string, target: string, date: string, repo: string) returns (r: Outcome<string>)
    ensures r == Rewritten(text, target, date, repo)
  {
    hide BodyUnder, Assembled, SplitChangelog, IsLink, RenderLinks;
    var split := SplitChangelog(text);
    if split.Error? {
      return Error(split.error);
    }
    var parts := split.value;
    var u := UnreleasedAt(parts.sections);
    if u == |parts.sections| {
      return Error(NoUnreleased);
    }
    if PyBlank(BodyUnder(parts.sections, u)) {
      return Error(EmptyUnreleased);
    }
    var rendered := RenderEach(parts.links, target, repo);
    if rendered.None? {
      return Error(BadLink);
    }
    if !rendered.value.seen {
      return Error(NoUnreleasedLink);
    }
    if !rendered.value.inserted {
      return Error(NoTargetLink);
    }
    r := Ok(Assembled(parts, u, rendered.value.lines, target, date));
  }

  // ---------------------------------------------------------------------------
  // Lines of the rewritten text
  // ---------------------------------------------------------------------------

  /** The lines other than empty ones. */
  function Inked(lines: seq<string>): seq<string> {
    if lines == [] then []
    else (if lines[0] == "\n" then [] else [lines[0]]) + Inked(lines[1..])
  }

  lemma {:induction false} InkedCons(line: string, rest: seq<string>)
    ensures Inked([line] + rest) == (if line == "\n" then [] else [line]) + Inked(rest)
  {
    assert ([line] + rest)[1..] == rest;
  }

  lemma {:induction false} InkedAppend(a: seq<string>, b: seq<string>)
    ensures Inked(a + b) == Inked(a) + Inked(b)
  {
    hide Inked;
    if a == [] {
      NothingInked();
      assert a + b == b;
    } else {
      InkedAppend(a[1..], b);
      InkedCons(a[0], a[1..]);
      InkedCons(a[0], a[1..] + b);
      assert a == [a[0]] + a[1..] && a + b == [a[0]] + (a[1..] + b);
    }
  }

  lemma {:induction false} NothingInked()
    ensures Inked([]) == []
  {
  }

  lemma {:induction false} InkedMembers(lines: seq<string>, line: string)
    ensures line in Inked(lines) <==> line in lines && line != "\n"
  {
    if lines != [] {
      InkedMembers(lines[1..], line);
      assert lines == [lines[0]] + lines[1..];
    }
  }

  lemma {:induction false} StripStartKeepsInk(s: string)
    requires Ended(s)
    ensures Inked(KeepLines(StripStart(s))) == Inked(KeepLines(s)) && Ended(StripStart(s))
  {
    if s != "" && s[0] == '\n' {
      StripStartKeepsInk(s[1..]);
      assert KeepLines(s) == ["\n"] + KeepLines(s[1..]);
      assert KeepLines(s)[1..] == KeepLines(s[1..]);
    }
  }

  lemma {:induction false} StripEndKeepsInk(s: string)
    requires Ended(s)
    ensures Inked(KeepLines(StripEnd(s) + "\n")) == Inked(KeepLines(s))
    decreases |s|
  {
    if s != "" && s[|s| - 1] == '\n' {
      var t := s[..|s| - 1];
      assert s == t + "\n";
      if Ended(t) {
        StripEndKeepsInk(t);
        AddEmptyLine(t);
      } else {
        StripEndStops(t);
      }
    } else {
      AddEmptyLine(s);
    }
  }

  lemma {:induction false} StripEndStops(s: string)
    requires s != "" && s[|s| - 1] != '\n'
    ensures StripEnd(s) == s
  {
  }

  lemma {:induction false} AddEmptyLine(s: string)
    requires Ended(s)
    ensures Inked(KeepLines(s + "\n")) == Inked(KeepLines(s))
  {
    KeepLinesAreLines(s);
    ConcatKeepLines(s);
    KeepLinesOf(KeepLines(s), "\n");
    assert KeepLines("\n") == ["\n"] && ["\n"][1..] == [];
    InkedAppend(KeepLines(s), ["\n"]);
    assert Inked(["\n"]) == [];
  }

  // ---------------------------------------------------------------------------
  // Generated lines parse as what they say
  // ---------------------------------------------------------------------------

  predicate NoSpace(s: string) {
    forall i :: 0 <= i < |s| ==> !IsPySpace(s[i])
  }

  /** A version fit for headings and links; every `x.y.z` is. */
  predicate IsCleanTarget(target: string) {
    target != "" && NoSpace(target) && ']' !in target && target != UNRELEASED
  }

  predicate IsCleanDate(date: string) {
    date != "" && NoBreak(date)
  }

  lemma {:induction false} InkStops(s: string, rest: string)
    requires NoSpace(s) && (rest == "" || IsPySpace(rest[0]))
    ensures LeadingInk(s + rest) == |s|
  {
    if s == "" {
      assert s + rest == rest;
    } else {
      assert (s + rest)[1..] == s[1..] + rest;
      InkStops(s[1..], rest);
    }
  }

  lemma {:induction false} SpacesStop(s: string)
    requires s != "" && !IsPySpace(s[0])
    ensures LeadingSpaces(" " + s) == 1
  {
    assert (" " + s)[1..] == s;
  }

  lemma {:induction false} GeneratedLink(name: string, url: string)
    requires name != "" && ']' !in name && url != "" && NoSpace(url)
    ensures ParseLink(LinkLine(name, url)) == Some(Link(name, url))
  {
    var line := LinkLine(name, url);
    var tail := " " + url + "\n";
    assert line[1..] == name + [']'] + (":" + tail);
    SplitOnceAt(name, ']', ":" + tail);
    assert (":" + tail)[1..] == tail && tail == " " + (url + "\n");
    SpacesStop(url + "\n");
    assert tail[1..] == url + "\n";
    InkStops(url, "\n");
    assert (url + "\n")[..|url|] == url && (url + "\n")[|url|..] == "\n";
  }

  ghost predicate IsLinkLine(line: string, name: string, gap: string, url: string, tail: string) {
    line == "[" + name + "]:" + gap + url + tail && name != "" && ']' !in name && gap != "" && PyBlank(gap)
    && url != "" && NoSpace(url) && PyBlank(tail)
  }

  lemma {:induction false} GapStops(gap: string, rest: string)
    requires PyBlank(gap) && rest != "" && !IsPySpace(rest[0])
    ensures LeadingSpaces(gap + rest) == |gap|
  {
    if gap == "" {
      assert gap + rest == rest;
    } else {
      assert (gap + rest)[1..] == gap[1..] + rest;
      GapStops(gap[1..], rest);
    }
  }

  lemma {:induction false} JoinLink(line: string, name: string, rest: string, gap: string, url: string, tail: string)
    requires line != "" && line[0] == '[' && line[1..] == name + [']'] + rest
    requires rest != "" && rest[0] == ':' && rest[1..] == gap + (url + tail)
    ensures line == "[" + name + "]:" + gap + url + tail
  {
    assert line == ['['] + line[1..] && rest == [':'] + rest[1..];
  }

  // What comes after the colon of a link.
  lemma {:induction false} GapAndInk(after: string)
    ensures var n := LeadingSpaces(after);
            var m := LeadingInk(after[n..]);
            PyBlank(after[..n]) && NoSpace(after[n..][..m]) && after == after[..n] + (after[n..][..m] + after[n..][m..])
  {
    hide IsPySpace;
    var n := LeadingSpaces(after);
    var m := LeadingInk(after[n..]);
    hide LeadingSpaces, LeadingInk, PyBlank;
    assert after[n..] == after[n..][..m] + after[n..][m..];
  }

  lemma {:induction false} LinkHasParts(line: string) returns (gap: string, tail: string)
    requires ParseLink(line).Some?
    ensures IsLinkLine(line, ParseLink(line).value.name, gap, ParseLink(line).value.url, tail)
  {
    hide IsPySpace, PyBlank, NoSpace, SplitOnce, LeadingSpaces, LeadingInk;
    SplitOnceShrinks(line[1..], ']');
    var (name, rest) := SplitOnce(line[1..], ']').value;
    var after := rest[1..];
    var n := LeadingSpaces(after);
    var m := LeadingInk(after[n..]);
    GapAndInk(after);
    gap := after[..n];
    tail := after[n..][m..];
    assert ParseLink(line).value == Link(name, after[n..][..m]) && line[0] == '[' && rest[0] == ':';
    hide ParseLink;
    JoinLink(line, name, rest, gap, after[n..][..m], tail);
  }

  /** A line is a link exactly if it is a bracketed name, a colon, blanks, and a text without any, up to blanks at the end. */
  lemma {:induction false} LinkIsSpelled(line: string, name: string, url: string)
    ensures ParseLink(line) == Some(Link(name, url)) <==> exists gap, tail :: IsLinkLine(line, name, gap, url, tail)
  {
    hide ParseLink, IsLinkLine;
    if ParseLink(line) == Some(Link(name, url)) {
      var gap, tail := LinkHasParts(line);
    }
    forall gap, tail | IsLinkLine(line, name, gap, url, tail)
      ensures ParseLink(line) == Some(Link(name, url))
    {
      LinkLineIsLink(line, name, gap, url, tail);
    }
  }

  lemma {:induction false} LinkLineIsLink(line: string, name: string, gap: string, url: string, tail: string)
    requires IsLinkLine(line, name, gap, url, tail)
    ensures ParseLink(line) == Some(Link(name, url))
  {
    hide IsPySpace, SplitOnce, LeadingSpaces, LeadingInk;
    var after := gap + url + tail;
    assert line[1..] == name + [']'] + (":" + after);
    SplitOnceAt(name, ']', ":" + after);
    assert (":" + after)[1..] == after && after == gap + (url + tail);
    GapStops(gap, url + tail);
    assert after[|gap|..] == url + tail;
    InkStops(url, tail);
    assert (url + tail)[..|url|] == url && (url + tail)[|url|..] == tail;
  }

  ghost predicate IsReleaseHeading(line: string, version: string, date: string, end: string) {
    line == "## [" + version + "] - " + date + end && version != "" && ']' !in version && date != "" && '\n' !in date
    && end in ["", "\n"]
  }

  lemma {:induction false} JoinHeading(line: string, version: string, all: string, date: string, end: string)
    requires line == "## [" + (version + [']'] + (" - " + all)) && all == date + end
    ensures line == "## [" + version + "] - " + date + end
  {
  }

  lemma {:induction false} HeadingHasParts(line: string) returns (date: string, end: string)
    requires HeadingVersion(line).Some?
    ensures IsReleaseHeading(line, HeadingVersion(line).value, date, end)
  {
    hide SplitOnce;
    SplitOnceShrinks(line[4..], ']');
    var (version, rest) := SplitOnce(line[4..], ']').value;
    var all := rest[3..];
    date := if all[|all| - 1] == '\n' then all[..|all| - 1] else all;
    end := if all[|all| - 1] == '\n' then "\n" else "";
    assert HeadingVersion(line).value == version && '\n' !in date && date != "" && version != "";
    assert rest == " - " + all && line == "## [" + line[4..];
    hide HeadingVersion;
    assert all == date + end;
    JoinHeading(line, version, all, date, end);
  }

  /** A line heads a release exactly if it is two hashes, a bracketed version, a dash between blanks and something more. */
  lemma {:induction false} HeadingIsSpelled(line: string, version: string)
    ensures HeadingVersion(line) == Some(version) <==> exists date, end :: IsReleaseHeading(line, version, date, end)
  {
    hide HeadingVersion, IsReleaseHeading;
    if HeadingVersion(line) == Some(version) {
      var date, end := HeadingHasParts(line);
    }
    forall date, end | IsReleaseHeading(line, version, date, end)
      ensures HeadingVersion(line) == Some(version)
    {
      ReleaseHeadingIsHeading(line, version, date, end);
    }
  }

  lemma {:induction false} ReleaseHeadingIsHeading(line: string, version: string, date: string, end: string)
    requires IsReleaseHeading(line, version, date, end)
    ensures HeadingVersion(line) == Some(version)
  {
    hide SplitOnce;
    var rest := " - " + date + end;
    assert line[..4] == "## [" && line[4..] == version + [']'] + rest;
    SplitOnceAt(version, ']', rest);
    assert rest[..3] == " - " && rest[3..] == date + end;
    assert end == "\n" ==> (date + end)[..|date|] == date;
    assert end == "" ==> date + end == date;
  }

  /** The first line that starts the Unreleased section, and the first from `begin` that starts any. */
  lemma {:induction false} SectionsStartAtHashes(sections: seq<string>, begin: nat, i: nat)
    requires begin <= i < |sections|
    ensures UnreleasedAt(sections) == i
       <==> "## [Unreleased]" <= sections[i] && forall j :: 0 <= j < i ==> !("## [Unreleased]" <= sections[j])
    ensures NextHeading(sections, begin) == i
       <==> "## " <= sections[i] && forall j :: begin <= j < i ==> !("## " <= sections[j])
  {
    var u, n := UnreleasedAt(sections), NextHeading(sections, begin);
  }

  lemma {:induction false} GeneratedLinkIsLine(name: string, url: string)
    requires NoBreak(name) && NoBreak(url)
    ensures IsLine(LinkLine(name, url))
  {
    var line := LinkLine(name, url);
    assert line[..|line| - 1] == "[" + name + "]: " + url;
  }

  lemma {:induction false} HeadingNamesTarget(target: string, date: string)
    requires IsCleanTarget(target) && IsCleanDate(date)
    ensures HeadingVersion(HeadingLine(target, date)) == Some(target)
  {
    hide SplitOnce;
    var h, after := HeadingLine(target, date), " - " + date + "\n";
    assert h[..4] == "## [" && h[4..] == target + [']'] + after;
    SplitOnceAt(target, ']', after);
    assert after[..3] == " - " && after[3..] == date + "\n" && (date + "\n")[..|date|] == date;
  }

  lemma {:induction false} HeadingIsOneLine(target: string, date: string)
    requires IsCleanTarget(target) && IsCleanDate(date)
    ensures var h := HeadingLine(target, date); IsLine(h) && IsHeading(h) && !IsLink(h) && h != "\n"
  {
    var h := HeadingLine(target, date);
    assert h[..|h| - 1] == "## [" + target + "] - " + date;
    assert h[..3] == HASHES && h[0] == '#';
  }

  lemma {:induction false} GeneratedHeading(target: string, date: string)
    requires IsCleanTarget(target) && IsCleanDate(date)
    ensures var h := HeadingLine(target, date);
            IsLine(h) && IsHeading(h) && HeadingVersion(h) == Some(target) && !IsLink(h) && h != "\n"
            && HeadingLines(target, date) == [h]
  {
    hide HeadingLine, IsLine, KeepLines, IsHeading, HeadingVersion, IsLink, IsCleanTarget, IsCleanDate;
    var h := HeadingLine(target, date);
    HeadingNamesTarget(target, date);
    HeadingIsOneLine(target, date);
    KeepFirstLine(h, "");
    assert h + "" == h && KeepLines("") == [] by {
      NothingKept();
    }
  }

  lemma {:induction false} NothingKept()
    ensures KeepLines("") == []
  {
  }

  lemma {:induction false} UrlsAreClean(repo: string, target: string)
    requires NoSpace(repo) && NoSpace(target)
    ensures NoSpace(CompareUrl(repo, target)) && CompareUrl(repo, target) != ""
    ensures NoSpace(ReleaseUrl(repo, target)) && ReleaseUrl(repo, target) != ""
  {
  }

  lemma {:induction false} NoSpaceNoBreak(s: string)
    requires NoSpace(s)
    ensures NoBreak(s)
  {
  }

  // ---------------------------------------------------------------------------
  // The rendered links
  // ---------------------------------------------------------------------------

  /** The links other than Unreleased and the target, as written. */
  function OtherLinks(links: seq<string>, target: string): seq<string> {
    if links == [] then []
    else
      var link := ParseLink(links[|links| - 1]);
      OtherLinks(links[..|links| - 1], target)
      + (if link.Some? && (link.value.name == UNRELEASED || link.value.name == target) then []
         else [links[|links| - 1]])
  }

  ghost predicate Rendered(r: Rendering, links: seq<string>, target: string, repo: string) {
    AllLinks(r.lines)
    && (r.seen ==> LookUp(r.lines, UNRELEASED) == Some(CompareUrl(repo, target)) && r.inserted)
    && (r.inserted ==> LookUp(r.lines, target) == Some(ReleaseUrl(repo, target)))
    && OtherLinks(r.lines, target) == OtherLinks(links, target)
  }

  // Adding one link at the end.
  lemma {:induction false} PushLink(lines: seq<string>, line: string, link: Link, target: string)
    requires AllLinks(lines) && ParseLink(line) == Some(link)
    ensures var all := lines + [line];
            AllLinks(all)
            && (forall name :: LookUp(all, name) == if link.name == name then Some(link.url) else LookUp(lines, name))
            && OtherLinks(all, target)
               == OtherLinks(lines, target) + (if link.name == UNRELEASED || link.name == target then [] else [line])
  {
    assert (lines + [line])[..|lines|] == lines;
  }

  // The two lines a cut writes are read back; the target is not called Unreleased.
  lemma {:induction false} GeneratedLinksParse(target: string, repo: string)
    requires IsCleanTarget(target) && NoSpace(repo)
    ensures ParseLink(LinkLine(UNRELEASED, CompareUrl(repo, target))) == Some(Link(UNRELEASED, CompareUrl(repo, target)))
    ensures ParseLink(LinkLine(target, ReleaseUrl(repo, target))) == Some(Link(target, ReleaseUrl(repo, target)))
    ensures target != UNRELEASED
  {
    UrlsAreClean(repo, target);
    GeneratedLink(UNRELEASED, CompareUrl(repo, target));
    GeneratedLink(target, ReleaseUrl(repo, target));
  }

  lemma {:induction false} RenderLineKeeps(r: Rendering, links: seq<string>, line: string, target: string, repo: string)
    requires IsCleanTarget(target) && NoSpace(repo)
    requires AllLinks(links) && IsLink(line) && Rendered(r, links, target, repo)
    ensures Rendered(RenderLine(r, line, target, repo), links + [line], target, repo)
  {
    hide ParseLink, LinkLine, OtherLinks, LookUp, AllLinks, CompareUrl, ReleaseUrl, NoSpace, IsCleanTarget;
    var link := ParseLink(line).value;
    var unreleased := LinkLine(UNRELEASED, CompareUrl(repo, target));
    var release := LinkLine(target, ReleaseUrl(repo, target));
    GeneratedLinksParse(target, repo);
    PushLink(links, line, link, target);
    if link.name == UNRELEASED {
      PushLink(r.lines, unreleased, Link(UNRELEASED, CompareUrl(repo, target)), target);
      PushLink(r.lines + [unreleased], release, Link(target, ReleaseUrl(repo, target)), target);
      assert r.lines + [unreleased] + [] == r.lines + [unreleased];
    } else if link.name == target {
      PushLink(r.lines, release, Link(target, ReleaseUrl(repo, target)), target);
      assert r.lines + [] == r.lines;
    } else {
      PushLink(r.lines, line, link, target);
    }
  }

  lemma {:induction false} NothingRendered(target: string, repo: string)
    ensures Rendered(Rendering([], false, false), [], target, repo)
  {
  }

  lemma {:induction false} LinksAreRendered(links: seq<string>, target: string, repo: string)
    requires IsCleanTarget(target) && NoSpace(repo) && AllLinks(links)
    ensures Rendered(RenderLinks(links, target, repo), links, target, repo)
  {
    hide Rendered, RenderLine, IsLink;
    if links == [] {
      NothingRendered(target, repo);
    } else {
      var n := |links| - 1;
      LinksAreRendered(links[..n], target, repo);
      assert links == links[..n] + [links[n]];
      RenderLineKeeps(RenderLinks(links[..n], target, repo), links[..n], links[n], target, repo);
    }
  }

  // Line structure: generated links are terminated, and a kept last line stays last.

  lemma {:induction false} PushLine(lines: seq<string>, line: string)
    requires AreLines(lines) && LastLineOk(line)
    ensures LineList(lines + [line]) && (IsLine(line) ==> AreLines(lines + [line]))
  {
    assert (lines + [line])[..|lines|] == lines;
  }

  lemma {:induction false} GeneratedLinksAreLines(target: string, repo: string)
    requires IsCleanTarget(target) && NoSpace(repo)
    ensures IsLine(LinkLine(UNRELEASED, CompareUrl(repo, target)))
    ensures IsLine(LinkLine(target, ReleaseUrl(repo, target)))
  {
    UrlsAreClean(repo, target);
    NoSpaceNoBreak(target);
    NoSpaceNoBreak(CompareUrl(repo, target));
    NoSpaceNoBreak(ReleaseUrl(repo, target));
    GeneratedLinkIsLine(UNRELEASED, CompareUrl(repo, target));
    GeneratedLinkIsLine(target, ReleaseUrl(repo, target));
  }

  lemma {:induction false} RenderLineIsLine(r: Rendering, line: string, target: string, repo: string)
    requires IsLine(LinkLine(UNRELEASED, CompareUrl(repo, target))) && IsLine(LinkLine(target, ReleaseUrl(repo, target)))
    requires IsLink(line) && AreLines(r.lines) && LastLineOk(line)
    ensures var r' := RenderLine(r, line, target, repo);
            LineList(r'.lines) && (IsLine(line) ==> AreLines(r'.lines))
            && (r.lines != [] || !r.inserted ==> r'.lines != [])
  {
    var unreleased := LinkLine(UNRELEASED, CompareUrl(repo, target));
    var release := LinkLine(target, ReleaseUrl(repo, target));
    hide IsLine, LinkLine, CompareUrl, ReleaseUrl, ParseLink, LastLineOk;
    LinesEndWell(unreleased);
    LinesEndWell(release);
    PushLine(r.lines, line);
    PushLine(r.lines, release);
    PushLine(r.lines, unreleased);
    PushLine(r.lines + [unreleased], release);
    LinesAreList(r.lines);
    var r' := RenderLine(r, line, target, repo);
    var name := ParseLink(line).value.name;
    assert r'.lines == if name == UNRELEASED then (if r.inserted then r.lines + [unreleased] else r.lines + [unreleased] + [release])
                       else if name == target then (if r.inserted then r.lines else r.lines + [release])
                       else r.lines + [line];
  }

  lemma {:induction false} LinesEndWell(line: string)
    requires IsLine(line)
    ensures LastLineOk(line)
  {
  }

  lemma {:induction false} LinesAreList(lines: seq<string>)
    requires AreLines(lines)
    ensures LineList(lines)
  {
  }

  lemma {:induction false} RenderedLineList(links: seq<string>, target: string, repo: string)
    requires IsLine(LinkLine(UNRELEASED, CompareUrl(repo, target))) && IsLine(LinkLine(target, ReleaseUrl(repo, target)))
    requires AllLinks(links) && LineList(links)
    ensures var r := RenderLinks(links, target, repo);
            LineList(r.lines) && (AreLines(links) ==> AreLines(r.lines))
            && (links != [] ==> r.lines != []) && (r.inserted ==> r.lines != [])
  {
    if links != [] {
      var n := |links| - 1;
      LinesAreList(links[..n]);
      RenderedLineList(links[..n], target, repo);
      assert IsLink(links[n]);
      RenderLineIsLine(RenderLinks(links[..n], target, repo), links[n], target, repo);
    }
  }

  // ---------------------------------------------------------------------------
  // The rewritten changelog, line by line
  // ---------------------------------------------------------------------------

  /** The sections around a release cut: up to the Unreleased heading, under it, and from the next
      heading on. */
  datatype Cut = Cut(kept: seq<string>, mid: seq<string>, rest: seq<string>)

  function CutAt(sections: seq<string>, u: nat): Cut
    requires u < |sections|
  {
    var n := NextHeading(sections, u + 1);
    Cut(sections[..u + 1], sections[u + 1..n], sections[n..])
  }

  function BodyLines(cut: Cut): seq<string> {
    KeepLines(StripEnd(StripStart(Concat(cut.mid))) + "\n")
  }

  /** The lines of a release heading: one, unless the date breaks it. */
  function HeadingLines(target: string, date: string): seq<string> {
    KeepLines(HeadingLine(target, date))
  }

  function NewSections(cut: Cut, heading: seq<string>): seq<string> {
    cut.kept + (["\n"] + heading + ["\n"]) + BodyLines(cut)
    + (if cut.rest == [] then [] else ["\n"] + cut.rest)
  }

  lemma {:induction false} StripEndTwice(s: string)
    ensures StripEnd(StripEnd(s)) == StripEnd(s)
    decreases |s|
  {
    if s != "" && s[|s| - 1] == '\n' {
      StripEndTwice(s[..|s| - 1]);
    }
  }

  lemma {:induction false} ConcatOfRest(rest: seq<string>)
    requires rest == [] || IsHeading(rest[0])
    ensures StripStart(Concat(rest)) == Concat(rest)
    ensures Concat(rest) == "" <==> rest == []
  {
    if rest != [] {
      assert Concat(rest)[0] == rest[0][0] == HASHES[0];
    }
  }

  lemma {:induction false} BodyLinesText(cut: Cut)
    ensures AreLines(BodyLines(cut))
    ensures Concat(BodyLines(cut)) == StripEnd(StripStart(Concat(cut.mid))) + "\n"
  {
    KeepLinesAreLines(StripEnd(StripStart(Concat(cut.mid))) + "\n");
    ConcatKeepLines(StripEnd(StripStart(Concat(cut.mid))) + "\n");
  }

  lemma {:induction false} ConcatSmall(line: string)
    ensures Concat([line]) == line
  {
    assert [line][1..] == [];
  }

  lemma {:induction false} ConcatThree(a: seq<string>, b: seq<string>, c: seq<string>, d: seq<string>)
    ensures Concat(a + b + c + d) == Concat(a) + Concat(b) + Concat(c) + Concat(d)
  {
    ConcatAppend(a, b);
    ConcatAppend(a + b, c);
    ConcatAppend(a + b + c, d);
  }

  lemma {:induction false} NewSectionsText(cut: Cut, heading: seq<string>)
    requires cut.rest == [] || IsHeading(cut.rest[0])
    ensures Concat(NewSections(cut, heading))
         == Concat(cut.kept) + ("\n" + Concat(heading) + "\n")
            + (StripEnd(StripStart(Concat(cut.mid))) + "\n")
            + (if cut.rest == [] then "" else "\n" + Concat(cut.rest))
  {
    hide BodyLines, StripStart, StripEnd, Concat;
    ConcatNone();
    BodyLinesText(cut);
    ConcatSmall("\n");
    ConcatAppend(["\n"], heading);
    ConcatAppend(["\n"] + heading, ["\n"]);
    ConcatAppend(["\n"], cut.rest);
    ConcatThree(cut.kept, ["\n"] + heading + ["\n"], BodyLines(cut), if cut.rest == [] then [] else ["\n"] + cut.rest);
  }

  // What was put together is the text of the new section lines and the links.
  lemma {:induction false} AssembledText(parts: Parts, u: nat, links: seq<string>, target: string, date: string)
    requires u < |parts.sections|
    ensures Assembled(parts, u, links, target, date)
         == Concat(NewSections(CutAt(parts.sections, u), HeadingLines(target, date))) + Concat(links)
  {
    hide StripStart, StripEnd, NewSections, Concat, HeadingLine, KeepLines;
    var cut := CutAt(parts.sections, u);
    ConcatOfRest(cut.rest);
    StripEndTwice(StripStart(Concat(cut.mid)));
    NewSectionsText(cut, HeadingLines(target, date));
    ConcatKeepLines(HeadingLine(target, date));
    HeadingText(target, date);
    Reassociate(Concat(cut.kept), HeadingLine(target, date), StripEnd(StripStart(Concat(cut.mid))));
  }

  lemma {:induction false} HeadingText(target: string, date: string)
    ensures "## [" + target + "] - " + date + "\n\n" == HeadingLine(target, date) + "\n"
  {
    assert "\n" + "\n" == "\n\n";
  }

  lemma {:induction false} Reassociate(k: string, t: string, b: string)
    ensures k + "\n" + (t + "\n") + b + "\n" == k + ("\n" + t + "\n") + (b + "\n")
  {
  }

  lemma {:induction false} AreLinesAppend(a: seq<string>, b: seq<string>)
    requires AreLines(a) && AreLines(b)
    ensures AreLines(a + b)
  {
  }

  lemma {:induction false} NewSectionsAreLines(sections: seq<string>, u: nat, heading: seq<string>)
    requires u < |sections| && AreLines(sections) && AreLines(heading)
    ensures AreLines(NewSections(CutAt(sections, u), heading))
  {
    hide KeepLines, BodyLines, NextHeading;
    var cut := CutAt(sections, u);
    BodyLinesText(cut);
    assert IsLine("\n");
    assert AreLines(cut.kept) && AreLines(cut.rest) && AreLines(["\n"]);
    hide IsLine, AreLines;
    AreLinesAppend(["\n"], cut.rest);
    AreLinesAppend(["\n"], heading);
    AreLinesAppend(["\n"] + heading, ["\n"]);
    AreLinesAppend(cut.kept, ["\n"] + heading + ["\n"]);
    AreLinesAppend(cut.kept + (["\n"] + heading + ["\n"]), BodyLines(cut));
    if cut.rest != [] {
      AreLinesAppend(cut.kept + (["\n"] + heading + ["\n"]) + BodyLines(cut), ["\n"] + cut.rest);
    } else {
      AppendNothing(cut.kept + (["\n"] + heading + ["\n"]) + BodyLines(cut));
    }
  }

  lemma {:induction false} AppendNothing(lines: seq<string>)
    ensures lines + [] == lines
  {
  }

  // Body lines are lines that stood under Unreleased, or empty.
  lemma {:induction false} BodyLinesAreOld(sections: seq<string>, u: nat)
    requires u < |sections| && AreLines(sections)
    ensures var cut := CutAt(sections, u);
            Inked(BodyLines(cut)) == Inked(cut.mid)
            && forall i :: 0 <= i < |BodyLines(cut)| ==> BodyLines(cut)[i] == "\n" || BodyLines(cut)[i] in cut.mid
  {
    var cut := CutAt(sections, u);
    var s := Concat(cut.mid);
    KeepLinesOf(cut.mid, "");
    assert s + "" == s && cut.mid + [] == cut.mid && KeepLines("") == [];
    MidEnded(cut.mid);
    StripStartKeepsInk(s);
    StripEndKeepsInk(StripStart(s));
    forall i | 0 <= i < |BodyLines(cut)|
      ensures BodyLines(cut)[i] == "\n" || BodyLines(cut)[i] in cut.mid
    {
      InkedMembers(BodyLines(cut), BodyLines(cut)[i]);
      InkedMembers(cut.mid, BodyLines(cut)[i]);
    }
  }

  lemma {:induction false} MidEnded(lines: seq<string>)
    requires AreLines(lines)
    ensures Ended(Concat(lines))
  {
    if lines != [] {
      MidEnded(lines[1..]);
      assert IsLine(lines[0]) && AreLines(lines[1..]);
    }
  }

  // ---------------------------------------------------------------------------
  // The rewritten changelog, judged
  // ---------------------------------------------------------------------------

  predicate NoneIsLink(lines: seq<string>) {
    forall i :: 0 <= i < |lines| ==> !IsLink(lines[i])
  }

  lemma {:induction false} NoneIsLinkAppend(a: seq<string>, b: seq<string>)
    requires NoneIsLink(a) && NoneIsLink(b)
    ensures NoneIsLink(a + b)
  {
  }

  lemma {:induction false} EmptyIsNoLink()
    ensures !IsLink("\n")
  {
  }

  lemma {:induction false} NewSectionsHaveNoLink(sections: seq<string>, u: nat, heading: seq<string>)
    requires u < |sections| && AreLines(sections) && NoneIsLink(sections) && NoneIsLink(heading)
    ensures NoneIsLink(NewSections(CutAt(sections, u), heading))
  {
    hide ParseLink, KeepLines, BodyLines, AreLines, IsLink, NextHeading;
    var cut := CutAt(sections, u);
    BodyLinesAreOld(sections, u);
    EmptyIsNoLink();
    assert NoneIsLink(cut.kept) && NoneIsLink(cut.mid) && NoneIsLink(cut.rest) && NoneIsLink(["\n"]);
    assert NoneIsLink(BodyLines(cut));
    NoneIsLinkAppend(["\n"], cut.rest);
    NoneIsLinkAppend(["\n"], heading);
    NoneIsLinkAppend(["\n"] + heading, ["\n"]);
    NoneIsLinkAppend(cut.kept, ["\n"] + heading + ["\n"]);
    NoneIsLinkAppend(cut.kept + (["\n"] + heading + ["\n"]), BodyLines(cut));
  }

  lemma {:induction false} LineListParts(a: seq<string>, b: seq<string>)
    requires LineList(a + b) && b != []
    ensures AreLines(a) && LineList(b)
  {
    var all := a + b;
    var front := all[..|all| - 1];
    assert a == front[..|a|] && b[..|b| - 1] == front[|a|..];
    hide IsLine, LastLineOk;
    assert AreLines(front);
  }

  lemma {:induction false} SplitFacts(text: string)
    requires SplitChangelog(text).Ok?
    ensures var p := SplitChangelog(text).value;
            AreLines(p.sections) && NoneIsLink(p.sections) && LineList(p.links) && p.links != []
            && IsLink(p.links[0])
  {
    hide IsLink, KeepLines, AreLines, LineList;
    var p := SplitChangelog(text).value;
    KeepLinesAreLines(text);
    assert KeepLines(text) == p.sections + p.links;
    LineListParts(p.sections, p.links);
  }

  // Cutting line lists at their first link.
  lemma {:induction false} SplitAt(sections: seq<string>, links: seq<string>)
    requires AreLines(sections) && NoneIsLink(sections) && LineList(links) && links != [] && IsLink(links[0])
    ensures SplitChangelog(Concat(sections) + Concat(links)) == Ok(Parts(sections, links))
  {
    KeepLinesOf(sections, Concat(links));
    KeepLinesOfList(links);
    var lines := sections + links;
    FoundAt(lines, 0, IsLink, |sections|);
    assert lines[..|sections|] == sections && lines[|sections|..] == links;
  }

  predicate NamesUnreleased(links: seq<string>) {
    exists i :: 0 <= i < |links| && IsLink(links[i]) && ParseLink(links[i]).value.name == UNRELEASED
  }

  lemma {:induction false} SeenIfNamed(links: seq<string>, target: string, repo: string)
    requires AllLinks(links)
    ensures var r := RenderLinks(links, target, repo);
            r.seen == NamesUnreleased(links) && (r.seen ==> r.inserted)
  {
    hide ParseLink, LinkLine, CompareUrl, ReleaseUrl;
    if links != [] {
      var n := |links| - 1;
      SeenIfNamed(links[..n], target, repo);
      assert NamesUnreleased(links) == (NamesUnreleased(links[..n]) || ParseLink(links[n]).value.name == UNRELEASED) by {
        assert forall i :: 0 <= i < n ==> links[..n][i] == links[i];
      }
    }
  }

  /** What the rewriter accepts: an Unreleased heading with something under it, and links only from the first
      one on, one of which is named Unreleased. */
  lemma {:induction false} RewriterAccepts(sections: seq<string>, links: seq<string>, target: string, date: string, repo: string)
    requires AreLines(sections) && NoneIsLink(sections) && LineList(links) && links != [] && IsLink(links[0])
    ensures Rewritten(Concat(sections) + Concat(links), target, date, repo).Ok?
       <==> var u := UnreleasedAt(sections);
            u < |sections| && !PyBlank(BodyUnder(sections, u)) && AllLinks(links) && NamesUnreleased(links)
  {
    hide SplitChangelog, UnreleasedAt, BodyUnder, PyBlank, NamesUnreleased, IsLink, AreLines, LineList, NoneIsLink;
    SplitAt(sections, links);
    if AllLinks(links) {
      SeenIfNamed(links, target, repo);
    }
  }

  lemma {:induction false} RewrittenParts(text: string, target: string, date: string, repo: string)
    requires Rewritten(text, target, date, repo).Ok?
    requires IsCleanTarget(target) && NoSpace(repo) && NoneIsLink(HeadingLines(target, date))
    ensures var parts := SplitChangelog(text).value;
            SplitChangelog(Rewritten(text, target, date, repo).value)
            == Ok(Parts(NewSections(CutAt(parts.sections, UnreleasedAt(parts.sections)), HeadingLines(target, date)),
                        RenderLinks(parts.links, target, repo).lines))
  {
    hide SplitChangelog, Assembled, NewSections, AreLines, NoneIsLink, LineList, RenderLinks, IsLink, Concat, HeadingLines,
         UnreleasedAt, BodyUnder, CutAt, IsCleanTarget, NoSpace;
    AcceptedIsSplit(text, target, date, repo);
    var parts := SplitChangelog(text).value;
    AcceptedParts(text, parts, target, date, repo);
    SplitFacts(text);
    var u := UnreleasedAt(parts.sections);
    var links := RenderLinks(parts.links, target, repo).lines;
    GeneratedLinksAreLines(target, repo);
    RenderedLineList(parts.links, target, repo);
    LinksAreRendered(parts.links, target, repo);
    HeadingLinesAreLines(target, date);
    NewSectionsAreLines(parts.sections, u, HeadingLines(target, date));
    NewSectionsHaveNoLink(parts.sections, u, HeadingLines(target, date));
    RewrittenText(text, parts, target, date, repo);
    assert IsLink(links[0]);
    SplitAt(NewSections(CutAt(parts.sections, u), HeadingLines(target, date)), links);
  }

  // The rewritten text, line by line up to the links.
  lemma {:induction false} RewrittenText(text: string, parts: Parts, target: string, date: string, repo: string)
    requires SplitChangelog(text) == Ok(parts) && Rewritten(text, target, date, repo).Ok?
    ensures UnreleasedAt(parts.sections) < |parts.sections| && AllLinks(parts.links)
    ensures Rewritten(text, target, date, repo).value
         == Concat(NewSections(CutAt(parts.sections, UnreleasedAt(parts.sections)), HeadingLines(target, date)))
            + Concat(RenderLinks(parts.links, target, repo).lines)
  {
    hide SplitChangelog, Assembled, NewSections, RenderLinks, Concat, HeadingLines, UnreleasedAt, CutAt, AllLinks, BodyUnder;
    AssembledText(parts, UnreleasedAt(parts.sections), RenderLinks(parts.links, target, repo).lines, target, date);
  }

  lemma {:induction false} HeadingLinesAreLines(target: string, date: string)
    ensures AreLines(HeadingLines(target, date))
  {
    hide KeepLines;
    KeepLinesAreLines(HeadingLine(target, date));
  }

  lemma {:induction false} StripSurround(body: string, tail: string)
    requires body != "" && body[0] != '\n' && body[|body| - 1] != '\n' && tail in ["\n", "\n\n"]
    ensures StripEnd(StripStart("\n" + (body + tail))) == body
  {
    var s := body + tail;
    assert ("\n" + s)[1..] == s && s[0] == body[0];
    assert s[..|s| - 1] == body + tail[..|tail| - 1];
    StripEndStops(body);
    if tail == "\n\n" {
      assert tail[..1] == "\n";
      assert (body + "\n")[..|body|] == body;
    } else {
      assert body + tail[..0] == body;
    }
  }

  lemma {:induction false} StrippedBody(s: string)
    ensures var b := StripEnd(StripStart(s)); b != "" ==> b[0] != '\n' && b[|b| - 1] != '\n'
  {
    StripStartStops(s);
    StripEndShape(StripStart(s));
  }

  lemma {:induction false} StripStartStops(s: string)
    ensures var r := StripStart(s); r != "" ==> r[0] != '\n'
  {
    if s != "" && s[0] == '\n' {
      StripStartStops(s[1..]);
    }
  }

  lemma {:induction false} StripEndShape(s: string)
    ensures var r := StripEnd(s); r <= s && (r != "" ==> r[|r| - 1] != '\n')
  {
    if s != "" && s[|s| - 1] == '\n' {
      StripEndShape(s[..|s| - 1]);
    }
  }

  predicate NoneIsHeading(lines: seq<string>) {
    forall i :: 0 <= i < |lines| ==> !IsHeading(lines[i])
  }

  lemma {:induction false} BodyHasNoHeading(sections: seq<string>, u: nat)
    requires u < |sections| && AreLines(sections)
    ensures NoneIsHeading(BodyLines(CutAt(sections, u)))
  {
    var cut := CutAt(sections, u);
    BodyLinesAreOld(sections, u);
    hide BodyLines, AreLines;
    assert forall i :: 0 <= i < |cut.mid| ==> cut.mid[i] == sections[u + 1 + i];
    assert !IsHeading("\n");
  }

  // After a heading-free stretch the next heading is the one that follows it.
  lemma {:induction false} HeadingAfter(before: seq<string>, stretch: seq<string>, rest: seq<string>)
    requires NoneIsHeading(stretch) && (rest == [] || IsHeading(rest[0]))
    ensures NextHeading(before + stretch + rest, |before|) == |before + stretch|
  {
    var all := before + stretch + rest;
    assert forall j :: |before| <= j < |before + stretch| ==> all[j] == stretch[j - |before|];
    hide IsHeading;
    if rest == [] {
      FoundNowhere(all, |before|, IsHeading);
    } else {
      assert all[|before + stretch|] == rest[0];
      FoundAt(all, |before|, IsHeading, |before + stretch|);
    }
  }

  lemma {:induction false} UnreleasedInPrefix(sections: seq<string>, more: seq<string>)
    requires UnreleasedAt(sections) < |sections|
    ensures UnreleasedAt(sections[..UnreleasedAt(sections) + 1] + more) == UnreleasedAt(sections)
  {
    var u := UnreleasedAt(sections);
    var all := sections[..u + 1] + more;
    assert forall j :: 0 <= j <= u ==> all[j] == sections[j];
    FoundAt(all, 0, line => UNRELEASED_HEADING <= line, u);
  }

  // What follows the Unreleased heading: the release heading, its body, and the older headings.
  function AfterUnreleased(cut: Cut, h: string): seq<string> {
    ["\n", h, "\n"] + BodyLines(cut) + (if cut.rest == [] then [] else ["\n"] + cut.rest)
  }

  // The new sections as lines up to the release heading, a stretch without headings, and the old rest.
  lemma {:induction false} NewSectionsAround(cut: Cut, h: string)
    ensures var all := NewSections(cut, [h]);
            var stretch := ["\n"] + BodyLines(cut) + (if cut.rest == [] then [] else ["\n"]);
            all == cut.kept + AfterUnreleased(cut, h)
            && all == cut.kept + ["\n"] + ([h] + stretch + cut.rest)
            && all == (cut.kept + ["\n", h]) + stretch + cut.rest
  {
    hide BodyLines;
    assert ["\n"] + [h] + ["\n"] == ["\n", h, "\n"];
  }

  lemma {:induction false} StretchHasNoHeading(body: seq<string>, tail: seq<string>)
    requires NoneIsHeading(body) && (tail == [] || tail == ["\n"])
    ensures NoneIsHeading(["\n"] + body + tail) && NoneIsHeading(["\n"])
  {
    assert !IsHeading("\n");
    hide IsHeading;
  }

  lemma {:induction false} HeadingStands(sections: seq<string>, h: string)
    requires UnreleasedAt(sections) < |sections|
    ensures var u := UnreleasedAt(sections); var now := NewSections(CutAt(sections, u), [h]);
            u + 2 < |now| && now[u + 2] == h
  {
    hide BodyLines, UnreleasedAt;
  }

  // Where the headings of the new sections stand: u, then the release two lines on, then the old ones.
  lemma {:induction false} NewHeadings(sections: seq<string>, h: string)
    requires UnreleasedAt(sections) < |sections| && AreLines(sections) && IsHeading(h)
    ensures var u := UnreleasedAt(sections); var cut := CutAt(sections, u); var after := NewSections(cut, [h]);
            UnreleasedAt(after) == u && NextHeading(after, u + 1) == u + 2
            && after[u + 2] == h
            && NextHeading(after, u + 3) == |after| - |cut.rest|
  {
    var u := UnreleasedAt(sections);
    var cut := CutAt(sections, u);
    var stretch := ["\n"] + BodyLines(cut) + (if cut.rest == [] then [] else ["\n"]);
    NewSectionsAround(cut, h);
    BodyHasNoHeading(sections, u);
    hide BodyLines, IsLine, AreLines, NewSections, AfterUnreleased, IsHeading, NoneIsHeading;
    StretchHasNoHeading(BodyLines(cut), if cut.rest == [] then [] else ["\n"]);
    UnreleasedInPrefix(sections, AfterUnreleased(cut, h));
    HeadingAfter(cut.kept, ["\n"], [h] + stretch + cut.rest);
    HeadingAfter(cut.kept + ["\n", h], stretch, cut.rest);
  }

  // The text between the release heading and the next one, stripped, is the old Unreleased body.
  lemma {:induction false} StretchBody(cut: Cut)
    requires StripEnd(StripStart(Concat(cut.mid))) != ""
    ensures var stretch := ["\n"] + BodyLines(cut) + (if cut.rest == [] then [] else ["\n"]);
            StripEnd(StripStart(Concat(stretch))) == StripEnd(StripStart(Concat(cut.mid)))
  {
    hide BodyLines, StripStart, StripEnd;
    var body := StripEnd(StripStart(Concat(cut.mid)));
    var tail := if cut.rest == [] then [] else ["\n"];
    var end := if cut.rest == [] then "\n" else "\n\n";
    StrippedBody(Concat(cut.mid));
    BodyLinesText(cut);
    ConcatSmall("\n");
    ConcatAppend(["\n"] + BodyLines(cut), tail);
    ConcatAppend(["\n"], BodyLines(cut));
    StripSurround(body, end);
    assert Concat(["\n"] + BodyLines(cut) + tail) == "\n" + (body + end);
  }

  lemma {:induction false} NewBodies(sections: seq<string>, h: string)
    requires UnreleasedAt(sections) < |sections| && AreLines(sections) && IsHeading(h)
    requires BodyUnder(sections, UnreleasedAt(sections)) != ""
    ensures var u := UnreleasedAt(sections); var after := NewSections(CutAt(sections, u), [h]);
            u + 2 < |after| && BodyUnder(after, u) == "" && BodyUnder(after, u + 2) == BodyUnder(sections, u)
  {
    hide BodyLines, AreLines, StripStart, StripEnd, Concat, NewSections, AfterUnreleased, UnreleasedAt, NextHeading, IsHeading;
    var u := UnreleasedAt(sections);
    var cut := CutAt(sections, u);
    var after := NewSections(cut, [h]);
    var stretch := ["\n"] + BodyLines(cut) + (if cut.rest == [] then [] else ["\n"]);
    NewHeadings(sections, h);
    NewSectionsAround(cut, h);
    StretchBody(cut);
    EmptyBody();
    assert after[u + 1..u + 2] == ["\n"];
    assert after[u + 3..|after| - |cut.rest|] == stretch;
  }

  lemma {:induction false} EmptyBody()
    ensures StripEnd(StripStart(Concat(["\n"]))) == ""
  {
    ConcatSmall("\n");
    assert "\n"[1..] == "";
  }

  lemma {:induction false} InkedOfHead(h: string)
    requires h != "\n"
    ensures Inked(["\n", h, "\n"]) == [h]
  {
    InkedCons("\n", []);
    InkedCons(h, ["\n"]);
    InkedCons("\n", [h, "\n"]);
    assert ["\n"] == ["\n"] + [] && [h, "\n"] == [h] + ["\n"] && ["\n", h, "\n"] == ["\n"] + [h, "\n"];
  }

  lemma {:induction false} InkedThree(a: seq<string>, b: seq<string>, c: seq<string>, d: seq<string>)
    ensures Inked(a + b + c + d) == Inked(a) + Inked(b) + Inked(c) + Inked(d)
  {
    InkedAppend(a, b);
    InkedAppend(a + b, c);
    InkedAppend(a + b + c, d);
  }

  lemma {:induction false} InkedSections(sections: seq<string>, u: nat, h: string)
    requires u < |sections| && AreLines(sections) && h != "\n"
    ensures Inked(NewSections(CutAt(sections, u), [h])) == Inked(sections[..u + 1]) + [h] + Inked(sections[u + 1..])
  {
    hide Inked, BodyLines, AreLines, NextHeading;
    var cut := CutAt(sections, u);
    BodyLinesAreOld(sections, u);
    InkedOfHead(h);
    InkedOfTail(cut.rest);
    assert sections[u + 1..] == cut.mid + cut.rest;
    assert ["\n"] + [h] + ["\n"] == ["\n", h, "\n"];
    InkedAppend(cut.mid, cut.rest);
    InkedThree(cut.kept, ["\n", h, "\n"], BodyLines(cut), if cut.rest == [] then [] else ["\n"] + cut.rest);
    Regroup(Inked(cut.kept) + [h], Inked(cut.mid), Inked(cut.rest));
  }

  lemma {:induction false} InkedOfTail(rest: seq<string>)
    ensures Inked(if rest == [] then [] else ["\n"] + rest) == Inked(rest)
  {
    InkedCons("\n", rest);
  }

  // What the analyser says of parts laid out like a finished release.
  lemma {:induction false} JudgedPrepared(text: string, parts: Parts, u: nat, target: string, repo: string)
    requires SplitChangelog(text) == Ok(parts)
    requires u + 2 < |parts.sections| && UnreleasedAt(parts.sections) == u && BodyUnder(parts.sections, u) == ""
    requires HeadingVersion(parts.sections[u + 2]) == Some(target) && AllLinks(parts.links)
    requires LookUp(parts.links, UNRELEASED) == Some(CompareUrl(repo, target))
    requires LookUp(parts.links, target) == Some(ReleaseUrl(repo, target))
    ensures Analyze(text, target, repo) == Ok(Analysis("", true, true))
  {
    hide SplitChangelog, UnreleasedAt, BodyUnder, HeadingVersion, LookUp, CompareUrl, ReleaseUrl, AllLinks;
    assert HasSection(parts.sections, target);
  }

  /** A changelog is prepared exactly if there is nothing but white space under its Unreleased heading, a heading names the
      release, and both links, among nothing but links, lead where they should. */
  lemma {:induction false} PreparedIsSpelled(text: string, target: string, repo: string)
    requires SplitChangelog(text).Ok?
    ensures var parts := SplitChangelog(text).value;
            var u := UnreleasedAt(parts.sections);
            IsPrepared(text, target, repo)
            <==> u < |parts.sections| && PyBlank(BodyUnder(parts.sections, u))
                 && (exists i :: 0 <= i < |parts.sections| && HeadingVersion(parts.sections[i]) == Some(target))
                 && (forall i :: 0 <= i < |parts.links| ==> ParseLink(parts.links[i]).Some?)
                 && LookUp(parts.links, "Unreleased") == Some(repo + "/compare/v" + target + "...HEAD")
                 && LookUp(parts.links, target) == Some(repo + "/releases/tag/v" + target)
  {
    hide SplitChangelog, UnreleasedAt, BodyUnder, HeadingVersion, ParseLink, LookUp, PyBlank;
  }

  lemma {:induction false} PreparedLinks(text: string, target: string, repo: string)
    requires IsPrepared(text, target, repo)
    ensures SplitChangelog(text).Ok?
    ensures var links := SplitChangelog(text).value.links;
            LookUp(links, "Unreleased") == Some(repo + "/compare/v" + target + "...HEAD")
            && LookUp(links, target) == Some(repo + "/releases/tag/v" + target)
  {
    hide SplitChangelog, UnreleasedAt, BodyUnder, HasSection, LookUp, AllLinks;
  }

  /** For any changelog the rewriter accepts, the result is judged prepared exactly if the URL holds no blank. Then
      every line of the sections but empty ones survives in order with one heading added, the Unreleased body stands
      verbatim under that heading, and every link other than Unreleased and the target is kept in order. */
  lemma {:induction false} ReleaseCutIsPrepared(text: string, target: string, date: string, repo: string)
    requires Rewritten(text, target, date, repo).Ok?
    requires IsCleanTarget(target) && IsCleanDate(date)
    ensures IsPrepared(Rewritten(text, target, date, repo).value, target, repo) <==> NoSpace(repo)
    ensures NoSpace(repo) ==>
              var released := Rewritten(text, target, date, repo).value;
              Analyze(released, target, repo) == Ok(Analysis("", true, true))
              && SplitChangelog(text).Ok? && SplitChangelog(released).Ok?
              && var before, now := SplitChangelog(text).value, SplitChangelog(released).value;
                 var u := UnreleasedAt(before.sections);
                 u < |before.sections|
                 && Inked(now.sections)
                    == Inked(before.sections[..u + 1]) + [HeadingLine(target, date)] + Inked(before.sections[u + 1..])
                 && u + 2 < |now.sections| && HeadingVersion(now.sections[u + 2]) == Some(target)
                 && BodyUnder(now.sections, u + 2) == BodyUnder(before.sections, u)
                 && OtherLinks(now.links, target) == OtherLinks(before.links, target)
  {
    hide HeadingLine, Inked, HeadingVersion, BodyUnder, OtherLinks, UnreleasedAt, RenderLinks, Analyze, NewSections, CutAt,
         Rewritten, SplitChangelog, NoSpace;
    AcceptedIsSplit(text, target, date, repo);
    if NoSpace(repo) {
      RewrittenOnParts(text, SplitChangelog(text).value, target, date, repo);
    } else if IsPrepared(Rewritten(text, target, date, repo).value, target, repo) {
      PreparedUrl(Rewritten(text, target, date, repo).value, target, repo);
    }
  }

  /** The heading and the links of such a result, spelled out: the heading stands two lines below Unreleased's, whose link
      compares with the release, and the release's own link leads to its tag. */
  lemma {:induction false} ReleaseCutIsSpelled(text: string, target: string, date: string, repo: string)
    requires Rewritten(text, target, date, repo).Ok?
    requires IsCleanTarget(target) && IsCleanDate(date) && NoSpace(repo)
    ensures SplitChangelog(text).Ok? && SplitChangelog(Rewritten(text, target, date, repo).value).Ok?
    ensures var before, now := SplitChangelog(text).value, SplitChangelog(Rewritten(text, target, date, repo).value).value;
            var u := UnreleasedAt(before.sections);
            u + 2 < |now.sections| && now.sections[u + 2] == "## [" + target + "] - " + date + "\n"
            && LookUp(now.links, "Unreleased") == Some(repo + "/compare/v" + target + "...HEAD")
            && LookUp(now.links, target) == Some(repo + "/releases/tag/v" + target)
  {
    hide Inked, HeadingVersion, BodyUnder, OtherLinks, UnreleasedAt, RenderLinks, NewSections, CutAt, Rewritten,
         SplitChangelog, NoSpace, LookUp;
    AcceptedIsSplit(text, target, date, repo);
    RewrittenOnParts(text, SplitChangelog(text).value, target, date, repo);
    PreparedLinks(Rewritten(text, target, date, repo).value, target, repo);
  }

  lemma {:induction false} AcceptedIsSplit(text: string, target: string, date: string, repo: string)
    requires Rewritten(text, target, date, repo).Ok?
    ensures SplitChangelog(text).Ok?
  {
    hide SplitChangelog, RenderLinks, AllLinks, Assembled, BodyUnder, UnreleasedAt;
  }

  lemma {:induction false} AcceptedParts(text: string, parts: Parts, target: string, date: string, repo: string)
    requires SplitChangelog(text) == Ok(parts) && Rewritten(text, target, date, repo).Ok?
    ensures UnreleasedAt(parts.sections) < |parts.sections| && BodyUnder(parts.sections, UnreleasedAt(parts.sections)) != ""
    ensures AllLinks(parts.links)
    ensures RenderLinks(parts.links, target, repo).seen && RenderLinks(parts.links, target, repo).inserted
  {
    hide SplitChangelog, RenderLinks, AllLinks, Assembled;
  }

  lemma {:induction false} RewrittenOnParts(text: string, parts: Parts, target: string, date: string, repo: string)
    requires SplitChangelog(text) == Ok(parts) && Rewritten(text, target, date, repo).Ok?
    requires IsCleanTarget(target) && IsCleanDate(date) && NoSpace(repo)
    ensures var u := UnreleasedAt(parts.sections);
            u < |parts.sections|
            && var now := NewSections(CutAt(parts.sections, u), [HeadingLine(target, date)]);
               var links := RenderLinks(parts.links, target, repo).lines;
               SplitChangelog(Rewritten(text, target, date, repo).value) == Ok(Parts(now, links))
               && Analyze(Rewritten(text, target, date, repo).value, target, repo) == Ok(Analysis("", true, true))
               && Inked(now)
                  == Inked(parts.sections[..u + 1]) + [HeadingLine(target, date)] + Inked(parts.sections[u + 1..])
               && u + 2 < |now| && now[u + 2] == HeadingLine(target, date) && HeadingVersion(now[u + 2]) == Some(target)
               && BodyUnder(now, u + 2) == BodyUnder(parts.sections, u)
               && OtherLinks(links, target) == OtherLinks(parts.links, target)
  {
    hide SplitChangelog, BodyUnder, NewSections, RenderLinks, HeadingVersion, HeadingLine, LookUp, NextHeading, HeadingLines,
         Rewritten, AllLinks, AreLines, LineList, UnreleasedAt, Inked, OtherLinks, Analyze, CutAt, IsLink;
    AcceptedParts(text, parts, target, date, repo);
    var u, h := UnreleasedAt(parts.sections), HeadingLine(target, date);
    var now := NewSections(CutAt(parts.sections, u), [h]);
    var links := RenderLinks(parts.links, target, repo).lines;
    SplitFacts(text);
    GeneratedHeading(target, date);
    RewrittenParts(text, target, date, repo);
    LinksAreRendered(parts.links, target, repo);
    NewHeadings(parts.sections, h);
    HeadingStands(parts.sections, h);
    NewBodies(parts.sections, h);
    InkedSections(parts.sections, u, h);
    JudgedPrepared(Rewritten(text, target, date, repo).value, Parts(now, links), u, target, repo);
  }

  // ---------------------------------------------------------------------------
  // What is prepared, and what cannot be analysed
  // ---------------------------------------------------------------------------

  lemma {:induction false} LinkIsClean(line: string)
    ensures IsLink(line) ==> NoSpace(ParseLink(line).value.url)
  {
    hide SplitOnce;
  }

  lemma {:induction false} LookUpIsClean(links: seq<string>, name: string)
    ensures LookUp(links, name).Some? ==> NoSpace(LookUp(links, name).value)
  {
    hide ParseLink, NoSpace;
    if links != [] {
      LinkIsClean(links[|links| - 1]);
      LookUpIsClean(links[..|links| - 1], name);
    }
  }

  /** A changelog is prepared for no URL with a blank: none is read back from a link. */
  lemma {:induction false} PreparedUrl(text: string, target: string, repo: string)
    requires IsPrepared(text, target, repo)
    ensures NoSpace(repo)
  {
    hide SplitChangelog, UnreleasedAt, BodyUnder, HasSection, LookUp, AllLinks;
    LookUpIsClean(SplitChangelog(text).value.links, UNRELEASED);
    var url := CompareUrl(repo, target);
    assert forall i :: 0 <= i < |repo| ==> repo[i] == url[i];
  }

  lemma {:induction false} CompareUrlTells(a: string, b: string, version: string)
    requires CompareUrl(a, version) == CompareUrl(b, version)
    ensures a == b
  {
    var end := "/compare/v" + version + "...HEAD";
    assert CompareUrl(a, version) == a + end && CompareUrl(b, version) == b + end;
    Slices(a, end);
    Slices(b, end);
  }

  // Where a link comes before a line that is none, there is nothing to analyse.
  lemma {:induction false} LinkBeforeOther(text: string, i: nat, j: nat, target: string, repo: string)
    requires i < j < |KeepLines(text)| && IsLink(KeepLines(text)[i]) && !IsLink(KeepLines(text)[j])
    ensures Analyze(text, target, repo).Error?
  {
    hide KeepLines, IsLink, UnreleasedAt, BodyUnder, HasSection, LookUp;
    var lines := KeepLines(text);
    var start := FindFrom(lines, 0, IsLink);
    assert start <= i && lines[start..][j - start] == lines[j];
  }
}

/** How a cut changelog is judged, whatever the URL and the date it was cut with. */
module Judged {
  import opened Text
  import opened Outcomes
  import opened Changelog

  // ---------------------------------------------------------------------------
  // Any URL and date
  // ---------------------------------------------------------------------------

  // Where the heading stands in the new sections, an empty line before and after it.
  lemma {:induction false} HeadingPlace(cut: Cut, heading: seq<string>)
    ensures var all, n := NewSections(cut, heading), |cut.kept|;
            n + 1 + |heading| < |all| && all[..n] == cut.kept && all[n] == all[n + 1 + |heading|] == "\n"
            && all[n + 1..n + 1 + |heading|] == heading
  {
    hide BodyLines;
    var more := BodyLines(cut) + if cut.rest == [] then [] else ["\n"] + cut.rest;
    assert NewSections(cut, heading) == cut.kept + (["\n"] + heading + ["\n"]) + more;
  }

  // Whatever the URL, the new sections come first.
  lemma {:induction false} RewrittenLines(text: string, parts: Parts, target: string, date: string, repo: string)
    requires SplitChangelog(text) == Ok(parts) && Rewritten(text, target, date, repo).Ok?
    ensures UnreleasedAt(parts.sections) < |parts.sections| && AllLinks(parts.links)
    ensures KeepLines(Rewritten(text, target, date, repo).value)
         == NewSections(CutAt(parts.sections, UnreleasedAt(parts.sections)), HeadingLines(target, date))
            + KeepLines(Concat(RenderLinks(parts.links, target, repo).lines))
  {
    hide SplitChangelog, NewSections, RenderLinks, Concat, HeadingLines, UnreleasedAt, CutAt, AllLinks, Rewritten, AreLines,
         NoneIsLink, LineList, KeepLines;
    SplitFacts(text);
    RewrittenText(text, parts, target, date, repo);
    HeadingLinesAreLines(target, date);
    NewSectionsAreLines(parts.sections, UnreleasedAt(parts.sections), HeadingLines(target, date));
    KeepLinesOf(NewSections(CutAt(parts.sections, UnreleasedAt(parts.sections)), HeadingLines(target, date)),
                Concat(RenderLinks(parts.links, target, repo).lines));
  }

  // What can be analysed holds no link in its new heading: an empty line follows.
  lemma {:induction false} HeadingHoldsNoLink(text: string, target: string, date: string, repo: string, other: string)
    requires Rewritten(text, target, date, repo).Ok? && Analyze(Rewritten(text, target, date, repo).value, target, other).Ok?
    ensures NoneIsLink(HeadingLines(target, date))
  {
    hide SplitChangelog, NewSections, RenderLinks, Concat, HeadingLines, UnreleasedAt, AllLinks, Rewritten, Analyze, KeepLines, IsLink;
    AcceptedIsSplit(text, target, date, repo);
    var parts, heading := SplitChangelog(text).value, HeadingLines(target, date);
    RewrittenLines(text, parts, target, date, repo);
    var cut := CutAt(parts.sections, UnreleasedAt(parts.sections));
    HeadingPlace(cut, heading);
    EmptyIsNoLink();
    forall i | 0 <= i < |heading|
      ensures !IsLink(heading[i])
    {
      var all, n := NewSections(cut, heading), |cut.kept|;
      assert heading[i] == all[n + 1..n + 1 + |heading|][i] == all[n + 1 + i];
      if IsLink(heading[i]) {
        LinkBeforeOther(Rewritten(text, target, date, repo).value, n + 1 + i, n + 1 + |heading|, target, other);
      }
    }
  }

  // The first line of a text that opens without a break opens the same.
  lemma {:induction false} FirstLineOpens(opening: string, rest: string)
    requires opening != "" && NoBreak(opening)
    ensures KeepLines(opening + rest) != [] && opening <= KeepLines(opening + rest)[0]
  {
    var s := opening + rest;
    if |opening| > 1 {
      FirstLineOpens(opening[1..], rest);
      assert s[1..] == opening[1..] + rest;
      assert opening == [opening[0]] + opening[1..];
    }
  }

  lemma {:induction false} HeadingOpens(target: string, date: string)
    ensures HeadingLines(target, date) != [] && IsHeading(HeadingLines(target, date)[0]) && !IsLink(HeadingLines(target, date)[0])
  {
    hide KeepLines;
    FirstLineOpens("## [", target + "] - " + date + "\n");
    assert HeadingLine(target, date) == "## [" + (target + "] - " + date + "\n");
    var line := HeadingLines(target, date)[0];
    assert "## ["[..3] == HASHES && "## [" <= line && line[..3] == "## ["[..3] && line[0] == '#';
  }

  /** Whatever the URL and date, nothing is left under Unreleased. */
  lemma {:induction false} NothingIsLeft(text: string, target: string, date: string, repo: string)
    requires Rewritten(text, target, date, repo).Ok? && SplitChangelog(Rewritten(text, target, date, repo).value).Ok?
    ensures var now := SplitChangelog(Rewritten(text, target, date, repo).value).value.sections;
            UnreleasedAt(now) < |now| && BodyUnder(now, UnreleasedAt(now)) == ""
  {
    hide NewSections, RenderLinks, Concat, HeadingLines, UnreleasedAt, AllLinks, Rewritten, KeepLines, IsLink, HasSection,
         LookUp, BodyUnder, IsHeading, SplitChangelog, AreLines;
    AcceptedIsSplit(text, target, date, repo);
    var parts, heading, released := SplitChangelog(text).value, HeadingLines(target, date), Rewritten(text, target, date, repo).value;
    RewrittenLines(text, parts, target, date, repo);
    SplitFacts(text);
    var u := UnreleasedAt(parts.sections);
    var cut := CutAt(parts.sections, u);
    HeadingPlace(cut, heading);
    HeadingOpens(target, date);
    EmptyIsNoLink();
    var lines, all := KeepLines(released), NewSections(cut, heading);
    assert heading[0] == all[u + 2..u + 2 + |heading|][0] == all[u + 2];
    assert forall i :: 0 <= i <= u ==> lines[i] == all[..u + 1][i] == parts.sections[i];
    SectionsOpen(released, parts.sections, u, lines);
  }

  // Sections that open with all up to the Unreleased heading, an empty line and another heading.
  lemma {:induction false} SectionsOpen(text: string, sections: seq<string>, u: nat, lines: seq<string>)
    requires lines == KeepLines(text) && SplitChangelog(text).Ok? && u == UnreleasedAt(sections) < |sections| && NoneIsLink(sections)
    requires u + 2 < |lines| && forall i :: 0 <= i <= u ==> lines[i] == sections[i]
    requires lines[u + 1] == "\n" && IsHeading(lines[u + 2]) && !IsLink(lines[u + 2])
    ensures var now := SplitChangelog(text).value.sections;
            u < |now| && UnreleasedAt(now) == u && BodyUnder(now, u) == ""
  {
    hide KeepLines, IsLink, IsHeading, Concat, StripStart, StripEnd;
    EmptyIsNoLink();
    var now := SplitChangelog(text).value.sections;
    assert forall i :: 0 <= i < |now| ==> now[i] == lines[i];
    assert |now| > u + 2 by {
      assert forall i :: 0 <= i <= u ==> !IsLink(lines[i]);
    }
    FoundAt(now, 0, line => UNRELEASED_HEADING <= line, u);
    EmptyIsNoHeading();
    FoundAt(now, u + 1, IsHeading, u + 2);
    assert now[u + 1..u + 2] == ["\n"];
    EmptyBody();
  }

  lemma {:induction false} EmptyIsNoHeading()
    ensures !IsHeading("\n") && NoneIsHeading(["\n"])
  {
  }

  lemma {:induction false} HasSectionAppend(a: seq<string>, b: seq<string>, target: string)
    ensures HasSection(a + b, target) <==> HasSection(a, target) || HasSection(b, target)
  {
    hide HeadingVersion;
    var all := a + b;
    assert forall i :: 0 <= i < |a| ==> all[i] == a[i];
    assert forall i :: 0 <= i < |b| ==> all[|a| + i] == b[i];
    if HasSection(b, target) {
      var i :| 0 <= i < |b| && HeadingVersion(b[i]) == Some(target);
      assert HeadingVersion(all[|a| + i]) == Some(target);
    }
    if HasSection(a, target) {
      var i :| 0 <= i < |a| && HeadingVersion(a[i]) == Some(target);
      assert HeadingVersion(all[i]) == Some(target);
    }
  }

  lemma {:induction false} NoHeadingNoSection(lines: seq<string>, target: string)
    requires NoneIsHeading(lines)
    ensures !HasSection(lines, target)
  {
    forall i | 0 <= i < |lines|
      ensures HeadingVersion(lines[i]).None?
    {
      assert "## ["[..3] == HASHES;
    }
  }

  lemma {:induction false} CutIsWhole(sections: seq<string>, u: nat)
    requires u < |sections|
    ensures var cut := CutAt(sections, u); sections == cut.kept + cut.mid + cut.rest && NoneIsHeading(cut.mid)
  {
    hide IsHeading;
    var cut := CutAt(sections, u);
    assert forall i :: 0 <= i < |cut.mid| ==> cut.mid[i] == sections[u + 1 + i];
  }

  // The versions the new sections name are those of the old ones and of the new heading.
  lemma {:induction false} SectionsNamed(sections: seq<string>, u: nat, heading: seq<string>, target: string)
    requires u < |sections| && AreLines(sections)
    ensures HasSection(NewSections(CutAt(sections, u), heading), target) <==> HasSection(heading, target) || HasSection(sections, target)
  {
    hide HasSection, BodyLines, CutAt, AreLines, NoneIsHeading;
    var cut := CutAt(sections, u);
    CutIsWhole(sections, u);
    BodyHasNoHeading(sections, u);
    EmptyIsNoHeading();
    NoHeadingNoSection(["\n"], target);
    NoHeadingNoSection(cut.mid, target);
    NoHeadingNoSection(BodyLines(cut), target);
    HasSectionAppend(cut.kept, cut.mid, target);
    HasSectionAppend(cut.kept + cut.mid, cut.rest, target);
    HasSectionAppend(["\n"], heading, target);
    HasSectionAppend(["\n"] + heading, ["\n"], target);
    HasSectionAppend(cut.kept, ["\n"] + heading + ["\n"], target);
    HasSectionAppend(cut.kept + (["\n"] + heading + ["\n"]), BodyLines(cut), target);
    HasSectionAppend(["\n"], cut.rest, target);
    if cut.rest == [] {
      AppendNothing(cut.kept + (["\n"] + heading + ["\n"]) + BodyLines(cut));
      AppendNothing(cut.kept + cut.mid);
    } else {
      HasSectionAppend(cut.kept + (["\n"] + heading + ["\n"]) + BodyLines(cut), ["\n"] + cut.rest, target);
    }
  }

  /** None of the lines of the heading made of a target and a date is taken for a link, and one names the target. */
  predicate HeadingFits(target: string, date: string) {
    NoneIsLink(HeadingLines(target, date)) && HasSection(HeadingLines(target, date), target)
  }

  /** A date of one line fits. */
  lemma {:induction false} CleanDateFits(target: string, date: string)
    requires IsCleanTarget(target) && IsCleanDate(date)
    ensures HeadingFits(target, date)
  {
    hide HeadingLines, HeadingLine, IsLink, HeadingVersion, IsCleanTarget, IsCleanDate;
    GeneratedHeading(target, date);
    assert HeadingVersion(HeadingLines(target, date)[0]) == Some(target);
  }

  lemma {:induction false} CutAnalyzed(text: string, parts: Parts, target: string, date: string, repo: string, other: string)
    requires SplitChangelog(text) == Ok(parts) && Rewritten(text, target, date, repo).Ok? && IsCleanTarget(target) && NoSpace(repo)
    requires NoneIsLink(HeadingLines(target, date))
    ensures var named := HasSection(HeadingLines(target, date), target) || HasSection(parts.sections, target);
            Analyze(Rewritten(text, target, date, repo).value, target, other) == Ok(Analysis("", named, named && other == repo))
  {
    hide SplitChangelog, RenderLinks, Rewritten, UnreleasedAt, HeadingLines, NewSections, CutAt, AllLinks, LookUp, BodyUnder,
         HasSection, CompareUrl, ReleaseUrl, IsCleanTarget, NoSpace, NoneIsLink, AreLines;
    AcceptedParts(text, parts, target, date, repo);
    SplitFacts(text);
    RewrittenParts(text, target, date, repo);
    LinksAreRendered(parts.links, target, repo);
    SectionsNamed(parts.sections, UnreleasedAt(parts.sections), HeadingLines(target, date), target);
    NothingIsLeft(text, target, date, repo);
    if CompareUrl(other, target) == CompareUrl(repo, target) {
      CompareUrlTells(other, repo, target);
    }
    EmptyIsBlank();
  }

  lemma {:induction false} EmptyIsBlank()
    ensures PyBlank("")
  {
  }

  // ---------------------------------------------------------------------------
  // A URL with blanks at its end
  // ---------------------------------------------------------------------------

  // A link line parses as far as its URL has no blank.
  lemma {:induction false} LinkUpToBlank(name: string, url: string, rest: string)
    requires name != "" && ']' !in name && url != "" && NoSpace(url) && rest != "" && IsPySpace(rest[0])
    ensures ParseLink("[" + name + "]: " + url + rest) == if PyBlank(rest) then Some(Link(name, url)) else None
  {
    hide SplitOnce;
    var line := "[" + name + "]: " + url + rest;
    var tail := " " + (url + rest);
    assert line[1..] == name + [']'] + (":" + tail);
    SplitOnceAt(name, ']', ":" + tail);
    assert (":" + tail)[1..] == tail;
    SpacesStop(url + rest);
    assert tail[1..] == url + rest;
    InkStops(url, rest);
    assert (url + rest)[..|url|] == url && (url + rest)[|url|..] == rest;
  }

  // In one line, such a link is none ...
  lemma {:induction false} TrailedIsNoLink(name: string, url: string, blanks: string, more: string)
    requires name != "" && ']' !in name && url != "" && NoSpace(url) && blanks != "" && PyBlank(blanks)
    requires more != "" && !IsPySpace(more[0])
    ensures !IsLink(LinkLine(name, url + blanks + more))
  {
    var rest := blanks + more + "\n";
    assert rest[|blanks|] == more[0];
    LinkUpToBlank(name, url, rest);
    assert LinkLine(name, url + blanks + more) == "[" + name + "]: " + url + rest;
  }

  lemma {:induction false} FirstBreak(s: string) returns (before: string, c: char, after: string)
    requires !NoBreak(s) && PyBlank(s)
    ensures s == before + [c] + after && NoBreak(before) && IsBreak(c) && PyBlank(before) && PyBlank(after)
  {
    if IsBreak(s[0]) {
      before, c, after := "", s[0], s[1..];
    } else {
      assert exists i :: 0 <= i < |s[1..]| && IsBreak(s[1..][i]) by {
        var i :| 0 <= i < |s| && IsBreak(s[i]);
        assert s[1..][i - 1] == s[i];
      }
      before, c, after := FirstBreak(s[1..]);
      before := [s[0]] + before;
      assert s == [s[0]] + s[1..];
    }
  }

  // ... and broken up, a link before a line that is none.
  lemma {:induction false} TrailedIsBroken(name: string, url: string, blanks: string, more: string)
    requires name != "" && ']' !in name && NoBreak(name) && url != "" && NoSpace(url) && PyBlank(blanks) && !NoBreak(blanks)
    requires more != "" && more[0] != '[' && !IsPySpace(more[0])
    ensures var lines := KeepLines("[" + name + "]: " + url + blanks + more);
            |lines| > 1 && IsLink(lines[0]) && !IsLink(lines[1])
  {
    hide KeepLines, IsLink, IsLine, NoBreak, NoSpace, IsBreak, PyBlank;
    var before, c, after := FirstBreak(blanks);
    var line, rest := "[" + name + "]: " + url + (before + [c]), after + more;
    BrokenLine(name, url, before, c);
    KeepFirstLine(line, rest);
    assert "[" + name + "]: " + url + blanks + more == line + rest;
    BlankIsNoBracket(after, more);
    OpensNoLink(rest);
  }

  lemma {:induction false} BlankIsNoBracket(blanks: string, more: string)
    requires PyBlank(blanks) && more != "" && more[0] != '['
    ensures (blanks + more)[0] != '['
  {
  }

  lemma {:induction false} BrokenLine(name: string, url: string, before: string, c: char)
    requires name != "" && ']' !in name && NoBreak(name) && url != "" && NoSpace(url) && PyBlank(before) && NoBreak(before)
    requires IsBreak(c)
    ensures var line := "[" + name + "]: " + url + (before + [c]); IsLine(line) && IsLink(line)
  {
    hide ParseLink;
    assert IsPySpace(c) && PyBlank(before + [c]);
    LinkUpToBlank(name, url, before + [c]);
    NoSpaceNoBreak(url);
    OneBreak("[" + name + "]: " + url + before, c);
    assert "[" + name + "]: " + url + (before + [c]) == "[" + name + "]: " + url + before + [c];
  }

  lemma {:induction false} OneBreak(s: string, c: char)
    requires NoBreak(s) && IsBreak(c)
    ensures IsLine(s + [c])
  {
    assert (s + [c])[..|s|] == s;
  }

  lemma {:induction false} OpensNoLink(s: string)
    requires s != "" && s[0] != '['
    ensures KeepLines(s) != [] && !IsLink(KeepLines(s)[0])
  {
    var lines := KeepLines(s);
    assert lines[0][0] == s[0];
  }

  lemma {:induction false} OthersAreKept(links: seq<string>, target: string, repo: string)
    requires AllLinks(links)
    ensures !RenderLinks(links, target, repo).inserted ==> RenderLinks(links, target, repo).lines == links
  {
    hide LinkLine, CompareUrl, ReleaseUrl, ParseLink;
    if links != [] {
      OthersAreKept(links[..|links| - 1], target, repo);
      assert links == links[..|links| - 1] + [links[|links| - 1]];
    }
  }

  // The first link made for the release, the old ones before it and what comes after.
  lemma {:induction false} FirstGenerated(links: seq<string>, target: string, repo: string)
    returns (n: nat, link: Link, more: seq<string>)
    requires AllLinks(links) && RenderLinks(links, target, repo).inserted
    ensures n < |links| && RenderLinks(links, target, repo).lines == links[..n] + [LinkLine(link.name, link.url)] + more
    ensures link in [Link(UNRELEASED, CompareUrl(repo, target)), Link(target, ReleaseUrl(repo, target))]
  {
    hide LinkLine, CompareUrl, ReleaseUrl, ParseLink;
    var k := |links| - 1;
    var before := RenderLinks(links[..k], target, repo);
    if before.inserted {
      n, link, more := FirstGenerated(links[..k], target, repo);
      assert links[..k][..n] == links[..n];
      more := more + RenderLinks(links, target, repo).lines[|before.lines|..];
    } else {
      OthersAreKept(links[..k], target, repo);
      n := k;
      var name := ParseLink(links[k]).value.name;
      link := if name == UNRELEASED then Link(UNRELEASED, CompareUrl(repo, target)) else Link(target, ReleaseUrl(repo, target));
      more := RenderLinks(links, target, repo).lines[k + 1..];
    }
  }

  predicate NoneNamed(lines: seq<string>, name: string) {
    forall i :: 0 <= i < |lines| && IsLink(lines[i]) ==> ParseLink(lines[i]).value.name != name
  }

  lemma {:induction false} NotLookedUp(lines: seq<string>, name: string)
    requires NoneNamed(lines, name)
    ensures LookUp(lines, name) == None
  {
    hide ParseLink;
    if lines != [] {
      NotLookedUp(lines[..|lines| - 1], name);
    }
  }

  // If the links made for the release are none, no link is named Unreleased.
  lemma {:induction false} NoneMade(links: seq<string>, target: string, repo: string)
    requires AllLinks(links)
    requires !IsLink(LinkLine(UNRELEASED, CompareUrl(repo, target))) && !IsLink(LinkLine(target, ReleaseUrl(repo, target)))
    ensures NoneNamed(RenderLinks(links, target, repo).lines, UNRELEASED)
  {
    hide LinkLine, CompareUrl, ReleaseUrl, ParseLink;
    if links != [] {
      NoneMade(links[..|links| - 1], target, repo);
    }
  }

  function CompareTail(target: string): string {
    "/compare/v" + target + "...HEAD"
  }

  function ReleaseTail(target: string): string {
    "/releases/tag/v" + target
  }

  lemma {:induction false} TrailedUrls(url: string, blanks: string, target: string)
    ensures CompareUrl(url + blanks, target) == url + blanks + CompareTail(target)
    ensures ReleaseUrl(url + blanks, target) == url + blanks + ReleaseTail(target)
    ensures CompareTail(target) != "" && CompareTail(target)[0] == '/' && ReleaseTail(target) != "" && ReleaseTail(target)[0] == '/'
    ensures NoSpace(target) ==> NoSpace(CompareTail(target)) && NoSpace(ReleaseTail(target))
  {
  }

  // On one line each, no link is left that the release needs.
  lemma {:induction false} TrailedOnOneLine(text: string, target: string, date: string, url: string, blanks: string, other: string)
    requires IsCleanTarget(target) && url != "" && NoSpace(url) && blanks != "" && PyBlank(blanks) && NoBreak(blanks)
    requires Rewritten(text, target, date, url + blanks).Ok?
    ensures !IsPrepared(Rewritten(text, target, date, url + blanks).value, target, other)
  {
    hide SplitChangelog, Rewritten, UnreleasedAt, HeadingLines, NewSections, CutAt, AllLinks, Analyze, CompareTail, ReleaseTail,
         RenderLinks, Concat, KeepLines, AreLines, LineList, NoneIsLink, LinkLine, CompareUrl, ReleaseUrl, IsLink, IsLine;
    var repo, released := url + blanks, Rewritten(text, target, date, url + blanks).value;
    AcceptedIsSplit(text, target, date, repo);
    var parts := SplitChangelog(text).value;
    RewrittenLines(text, parts, target, date, repo);
    SplitFacts(text);
    TrailedLinks(target, url, blanks);
    NoneMade(parts.links, target, repo);
    RenderedLineList(parts.links, target, repo);
    KeepLinesOfList(RenderLinks(parts.links, target, repo).lines);
    if IsPrepared(released, target, other) {
      HeadingHoldsNoLink(text, target, date, repo, other);
      NewSectionsHaveNoLink(parts.sections, UnreleasedAt(parts.sections), HeadingLines(target, date));
      NotPreparedWithout(released, target, other, NewSections(CutAt(parts.sections, UnreleasedAt(parts.sections)), HeadingLines(target, date)),
                         RenderLinks(parts.links, target, repo).lines);
    }
  }

  lemma {:induction false} TrailedLinks(target: string, url: string, blanks: string)
    requires IsCleanTarget(target) && url != "" && NoSpace(url) && blanks != "" && PyBlank(blanks) && NoBreak(blanks)
    ensures var a := LinkLine(UNRELEASED, CompareUrl(url + blanks, target)); IsLine(a) && !IsLink(a)
    ensures var b := LinkLine(target, ReleaseUrl(url + blanks, target)); IsLine(b) && !IsLink(b)
  {
    hide CompareUrl, ReleaseUrl, CompareTail, ReleaseTail, LinkLine, IsLink;
    TrailedUrls(url, blanks, target);
    TrailedIsNoLink(UNRELEASED, url, blanks, CompareTail(target));
    TrailedIsNoLink(target, url, blanks, ReleaseTail(target));
    NoSpaceNoBreak(url);
    NoSpaceNoBreak(target);
    NoSpaceNoBreak(CompareTail(target));
    NoSpaceNoBreak(ReleaseTail(target));
    assert NoBreak(url + blanks + CompareTail(target)) && NoBreak(url + blanks + ReleaseTail(target));
    GeneratedLinkIsLine(UNRELEASED, CompareUrl(url + blanks, target));
    GeneratedLinkIsLine(target, ReleaseUrl(url + blanks, target));
  }

  lemma {:induction false} NotPreparedWithout(text: string, target: string, other: string, sections: seq<string>, more: seq<string>)
    requires KeepLines(text) == sections + more && NoneIsLink(sections) && NoneNamed(more, UNRELEASED)
    ensures !IsPrepared(text, target, other)
  {
    hide KeepLines, IsLink, ParseLink, UnreleasedAt, BodyUnder, HasSection, LookUp;
    if SplitChangelog(text).Ok? {
      var lines := KeepLines(text);
      var start := FindFrom(lines, 0, IsLink);
      assert forall i :: 0 <= i < |sections| ==> lines[i] == sections[i];
      assert lines[start..] == more[start - |sections|..];
      NotLookedUp(lines[start..], UNRELEASED);
    }
  }

  // Broken over lines, a link is followed by a line that is none.
  lemma {:induction false} TrailedOverLines(text: string, target: string, date: string, url: string, blanks: string, other: string)
    requires IsCleanTarget(target) && url != "" && NoSpace(url) && PyBlank(blanks) && !NoBreak(blanks)
    requires Rewritten(text, target, date, url + blanks).Ok?
    ensures Analyze(Rewritten(text, target, date, url + blanks).value, target, other).Error?
  {
    hide SplitChangelog, Rewritten, UnreleasedAt, HeadingLines, NewSections, CutAt, AllLinks, Analyze, BodyUnder,
         RenderLinks, Concat, KeepLines, IsLine, IsLink, NoneIsLink, LinkLine, CompareUrl, ReleaseUrl, IsCleanTarget;
    var repo, released := url + blanks, Rewritten(text, target, date, url + blanks).value;
    AcceptedIsSplit(text, target, date, repo);
    var parts := SplitChangelog(text).value;
    AcceptedParts(text, parts, target, date, repo);
    RewrittenLines(text, parts, target, date, repo);
    SplitFacts(text);
    var n, link, more := FirstGenerated(parts.links, target, repo);
    var head, made := parts.links[..n], LinkLine(link.name, link.url);
    ConcatAppend(head, [made] + more);
    ConcatAppend([made], more);
    ConcatSmall(made);
    assert head + [made] + more == head + ([made] + more);
    KeepLinesOf(head, made + Concat(more));
    MadeIsBroken(target, url, blanks, link, Concat(more));
    var lines := KeepLines(made + Concat(more));
    var sections := NewSections(CutAt(parts.sections, UnreleasedAt(parts.sections)), HeadingLines(target, date));
    assert KeepLines(released) == sections + (head + lines);
    var k := |sections| + n;
    assert KeepLines(released)[k] == lines[0] && KeepLines(released)[k + 1] == lines[1];
    LinkBeforeOther(released, k, k + 1, target, other);
  }

  lemma {:induction false} MadeIsBroken(target: string, url: string, blanks: string, link: Link, rest: string)
    requires IsCleanTarget(target) && url != "" && NoSpace(url) && PyBlank(blanks) && !NoBreak(blanks)
    requires link in [Link(UNRELEASED, CompareUrl(url + blanks, target)), Link(target, ReleaseUrl(url + blanks, target))]
    ensures var lines := KeepLines(LinkLine(link.name, link.url) + rest); |lines| > 1 && IsLink(lines[0]) && !IsLink(lines[1])
  {
    hide CompareUrl, ReleaseUrl, CompareTail, ReleaseTail, KeepLines, IsLink, LinkLine, PyBlank, NoBreak, NoSpace;
    TrailedUrls(url, blanks, target);
    CleanNames(target);
    var tail := if link.name == UNRELEASED then CompareTail(target) else ReleaseTail(target);
    TrailedIsBroken(link.name, url, blanks, tail + "\n" + rest);
    MadeText(link.name, url, blanks, tail, rest);
  }

  lemma {:induction false} CleanNames(target: string)
    requires IsCleanTarget(target)
    ensures NoBreak(target) && NoBreak(UNRELEASED) && ']' !in UNRELEASED && target != UNRELEASED && target != "" && ']' !in target
  {
    NoSpaceNoBreak(target);
  }

  lemma {:induction false} MadeText(name: string, url: string, blanks: string, tail: string, rest: string)
    ensures LinkLine(name, url + blanks + tail) + rest == "[" + name + "]: " + url + blanks + (tail + "\n" + rest)
  {
  }

  /** With a URL that ends in blanks, nothing is prepared for any URL. */
  lemma {:induction false} TrailedIsNotPrepared(text: string, target: string, date: string, url: string, blanks: string, other: string)
    requires IsCleanTarget(target) && url != "" && NoSpace(url) && blanks != "" && PyBlank(blanks)
    requires Rewritten(text, target, date, url + blanks).Ok?
    ensures !IsPrepared(Rewritten(text, target, date, url + blanks).value, target, other)
  {
    hide Analyze, Rewritten, NoBreak, IsCleanTarget, NoSpace, PyBlank;
    if NoBreak(blanks) {
      TrailedOnOneLine(text, target, date, url, blanks, other);
    } else {
      TrailedOverLines(text, target, date, url, blanks, other);
    }
  }

  // ---------------------------------------------------------------------------
  // When a cut is prepared
  // ---------------------------------------------------------------------------

  /** A cut is prepared exactly if its URL holds no blank, no line of its heading is taken for a link, and the target is
      named by one of those lines, or was by an older heading. It is then prepared for no other URL. */
  lemma {:induction false} CutIsPrepared(text: string, target: string, date: string, repo: string)
    requires Rewritten(text, target, date, repo).Ok? && IsCleanTarget(target)
    ensures SplitChangelog(text).Ok?
    ensures IsPrepared(Rewritten(text, target, date, repo).value, target, repo)
       <==> NoSpace(repo) && NoneIsLink(HeadingLines(target, date))
            && (HasSection(HeadingLines(target, date), target) || HasSection(SplitChangelog(text).value.sections, target))
    ensures forall other :: NoSpace(repo) && IsPrepared(Rewritten(text, target, date, repo).value, target, other) ==> other == repo
  {
    hide SplitChangelog, Rewritten, HeadingLines, Analyze, HasSection, NoSpace, NoneIsLink, IsCleanTarget;
    AcceptedIsSplit(text, target, date, repo);
    var released := Rewritten(text, target, date, repo).value;
    if IsPrepared(released, target, repo) {
      PreparedUrl(released, target, repo);
    }
    if NoSpace(repo) {
      forall other | IsPrepared(released, target, other) || other == repo
        ensures NoneIsLink(HeadingLines(target, date)) || !IsPrepared(released, target, other)
        ensures NoneIsLink(HeadingLines(target, date)) ==>
                  Analyze(released, target, other)
                  == Ok(Analysis("", HasSection(HeadingLines(target, date), target) || HasSection(SplitChangelog(text).value.sections, target),
                                 (HasSection(HeadingLines(target, date), target) || HasSection(SplitChangelog(text).value.sections, target))
                                 && other == repo))
      {
        if IsPrepared(released, target, other) {
          HeadingHoldsNoLink(text, target, date, repo, other);
        }
        if NoneIsLink(HeadingLines(target, date)) {
          CutAnalyzed(text, SplitChangelog(text).value, target, date, repo, other);
        }
      }
    }
  }
}

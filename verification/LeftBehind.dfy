/** Checkouts that a crash leaves different for good: where recovery needs its conditions on lock and changelog. */
module LeftBehind {
  import opened Text
  import opened Outcomes
  import opened Changelog
  import opened Judged
  import opened Manifests
  import opened Release
  import opened Recovery

  function PackageBlock(name: string, version: string, end: string): Block {
    ["name = \"" + name + "\"", VersionText(version) + end, "dependencies = []"]
  }

  function PackageBlocks(names: seq<string>, version: string, end: string): (r: seq<Block>)
    ensures |r| == |names| && forall i :: 0 <= i < |names| ==> r[i] == PackageBlock(names[i], version, end)
  {
    seq(|names|, i requires 0 <= i < |names| => PackageBlock(names[i], version, end))
  }

  lemma {:induction false} PackageBlockLines(name: string, version: string, end: string)
    requires name != "" && '"' !in name && version != "" && '"' !in version && PyBlank(end)
    ensures var b := PackageBlock(name, version, end);
            LineValue(b[0], "name") == Some(name) && LineValue(b[0], "version") == None && LineValue(b[1], "version") == Some(version)
  {
    var line := "name = \"" + name + "\"";
    assert line == "name" + " = \"" + name + "\"" + "";
    LineValueOf("name", name, "");
    LineValueOfVersion(version, end);
    assert ("version" + " = \"")[0] == 'v' && line[0] == 'n';
  }

  lemma {:induction false} PackageBlockFields(name: string, version: string, end: string)
    requires name != "" && '"' !in name && version != "" && '"' !in version && PyBlank(end)
    ensures var b := PackageBlock(name, version, end);
            Field(b, "name") == Some(name) && Field(b, "version") == Some(version) && FieldAt(b, "version") == 1
            && BlockWithVersion(b, version) == PackageBlock(name, version, "") && DropBlank(b[2..]) != []
  {
    hide LineValue, VersionText;
    var b := PackageBlock(name, version, end);
    PackageBlockLines(name, version, end);
    FieldFound(b, "name", 0);
    FieldFound(b, "version", 1);
    assert !IsPySpace(b[2][0]);
    ReplacedBeforeInk(b, 1, VersionText(version));
    assert VersionText(version) + "" == VersionText(version);
  }

  predicate AreLocal(names: seq<string>) {
    forall i :: 0 <= i < |names| ==> names[i] in LOCAL_PACKAGES
  }

  lemma {:induction false} LocalBlock(name: string, version: string, end: string)
    requires name in LOCAL_PACKAGES && version != "" && '"' !in version && PyBlank(end)
    ensures var b := PackageBlock(name, version, end);
            IsLocal(b) && Field(b, "name") == Some(name) && Field(b, "version") == Some(version)
            && FieldAt(b, "version") == 1 < |b| && BlockWithVersion(b, version) == PackageBlock(name, version, "")
            && !Swallows(b)
  {
    hide PackageBlock, Field, FieldAt, BlockWithVersion, DropBlank;
    assert name != "" && '"' !in name;
    PackageBlockFields(name, version, end);
    assert |PackageBlock(name, version, end)| == 3 by { PackageBlockSize(name, version, end); }
  }

  lemma {:induction false} PackageBlockSize(name: string, version: string, end: string)
    ensures |PackageBlock(name, version, end)| == 3
  {
  }

  lemma {:induction false} OneMoreBlock(before: seq<Block>, block: Block)
    requires IsLocal(block) && Field(block, "version").Some?
    ensures Field(block, "name").Some?
    ensures LocalVersions(before + [block])
         == LocalVersions(before)[Field(block, "name").value := Field(block, "version").value]
  {
    hide Field;
    assert (before + [block])[..|before|] == before;
  }

  lemma {:induction false} MorePackageBlocks(names: seq<string>, version: string, end: string)
    requires names != []
    ensures var n := |names| - 1;
            PackageBlocks(names, version, end)
            == PackageBlocks(names[..n], version, end) + [PackageBlock(names[n], version, end)]
  {
    hide PackageBlock;
  }

  lemma {:induction false} PackageVersions(names: seq<string>, version: string, end: string)
    requires AreLocal(names) && version != "" && '"' !in version && PyBlank(end)
    ensures var versions := LocalVersions(PackageBlocks(names, version, end));
            (forall i :: 0 <= i < |names| ==> names[i] in versions) && VersionsAt(versions, version)
  {
    if names == [] {
      assert PackageBlocks(names, version, end) == [];
    } else {
      hide IsLocal, Field, PackageBlock, PyBlank, LocalVersions, PackageBlocks;
      var n := |names| - 1;
      PackageVersions(names[..n], version, end);
      LocalBlock(names[n], version, end);
      MorePackageBlocks(names, version, end);
      OneMoreBlock(PackageBlocks(names[..n], version, end), PackageBlock(names[n], version, end));
    }
  }

  // One block more before those rewritten.
  lemma {:induction false} OneMoreRewritten(block: Block, rest: seq<Block>, target: string, rest': seq<Block>)
    requires IsLocal(block) && FieldAt(block, "version") < |block| && !Swallows(block) && NewBlocks(rest, target) == Ok(rest')
    ensures NewBlocks([block] + rest, target) == Ok([BlockWithVersion(block, target)] + rest')
  {
    hide IsLocal, FieldAt, Swallows, BlockWithVersion;
    var blocks := [block] + rest;
    assert blocks[0] == block && blocks[1..] == rest;
  }

  lemma {:induction false} FirstPackageBlock(names: seq<string>, version: string, end: string)
    requires names != []
    ensures PackageBlocks(names, version, end) == [PackageBlock(names[0], version, end)] + PackageBlocks(names[1..], version, end)
  {
    hide PackageBlock;
  }

  lemma {:induction false} PackageRewrite(names: seq<string>, version: string, end: string)
    requires AreLocal(names) && version != "" && '"' !in version && PyBlank(end)
    ensures NewBlocks(PackageBlocks(names, version, end), version) == Ok(PackageBlocks(names, version, ""))
    ensures !LastSwallows(PackageBlocks(names, version, end))
  {
    hide Field, FieldAt, IsLocal, PackageBlock, PackageBlocks, PyBlank, BlockWithVersion, Swallows;
    if names == [] {
      assert PackageBlocks(names, version, end) == [] == PackageBlocks(names, version, "");
    } else {
      PackageRewrite(names[1..], version, end);
      LocalBlock(names[0], version, end);
      LocalBlock(names[|names| - 1], version, end);
      FirstPackageBlock(names, version, end);
      FirstPackageBlock(names, version, "");
      OneMoreRewritten(PackageBlock(names[0], version, end), PackageBlocks(names[1..], version, end), version,
                       PackageBlocks(names[1..], version, ""));
    }
  }

  /** Everything is at the version but the plugin manifest; the lock carries `end` after each local version, and some
      files hold carriage returns. */
  function StalePlugin(version: string, plugin: string, changelog: string, end: string, crlf: set<Place>): Files {
    Files([PACKAGE_TABLE, VersionText(version)], [VersionText(plugin)],
          Lock([], PackageBlocks(LOCAL_PACKAGES, version, end), true), changelog, [], crlf)
  }

  lemma {:induction false} StripStops(s: string)
    requires s != "" && !IsPySpace(s[0]) && !IsPySpace(s[|s| - 1])
    ensures Strip(s) == s
  {
    StripRightStops(s);
    assert s[0..] == s;
  }

  lemma {:induction false} PackageTable(line: string)
    requires line == PACKAGE_TABLE
    ensures IsTable(line) && Strip(line) == line
  {
    StripStops(line);
  }

  lemma {:induction false} VersionLine(version: string)
    requires version != "" && '"' !in version
    ensures var text := VersionText(version);
            !IsTable(text) && VersionField(Strip(text)) == Some(Quoted("version = \"", version, ""))
  {
    var text := VersionText(version);
    assert text[|text| - 1] == '"' && text[0] == 'v';
    StripStops(text);
    VersionTextField(version);
    hide VersionText, VersionField, Strip;
  }

  lemma {:induction false} SmallCargo(version: string, table: string)
    requires version != "" && '"' !in version && table == PACKAGE_TABLE
    ensures var lines := [table, VersionText(version)];
            ParseWorkspaceVersion(lines) == Ok(version) && WithVersion(lines, version).Ok?
  {
    hide VersionText, VersionField, Strip, IsTable, PyBlank;
    var lines := [table, VersionText(version)];
    PackageTable(table);
    VersionLine(version);
    assert InPackage(lines, 1);
    assert !IsVersionAt(lines, 0) && IsVersionAt(lines, 1);
    assert VersionAt(lines, 0) == 1 && VersionAt(lines, 2) == 2;
  }

  lemma {:induction false} SmallPlugin(plugin: string, target: string)
    requires plugin != "" && '"' !in plugin
    ensures ParsePluginVersion([VersionText(plugin)]) == Ok(plugin) && WithPluginVersion([VersionText(plugin)], target).Ok?
  {
    VersionTextField(plugin);
    hide VersionText, VersionField;
    FoundAt([VersionText(plugin)], 0, HasVersionField, 0);
  }

  lemma {:induction false} SmallLock(version: string, end: string)
    requires version != "" && '"' !in version && PyBlank(end)
    ensures var lock := Lock([], PackageBlocks(LOCAL_PACKAGES, version, end), true);
            ParseLockVersions(lock) == Ok(LocalVersions(lock.blocks)) && VersionsAt(LocalVersions(lock.blocks), version)
            && WithLockVersions(lock, version) == Ok(Lock([], PackageBlocks(LOCAL_PACKAGES, version, ""), true))
  {
    hide PackageBlocks, LocalVersions, NewBlocks, LastSwallows, PyBlank;
    PackageVersions(LOCAL_PACKAGES, version, end);
    PackageRewrite(LOCAL_PACKAGES, version, end);
  }

  function TidiedPlugin(start: Files, version: string): Files
    requires WithVersion(start.cargo, version).Ok? && WithPluginVersion(start.plugin, version).Ok?
  {
    Files(WithVersion(start.cargo, version).value, WithPluginVersion(start.plugin, version).value,
          Lock([], PackageBlocks(LOCAL_PACKAGES, version, ""), true), start.changelog, [], start.crlf - FixedPlaces(4))
  }

  // The first run plans its four writes ...
  lemma {:induction false} StalePluginPlans(start: Files, version: string, plugin: string, log: string, end: string, crlf: set<Place>,
                                            date: string, repo: string)
    requires IsSemver(version) && IsSemver(plugin) && plugin != version && IsPrepared(log, version, repo) && PyBlank(end)
    requires start == StalePlugin(version, plugin, log, end, crlf)
    ensures WithVersion(start.cargo, version).Ok? && WithPluginVersion(start.plugin, version).Ok?
            && Plan(start, version, date, repo) == Ok(Head(TidiedPlugin(start, version)))
            && ParsePluginVersion(start.plugin) == Ok(plugin)
  {
    hide ParseWorkspaceVersion, ParsePluginVersion, ParseLockVersions, LocalVersions, VersionsAt, WithVersion,
         WithLockVersions, WithPluginVersion, IsSemver, Analyze, PackageBlocks, VersionText, Plan, IsVersionAt,
         VersionAt, PluginAt, IsCleanTarget, LeadingSpaces, Rewritten, PyBlank;
    SemverIsClean(version);
    SemverIsClean(plugin);
    SmallCargo(version, PACKAGE_TABLE);
    SmallPlugin(plugin, version);
    SmallLock(version, end);
    PreparedHasSection(log, version, repo);
    assert !IsDone(start, version, repo);
    var last := TidiedPlugin(start, version);
    PlanAtTarget(start, version, date, repo, last);
    assert Head(last) + [] == Head(last);
  }

  // ... and leaves a verified release.
  lemma {:induction false} StalePluginVerifies(start: Files, version: string, repo: string)
    requires WithVersion(start.cargo, version).Ok? && WithPluginVersion(start.plugin, version).Ok?
    requires IsSemver(version) && IsPrepared(start.changelog, version, repo)
    ensures Verify(TidiedPlugin(start, version), repo).Ok?
  {
    SemverIsClean(version);
    CargoIsSettled(start.cargo, version);
    PluginIsSettled(start.plugin, version);
    SmallLock(version, "");
    hide ParseWorkspaceVersion, ParsePluginVersion, ParseLockVersions, LocalVersions, VersionsAt, WithVersion,
         WithLockVersions, WithPluginVersion, IsSemver, Analyze, PackageBlocks, Verify, IsPrepared;
    AllVerifies(TidiedPlugin(start, version), version, repo);
  }

  lemma {:induction false} StalePluginRuns(start: Files, version: string, plugin: string, log: string, end: string, crlf: set<Place>,
                                           date: string, repo: string)
    requires IsSemver(version) && IsSemver(plugin) && plugin != version && IsPrepared(log, version, repo) && PyBlank(end)
    requires start == StalePlugin(version, plugin, log, end, crlf)
    ensures Plan(start, version, date, repo).Ok?
            && IsRun(start, Perform(start, Plan(start, version, date, repo).value), version, date, repo)
  {
    hide Plan, Verify, PackageBlocks, VersionText, IsPrepared, IsSemver, WithVersion, WithPluginVersion, PyBlank;
    StalePluginPlans(start, version, plugin, log, end, crlf, date, repo);
    StalePluginVerifies(start, version, repo);
    var last := TidiedPlugin(start, version);
    assert Head(last)[..4] == Head(last);
    HeadLands(start, Head(last), 4);
  }

  /** A first run that succeeds, and one crash point of which no second run recovers from. */
  predicate IsLeft(start: Files, version: string, date: string, repo: string) {
    Plan(start, version, date, repo).Ok?
    && IsRun(start, Perform(start, Plan(start, version, date, repo).value), version, date, repo)
    && !RecoversAlways(start, version, date, repo)
  }

  /** What the first run would still have set right is left as it is if the crash comes right after the plugin manifest
      is repaired, since everything then looks done: a blank after the versions of the lock, and carriage returns in
      the lock or the changelog. Where there is neither, a second run recovers from every crash. */
  lemma {:induction false} StalePluginIsLeft(log: string, version: string, plugin: string, end: string, crlf: set<Place>,
                                             date: string, repo: string)
    requires IsPrepared(log, version, repo)
    requires IsSemver(version) && IsSemver(plugin) && plugin != version && PyBlank(end)
    ensures IsLeft(StalePlugin(version, plugin, log, end, crlf), version, date, repo)
       <==> end != "" || LockFile in crlf || ChangelogFile in crlf
  {
    hide Plan, Perform, IsPrepared, IsSemver, LockRepeats, ReturnsAreGone, RecoversAlways, IsCleanTarget, PyBlank, StalePlugin;
    var start := StalePlugin(version, plugin, log, end, crlf);
    SemverIsClean(version);
    StalePluginRuns(start, version, plugin, log, end, crlf, date, repo);
    StaleRepeats(start, version, plugin, log, end, crlf, repo);
    CrashRecovery(start, Perform(start, Plan(start, version, date, repo).value), version, date, repo);
  }

  // Everything but the plugin manifest is at its version, the lock included.
  lemma {:induction false} StaleRepeats(start: Files, version: string, plugin: string, log: string, end: string, crlf: set<Place>,
                                        repo: string)
    requires version != "" && '"' !in version && IsPrepared(log, version, repo) && PyBlank(end)
    requires start == StalePlugin(version, plugin, log, end, crlf)
    ensures LockRepeats(start, version, repo) <==> end == ""
    ensures ReturnsAreGone(start, version, repo) <==> LockFile !in crlf && ChangelogFile !in crlf
  {
    hide IsPrepared, WithLockVersions, LocalVersions, VersionsAt, VersionText, PyBlank, PackageBlocks, IsTidy;
    SmallLock(version, end);
    TidyIsKept(start.lock, version);
    if end != "" {
      BlocksDiffer(version, end);
    }
  }

  lemma {:induction false} BlocksDiffer(version: string, end: string)
    requires end != ""
    ensures PackageBlocks(LOCAL_PACKAGES, version, end) != PackageBlocks(LOCAL_PACKAGES, version, "")
  {
    var a, b := PackageBlock("board-cli", version, end), PackageBlock("board-cli", version, "");
    assert |a[1]| > |b[1]|;
    assert PackageBlocks(LOCAL_PACKAGES, version, end)[0] == a && PackageBlocks(LOCAL_PACKAGES, version, "")[0] == b;
  }

  const SMALL_SECTIONS := [UNRELEASED_HEADING + "\n", "- A fix.\n"]

  function SmallLinks(repo: string): seq<string> {
    [LinkLine(UNRELEASED, CompareUrl(repo, "0.1.0"))]
  }

  lemma {:induction false} SmallSectionsAreLines()
    ensures AreLines(SMALL_SECTIONS) && NoneIsLink(SMALL_SECTIONS)
    ensures UNRELEASED_HEADING <= SMALL_SECTIONS[0] && !IsHeading(SMALL_SECTIONS[1]) && SMALL_SECTIONS[1] == "- A fix.\n"
  {
    var heading, item := UNRELEASED_HEADING + "\n", "- A fix.\n";
    assert heading[0] == '#' && item[0] == '-' && heading[..15] == UNRELEASED_HEADING;
    assert heading[..|heading| - 1] == UNRELEASED_HEADING && item[..|item| - 1] == "- A fix.";
  }

  lemma {:induction false} SmallBody()
    ensures Concat(["- A fix.\n"]) == "- A fix.\n" && !PyBlank(StripEnd(StripStart("- A fix.\n")))
  {
    var item := "- A fix.\n";
    assert StripStart(item) == item;
    assert StripEnd(item)[0] == '-';
  }

  lemma {:induction false} SmallSections()
    ensures AreLines(SMALL_SECTIONS) && NoneIsLink(SMALL_SECTIONS)
    ensures UnreleasedAt(SMALL_SECTIONS) == 0 && !PyBlank(BodyUnder(SMALL_SECTIONS, 0))
  {
    hide AreLines, NoneIsLink, IsHeading, Concat, StripStart, StripEnd, PyBlank;
    SmallSectionsAreLines();
    FoundAt(SMALL_SECTIONS, 0, line => UNRELEASED_HEADING <= line, 0);
    FoundNowhere(SMALL_SECTIONS, 1, IsHeading);
    SmallBody();
    assert SMALL_SECTIONS[1..2] == ["- A fix.\n"];
  }

  function SmallChangelog(repo: string): string {
    Concat(SMALL_SECTIONS) + Concat(SmallLinks(repo))
  }

  lemma {:induction false} SmallChangelogIsCut(former: string, version: string, date: string, repo: string)
    requires NoSpace(former)
    ensures Rewritten(SmallChangelog(former), version, date, repo).Ok?
  {
    SmallSections();
    SmallLink(former);
    hide Rewritten, AreLines, NoneIsLink, LineList, AllLinks, NamesUnreleased, UnreleasedAt, BodyUnder, PyBlank, SmallLinks,
         IsLink, Concat;
    RewriterAccepts(SMALL_SECTIONS, SmallLinks(former), version, date, repo);
  }

  /** A URL with a blank within passes every step of a run but its last: the changelog is cut, and is not prepared. */
  lemma {:induction false} BlankUrlIsCut(version: string, date: string, origin: Origin)
    requires IsSemver(version)
    ensures RepoUrl("a b", origin) == Ok("a b") && Rewritten(SmallChangelog("x"), version, date, "a b").Ok?
    ensures !IsPrepared(Rewritten(SmallChangelog("x"), version, date, "a b").value, version, "a b")
  {
    hide RepoUrl, Rewritten, SmallChangelog, IsSemver, IsPrepared, IsCleanTarget, HasSection, HeadingLines, NoneIsLink;
    BlankStays(origin);
    SmallChangelogIsCut("x", version, date, "a b");
    SemverIsClean(version);
    CutIsPrepared(SmallChangelog("x"), version, date, "a b");
  }

  /** Such checkouts exist for every two versions: the changelog of this one holds one change to release. One has a
      stray blank in its lock, one a changelog stored with carriage returns. */
  lemma {:induction false} SomeAreLeft(version: string, plugin: string, date: string, repo: string)
    requires IsSemver(version) && IsSemver(plugin) && plugin != version && HeadingFits(version, date) && NoSpace(repo)
    ensures Rewritten(SmallChangelog(repo), version, date, repo).Ok?
    ensures var log := Rewritten(SmallChangelog(repo), version, date, repo).value;
            IsLeft(StalePlugin(version, plugin, log, " ", {}), version, date, repo)
            && IsLeft(StalePlugin(version, plugin, log, "", {ChangelogFile}), version, date, repo)
  {
    hide Rewritten, SmallChangelog, IsLeft, StalePlugin, IsSemver, NoSpace, IsPrepared, IsCleanTarget, HasSection, NoneIsLink, HeadingLines;
    SmallChangelogIsCut(repo, version, date, repo);
    SemverIsClean(version);
    CutIsPrepared(SmallChangelog(repo), version, date, repo);
    var log := Rewritten(SmallChangelog(repo), version, date, repo).value;
    StalePluginIsLeft(log, version, plugin, " ", {}, date, repo);
    StalePluginIsLeft(log, version, plugin, "", {ChangelogFile}, date, repo);
  }

  lemma {:induction false} SmallLink(repo: string)
    requires NoSpace(repo)
    ensures var links := SmallLinks(repo);
            links != [] && IsLink(links[0]) && LineList(links) && AllLinks(links) && NamesUnreleased(links)
  {
    GeneratedLinksParse("0.1.0", repo);
    GeneratedLinksAreLines("0.1.0", repo);
    hide ParseLink, LinkLine, CompareUrl;
    var links := SmallLinks(repo);
    assert links[0] == LinkLine(UNRELEASED, CompareUrl(repo, "0.1.0"));
  }
}

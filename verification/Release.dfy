/** Preparing a release: verifying a checkout, planning the ordered file writes of `apply`, and carrying them out. */
module Release {
  import opened Text
  import opened Outcomes
  import opened Changelog
  import opened Manifests

  // ---------------------------------------------------------------------------
  // The repository URL
  // ---------------------------------------------------------------------------

  const GIT := ".git"
  const GITHUB := "https://github.com/"
  const SCP := "git@github.com:"
  const SSH := "ssh://git@github.com/"

  function WithoutGit(s: string): string {
    if EndsWith(s, GIT) then s[..|s| - |GIT|] else s
  }

  function WithScheme(url: string): string {
    if GITHUB <= url then url
    else if SCP <= url then GITHUB + url[|SCP|..]
    else if SSH <= url then GITHUB + url[|SSH|..]
    else url
  }

  function Normalized(value: string): string {
    WithScheme(WithoutGit(Strip(value)))
  }

  /** What is around a checkout: the repository the environment names, if it does, and the remote it came from. */
  datatype Origin = Origin(environment: string, remote: Option<string>)

  function Found(origin: Origin): Outcome<string> {
    if origin.environment != "" then Ok(GITHUB + origin.environment)
    else if origin.remote.Some? then Ok(Normalized(Strip(origin.remote.value)))
    else Error(NoUrl)
  }

  /** The URL a command works with: the one given, normalised, or the one found around the checkout. */
  function RepoUrl(given: string, origin: Origin): Outcome<string> {
    if given != "" then Ok(Normalized(given)) else Found(origin)
  }

  lemma {:induction false} StripRightIsPrefix(s: string)
    ensures StripRight(s) <= s && (StripRight(s) != "" ==> !IsPySpace(StripRight(s)[|StripRight(s)| - 1]))
    ensures StripRight(s) == s <==> s == "" || !IsPySpace(s[|s| - 1])
  {
    if s != "" && IsPySpace(s[|s| - 1]) {
      StripRightIsPrefix(s[..|s| - 1]);
    }
  }

  // Text that opens with no blank is stripped at its end only.
  lemma {:induction false} StripIsPrefix(s: string)
    requires s == "" || !IsPySpace(s[0])
    ensures Strip(s) == StripRight(s)
  {
    assert s[0..] == s;
  }

  lemma {:induction false} NormalizedStart(value: string)
    ensures var url := Normalized(value); url == "" || !IsPySpace(url[0])
    ensures WithScheme(Normalized(value)) == Normalized(value)
  {
    var n := LeadingSpaces(value);
    var stripped := Strip(value);
    StripRightIsPrefix(value[n..]);
    assert stripped != "" ==> stripped[0] == value[n];
    var bare := WithoutGit(stripped);
    assert bare != "" ==> bare[0] == stripped[0];
    hide Strip, LeadingSpaces, StripRight, WithoutGit;
  }

  // A shorter beginning has no other scheme.
  lemma {:induction false} SchemeOfPrefix(url: string, head: string)
    requires WithScheme(url) == url && head <= url
    ensures WithScheme(head) == head
  {
    assert GITHUB[0] == 'h' && SCP[0] == 'g' && SSH[0] == 's';
  }

  // A URL that a command works with opens with no blank and has its scheme.
  lemma {:induction false} UrlStart(given: string, origin: Origin)
    requires RepoUrl(given, origin).Ok?
    ensures var url := RepoUrl(given, origin).value; (url == "" || !IsPySpace(url[0])) && WithScheme(url) == url
  {
    hide Normalized, Strip, WithScheme;
    if given != "" {
      NormalizedStart(given);
    } else if origin.environment != "" {
      GithubUrl(origin.environment);
    } else {
      NormalizedStart(Strip(origin.remote.value));
    }
  }

  lemma {:induction false} GithubUrl(name: string)
    ensures var url := GITHUB + name; url != "" && !IsPySpace(url[0]) && WithScheme(url) == url
  {
    assert (GITHUB + name)[0] == 'h';
  }

  /** Normalising the URL of a command changes nothing exactly if it has neither a blank nor ".git" at its end. A
      command given that URL works with it exactly if that is so and, where it is empty, nothing is found. */
  lemma {:induction false} NormalizedTwice(given: string, origin: Origin)
    requires RepoUrl(given, origin).Ok?
    ensures var url := RepoUrl(given, origin).value;
            Normalized(url) == url <==> !EndsWith(url, GIT) && (url == "" || !IsPySpace(url[|url| - 1]))
    ensures var url := RepoUrl(given, origin).value;
            RepoUrl(url, origin) == Ok(url)
            <==> if url == "" then Found(origin) == Ok("") else !EndsWith(url, GIT) && !IsPySpace(url[|url| - 1])
  {
    hide Normalized, Strip, StripRight, WithScheme, Found;
    var url := RepoUrl(given, origin).value;
    UrlStart(given, origin);
    StripIsPrefix(url);
    StripRightIsPrefix(url);
    var bare := WithoutGit(StripRight(url));
    assert bare <= url;
    SchemeOfPrefix(url, bare);
    NormalizedAs(url);
  }

  lemma {:induction false} NormalizedAs(url: string)
    ensures Normalized(url) == WithScheme(WithoutGit(Strip(url)))
  {
  }

  // What normalising leaves without blanks of a URL that opens with none had blanks at its end only.
  lemma {:induction false} BlanksAtEnd(given: string, origin: Origin) returns (bare: string, blanks: string)
    requires RepoUrl(given, origin).Ok? && NoSpace(Normalized(RepoUrl(given, origin).value)) && !NoSpace(RepoUrl(given, origin).value)
    ensures RepoUrl(given, origin).value == bare + blanks && bare != "" && NoSpace(bare) && blanks != "" && PyBlank(blanks)
  {
    hide Normalized, Strip, WithScheme;
    var url := RepoUrl(given, origin).value;
    UrlStart(given, origin);
    StripIsPrefix(url);
    StripRightIsPrefix(url);
    bare := StripRight(url);
    blanks := url[|bare|..];
    StripRightIsSpelled(url);
    NormalizedAs(url);
    SchemeOfPrefix(url, WithoutGit(bare));
    WithoutGitHoldsBlanks(bare);
    assert url == bare + blanks && url != "";
  }

  lemma {:induction false} WithoutGitHoldsBlanks(s: string)
    ensures NoSpace(WithoutGit(s)) ==> NoSpace(s)
  {
    if EndsWith(s, GIT) {
      var n := |s| - |GIT|;
      assert s == s[..n] + GIT;
      assert forall i :: 0 <= i < n ==> s[i] == s[..n][i];
      assert NoSpace(GIT);
    }
  }

  lemma {:induction false} NormalizedText(text: string)
    requires text == "" || (!IsPySpace(text[0]) && !IsPySpace(text[|text| - 1]))
    ensures Normalized(text) == WithScheme(WithoutGit(text))
  {
    StripIsPrefix(text);
    StripRightIsPrefix(text);
  }

  /** Normalising takes the blanks off both ends of a URL, then one ".git" off its end, and puts the address of GitHub in
      place of the two forms its clones are known by. */
  lemma {:induction false} UrlIsNormalized(value: string, before: string, url: string, ending: string, after: string)
    requires IsStripped(value, before, url + ending, after)
    requires ending == ".git" || (ending == "" && !EndsWith(url, ".git"))
    ensures Normalized(value)
         == if "git@github.com:" <= url then "https://github.com/" + url[15..]
            else if "ssh://git@github.com/" <= url then "https://github.com/" + url[21..]
            else url
  {
    StripIsSpelled(value, url + ending);
    hide Strip;
    assert url + "" == url;
    assert ending == ".git" ==> (url + ending)[|url|..] == ".git" && (url + ending)[..|url|] == url;
    assert GITHUB[0] == 'h' && SCP[0] == 'g' && SSH[0] == 's';
    assert GITHUB <= url ==> url[0] == 'h';
  }

  /** Without one given, a command works with the repository the environment names on GitHub, else with the remote's. */
  lemma {:induction false} UrlIsFound(given: string, origin: Origin)
    ensures RepoUrl(given, origin)
         == if given != "" then Ok(Normalized(given))
            else if origin.environment != "" then Ok("https://github.com/" + origin.environment)
            else if origin.remote.Some? then Ok(Normalized(origin.remote.value))
            else Error(NoUrl)
  {
    hide Normalized;
    if origin.remote.Some? {
      NormalizedStripped(origin.remote.value);
    }
  }

  // Stripping twice is stripping once.
  lemma {:induction false} NormalizedStripped(value: string)
    ensures Normalized(Strip(value)) == Normalized(value)
  {
    var s := Strip(value);
    hide Strip;
    StripIsSpelled(value, s);
    var before, after :| IsStripped(value, before, s, after);
    assert IsStripped(s, "", s, "");
    StripIsSpelled(s, s);
  }

  /** A URL of nothing but the ending, and one with two endings: a command given the first works with the URL found
      around the checkout the second time, one given the second with a shorter one. */
  lemma {:induction false} NormalizedDiffers(origin: Origin)
    ensures RepoUrl(".git", origin) == Ok("") && RepoUrl("", origin) == Found(origin)
    ensures RepoUrl("x.git.git", origin) == Ok("x.git") && RepoUrl("x.git", origin) == Ok("x")
  {
    hide Normalized, Strip, Found;
    NormalizedText(".git");
    NormalizedText("x.git.git");
    NormalizedText("x.git");
    assert "x.git.git"[|"x.git.git"| - 4..] == GIT && "x.git.git"[..5] == "x.git";
    assert "x.git"[1..] == GIT && "x.git"[..1] == "x";
    assert ".git"[0..] == GIT && ".git"[..0] == "";
    assert GITHUB[0] == 'h' && SCP[0] == 'g' && SSH[0] == 's';
  }

  /** A URL with a blank within is worked with as it is, however often. */
  lemma {:induction false} BlankStays(origin: Origin)
    ensures RepoUrl("a b", origin) == Ok("a b") && !NoSpace("a b")
  {
    hide Normalized, Strip, Found;
    NormalizedText("a b");
    assert GITHUB[0] == 'h' && SCP[0] == 'g' && SSH[0] == 's';
    assert IsPySpace("a b"[1]);
  }

  // ---------------------------------------------------------------------------
  // Applying and verifying
  // ---------------------------------------------------------------------------

  /** Text as it is read from disk: every line end comes out as a newline. */
  function AsRead(stored: string): string {
    if stored == "" then ""
    else if stored[0] == '\r' then "\n" + AsRead(if "\r\n" <= stored then stored[2..] else stored[1..])
    else [stored[0]] + AsRead(stored[1..])
  }

  /** A line with any of the three ends is read as the line with a newline. */
  lemma {:induction false} LineIsRead(line: string, end: string, rest: string)
    requires '\n' !in line && '\r' !in line && end in ["\n", "\r\n", "\r"]
    requires end == "\r" ==> rest == "" || rest[0] != '\n'
    ensures AsRead(line + (end + rest)) == line + ("\n" + AsRead(rest)) && AsRead(line) == line
  {
    if line == "" {
      var stored := end + rest;
      assert line + stored == stored && "" + ("\n" + AsRead(rest)) == "\n" + AsRead(rest);
      assert stored[|end|..] == rest;
    } else {
      LineIsRead(line[1..], end, rest);
      assert (line + (end + rest))[1..] == line[1..] + (end + rest);
      assert line == [line[0]] + line[1..];
    }
  }

  /** Reading takes every carriage return away, and changes nothing else: text without one is read as stored. */
  lemma {:induction false} AsReadHoldsNoReturn(stored: string)
    ensures '\r' !in AsRead(stored)
    ensures AsRead(stored) == stored <==> '\r' !in stored
    decreases |stored|
  {
    if stored != "" {
      var rest := if "\r\n" <= stored then stored[2..] else stored[1..];
      AsReadHoldsNoReturn(rest);
      assert stored == [stored[0]] + stored[1..];
    }
  }

  /** The files of a checkout that a release may write. */
  datatype Place = CargoFile | PluginFile | LockFile | ChangelogFile | DocumentFile(index: nat)

  /** The version-bearing files of a checkout as they are read; `docs` are the install documents present. Those in
      `crlf` hold carriage returns on disk, and so are not stored as they are read. */
  datatype Files = Files(cargo: seq<string>, plugin: seq<string>, lock: Lock, changelog: string, docs: seq<string>,
                         crlf: set<Place>)

  function Verify(files: Files, repo: string): Outcome<string> {
    var version :- ParseWorkspaceVersion(files.cargo);
    if !IsSemver(version) then Error(BadVersion)
    else
      var plugin :- ParsePluginVersion(files.plugin);
      var locked :- ParseLockVersions(files.lock);
      if plugin != version || !VersionsAt(locked, version)
         || exists i :: 0 <= i < |files.docs| && !PinsAt(files.docs[i], version)
      then Error(VersionsDiffer)
      else
        var changelog :- Analyze(files.changelog, version, repo);
        if changelog.prepared then Ok(version) else Error(NotPrepared)
  }

  /** One atomic file replacement. */
  datatype Write =
    | WriteCargo(lines: seq<string>)
    | WritePlugin(lines: seq<string>)
    | WriteLock(lock: Lock)
    | WriteChangelog(text: string)
    | WriteDocument(index: nat, document: string)

  function DocumentWrites(docs: seq<string>, target: string): seq<Write> {
    if docs == [] then []
    else
      var n := |docs| - 1;
      DocumentWrites(docs[..n], target)
      + (if Repinned(docs[n], target) != docs[n] then [WriteDocument(n, Repinned(docs[n], target))] else [])
  }

  predicate AllAt(files: Files, target: string) {
    ParsePluginVersion(files.plugin) == Ok(target)
    && VersionsAt(LocalVersions(files.lock.blocks), target)
    && forall i :: 0 <= i < |files.docs| ==> PinsAt(files.docs[i], target)
  }

  /** The changelog a release leaves behind, given the current version and what the analyser says. */
  function ChangelogAfter(text: string, current: string, analysis: Analysis, locked: bool, target: string,
                          date: string, repo: string): Outcome<string> {
    if current != target then
      if !locked then Error(VersionsDiffer)
      else if PyBlank(analysis.unreleasedBody) then Error(EmptyUnreleased)
      else if analysis.targetExists then Error(SectionExists)
      else Rewritten(text, target, date, repo)
    else if analysis.targetExists then
      if !analysis.prepared then Error(PartialSection) else Ok(text)
    else if PyBlank(analysis.unreleasedBody) then Error(EmptyUnreleased)
    else Rewritten(text, target, date, repo)
  }

  /** The writes of `apply` in order; none when everything is already prepared. */
  function Plan(files: Files, target: string, date: string, repo: string): Outcome<seq<Write>> {
    var current :- ParseWorkspaceVersion(files.cargo);
    if !IsSemver(target) then Error(BadVersion)
    else
      var plugin :- ParsePluginVersion(files.plugin);
      var locked :- ParseLockVersions(files.lock);
      var analysis :- Analyze(files.changelog, target, repo);
      if current == target && AllAt(files, target) && analysis.prepared then Ok([])
      else
        var together := plugin == current && VersionsAt(locked, current);
        var changelog :- ChangelogAfter(files.changelog, current, analysis, together, target, date, repo);
        var cargo' :- WithVersion(files.cargo, target);
        var plugin' :- WithPluginVersion(files.plugin, target);
        var lock' :- WithLockVersions(files.lock, target);
        Ok([WriteCargo(cargo'), WritePlugin(plugin'), WriteLock(lock'), WriteChangelog(changelog)]
           + DocumentWrites(files.docs, target))
  }

  /** A write stores text as it is read. */
  function Written(files: Files, w: Write): Files {
    match w
    case WriteCargo(lines) => files.(cargo := lines, crlf := files.crlf - {CargoFile})
    case WritePlugin(lines) => files.(plugin := lines, crlf := files.crlf - {PluginFile})
    case WriteLock(lock) => files.(lock := lock, crlf := files.crlf - {LockFile})
    case WriteChangelog(text) => files.(changelog := text, crlf := files.crlf - {ChangelogFile})
    case WriteDocument(i, document) =>
      if i < |files.docs| then files.(docs := files.docs[i := document], crlf := files.crlf - {DocumentFile(i)})
      else files
  }

  /** The files after a sequence of writes. */
  function Perform(files: Files, writes: seq<Write>): Files {
    if writes == [] then files
    else Written(Perform(files, writes[..|writes| - 1]), writes[|writes| - 1])
  }

  /** A checkout on disk. */
  class Checkout {
    var files: Files

    constructor (files: Files)
      ensures this.files == files
    {
      this.files := files;
    }

    /** Apply a release; `crash` is the number of writes after which the process dies, if it does. Every
        replacement is atomic and nothing is rolled back. The final check takes the URL through the same
        normalisation again. */
    method Apply(target: string, date: string, given: string, origin: Origin, crash: Option<nat>) returns (r: Outcome<bool>)
      modifies this
      ensures RepoUrl(given, origin).Error? ==> files == old(files) && r.Error?
      ensures RepoUrl(given, origin).Ok? && Plan(old(files), target, date, RepoUrl(given, origin).value).Error? ==>
                files == old(files) && r.Error?
      ensures RepoUrl(given, origin).Ok? && Plan(old(files), target, date, RepoUrl(given, origin).value).Ok? ==>
                var writes := Plan(old(files), target, date, RepoUrl(given, origin).value).value;
                var again := RepoUrl(RepoUrl(given, origin).value, origin);
                files == Perform(old(files), if crash.Some? && crash.value < |writes| then writes[..crash.value] else writes)
                && (r.Ok? <==> !(crash.Some? && crash.value < |writes|)
                               && (writes == [] || (again.Ok? && Verify(files, again.value).Ok?)))
                && (r.Ok? ==> (r.value <==> writes != []))
    {
      hide Plan, Verify, Written, Normalized;
      var url := RepoUrl(given, origin);
      if url.Error? {
        return Error(url.error);
      }
      var repo := url.value;
      var plan := Plan(files, target, date, repo);
      if plan.Error? {
        return Error(plan.error);
      }
      var writes := plan.value;
      if writes == [] {
        return Ok(false);
      }
      for i := 0 to |writes|
        invariant files == Perform(old(files), writes[..i])
        invariant crash.Some? && crash.value < |writes| ==> i <= crash.value
      {
        if crash == Some(i) {
          return Error(Crashed);
        }
        assert writes[..i + 1][..i] == writes[..i];
        files := Written(files, writes[i]);
      }
      assert writes[..|writes|] == writes;
      var again := RepoUrl(repo, origin);
      if again.Error? {
        return Error(again.error);
      }
      var verified := Verify(files, again.value);
      if verified.Error? {
        return Error(verified.error);
      }
      r := Ok(true);
    }
  }
}

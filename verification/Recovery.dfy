/** Recovering from a crash between any two writes of a release by preparing it again. */
module Recovery {
  import opened Text
  import opened Outcomes
  import opened Changelog
  import opened Judged
  import opened Manifests
  import opened Release

  // ---------------------------------------------------------------------------
  // Crash recovery
  // ---------------------------------------------------------------------------

  lemma {:induction false} PerformAppend(files: Files, a: seq<Write>, b: seq<Write>)
    ensures Perform(files, a + b) == Perform(Perform(files, a), b)
  {
    if b == [] {
      assert a + b == a;
    } else {
      var n := |b| - 1;
      PerformAppend(files, a, b[..n]);
      assert (a + b)[..|a + b| - 1] == a + b[..n];
    }
  }

  /** Every document is as it was or repinned. */
  predicate DocsLanded(docs: seq<string>, before: seq<string>, target: string) {
    |docs| == |before|
    && forall i :: 0 <= i < |docs| ==> docs[i] == before[i] || docs[i] == Repinned(before[i], target)
  }

  /** Where carriage returns are left once documents have been written: not in those that changed. */
  function ReturnsLeft(crlf: set<Place>, before: seq<string>, docs: seq<string>): set<Place> {
    set p | p in crlf
            && (p.DocumentFile? && p.index < |before| && p.index < |docs| ==> docs[p.index] == before[p.index])
  }

  /** Some, or all, of the writes for the first n documents have landed. */
  predicate DocsTo(landed: Files, files: Files, target: string, n: nat, all: bool) {
    landed == files.(docs := landed.docs, crlf := ReturnsLeft(files.crlf, files.docs, landed.docs))
    && DocsLanded(landed.docs, files.docs, target) && n <= |files.docs|
    && (forall i :: n <= i < |files.docs| ==> landed.docs[i] == files.docs[i])
    && (all ==> forall i :: 0 <= i < n ==> landed.docs[i] == Repinned(files.docs[i], target))
  }

  lemma {:induction false} OneMoreDocument(files: Files, landed: Files, target: string, n: nat, all: bool)
    requires n < |files.docs| && DocsTo(landed, files, target, n, all)
    ensures DocsTo(landed, files, target, n + 1, false)
    ensures Repinned(files.docs[n], target) == files.docs[n] ==> DocsTo(landed, files, target, n + 1, all)
    ensures Repinned(files.docs[n], target) != files.docs[n] ==>
              DocsTo(Written(landed, WriteDocument(n, Repinned(files.docs[n], target))), files, target, n + 1, all)
  {
    hide Repinned;
    if Repinned(files.docs[n], target) != files.docs[n] {
      var after := landed.docs[n := Repinned(files.docs[n], target)];
      assert landed.crlf - {DocumentFile(n)} == ReturnsLeft(files.crlf, files.docs, after);
    }
  }

  lemma {:induction false} DocumentPrefix(files: Files, target: string, n: nat, k: nat)
    requires n <= |files.docs| && k <= |DocumentWrites(files.docs[..n], target)|
    ensures var writes := DocumentWrites(files.docs[..n], target);
            DocsTo(Perform(files, writes[..k]), files, target, n, k == |writes|)
  {
    hide Repinned, DocsTo, Written, DocumentWrites, Perform;
    var writes := DocumentWrites(files.docs[..n], target);
    if n == 0 {
      NoDocumentYet(files, target, k);
    } else {
      var before := DocumentWrites(files.docs[..n - 1], target);
      WritesOfOneMore(files.docs, target, n);
      if k <= |before| {
        assert writes[..k] == before[..k];
        DocumentPrefix(files, target, n - 1, k);
        OneMoreDocument(files, Perform(files, before[..k]), target, n - 1, k == |before|);
      } else {
        var document := Repinned(files.docs[n - 1], target);
        assert before[..|before|] == before && writes[..k] == before + [WriteDocument(n - 1, document)];
        DocumentPrefix(files, target, n - 1, |before|);
        OneMoreDocument(files, Perform(files, before), target, n - 1, true);
        PerformOneMore(files, before, WriteDocument(n - 1, document));
      }
    }
  }

  lemma {:induction false} NoDocumentYet(files: Files, target: string, k: nat)
    requires k <= |DocumentWrites(files.docs[..0], target)|
    ensures var writes := DocumentWrites(files.docs[..0], target);
            DocsTo(Perform(files, writes[..k]), files, target, 0, k == |writes|)
  {
    hide Repinned;
    assert files.docs[..0] == [];
    assert ReturnsLeft(files.crlf, files.docs, files.docs) == files.crlf;
  }

  lemma {:induction false} WritesOfOneMore(docs: seq<string>, target: string, n: nat)
    requires 0 < n <= |docs|
    ensures var document := Repinned(docs[n - 1], target);
            DocumentWrites(docs[..n], target)
            == DocumentWrites(docs[..n - 1], target) + if document != docs[n - 1] then [WriteDocument(n - 1, document)] else []
  {
    hide Repinned;
    assert docs[..n][..n - 1] == docs[..n - 1];
  }

  lemma {:induction false} PerformOneMore(files: Files, writes: seq<Write>, w: Write)
    ensures Perform(files, writes + [w]) == Written(Perform(files, writes), w)
  {
    hide Written;
    assert (writes + [w])[..|writes|] == writes;
  }

  /** The fixed files among the first k writes. */
  function FixedPlaces(k: nat): set<Place> {
    (if k > 0 then {CargoFile} else {}) + (if k > 1 then {PluginFile} else {}) + (if k > 2 then {LockFile} else {})
    + (if k > 3 then {ChangelogFile} else {})
  }

  /** The first k writes have landed: the four fixed files in order, then documents. */
  predicate HasLanded(mid: Files, start: Files, last: Files, target: string, k: nat) {
    mid == Files(if k > 0 then last.cargo else start.cargo, if k > 1 then last.plugin else start.plugin,
                 if k > 2 then last.lock else start.lock, if k > 3 then last.changelog else start.changelog,
                 mid.docs, ReturnsLeft(start.crlf - FixedPlaces(k), start.docs, mid.docs))
    && DocsLanded(mid.docs, start.docs, target) && (k <= 4 ==> mid.docs == start.docs)
  }

  // The four fixed writes, then the documents.
  lemma {:induction false} HeadLands(start: Files, head: seq<Write>, k: nat)
    requires |head| == 4 && head[0].WriteCargo? && head[1].WritePlugin? && head[2].WriteLock? && head[3].WriteChangelog?
    requires k <= 4
    ensures Perform(start, head[..k])
         == Files(if k > 0 then head[0].lines else start.cargo, if k > 1 then head[1].lines else start.plugin,
                  if k > 2 then head[2].lock else start.lock, if k > 3 then head[3].text else start.changelog,
                  start.docs, start.crlf - FixedPlaces(k))
  {
    if k > 0 {
      HeadLands(start, head, k - 1);
      assert head[..k][..k - 1] == head[..k - 1];
    }
  }

  lemma {:induction false} WritesLand(start: Files, head: seq<Write>, target: string, k: nat)
    requires |head| == 4 && head[0].WriteCargo? && head[1].WritePlugin? && head[2].WriteLock? && head[3].WriteChangelog?
    requires k <= |head + DocumentWrites(start.docs, target)|
    ensures var writes := head + DocumentWrites(start.docs, target);
            var mid, last := Perform(start, writes[..k]), Perform(start, writes);
            last == Files(head[0].lines, head[1].lines, head[2].lock, head[3].text, RepinnedAll(start.docs, target),
                          ReturnsLeft(start.crlf - FixedPlaces(4), start.docs, RepinnedAll(start.docs, target)))
            && HasLanded(mid, start, last, target, k)
  {
    hide Perform, DocumentWrites, Repinned, DocsTo;
    var docs := DocumentWrites(start.docs, target);
    var writes := head + docs;
    assert docs[..|docs|] == docs && head[..4] == head;
    HeadLands(start, head, 4);
    DocumentsLand(start, head, target, |docs|);
    if k <= 4 {
      HeadLands(start, head, k);
      NothingLanded(start.docs, target, start.crlf - FixedPlaces(k));
      assert writes[..k] == head[..k];
    } else {
      DocumentsLand(start, head, target, k - 4);
      assert writes[..k] == head + docs[..k - 4];
    }
  }

  lemma {:induction false} NothingLanded(docs: seq<string>, target: string, crlf: set<Place>)
    ensures DocsLanded(docs, docs, target) && ReturnsLeft(crlf, docs, docs) == crlf
  {
  }

  // After the four fixed writes, n of those of documents.
  lemma {:induction false} DocumentsLand(start: Files, head: seq<Write>, target: string, n: nat)
    requires n <= |DocumentWrites(start.docs, target)| && Perform(start, head).docs == start.docs
    ensures var docs, mid := DocumentWrites(start.docs, target), Perform(start, head + DocumentWrites(start.docs, target)[..n]);
            mid == Perform(start, head).(docs := mid.docs, crlf := ReturnsLeft(Perform(start, head).crlf, start.docs, mid.docs))
            && DocsLanded(mid.docs, start.docs, target)
            && (n == |docs| ==> mid.docs == RepinnedAll(start.docs, target))
  {
    hide Perform, DocumentWrites, Repinned;
    var docs := DocumentWrites(start.docs, target);
    assert start.docs[..|start.docs|] == start.docs;
    PerformAppend(start, head, docs[..n]);
    DocumentPrefix(Perform(start, head), target, |start.docs|, n);
  }

  /** Nothing is left to do. */
  predicate IsDone(files: Files, target: string, repo: string) {
    AllAt(files, target) && IsPrepared(files.changelog, target, repo)
  }

  /** Nothing but the manifests and the lock can be left to do. */
  predicate OnlyVersionsLeft(files: Files, target: string, repo: string) {
    IsPrepared(files.changelog, target, repo) && forall i :: 0 <= i < |files.docs| ==> PinsAt(files.docs[i], target)
  }

  /** The states a first run leaves once it has planned its writes. */
  predicate IsRun(start: Files, last: Files, target: string, date: string, repo: string) {
    var plan := Plan(start, target, date, repo);
    plan.Ok? && plan.value != [] && last == Perform(start, plan.value) && Verify(last, repo).Ok?
  }

  /** What a run leaves in each file. */
  predicate IsLast(last: Files, start: Files, target: string, date: string, repo: string) {
    var current, locked := ParseWorkspaceVersion(start.cargo), LocalVersions(start.lock.blocks);
    IsSemver(target) && current.Ok? && ParseLockVersions(start.lock).Ok?
    && Analyze(start.changelog, target, repo).Ok?
    && !(current.value == target && IsDone(start, target, repo))
    && ChangelogAfter(start.changelog, current.value, Analyze(start.changelog, target, repo).value,
                      ParsePluginVersion(start.plugin) == Ok(current.value) && VersionsAt(locked, current.value),
                      target, date, repo) == Ok(last.changelog)
    && WithVersion(start.cargo, target) == Ok(last.cargo)
    && WithPluginVersion(start.plugin, target) == Ok(last.plugin)
    && WithLockVersions(start.lock, target) == Ok(last.lock)
    && last.docs == RepinnedAll(start.docs, target)
    && last.crlf == ReturnsLeft(start.crlf - FixedPlaces(4), start.docs, last.docs)
  }

  function Head(last: Files): seq<Write> {
    [WriteCargo(last.cargo), WritePlugin(last.plugin), WriteLock(last.lock), WriteChangelog(last.changelog)]
  }

  // A plan with writes is the head and the documents of what it leaves.
  lemma {:induction false} PlanParts(start: Files, target: string, date: string, repo: string) returns (last: Files)
    requires Plan(start, target, date, repo).Ok? && Plan(start, target, date, repo).value != []
    ensures Plan(start, target, date, repo).value == Head(last) + DocumentWrites(start.docs, target)
    ensures IsLast(last, start, target, date, repo) && last.docs == RepinnedAll(start.docs, target)
    ensures last.crlf == ReturnsLeft(start.crlf - FixedPlaces(4), start.docs, last.docs)
  {
    hide AllAt, Analyze, ChangelogAfter, WithVersion, WithPluginVersion, WithLockVersions, ParsePluginVersion,
         ParseWorkspaceVersion, LocalVersions, VersionsAt, DocumentWrites, IsSemver, RepinnedAll;
    var writes := Plan(start, target, date, repo).value;
    var docs := RepinnedAll(start.docs, target);
    last := Files(writes[0].lines, writes[1].lines, writes[2].lock, writes[3].text, docs,
                  ReturnsLeft(start.crlf - FixedPlaces(4), start.docs, docs));
  }

  lemma {:induction false} RunLeaves(start: Files, last: Files, target: string, date: string, repo: string, k: nat)
    requires IsRun(start, last, target, date, repo) && k <= |Plan(start, target, date, repo).value|
    ensures IsLast(last, start, target, date, repo)
    ensures HasLanded(Perform(start, Plan(start, target, date, repo).value[..k]), start, last, target, k)
    ensures |Plan(start, target, date, repo).value| >= 4
  {
    hide Verify, Plan, IsLast, DocumentWrites, Perform, HasLanded, RepinnedAll;
    var left := PlanParts(start, target, date, repo);
    WritesLand(start, Head(left), target, k);
  }

  lemma {:induction false} VerifiedIsDone(files: Files, target: string, repo: string)
    requires Verify(files, repo).Ok? && ParseWorkspaceVersion(files.cargo) == Ok(target)
    ensures IsDone(files, target, repo) && ParseLockVersions(files.lock).Ok?
  {
    hide Analyze, ParseWorkspaceVersion, ParsePluginVersion, LocalVersions, VersionsAt, PinsAt;
  }

  // The files a run leaves, reread.
  lemma {:induction false} LastReread(start: Files, last: Files, target: string, date: string, repo: string)
    requires IsLast(last, start, target, date, repo) && Verify(last, repo).Ok?
    ensures ParseWorkspaceVersion(last.cargo) == Ok(target) && WithVersion(last.cargo, target) == Ok(last.cargo)
    ensures ParsePluginVersion(last.plugin) == Ok(target) && WithPluginVersion(last.plugin, target) == Ok(last.plugin)
    ensures ParsePluginVersion(start.plugin) == Ok(target) ==> last.plugin == start.plugin
    ensures IsDone(last, target, repo) && ParseLockVersions(last.lock).Ok?
  {
    hide Verify, ChangelogAfter, Analyze, IsDone, ParseLockVersions, WithVersion, WithPluginVersion, WithLockVersions,
         ParsePluginVersion, ParseWorkspaceVersion, LocalVersions, VersionsAt, AllAt, IsPrepared, RepinnedAll, IsSemver;
    SemverIsClean(target);
    CargoIsSettled(start.cargo, target);
    PluginIsSettled(start.plugin, target);
    VerifiedIsDone(last, target, repo);
  }

  // A second look at the changelog, at any point of the run, comes to the same text.
  lemma {:induction false} ChangelogIsKept(start: Files, last: Files, text: string, together: bool, target: string, date: string, repo: string)
    requires IsLast(last, start, target, date, repo) && IsPrepared(last.changelog, target, repo)
    requires text == start.changelog || text == last.changelog
    ensures Analyze(text, target, repo).Ok?
    ensures ChangelogAfter(text, target, Analyze(text, target, repo).value, together, target, date, repo)
            == Ok(last.changelog)
    ensures IsPrepared(text, target, repo) ==> text == last.changelog
  {
    hide AllAt, WithVersion, WithPluginVersion, WithLockVersions, ParsePluginVersion,
         ParseWorkspaceVersion, LocalVersions, VersionsAt, IsSemver, RepinnedAll, Rewritten, ParseLockVersions;
    PreparedHasSection(start.changelog, target, repo);
    PreparedHasSection(last.changelog, target, repo);
  }

  lemma {:induction false} PreparedHasSection(text: string, target: string, repo: string)
    requires Analyze(text, target, repo).Ok?
    ensures IsPrepared(text, target, repo) ==> Analyze(text, target, repo).value.targetExists
  {
    hide SplitChangelog, UnreleasedAt, BodyUnder, HasSection, LookUp, AllLinks;
  }

  // Repinning twice is repinning once.
  lemma {:induction false} DocsAreKept(docs: seq<string>, before: seq<string>, target: string)
    requires DocsLanded(docs, before, target) && IsSemver(target)
    ensures RepinnedAll(docs, target) == RepinnedAll(before, target)
    ensures (forall i :: 0 <= i < |docs| ==> PinsAt(docs[i], target)) ==> docs == RepinnedAll(before, target)
  {
    hide Repinned, PinsAt, IsSemver;
    forall i | 0 <= i < |docs|
      ensures Repinned(docs[i], target) == Repinned(before[i], target)
      ensures PinsAt(docs[i], target) ==> docs[i] == Repinned(before[i], target)
    {
      RepinnedIsPinned(before[i], target);
    }
  }

  // The plan for files whose manifest already names the target.
  lemma {:induction false} PlanAtTarget(files: Files, target: string, date: string, repo: string, end: Files)
    requires ParseWorkspaceVersion(files.cargo) == Ok(target) && IsSemver(target)
    requires ParsePluginVersion(files.plugin).Ok? && ParseLockVersions(files.lock).Ok?
    requires Analyze(files.changelog, target, repo).Ok?
    requires ChangelogAfter(files.changelog, target, Analyze(files.changelog, target, repo).value,
                            ParsePluginVersion(files.plugin) == Ok(target)
                            && VersionsAt(LocalVersions(files.lock.blocks), target),
                            target, date, repo) == Ok(end.changelog)
    requires WithVersion(files.cargo, target) == Ok(end.cargo) && WithPluginVersion(files.plugin, target) == Ok(end.plugin)
    requires WithLockVersions(files.lock, target) == Ok(end.lock) || WithLockVersions(files.lock, target).Error?
    ensures Plan(files, target, date, repo)
         == if IsDone(files, target, repo) then Ok([])
            else if WithLockVersions(files.lock, target).Ok? then Ok(Head(end) + DocumentWrites(files.docs, target))
            else Error(WithLockVersions(files.lock, target).error)
  {
    hide AllAt, DocumentWrites, ChangelogAfter, WithVersion, WithPluginVersion, WithLockVersions,
         ParsePluginVersion, ParseWorkspaceVersion, LocalVersions, VersionsAt, IsSemver, Analyze, PinsAt;
  }

  // What a second run does: stop at once if nothing is left, else bring every file but the lock to its end.
  lemma {:induction false} SecondRun(start: Files, last: Files, mid: Files, target: string, date: string, repo: string, k: nat)
    requires IsLast(last, start, target, date, repo) && Verify(last, repo).Ok?
    requires HasLanded(mid, start, last, target, k) && k > 0
    ensures IsDone(mid, target, repo) ==> Plan(mid, target, date, repo) == Ok([])
    ensures !IsDone(mid, target, repo) ==>
              var plan, lock := Plan(mid, target, date, repo), WithLockVersions(mid.lock, target);
              plan.Ok? == lock.Ok? && (plan.Ok? ==> Perform(mid, plan.value) == last.(lock := lock.value))
  {
    hide Verify, DocumentWrites, Perform, RepinnedAll, ChangelogAfter, WithVersion, WithPluginVersion, WithLockVersions,
         ParsePluginVersion, ParseWorkspaceVersion, LocalVersions, VersionsAt, IsSemver, Analyze, PinsAt, AllAt, IsDone,
         IsPrepared, Plan, ParseLockVersions;
    LastReread(start, last, target, date, repo);
    var lock := WithLockVersions(mid.lock, target);
    var end := if lock.Ok? then last.(lock := lock.value) else last;
    SecondRunPlan(start, last, mid, end, target, date, repo, k);
    DocsAreKept(mid.docs, start.docs, target);
    ReturnsAreKept(start, mid, target, k);
    WritesLand(mid, Head(end), target, 0);
  }

  // A second run takes away the carriage returns that the first would have.
  lemma {:induction false} ReturnsAreKept(start: Files, mid: Files, target: string, k: nat)
    requires IsSemver(target) && DocsLanded(mid.docs, start.docs, target)
    requires mid.crlf == ReturnsLeft(start.crlf - FixedPlaces(k), start.docs, mid.docs)
    ensures ReturnsLeft(mid.crlf - FixedPlaces(4), mid.docs, RepinnedAll(mid.docs, target))
         == ReturnsLeft(start.crlf - FixedPlaces(4), start.docs, RepinnedAll(start.docs, target))
  {
    hide Repinned, IsSemver;
    forall i | 0 <= i < |start.docs|
      ensures (mid.docs[i] == start.docs[i] && Repinned(mid.docs[i], target) == mid.docs[i])
              <==> Repinned(start.docs[i], target) == start.docs[i]
    {
      RepinnedIsPinned(start.docs[i], target);
    }
    assert FixedPlaces(k) <= FixedPlaces(4);
  }

  lemma {:induction false} SecondRunPlan(start: Files, last: Files, mid: Files, end: Files, target: string, date: string, repo: string, k: nat)
    requires IsLast(last, start, target, date, repo) && Verify(last, repo).Ok?
    requires HasLanded(mid, start, last, target, k) && k > 0
    requires end == if WithLockVersions(mid.lock, target).Ok? then last.(lock := WithLockVersions(mid.lock, target).value) else last
    ensures Plan(mid, target, date, repo)
         == if IsDone(mid, target, repo) then Ok([])
            else if WithLockVersions(mid.lock, target).Ok? then Ok(Head(end) + DocumentWrites(mid.docs, target))
            else Error(WithLockVersions(mid.lock, target).error)
  {
    hide Verify, DocumentWrites, Perform, RepinnedAll, ChangelogAfter, WithVersion, WithLockVersions,
         ParseWorkspaceVersion, LocalVersions, VersionsAt, IsSemver, Analyze, PinsAt, AllAt, IsDone,
         IsPrepared, Plan, ParseLockVersions, PluginAt;
    LastReread(start, last, target, date, repo);
    assert IsPrepared(last.changelog, target, repo) by {
      DoneIsPrepared(last, target, repo);
    }
    var together := ParsePluginVersion(mid.plugin) == Ok(target) && VersionsAt(LocalVersions(mid.lock.blocks), target);
    ChangelogIsKept(start, last, mid.changelog, together, target, date, repo);
    PlanAtTarget(mid, target, date, repo, end);
  }

  lemma {:induction false} DoneIsPrepared(files: Files, target: string, repo: string)
    requires IsDone(files, target, repo)
    ensures IsPrepared(files.changelog, target, repo) && AllAt(files, target)
  {
    hide AllAt, IsPrepared;
  }

  // When a second run finds nothing to do, and that then only the lock can differ.
  lemma {:induction false} DoneWhen(start: Files, last: Files, mid: Files, target: string, date: string, repo: string, k: nat)
    requires IsLast(last, start, target, date, repo) && Verify(last, repo).Ok?
    requires HasLanded(mid, start, last, target, k) && k > 0
    ensures k == 1 ==> !IsDone(mid, target, repo)
    ensures k == 2 ==> (IsDone(mid, target, repo)
                        <==> OnlyVersionsLeft(start, target, repo) && VersionsAt(LocalVersions(start.lock.blocks), target))
    ensures k == 3 ==> (IsDone(mid, target, repo) <==> OnlyVersionsLeft(start, target, repo))
    ensures k > 3 && OnlyVersionsLeft(start, target, repo) ==> IsDone(mid, target, repo)
    ensures IsDone(mid, target, repo) ==> mid == last.(lock := mid.lock, crlf := mid.crlf)
  {
    hide Verify, RepinnedAll, WithVersion, WithPluginVersion, WithLockVersions, ParsePluginVersion,
         ParseWorkspaceVersion, LocalVersions, VersionsAt, IsSemver, Analyze, PinsAt, IsPrepared, ParseLockVersions,
         Rewritten, Repinned;
    LastReread(start, last, target, date, repo);
    ChangelogIsKept(start, last, mid.changelog, true, target, date, repo);
    ChangelogIsKept(start, last, start.changelog, true, target, date, repo);
    DocsAreKept(mid.docs, start.docs, target);
    DocsAreKept(start.docs, start.docs, target);
    forall i | 0 <= i < |mid.docs|
      ensures PinsAt(start.docs[i], target) ==> mid.docs[i] == start.docs[i]
    {
      RepinnedIsPinned(start.docs[i], target);
    }
  }

  /** A crash after k writes and a second run end where the first run would have. */
  predicate Recovers(start: Files, target: string, date: string, repo: string, k: nat)
    requires Plan(start, target, date, repo).Ok? && k <= |Plan(start, target, date, repo).value|
  {
    var writes := Plan(start, target, date, repo).value;
    var mid := Perform(start, writes[..k]);
    var again := Plan(mid, target, date, repo);
    again.Ok? && Perform(mid, again.value) == Perform(start, writes)
  }

  /** The lock is tidy once rewritten; where the second run may find nothing to do, it is tidy before. */
  predicate LockRepeats(files: Files, target: string, repo: string) {
    var lock := WithLockVersions(files.lock, target);
    lock.Ok?
    && if OnlyVersionsLeft(files, target, repo) then VersionsAt(LocalVersions(files.lock.blocks), target) ==> IsTidy(files.lock, target)
       else IsTidy(lock.value, target)
  }

  /** Where the second run may find nothing to do, there is no carriage return that it should take away. */
  predicate ReturnsAreGone(files: Files, target: string, repo: string) {
    OnlyVersionsLeft(files, target, repo) ==>
      ChangelogFile !in files.crlf
      && (VersionsAt(LocalVersions(files.lock.blocks), target) ==> LockFile !in files.crlf)
  }

  // What is left of carriage returns by a second run that does nothing.
  lemma {:induction false} ReturnsAtRest(start: Files, docs: seq<string>, k: nat)
    requires k > 1
    ensures ReturnsLeft(start.crlf - FixedPlaces(k), start.docs, docs) == ReturnsLeft(start.crlf - FixedPlaces(4), start.docs, docs)
       <==> (k < 3 ==> LockFile !in start.crlf) && (k < 4 ==> ChangelogFile !in start.crlf)
  {
    var mid, last := ReturnsLeft(start.crlf - FixedPlaces(k), start.docs, docs), ReturnsLeft(start.crlf - FixedPlaces(4), start.docs, docs);
    assert LockFile !in last && ChangelogFile !in last;
    assert LockFile in mid <==> LockFile in start.crlf && k < 3;
    assert ChangelogFile in mid <==> ChangelogFile in start.crlf && k < 4;
    if LockFile !in mid && ChangelogFile !in mid {
      assert mid == last;
    }
  }

  lemma {:induction false} RecoversAfter(start: Files, last: Files, target: string, date: string, repo: string, k: nat)
    requires IsRun(start, last, target, date, repo) && k <= |Plan(start, target, date, repo).value|
    ensures LockRepeats(start, target, repo) && ReturnsAreGone(start, target, repo) ==> Recovers(start, target, date, repo, k)
    ensures k == 2 && Recovers(start, target, date, repo, k) && OnlyVersionsLeft(start, target, repo)
            && VersionsAt(LocalVersions(start.lock.blocks), target) ==>
              LockRepeats(start, target, repo) && ReturnsAreGone(start, target, repo)
    ensures k == 3 && Recovers(start, target, date, repo, k)
            && !(OnlyVersionsLeft(start, target, repo) && VersionsAt(LocalVersions(start.lock.blocks), target)) ==>
              LockRepeats(start, target, repo) && ReturnsAreGone(start, target, repo)
    ensures |Plan(start, target, date, repo).value| >= 4
  {
    hide Plan, Verify, IsLast, IsDone, OnlyVersionsLeft, WithLockVersions, LocalVersions, VersionsAt, Perform, IsTidy, ReturnsLeft;
    var writes := Plan(start, target, date, repo).value;
    var mid := Perform(start, writes[..k]);
    RunLeaves(start, last, target, date, repo, k);
    LastIs(start, last, target, date, repo);
    TidyIsKept(start.lock, target);
    TidyIsKept(last.lock, target);
    if k == 0 {
      NothingPerformed(start);
      assert writes[..0] == [];
    } else {
      SecondRun(start, last, mid, target, date, repo, k);
      DoneWhen(start, last, mid, target, date, repo, k);
      NothingPerformed(mid);
      if k > 1 {
        ReturnsAtRest(start, last.docs, k);
      }
    }
  }

  lemma {:induction false} NothingPerformed(files: Files)
    ensures Perform(files, []) == files
  {
  }

  lemma {:induction false} LastIs(start: Files, last: Files, target: string, date: string, repo: string)
    requires IsRun(start, last, target, date, repo) && IsLast(last, start, target, date, repo)
    ensures WithLockVersions(start.lock, target) == Ok(last.lock) && Verify(last, repo).Ok?
    ensures last == Perform(start, Plan(start, target, date, repo).value)
    ensures last.crlf == ReturnsLeft(start.crlf - FixedPlaces(4), start.docs, last.docs)
  {
    hide Plan, Verify, Perform, ReturnsLeft, WithLockVersions, WithVersion, WithPluginVersion;
  }

  predicate RecoversAlways(start: Files, target: string, date: string, repo: string)
    requires Plan(start, target, date, repo).Ok?
  {
    forall k :: 0 <= k <= |Plan(start, target, date, repo).value| ==> Recovers(start, target, date, repo, k)
  }

  // A run that would succeed recovers exactly if the lock comes out tidy and no carriage return is left behind.
  lemma {:induction false} RunRecovers(start: Files, last: Files, target: string, date: string, repo: string)
    requires IsRun(start, last, target, date, repo)
    ensures RecoversAlways(start, target, date, repo)
       <==> LockRepeats(start, target, repo) && ReturnsAreGone(start, target, repo)
  {
    hide Plan, Recovers, LockRepeats, ReturnsAreGone, OnlyVersionsLeft, Perform, Verify, LocalVersions, VersionsAt;
    if LockRepeats(start, target, repo) && ReturnsAreGone(start, target, repo) {
      forall k | 0 <= k <= |Plan(start, target, date, repo).value|
        ensures Recovers(start, target, date, repo, k)
      {
        RecoversAfter(start, last, target, date, repo, k);
      }
    }
    if RecoversAlways(start, target, date, repo) {
      RecoversAfter(start, last, target, date, repo, 0);
      RecoversAfter(start, last, target, date, repo, 2);
      RecoversAfter(start, last, target, date, repo, 3);
    }
  }

  /** Crash recovery: a run that can be planned can be stopped after any number of its writes, or all, and run again to
      the very same files on disk, exactly if it would succeed, the lock comes out tidy and no carriage return is left
      behind. */
  lemma {:induction false} CrashRecovery(start: Files, last: Files, target: string, date: string, repo: string)
    requires Plan(start, target, date, repo).Ok? && Plan(start, target, date, repo).value != []
    requires last == Perform(start, Plan(start, target, date, repo).value)
    ensures RecoversAlways(start, target, date, repo)
       <==> Verify(last, repo).Ok? && LockRepeats(start, target, repo) && ReturnsAreGone(start, target, repo)
  {
    hide Plan, Perform, Verify, LockRepeats, ReturnsAreGone, Recovers;
    if Verify(last, repo).Ok? {
      RunRecovers(start, last, target, date, repo);
    } else {
      FailedIsNotRepeated(start, last, target, date, repo);
      assert !Recovers(start, target, date, repo, |Plan(start, target, date, repo).value|);
    }
  }

  // A second run over what a failed one left is refused, or comes to something else.
  lemma {:induction false} FailedIsNotRepeated(start: Files, last: Files, target: string, date: string, repo: string)
    requires Plan(start, target, date, repo).Ok? && Plan(start, target, date, repo).value != []
    requires last == Perform(start, Plan(start, target, date, repo).value)
    ensures Recovers(start, target, date, repo, |Plan(start, target, date, repo).value|) ==> Verify(last, repo).Ok?
  {
    hide Plan, Perform, Verify, IsLast, WithVersion, WithPluginVersion, WithLockVersions, IsSemver, IsTidy, PinsAt, ParseLockVersions,
         ParseWorkspaceVersion, ParsePluginVersion, IsPrepared, RepinnedAll, DocumentWrites, Analyze;
    var writes := Plan(start, target, date, repo).value;
    assert writes[..|writes|] == writes;
    if Recovers(start, target, date, repo, |writes|) {
      LastIsPlanned(start, last, target, date, repo);
      RewrittenReread(start, last, target, date, repo);
      RepeatedIsDone(last, target, date, repo);
      RepeatedIsPrepared(start, last, target, date, repo);
      AllVerifies(last, target, repo);
    }
  }

  lemma {:induction false} LastIsPlanned(start: Files, last: Files, target: string, date: string, repo: string)
    requires Plan(start, target, date, repo).Ok? && Plan(start, target, date, repo).value != []
    requires last == Perform(start, Plan(start, target, date, repo).value)
    ensures IsLast(last, start, target, date, repo)
  {
    hide Plan, Perform, IsLast, DocumentWrites, RepinnedAll;
    var left := PlanParts(start, target, date, repo);
    WritesLand(start, Head(left), target, 0);
  }

  // The manifests and documents of a run, reread; its changelog and lock may be something else.
  lemma {:induction false} RewrittenReread(start: Files, last: Files, target: string, date: string, repo: string)
    requires IsLast(last, start, target, date, repo)
    ensures ParseWorkspaceVersion(last.cargo) == Ok(target) && ParsePluginVersion(last.plugin) == Ok(target) && IsSemver(target)
    ensures forall i :: 0 <= i < |last.docs| ==> PinsAt(last.docs[i], target)
  {
    hide ChangelogAfter, Analyze, IsDone, ParseLockVersions, WithVersion, WithPluginVersion, WithLockVersions, PinsAt, Repinned,
         ParsePluginVersion, ParseWorkspaceVersion, LocalVersions, VersionsAt, AllAt, IsPrepared, IsSemver;
    SemverIsClean(target);
    CargoIsSettled(start.cargo, target);
    PluginIsSettled(start.plugin, target);
    forall i | 0 <= i < |last.docs|
      ensures PinsAt(last.docs[i], target)
    {
      RepinnedIsPinned(start.docs[i], target);
    }
  }

  // Files that a run leaves as they are have every local package at the target.
  lemma {:induction false} RepeatedIsDone(last: Files, target: string, date: string, repo: string)
    requires Plan(last, target, date, repo).Ok? && Perform(last, Plan(last, target, date, repo).value) == last
    ensures ParseLockVersions(last.lock).Ok? && VersionsAt(ParseLockVersions(last.lock).value, target)
  {
    hide Plan, Perform, IsLast, WithLockVersions, IsTidy, LocalVersions, VersionsAt, IsSemver, IsCleanTarget, IsDone;
    if Plan(last, target, date, repo).value == [] {
      NothingPlanned(last, target, date, repo);
    } else {
      LastIsPlanned(last, last, target, date, repo);
      LockOfLast(last, target, date, repo);
      SemverIsClean(target);
      TidyIsKept(last.lock, target);
      TidyIsAtTarget(last.lock, target);
    }
  }

  lemma {:induction false} LockOfLast(last: Files, target: string, date: string, repo: string)
    requires IsLast(last, last, target, date, repo)
    ensures WithLockVersions(last.lock, target) == Ok(last.lock) && ParseLockVersions(last.lock).Ok? && IsSemver(target)
  {
    hide WithLockVersions, ParseLockVersions, IsSemver, WithVersion, WithPluginVersion, ChangelogAfter, Analyze, IsDone;
  }

  lemma {:induction false} NothingPlanned(files: Files, target: string, date: string, repo: string)
    requires Plan(files, target, date, repo) == Ok([])
    ensures ParseLockVersions(files.lock).Ok? && IsDone(files, target, repo) && VersionsAt(ParseLockVersions(files.lock).value, target)
  {
    hide Analyze, WithVersion, WithPluginVersion, WithLockVersions, ParsePluginVersion, ChangelogAfter,
         ParseWorkspaceVersion, LocalVersions, VersionsAt, DocumentWrites, IsSemver, PinsAt;
  }

  // A run keeps a changelog that is prepared, or cuts one that does not name the target.
  lemma {:induction false} KeptOrCut(start: Files, last: Files, target: string, date: string, repo: string)
    requires IsLast(last, start, target, date, repo)
    ensures SplitChangelog(start.changelog).Ok?
    ensures if IsPrepared(start.changelog, target, repo) then last.changelog == start.changelog
            else Rewritten(start.changelog, target, date, repo) == Ok(last.changelog)
                 && !HasSection(SplitChangelog(start.changelog).value.sections, target)
  {
    hide Rewritten, AllAt, WithVersion, WithPluginVersion, WithLockVersions, ParsePluginVersion, ParseLockVersions, RepinnedAll,
         ParseWorkspaceVersion, LocalVersions, VersionsAt, IsSemver, SplitChangelog, UnreleasedAt, BodyUnder, HasSection, LookUp, AllLinks;
  }

  // What a run over files with the target in the manifest can be planned for.
  lemma {:induction false} PreparedOrLeft(files: Files, target: string, date: string, repo: string)
    requires Plan(files, target, date, repo).Ok? && ParseWorkspaceVersion(files.cargo) == Ok(target)
    ensures Analyze(files.changelog, target, repo).Ok?
    ensures IsPrepared(files.changelog, target, repo) || !PyBlank(Analyze(files.changelog, target, repo).value.unreleasedBody)
  {
    hide Rewritten, AllAt, WithVersion, WithPluginVersion, WithLockVersions, ParsePluginVersion, ParseLockVersions,
         ParseWorkspaceVersion, LocalVersions, VersionsAt, IsSemver, Analyze, DocumentWrites, PyBlank;
  }

  lemma {:induction false} BodyOfAnalysis(text: string, target: string, repo: string)
    requires Analyze(text, target, repo).Ok?
    ensures SplitChangelog(text).Ok?
    ensures var sections := SplitChangelog(text).value.sections;
            UnreleasedAt(sections) < |sections|
            && Analyze(text, target, repo).value.unreleasedBody == BodyUnder(sections, UnreleasedAt(sections))
  {
    hide SplitChangelog, UnreleasedAt, BodyUnder, HasSection, LookUp, AllLinks;
  }

  // A changelog that a second run takes is prepared: nothing is left under Unreleased to cut again.
  lemma {:induction false} RepeatedIsPrepared(start: Files, last: Files, target: string, date: string, repo: string)
    requires IsLast(last, start, target, date, repo) && Plan(last, target, date, repo).Ok?
    requires ParseWorkspaceVersion(last.cargo) == Ok(target)
    ensures IsPrepared(last.changelog, target, repo)
  {
    hide Plan, IsLast, Analyze, IsPrepared, ParseWorkspaceVersion, Rewritten, SplitChangelog, UnreleasedAt, BodyUnder, HasSection;
    KeptOrCut(start, last, target, date, repo);
    PreparedOrLeft(last, target, date, repo);
    if !IsPrepared(start.changelog, target, repo) {
      BodyOfAnalysis(last.changelog, target, repo);
      NothingIsLeft(start.changelog, target, date, repo);
      EmptyIsBlank();
    }
  }

  /** A lock as cargo writes it comes out tidy. */
  lemma {:induction false} CanonicalLockRepeats(files: Files, target: string, repo: string)
    requires IsCanonical(files.lock) && IsSemver(target)
    ensures LockRepeats(files, target, repo)
  {
    hide IsCanonical, WithLockVersions, LocalVersions, VersionsAt, IsTidy, OnlyVersionsLeft, IsSemver;
    SemverIsClean(target);
    LockIsSettled(files.lock, target);
    TidyIsKept(files.lock, target);
    TidyIsKept(WithLockVersions(files.lock, target).value, target);
  }

  /** Once a run has succeeded, a further run writes nothing, whatever its date. */
  lemma {:induction false} FurtherRunWritesNothing(start: Files, last: Files, target: string, date: string, later: string, repo: string)
    requires IsRun(start, last, target, date, repo)
    ensures Plan(last, target, later, repo) == Ok([])
  {
    RunLeaves(start, last, target, date, repo, 0);
    LastReread(start, last, target, date, repo);
    hide IsRun, Verify, RepinnedAll, WithVersion, WithPluginVersion, WithLockVersions,
         ParseWorkspaceVersion, LocalVersions, VersionsAt, Analyze, PinsAt, ChangelogAfter;
  }

  // ---------------------------------------------------------------------------
  // A planned run verifies
  // ---------------------------------------------------------------------------

  lemma {:induction false} AllVerifies(files: Files, target: string, repo: string)
    requires ParseWorkspaceVersion(files.cargo) == Ok(target) && IsSemver(target)
    requires ParsePluginVersion(files.plugin) == Ok(target)
    requires ParseLockVersions(files.lock).Ok? && VersionsAt(ParseLockVersions(files.lock).value, target)
    requires forall i :: 0 <= i < |files.docs| ==> PinsAt(files.docs[i], target)
    requires IsPrepared(files.changelog, target, repo)
    ensures Verify(files, repo).Ok?
  {
    hide ParseWorkspaceVersion, IsSemver, ParsePluginVersion, ParseLockVersions, VersionsAt, PinsAt, Analyze;
  }

  lemma {:induction false} VerifiedParts(files: Files, target: string, repo: string)
    requires Verify(files, repo).Ok? && ParseWorkspaceVersion(files.cargo) == Ok(target)
    ensures ParseLockVersions(files.lock).Ok? && VersionsAt(ParseLockVersions(files.lock).value, target)
    ensures IsPrepared(files.changelog, target, repo)
  {
    hide ParseWorkspaceVersion, ParsePluginVersion, LocalVersions, VersionsAt, PinsAt, Analyze, IsSemver;
  }

  /** The changelog of a run is prepared for its URL exactly if the URL holds no blank and the heading made of target and
      date fits, or the changelog was prepared before. Where the URL holds no blank it is prepared for no other. */
  lemma {:induction false} RunIsPrepared(start: Files, last: Files, target: string, date: string, repo: string)
    requires IsLast(last, start, target, date, repo)
    ensures IsPrepared(last.changelog, target, repo)
       <==> NoSpace(repo) && (IsPrepared(start.changelog, target, repo) || HeadingFits(target, date))
    ensures forall other :: NoSpace(repo) && IsPrepared(last.changelog, target, other) ==> other == repo
  {
    hide IsLast, IsPrepared, Rewritten, SplitChangelog, HasSection, HeadingLines, NoSpace, NoneIsLink, IsSemver;
    KeptOrCut(start, last, target, date, repo);
    TargetIsSemver(start, last, target, date, repo);
    if IsPrepared(start.changelog, target, repo) {
      PreparedUrl(start.changelog, target, repo);
      forall other | IsPrepared(last.changelog, target, other)
        ensures other == repo
      {
        PreparedForOneUrl(last.changelog, target, repo, other);
      }
    } else {
      SemverIsClean(target);
      CutIsPrepared(start.changelog, target, date, repo);
    }
  }

  lemma {:induction false} TargetIsSemver(start: Files, last: Files, target: string, date: string, repo: string)
    requires IsLast(last, start, target, date, repo)
    ensures IsSemver(target)
  {
    hide IsSemver, ChangelogAfter, Analyze, WithVersion, WithPluginVersion, WithLockVersions, ParseLockVersions, IsDone;
  }

  lemma {:induction false} PreparedForOneUrl(text: string, target: string, a: string, b: string)
    requires IsPrepared(text, target, a) && IsPrepared(text, target, b)
    ensures a == b
  {
    hide SplitChangelog, UnreleasedAt, BodyUnder, HasSection, LookUp, AllLinks, CompareUrl, ReleaseUrl;
    assert CompareUrl(a, target) == CompareUrl(b, target);
    CompareUrlTells(a, b, target);
  }

  // Looked up a second time, the URL is the same if the changelog of the run is prepared for it.
  lemma {:induction false} PreparedForSameUrl(start: Files, last: Files, target: string, date: string, given: string, origin: Origin)
    requires RepoUrl(given, origin).Ok? && IsLast(last, start, target, date, RepoUrl(given, origin).value)
    requires var again := RepoUrl(RepoUrl(given, origin).value, origin); again.Ok? && IsPrepared(last.changelog, target, again.value)
    ensures RepoUrl(RepoUrl(given, origin).value, origin) == RepoUrl(given, origin)
  {
    hide IsLast, IsPrepared, Rewritten, SplitChangelog, HasSection, HeadingFits, IsSemver, Normalized, Found;
    var repo := RepoUrl(given, origin).value;
    var again := RepoUrl(repo, origin).value;
    RunIsPrepared(start, last, target, date, repo);
    if !NoSpace(repo) {
      PreparedUrl(last.changelog, target, again);
      var bare, blanks := BlanksAtEnd(given, origin);
      KeptOrCut(start, last, target, date, repo);
      TargetIsSemver(start, last, target, date, repo);
      SemverIsClean(target);
      if IsPrepared(start.changelog, target, repo) {
        PreparedUrl(start.changelog, target, repo);
      } else {
        TrailedIsNotPrepared(start.changelog, target, date, bare, blanks, again);
      }
    }
  }

  /** The lock reads back with every local package at the target. */
  predicate ReadsAt(lock: Lock, target: string) {
    ParseLockVersions(lock).Ok? && VersionsAt(ParseLockVersions(lock).value, target)
  }

  lemma {:induction false} RunVerifies(start: Files, last: Files, target: string, date: string, repo: string)
    requires IsLast(last, start, target, date, repo)
    ensures Verify(last, repo).Ok? <==> ReadsAt(last.lock, target) && IsPrepared(last.changelog, target, repo)
  {
    hide Verify, IsLast, IsPrepared, IsSemver, PinsAt, ParseWorkspaceVersion, ParsePluginVersion, ParseLockVersions, VersionsAt;
    RewrittenReread(start, last, target, date, repo);
    if Verify(last, repo).Ok? {
      VerifiedParts(last, target, repo);
    }
    if ReadsAt(last.lock, target) && IsPrepared(last.changelog, target, repo) {
      AllVerifies(last, target, repo);
    }
  }

  /** A run that can be planned ends in a release prepared for its URL exactly if the rewritten lock reads back, as one
      does that cargo wrote, the URL holds no blank, and the heading made of target and date fits or the changelog was
      prepared before. Its own check takes the URL through the same steps once more, and accepts the release exactly if
      it comes to the same URL. */
  lemma {:induction false} PlannedRunVerifies(start: Files, target: string, date: string, given: string, origin: Origin)
    requires RepoUrl(given, origin).Ok? && Plan(start, target, date, RepoUrl(given, origin).value).Ok?
    requires Plan(start, target, date, RepoUrl(given, origin).value).value != []
    ensures IsSemver(target) && WithLockVersions(start.lock, target).Ok?
    ensures var repo := RepoUrl(given, origin).value;
            var last := Perform(start, Plan(start, target, date, repo).value);
            Verify(last, repo).Ok?
            <==> ReadsAt(WithLockVersions(start.lock, target).value, target) && NoSpace(repo)
                 && (IsPrepared(start.changelog, target, repo) || HeadingFits(target, date))
    ensures var repo, again := RepoUrl(given, origin).value, RepoUrl(RepoUrl(given, origin).value, origin);
            var last := Perform(start, Plan(start, target, date, repo).value);
            again.Ok? && Verify(last, again.value).Ok? <==> again == Ok(repo) && Verify(last, repo).Ok?
    ensures IsCanonical(start.lock) ==> ReadsAt(WithLockVersions(start.lock, target).value, target)
  {
    hide Plan, Perform, Verify, IsLast, WithLockVersions, ParseLockVersions, VersionsAt, IsPrepared, HeadingFits, NoSpace, IsSemver,
         IsCanonical, Normalized, Found, PinsAt, ParseWorkspaceVersion, ParsePluginVersion;
    var repo := RepoUrl(given, origin).value;
    var last := Perform(start, Plan(start, target, date, repo).value);
    LastIsPlanned(start, last, target, date, repo);
    RewrittenReread(start, last, target, date, repo);
    RewrittenLock(start, last, target, date, repo);
    RunIsPrepared(start, last, target, date, repo);
    RunVerifies(start, last, target, date, repo);
    var again := RepoUrl(repo, origin);
    if again.Ok? && Verify(last, again.value).Ok? {
      VerifiedParts(last, target, again.value);
      PreparedForSameUrl(start, last, target, date, given, origin);
    }
  }

  lemma {:induction false} RewrittenLock(start: Files, last: Files, target: string, date: string, repo: string)
    requires IsLast(last, start, target, date, repo)
    ensures WithLockVersions(start.lock, target) == Ok(last.lock)
    ensures IsCanonical(start.lock) ==> ReadsAt(last.lock, target)
  {
    hide WithLockVersions, ParseLockVersions, VersionsAt, IsCanonical, IsSemver, ChangelogAfter, Analyze, WithVersion,
         WithPluginVersion, IsDone;
    SemverIsClean(target);
    if IsCanonical(start.lock) {
      RewrittenLockVersions(start.lock, target);
    }
  }

  /** With a lock as cargo writes it, any run that can be planned is repaired by a second run wherever the first one
      dies, exactly if the URL holds no blank, the heading fits or the changelog was prepared before, and no carriage
      return is left behind. */
  lemma {:induction false} PlannedRunRecovers(start: Files, target: string, date: string, repo: string)
    requires Plan(start, target, date, repo).Ok? && Plan(start, target, date, repo).value != [] && IsCanonical(start.lock)
    ensures RecoversAlways(start, target, date, repo)
       <==> NoSpace(repo) && (IsPrepared(start.changelog, target, repo) || HeadingFits(target, date))
            && ReturnsAreGone(start, target, repo)
  {
    hide Plan, Perform, Verify, RecoversAlways, LockRepeats, ReturnsAreGone, IsCanonical, NoSpace, IsSemver, IsPrepared, HeadingFits,
         IsLast, ReadsAt;
    var last := Perform(start, Plan(start, target, date, repo).value);
    LastIsPlanned(start, last, target, date, repo);
    RewrittenLock(start, last, target, date, repo);
    RunIsPrepared(start, last, target, date, repo);
    RunVerifies(start, last, target, date, repo);
    TargetIsSemver(start, last, target, date, repo);
    CanonicalLockRepeats(start, target, repo);
    CrashRecovery(start, last, target, date, repo);
  }

  /** After a run that succeeds, the last block with a version of each of the five crates is at the target; and every block
      of theirs is, exactly if none of the lock it started from ran on into another package's that was not. */
  lemma {:induction false} RunSettlesCrates(start: Files, last: Files, target: string, date: string, repo: string)
    requires IsRun(start, last, target, date, repo)
    ensures forall name :: name in ["board-cli", "board-core", "board-daemon", "board-herdr", "board-tui"] ==>
              exists i: nat :: IsLastVersioned(last.lock.blocks, i, name) && Field(last.lock.blocks[i], "version") == Some(target)
    ensures AreCratesAt(last.lock.blocks, target)
       <==> forall i :: 0 <= i < |start.lock.blocks| - 1 ==> !RunsOn(start.lock.blocks, i, target)
  {
    hide Plan, Perform, Verify, IsLast, IsSemver, IsCleanTarget, ParseLockVersions, Field, IsPrepared, ParseWorkspaceVersion,
         AreCratesAt, RunsOn, NewBlocks;
    LastIsPlanned(start, last, target, date, repo);
    RewrittenReread(start, last, target, date, repo);
    VerifiedParts(last, target, repo);
    SemverIsClean(target);
    RewrittenLock(start, last, target, date, repo);
    LockIsRead(last.lock);
    CratesSettleExactly(start.lock.blocks, target);
    forall name | name in ["board-cli", "board-core", "board-daemon", "board-herdr", "board-tui"]
      ensures exists i: nat :: IsLastVersioned(last.lock.blocks, i, name) && Field(last.lock.blocks[i], "version") == Some(target)
    {
      var i: nat :| IsLastVersioned(last.lock.blocks, i, name);
      assert Some(ParseLockVersions(last.lock).value[name]) == Field(last.lock.blocks[i], "version");
    }
  }
}

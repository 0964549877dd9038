/** What an import run does to the board's database and to its report, one record at a time. */
module ImportRun {
  import opened Text
  import opened Records

  // ---------------------------------------------------------------------------
  // The database, by natural key
  // ---------------------------------------------------------------------------

  datatype Key =
    | Global
    | Space(space: string)
    | SpaceRecord(session: string, workspace: string)
    | Worktree(path: string)
    | Session(id: string)
    | Repo(scope: string, path: string)

  datatype Row =
    | MappingRow(mapping: Mapping)
    | SpaceRow(space: SpaceColumns)
    | WorktreeRow(worktree: WorktreeColumns)
    | ScopeRow(scope: ScopeColumns)
    | Listed

  type Db = map<Key, Row>

  function IssueOf(row: Row): string {
    if row.WorktreeRow? then row.worktree.issue else ""
  }

  /** Which issue each worktree is bound to. */
  function Issues(db: Db): map<string, string> {
    map k | k in db && k.Worktree? :: k.path := IssueOf(db[k])
  }

  predicate OneIssueEach(issues: map<string, string>) {
    forall p, q :: p in issues && q in issues && issues[p] == issues[q] ==> p == q
  }

  /** No space is mapped before there is a global mapping; every setter of the board keeps it so. */
  predicate IsSound(db: Db) {
    Global !in db ==> forall k :: k in db ==> !k.Space?
  }

  // ---------------------------------------------------------------------------
  // The report and the shadow state
  // ---------------------------------------------------------------------------

  datatype Kind = Grouping | SpaceBinding | WorktreeBinding | SessionScope | ScopeRepo

  datatype Reason =
    | Unusable(why: Fault)
    | AlreadyThere
    | IssueHeld(issue: string, holder: string)
    | Superseded(workspace: string)
    | Refused

  datatype Item = Item(kind: Kind, key: string, source: string, reason: Option<Reason>, dropped: seq<string>)

  /** What has been imported so far in this run, performed or not. */
  datatype Planned = Planned(globalMapping: bool, spaces: set<string>, spaceBindings: set<(string, string)>,
                             worktrees: map<string, string>, sessions: set<string>, repos: set<(string, string)>)

  const NOTHING_PLANNED := Planned(false, {}, {}, map[], {}, {})

  predicate IsPlanned(p: Planned, key: Key) {
    match key
    case Global => p.globalMapping
    case Space(space) => space in p.spaces
    case SpaceRecord(session, workspace) => (session, workspace) in p.spaceBindings
    case Worktree(path) => path in p.worktrees
    case Session(id) => id in p.sessions
    case Repo(scope, path) => (scope, path) in p.repos
  }

  function WithPlanned(p: Planned, key: Key, row: Row): Planned {
    match key
    case Global => p.(globalMapping := true)
    case Space(space) => p.(spaces := p.spaces + {space})
    case SpaceRecord(session, workspace) => p.(spaceBindings := p.spaceBindings + {(session, workspace)})
    case Worktree(path) => p.(worktrees := p.worktrees[path := IssueOf(row)])
    case Session(id) => p.(sessions := p.sessions + {id})
    case Repo(scope, path) => p.(repos := p.repos + {(scope, path)})
  }

  function KindOf(key: Key): Kind {
    match key
    case Global => Grouping
    case Space(_) => Grouping
    case SpaceRecord(_, _) => SpaceBinding
    case Worktree(_) => WorktreeBinding
    case Session(_) => SessionScope
    case Repo(_, _) => ScopeRepo
  }

  function KeyText(key: Key): string {
    match key
    case Global => "global"
    case Space(space) => "space " + space
    case SpaceRecord(session, workspace) => session + "/" + workspace
    case Worktree(path) => path
    case Session(id) => id
    case Repo(scope, path) => scope + " " + path
  }

  /** A run in progress. */
  datatype Run = Run(db: Db, imported: seq<Item>, skipped: seq<Item>, ignored: seq<string>,
                     changed: set<Option<string>>, planned: Planned)

  function FreshRun(db: Db): Run {
    Run(db, [], [], [], {}, NOTHING_PLANNED)
  }

  /** What the setter of each kind of row checks. */
  predicate Accepts(key: Key, row: Row) {
    match (key, row)
    case (Global, MappingRow(m)) => IsMapping(m)
    case (Space(space), MappingRow(m)) => TextOk(space) && IsMapping(m)
    case (SpaceRecord(session, workspace), SpaceRow(c)) => AcceptsSpace(session, workspace, c)
    case (Worktree(path), WorktreeRow(c)) => AcceptsWorktree(path, c)
    case (Session(id), ScopeRow(c)) => AcceptsScope(id, c)
    case (Repo(scope, path), Listed) => IsScopeKey(scope) && IsAbsolute(path)
    case _ => false
  }

  /** A row is accepted only under a key of its own kind: mappings with a usable name, unless they are global, and a
      repository by its absolute path in a scope. */
  lemma {:induction false} RowsFitTheirKeys(key: Key, row: Row)
    ensures Accepts(key, row)
       <==> (key == Global && row.MappingRow? && IsMapping(row.mapping))
            || (key.Space? && row.MappingRow? && TextOk(key.space) && IsMapping(row.mapping))
            || (key.SpaceRecord? && row.SpaceRow? && AcceptsSpace(key.session, key.workspace, row.space))
            || (key.Worktree? && row.WorktreeRow? && AcceptsWorktree(key.path, row.worktree))
            || (key.Session? && row.ScopeRow? && AcceptsScope(key.id, row.scope))
            || (key.Repo? && row.Listed? && IsScopeKey(key.scope) && IsAbsolute(key.path))
  {
    hide IsMapping, TextOk, AcceptsSpace, AcceptsWorktree, AcceptsScope, IsScopeKey, IsAbsolute;
  }

  /** A setter refuses a row it does not accept, and a space mapping where no global one exists. */
  predicate Refuses(db: Db, key: Key, row: Row) {
    !Accepts(key, row) || (key.Space? && Global !in db)
  }

  // ---------------------------------------------------------------------------
  // Who holds an issue
  // ---------------------------------------------------------------------------

  predicate Holds(issues: map<string, string>, issue: string, path: string, holder: string) {
    holder in issues && issues[holder] == issue && holder != path
  }

  ghost predicate IsFirstHolder(issues: map<string, string>, issue: string, path: string, holder: string) {
    Holds(issues, issue, path, holder)
    && forall other :: Holds(issues, issue, path, other) ==> other == holder || LexLess(holder, other)
  }

  /** The first other worktree, in path order, that an issue is bound to. */
  ghost function FirstHolder(issues: map<string, string>, issue: string, path: string): Option<string> {
    if exists h :: IsFirstHolder(issues, issue, path, h) then
      var h :| IsFirstHolder(issues, issue, path, h);
      Some(h)
    else None
  }

  /** The holder of an issue, looked up in what is planned and then in the database. */
  ghost function HolderOf(r: Run, issue: string, path: string): Option<string> {
    var planned := FirstHolder(r.planned.worktrees, issue, path);
    if planned.Some? then planned else FirstHolder(Issues(r.db), issue, path)
  }

  // ---------------------------------------------------------------------------
  // One record, and a whole run
  // ---------------------------------------------------------------------------

  /** What the run comes to for one entry of the store, or one element of a record. */
  datatype Task =
    | Ignore(path: string)
    | Skip(kind: Kind, shown: string, source: string, reason: Reason)
    | Offer(source: string, key: Key, row: Row, dropped: seq<string>, space: Option<string>)

  function Skipped(r: Run, kind: Kind, key: string, source: string, reason: Reason): Run {
    r.(skipped := r.skipped + [Item(kind, key, source, Some(reason), [])])
  }

  function Imported(r: Run, t: Task, dryRun: bool): Run
    requires t.Offer?
  {
    Run(if dryRun then r.db else r.db[t.key := t.row],
        r.imported + [Item(KindOf(t.key), KeyText(t.key), t.source, None, t.dropped)], r.skipped, r.ignored,
        if dryRun then r.changed else r.changed + {t.space}, WithPlanned(r.planned, t.key, t.row))
  }

  /** Why an offered record is not inserted, if it is not. */
  ghost function Obstacle(r: Run, t: Task, dryRun: bool): Option<Reason>
    requires t.Offer?
  {
    if t.key in r.db || IsPlanned(r.planned, t.key) then Some(AlreadyThere)
    else
      var holder := if t.key.Worktree? then HolderOf(r, IssueOf(t.row), t.key.path) else None;
      if holder.Some? then Some(IssueHeld(IssueOf(t.row), holder.value))
      else if !dryRun && Refuses(r.db, t.key, t.row) then Some(Refused)
      else None
  }

  ghost function Step(r: Run, t: Task, dryRun: bool): Run {
    match t
    case Ignore(path) => r.(ignored := r.ignored + [path])
    case Skip(kind, shown, source, reason) => Skipped(r, kind, shown, source, reason)
    case Offer(source, key, row, dropped, space) =>
      var obstacle := Obstacle(r, t, dryRun);
      if obstacle.Some? then Skipped(r, KindOf(key), KeyText(key), source, obstacle.value)
      else Imported(r, t, dryRun)
  }

  // A record that is no worktree's is already there, inserted or refused.
  lemma {:induction false} StepOfOffer(r: Run, t: Task, dryRun: bool)
    requires t.Offer? && !t.key.Worktree?
    ensures Step(r, t, dryRun)
         == if t.key in r.db || IsPlanned(r.planned, t.key) then Skipped(r, KindOf(t.key), KeyText(t.key), t.source, AlreadyThere)
            else if dryRun || !Refuses(r.db, t.key, t.row) then Imported(r, t, dryRun)
            else Skipped(r, KindOf(t.key), KeyText(t.key), t.source, Refused)
  {
    hide IsPlanned, Refuses, KindOf, KeyText, Skipped, Imported;
  }

  /** How an item is named in the report, by its key. */
  predicate IsNamedFor(item: Item, key: Key) {
    match key
    case Global => item.kind == Grouping && item.key == "global"
    case Space(space) => item.kind == Grouping && item.key == "space " + space
    case SpaceRecord(session, workspace) => item.kind == SpaceBinding && item.key == session + "/" + workspace
    case Worktree(path) => item.kind == WorktreeBinding && item.key == path
    case Session(id) => item.kind == SessionScope && item.key == id
    case Repo(scope, path) => item.kind == ScopeRepo && item.key == scope + " " + path
  }

  predicate HasOneMore(items: seq<Item>, after: seq<Item>, t: Task, reason: Option<Reason>, dropped: seq<string>)
    requires t.Offer?
  {
    |after| == |items| + 1 && after[..|items|] == items && IsNamedFor(after[|items|], t.key)
    && after[|items|].source == t.source && after[|items|].reason == reason && after[|items|].dropped == dropped
  }

  /** An offer adds one item to the report, named for its key: an imported one with what it drops, or a skipped one with
      what stands in its way. */
  lemma {:induction false} OfferIsReported(r: Run, t: Task, dryRun: bool)
    requires t.Offer?
    ensures var after, obstacle := Step(r, t, dryRun), Obstacle(r, t, dryRun);
            after.ignored == r.ignored
            && if obstacle.None? then after.skipped == r.skipped && HasOneMore(r.imported, after.imported, t, None, t.dropped)
               else after.imported == r.imported && HasOneMore(r.skipped, after.skipped, t, obstacle, [])
  {
    hide Obstacle;
  }

  ghost function Steps(r: Run, tasks: seq<Task>, dryRun: bool): Run {
    if tasks == [] then r
    else Step(Steps(r, tasks[..|tasks| - 1], dryRun), tasks[|tasks| - 1], dryRun)
  }

  lemma {:induction false} StepsAppend(r: Run, a: seq<Task>, b: seq<Task>, dryRun: bool)
    ensures Steps(r, a + b, dryRun) == Steps(Steps(r, a, dryRun), b, dryRun)
  {
    hide Step;
    if b == [] {
      assert a + b == a;
    } else {
      var n := |b| - 1;
      StepsAppend(r, a, b[..n], dryRun);
      assert (a + b)[..|a + b| - 1] == a + b[..n];
    }
  }

  lemma {:induction false} OneMoreTask(r: Run, tasks: seq<Task>, t: Task, dryRun: bool)
    ensures Steps(r, tasks + [t], dryRun) == Step(Steps(r, tasks, dryRun), t, dryRun)
    ensures Steps(r, [t], dryRun) == Step(r, t, dryRun)
  {
    hide Step;
    assert (tasks + [t])[..|tasks|] == tasks;
    assert [t][..0] == [];
  }

  // ---------------------------------------------------------------------------
  // Insert only
  // ---------------------------------------------------------------------------

  /** No row that was there is changed or removed. */
  predicate Extends(after: Db, before: Db) {
    forall k :: k in before ==> k in after && after[k] == before[k]
  }

  /** An import only inserts: every earlier row is kept, at every point of every run. */
  lemma {:induction false} ImportOnlyInserts(r: Run, tasks: seq<Task>, dryRun: bool)
    ensures Extends(Steps(r, tasks, dryRun).db, r.db)
  {
    hide HolderOf, Refuses, WithPlanned;
    if tasks != [] {
      ImportOnlyInserts(r, tasks[..|tasks| - 1], dryRun);
    }
  }

  /** A space mapping never precedes the global one, so the database stays sound. */
  lemma {:induction false} ImportKeepsSound(r: Run, tasks: seq<Task>, dryRun: bool)
    requires IsSound(r.db)
    ensures IsSound(Steps(r, tasks, dryRun).db)
  {
    hide HolderOf, WithPlanned, KindOf, KeyText;
    if tasks != [] {
      ImportKeepsSound(r, tasks[..|tasks| - 1], dryRun);
    }
  }

  /** A dry run touches neither the database nor the changed spaces. */
  lemma {:induction false} DryRunWritesNothing(r: Run, tasks: seq<Task>, dryRun: bool)
    requires dryRun
    ensures Steps(r, tasks, dryRun).db == r.db && Steps(r, tasks, dryRun).changed == r.changed
  {
    hide HolderOf, Refuses, WithPlanned;
    if tasks != [] {
      DryRunWritesNothing(r, tasks[..|tasks| - 1], dryRun);
    }
  }

  // ---------------------------------------------------------------------------
  // One issue, one worktree
  // ---------------------------------------------------------------------------

  // Some other worktree holds the issue, so a first one does.
  lemma {:induction false} FirstHolderExists(issues: map<string, string>, issue: string, path: string, candidates: set<string>)
    requires forall h :: h in candidates <==> Holds(issues, issue, path, h)
    requires candidates != {}
    ensures exists h :: IsFirstHolder(issues, issue, path, h)
  {
    var first := Least(candidates);
    assert IsFirstHolder(issues, issue, path, first);
  }

  lemma {:induction false} Least(s: set<string>) returns (first: string)
    requires s != {}
    ensures first in s && forall t :: t in s ==> t == first || LexLess(first, t)
    decreases |s|
  {
    var some :| some in s;
    if s == {some} {
      first := some;
    } else {
      var rest := s - {some};
      assert s == {some} + rest;
      first := Least(rest);
      LexLessIsStrictOrder(some, first);
      if LexLess(some, first) {
        forall t | t in s
          ensures t == some || LexLess(some, t)
        {
          if t != some && t != first {
            LexLessTransitive(some, first, t);
          }
        }
        first := some;
      }
    }
  }

  lemma {:induction false} FirstHolderFinds(issues: map<string, string>, issue: string, path: string)
    ensures FirstHolder(issues, issue, path).Some? <==> exists h :: Holds(issues, issue, path, h)
    ensures FirstHolder(issues, issue, path).Some? ==> IsFirstHolder(issues, issue, path, FirstHolder(issues, issue, path).value)
  {
    var candidates := set h | h in issues && Holds(issues, issue, path, h);
    if candidates != {} {
      FirstHolderExists(issues, issue, path, candidates);
    } else if exists h :: Holds(issues, issue, path, h) {
      var h :| Holds(issues, issue, path, h);
      assert h in candidates;
    }
  }

  lemma {:induction false} FirstHolderIs(issues: map<string, string>, issue: string, path: string, h: string)
    requires IsFirstHolder(issues, issue, path, h)
    ensures FirstHolder(issues, issue, path) == Some(h)
  {
    FirstHolderFinds(issues, issue, path);
    LexLessIsStrictOrder(h, FirstHolder(issues, issue, path).value);
  }

  /** The issues of all worktrees once the plan is carried out. */
  function PlannedIssues(r: Run): map<string, string> {
    Issues(r.db) + r.planned.worktrees
  }

  predicate SameIssues(issues: map<string, string>, planned: map<string, string>) {
    forall p :: p in issues && p in planned ==> issues[p] == planned[p]
  }

  lemma {:induction false} IssuesWith(db: Db, key: Key, row: Row)
    ensures Issues(db[key := row]) == if key.Worktree? then Issues(db)[key.path := IssueOf(row)] else Issues(db)
  {
  }

  lemma {:induction false} NoHolder(r: Run, issue: string, path: string)
    requires HolderOf(r, issue, path).None? && SameIssues(Issues(r.db), r.planned.worktrees)
    ensures forall h :: !Holds(PlannedIssues(r), issue, path, h)
  {
    FirstHolderFinds(r.planned.worktrees, issue, path);
    FirstHolderFinds(Issues(r.db), issue, path);
    hide FirstHolder, Issues;
    forall h
      ensures !Holds(PlannedIssues(r), issue, path, h)
    {
      assert !Holds(r.planned.worktrees, issue, path, h) && !Holds(Issues(r.db), issue, path, h);
    }
  }

  lemma {:induction false} OneMoreIssue(issues: map<string, string>, path: string, issue: string)
    requires OneIssueEach(issues) && forall h :: !Holds(issues, issue, path, h)
    ensures OneIssueEach(issues[path := issue])
  {
    var after := issues[path := issue];
    forall p, q | p in after && q in after && after[p] == after[q]
      ensures p == q
    {
      assert !Holds(issues, issue, path, p) && !Holds(issues, issue, path, q);
    }
  }

  // An insert, performed or planned, adds its issue to those of the plan.
  lemma {:induction false} ImportedIssues(r: Run, t: Task, dryRun: bool)
    requires t.Offer? && t.key !in r.db && SameIssues(Issues(r.db), r.planned.worktrees)
    ensures var after := Imported(r, t, dryRun);
            SameIssues(Issues(after.db), after.planned.worktrees)
            && PlannedIssues(after)
               == if t.key.Worktree? then PlannedIssues(r)[t.key.path := IssueOf(t.row)] else PlannedIssues(r)
  {
    IssuesWith(r.db, t.key, t.row);
    IssuesAt(r.db);
    hide Issues, KindOf, KeyText, IssueOf, WithPlanned, SameIssues;
    PlannedWorktrees(r.planned, t.key, t.row);
    if t.key.Worktree? {
      MergeWith(Issues(r.db), r.planned.worktrees, t.key.path, IssueOf(t.row));
    }
  }

  lemma {:induction false} PlannedWorktrees(p: Planned, key: Key, row: Row)
    ensures WithPlanned(p, key, row).worktrees
         == if key.Worktree? then p.worktrees[key.path := IssueOf(row)] else p.worktrees
  {
  }

  lemma {:induction false} MergeWith(issues: map<string, string>, planned: map<string, string>, path: string, issue: string)
    requires path !in issues && SameIssues(issues, planned)
    ensures var planned' := planned[path := issue];
            SameIssues(issues, planned') && SameIssues(issues[path := issue], planned')
            && issues + planned' == (issues + planned)[path := issue]
            && issues[path := issue] + planned' == (issues + planned)[path := issue]
  {
  }

  lemma {:induction false} IssuesAt(db: Db)
    ensures forall p :: p in Issues(db) <==> Worktree(p) in db
    ensures forall p :: p in Issues(db) ==> Issues(db)[p] == IssueOf(db[Worktree(p)])
  {
  }

  lemma {:induction false} StepKeepsOneIssue(r: Run, t: Task, dryRun: bool)
    requires OneIssueEach(PlannedIssues(r)) && SameIssues(Issues(r.db), r.planned.worktrees)
    ensures var after := Step(r, t, dryRun);
            OneIssueEach(PlannedIssues(after)) && SameIssues(Issues(after.db), after.planned.worktrees)
  {
    hide OneIssueEach, SameIssues, PlannedIssues, Issues, Imported, HolderOf, Refuses;
    if t.Offer? && Obstacle(r, t, dryRun).None? {
      ImportedIssues(r, t, dryRun);
      if t.key.Worktree? {
        NoHolder(r, IssueOf(t.row), t.key.path);
        OneMoreIssue(PlannedIssues(r), t.key.path, IssueOf(t.row));
      }
    } else {
      StepKeepsState(r, t, dryRun);
    }
  }

  lemma {:induction false} StepKeepsState(r: Run, t: Task, dryRun: bool)
    requires t.Offer? ==> Obstacle(r, t, dryRun).Some?
    ensures var after := Step(r, t, dryRun); after.db == r.db && after.planned == r.planned && after.changed == r.changed
    ensures PlannedIssues(Step(r, t, dryRun)) == PlannedIssues(r)
  {
    hide Obstacle;
  }

  lemma {:induction false} RunKeepsOneIssue(db: Db, tasks: seq<Task>, dryRun: bool)
    requires OneIssueEach(Issues(db))
    ensures var end := Steps(FreshRun(db), tasks, dryRun);
            OneIssueEach(PlannedIssues(end)) && SameIssues(Issues(end.db), end.planned.worktrees)
  {
    hide OneIssueEach, SameIssues, Step, Issues;
    if tasks == [] {
      assert PlannedIssues(FreshRun(db)) == Issues(db);
      NothingShared(Issues(db));
    } else {
      hide PlannedIssues;
      var n := |tasks| - 1;
      RunKeepsOneIssue(db, tasks[..n], dryRun);
      StepKeepsOneIssue(Steps(FreshRun(db), tasks[..n], dryRun), tasks[n], dryRun);
    }
  }

  lemma {:induction false} NothingShared(issues: map<string, string>)
    ensures SameIssues(issues, map[])
  {
  }

  /** If no two worktrees share an issue before an import, none do after it, nor would after a dry run's plan. */
  lemma {:induction false} OneIssueOneWorktree(db: Db, tasks: seq<Task>, dryRun: bool)
    requires OneIssueEach(Issues(db))
    ensures var end := Steps(FreshRun(db), tasks, dryRun);
            OneIssueEach(Issues(end.db)) && OneIssueEach(Issues(end.db) + end.planned.worktrees)
  {
    var end := Steps(FreshRun(db), tasks, dryRun);
    hide Issues, Steps;
    RunKeepsOneIssue(db, tasks, dryRun);
    Sharing(Issues(end.db), end.planned.worktrees);
  }

  lemma {:induction false} Sharing(issues: map<string, string>, planned: map<string, string>)
    requires OneIssueEach(issues + planned) && SameIssues(issues, planned)
    ensures OneIssueEach(issues)
  {
    assert forall p :: p in issues ==> (issues + planned)[p] == issues[p];
  }

  // ---------------------------------------------------------------------------
  // A dry run predicts the real one
  // ---------------------------------------------------------------------------

  predicate IsRefused(item: Item) {
    item.reason.Some? && item.reason.value.Refused?
  }

  predicate NoneRefused(items: seq<Item>) {
    forall i :: 0 <= i < |items| ==> !IsRefused(items[i])
  }

  /** No record is skipped beforehand as refused: only a setter refuses. */
  predicate AreRead(tasks: seq<Task>) {
    forall i :: 0 <= i < |tasks| ==> tasks[i].Skip? ==> !tasks[i].reason.Refused?
  }

  predicate SameReport(a: Run, b: Run) {
    (a.imported, a.skipped, a.ignored) == (b.imported, b.skipped, b.ignored)
  }

  /** The rows a run inserts, or would. */
  ghost function Additions(r: Run, tasks: seq<Task>, dryRun: bool): Db {
    if tasks == [] then map[]
    else
      var n := |tasks| - 1;
      var before, t := Additions(r, tasks[..n], dryRun), tasks[n];
      if t.Offer? && Obstacle(Steps(r, tasks[..n], dryRun), t, dryRun).None? then before[t.key := t.row] else before
  }

  /** A real run in step with a dry one: the same report and plan, and the planned rows on top of the database. */
  ghost predicate InStep(dry: Run, live: Run, db: Db, rows: Db) {
    SameReport(dry, live) && dry.planned == live.planned && dry.db == db && live.db == db + rows
    && (forall k :: k in rows <==> IsPlanned(dry.planned, k))
    && (forall k :: k in rows ==> k !in db)
    && (forall p :: p in dry.planned.worktrees ==> dry.planned.worktrees[p] == IssueOf(rows[Worktree(p)]))
  }

  lemma {:induction false} SameHolders(issues: map<string, string>, other: map<string, string>, issue: string, path: string)
    requires forall h :: Holds(issues, issue, path, h) <==> Holds(other, issue, path, h)
    ensures FirstHolder(issues, issue, path) == FirstHolder(other, issue, path)
  {
    FirstHolderFinds(issues, issue, path);
    FirstHolderFinds(other, issue, path);
    hide FirstHolder, Holds;
    if FirstHolder(issues, issue, path).Some? {
      var h := FirstHolder(issues, issue, path).value;
      assert IsFirstHolder(other, issue, path, h);
      FirstHolderIs(other, issue, path, h);
    }
  }

  // Both runs name the same holder: what is planned is looked up first.
  lemma {:induction false} HoldersInStep(dry: Run, live: Run, db: Db, rows: Db, issue: string, path: string)
    requires InStep(dry, live, db, rows)
    ensures HolderOf(dry, issue, path) == HolderOf(live, issue, path)
  {
    var planned := dry.planned.worktrees;
    FirstHolderFinds(planned, issue, path);
    IssuesAt(db);
    IssuesAt(live.db);
    hide FirstHolder, Issues, IssueOf, SameReport;
    if FirstHolder(planned, issue, path).None? {
      forall h
        ensures Holds(Issues(db), issue, path, h) <==> Holds(Issues(live.db), issue, path, h)
      {
        assert !Holds(planned, issue, path, h);
        assert Worktree(h) in rows <==> IsPlanned(dry.planned, Worktree(h));
      }
      SameHolders(Issues(db), Issues(live.db), issue, path);
    }
  }

  lemma {:induction false} ObstaclesInStep(dry: Run, live: Run, db: Db, rows: Db, t: Task)
    requires InStep(dry, live, db, rows) && t.Offer?
    ensures var no, yes := Obstacle(dry, t, true), Obstacle(live, t, false);
            if yes.Some? && yes.value.Refused? then no.None? else yes == no
  {
    if t.key.Worktree? {
      HoldersInStep(dry, live, db, rows, IssueOf(t.row), t.key.path);
    }
    assert t.key in rows <==> IsPlanned(dry.planned, t.key);
    hide HolderOf, Refuses, IssueOf, IsPlanned, SameReport;
  }

  lemma {:induction false} ImportedInStep(dry: Run, live: Run, db: Db, rows: Db, t: Task)
    requires InStep(dry, live, db, rows) && t.Offer? && t.key !in db
    ensures InStep(Imported(dry, t, true), Imported(live, t, false), db, rows[t.key := t.row])
  {
    hide KindOf, KeyText, IssueOf;
    PlannedAlso(dry.planned, t.key, t.row);
    PlannedWorktrees(dry.planned, t.key, t.row);
    assert db + rows[t.key := t.row] == (db + rows)[t.key := t.row];
    hide WithPlanned, IsPlanned;
  }

  lemma {:induction false} PlannedAlso(p: Planned, key: Key, row: Row)
    ensures forall k :: IsPlanned(WithPlanned(p, key, row), k) <==> k == key || IsPlanned(p, k)
  {
  }

  lemma {:induction false} StepInStep(dry: Run, live: Run, db: Db, rows: Db, t: Task)
    requires InStep(dry, live, db, rows)
    requires NoneRefused(Step(live, t, false).skipped)
    ensures InStep(Step(dry, t, true), Step(live, t, false), db,
                   if t.Offer? && Obstacle(dry, t, true).None? then rows[t.key := t.row] else rows)
  {
    hide Imported, HolderOf, Refuses, IsPlanned;
    if t.Offer? {
      ObstaclesInStep(dry, live, db, rows, t);
      var yes := Obstacle(live, t, false);
      if yes.None? {
        ImportedInStep(dry, live, db, rows, t);
      } else {
        var items := Step(live, t, false).skipped;
        assert !IsRefused(items[|items| - 1]);
      }
    }
  }

  // What was skipped before a step is still skipped after it.
  lemma {:induction false} StepKeepsSkipped(r: Run, t: Task, dryRun: bool)
    ensures NoneRefused(Step(r, t, dryRun).skipped) ==> NoneRefused(r.skipped)
    ensures NoneRefused(r.skipped) && dryRun && (t.Skip? ==> !t.reason.Refused?) ==> NoneRefused(Step(r, t, dryRun).skipped)
  {
    hide Imported, HolderOf, Refuses;
    var after := Step(r, t, dryRun);
    assert forall i :: 0 <= i < |r.skipped| ==> after.skipped[i] == r.skipped[i] by {
      hide Obstacle;
      assert t.Offer? && Obstacle(r, t, dryRun).None? ==> after.skipped == r.skipped by {
        SkippedOf(r, t, dryRun);
      }
    }
    SkippedOf(r, t, dryRun);
  }

  lemma {:induction false} SkippedOf(r: Run, t: Task, dryRun: bool)
    ensures t.Offer? ==> Imported(r, t, dryRun).skipped == r.skipped
  {
  }

  lemma {:induction false} RunsInStep(db: Db, tasks: seq<Task>)
    requires NoneRefused(Steps(FreshRun(db), tasks, false).skipped)
    ensures InStep(Steps(FreshRun(db), tasks, true), Steps(FreshRun(db), tasks, false),
                   db, Additions(FreshRun(db), tasks, true))
  {
    hide Step, InStep, NoneRefused, Obstacle;
    if tasks == [] {
      FreshInStep(db);
    } else {
      var n := |tasks| - 1;
      StepKeepsSkipped(Steps(FreshRun(db), tasks[..n], false), tasks[n], false);
      RunsInStep(db, tasks[..n]);
      StepInStep(Steps(FreshRun(db), tasks[..n], true),
                 Steps(FreshRun(db), tasks[..n], false), db,
                 Additions(FreshRun(db), tasks[..n], true), tasks[n]);
    }
  }

  lemma {:induction false} FreshInStep(db: Db)
    ensures InStep(FreshRun(db), FreshRun(db), db, map[])
  {
  }

  lemma {:induction false} DryRunRefusesNothing(r: Run, tasks: seq<Task>, dryRun: bool)
    requires dryRun && AreRead(tasks) && NoneRefused(r.skipped)
    ensures NoneRefused(Steps(r, tasks, dryRun).skipped)
  {
    hide Step, NoneRefused;
    if tasks != [] {
      var n := |tasks| - 1;
      DryRunRefusesNothing(r, tasks[..n], dryRun);
      StepKeepsSkipped(Steps(r, tasks[..n], dryRun), tasks[n], dryRun);
    }
  }

  /** The global mapping, if offered at all, is offered before any space. */
  predicate GlobalComesFirst(tasks: seq<Task>) {
    forall i, j :: 0 <= i < j < |tasks| && tasks[i].Offer? && tasks[i].key.Space? && tasks[j].Offer? ==> tasks[j].key != Global
  }

  /** Every row passes its setter's checks, and no space is mapped without a global mapping. */
  predicate AreAccepted(db: Db, rows: Db) {
    forall k :: k in rows ==> Accepts(k, rows[k]) && (k.Space? ==> Global in db || Global in rows)
  }

  predicate IsOffered(tasks: seq<Task>, key: Key, row: Row) {
    exists i :: 0 <= i < |tasks| && tasks[i].Offer? && tasks[i].key == key && tasks[i].row == row
  }

  // What a dry run plans are the rows it would insert, each of them offered.
  lemma {:induction false} PlanOfDryRun(db: Db, tasks: seq<Task>)
    ensures var rows := Additions(FreshRun(db), tasks, true);
            forall k :: k in rows <==> IsPlanned(Steps(FreshRun(db), tasks, true).planned, k)
    ensures forall k :: k in Additions(FreshRun(db), tasks, true) ==> IsOffered(tasks, k, Additions(FreshRun(db), tasks, true)[k])
  {
    hide WithPlanned, KindOf, KeyText, HolderOf, Refuses;
    if tasks == [] {
      NothingIsPlanned();
    } else {
      var n := |tasks| - 1;
      var t, before := tasks[n], Steps(FreshRun(db), tasks[..n], true);
      PlanOfDryRun(db, tasks[..n]);
      hide IsPlanned, Additions;
      OneMoreAddition(db, tasks);
      if t.Offer? && Obstacle(before, t, true).None? {
        PlannedAlso(before.planned, t.key, t.row);
      } else {
        StepKeepsState(before, t, true);
      }
      OfferedAlso(tasks);
    }
  }

  lemma {:induction false} OfferedAlso(tasks: seq<Task>)
    requires tasks != []
    ensures var n := |tasks| - 1;
            forall k, row :: IsOffered(tasks, k, row) <==>
                             IsOffered(tasks[..n], k, row) || (tasks[n].Offer? && tasks[n].key == k && tasks[n].row == row)
  {
    var n := |tasks| - 1;
    forall k, row
      ensures IsOffered(tasks, k, row) <==>
              IsOffered(tasks[..n], k, row) || (tasks[n].Offer? && tasks[n].key == k && tasks[n].row == row)
    {
      assert forall i :: 0 <= i < n ==> tasks[..n][i] == tasks[i];
    }
  }

  lemma {:induction false} NothingIsPlanned()
    ensures forall k :: !IsPlanned(NOTHING_PLANNED, k)
  {
  }

  lemma {:induction false} OneMoreAddition(db: Db, tasks: seq<Task>)
    requires tasks != []
    ensures var n := |tasks| - 1;
            var before, t := Additions(FreshRun(db), tasks[..n], true), tasks[n];
            Additions(FreshRun(db), tasks, true)
            == if t.Offer? && Obstacle(Steps(FreshRun(db), tasks[..n], true), t, true).None? then before[t.key := t.row] else before
  {
    hide Obstacle, Steps;
  }

  // Where no step was refused, the setters accept every planned row ...
  lemma {:induction false} UnrefusedAreAccepted(db: Db, tasks: seq<Task>)
    requires NoneRefused(Steps(FreshRun(db), tasks, false).skipped)
    ensures AreAccepted(db, Additions(FreshRun(db), tasks, true))
  {
    hide InStep, IsPlanned, KindOf, KeyText, Accepts, HolderOf, WithPlanned;
    if tasks != [] {
      var n := |tasks| - 1;
      var t, dry, live := tasks[n], Steps(FreshRun(db), tasks[..n], true), Steps(FreshRun(db), tasks[..n], false);
      var rows := Additions(FreshRun(db), tasks[..n], true);
      StepKeepsSkipped(live, t, false);
      UnrefusedAreAccepted(db, tasks[..n]);
      RunsInStep(db, tasks[..n]);
      OneMoreAddition(db, tasks);
      hide Additions;
      if t.Offer? && Obstacle(dry, t, true).None? {
        InsertIsAccepted(dry, live, db, rows, t);
      }
    }
  }

  lemma {:induction false} InsertIsAccepted(dry: Run, live: Run, db: Db, rows: Db, t: Task)
    requires InStep(dry, live, db, rows) && t.Offer? && Obstacle(dry, t, true).None?
    ensures var accepted := Accepts(t.key, t.row) && (t.key.Space? ==> Global in db || Global in rows);
            Obstacle(live, t, false) == (if accepted then None else Some(Refused))
            && (NoneRefused(Step(live, t, false).skipped) ==> accepted)
  {
    ObstaclesInStep(dry, live, db, rows, t);
    hide Accepts, HolderOf, Imported, IsPlanned, KindOf, KeyText;
    SkippedOf(live, t, false);
    if Obstacle(live, t, false).Some? {
      var items := Step(live, t, false).skipped;
      assert IsRefused(items[|items| - 1]);
    }
  }

  // The row planned last is one its setter accepts.
  lemma {:induction false} LastIsAccepted(db: Db, tasks: seq<Task>)
    requires tasks != [] && AreAccepted(db, Additions(FreshRun(db), tasks, true))
    requires var n := |tasks| - 1;
             tasks[n].Offer? && Obstacle(Steps(FreshRun(db), tasks[..n], true), tasks[n], true).None?
    ensures var n := |tasks| - 1;
            Accepts(tasks[n].key, tasks[n].row)
            && (tasks[n].key.Space? ==> Global in db || Global in Additions(FreshRun(db), tasks[..n], true))
  {
    hide Additions, Steps, Obstacle, Accepts;
    OneMoreAddition(db, tasks);
    assert tasks[|tasks| - 1].key in Additions(FreshRun(db), tasks, true);
  }

  // ... and where they accept every planned row, no step is refused.
  lemma {:induction false} AcceptedAreUnrefused(db: Db, tasks: seq<Task>)
    requires AreRead(tasks) && GlobalComesFirst(tasks) && AreAccepted(db, Additions(FreshRun(db), tasks, true))
    ensures NoneRefused(Steps(FreshRun(db), tasks, false).skipped)
  {
    hide Additions, AreAccepted, InStep, Obstacle, Accepts, Step, FreshRun, NoneRefused, GlobalComesFirst;
    if tasks == [] {
      NoneRefusedYet(db);
    } else {
      var n := |tasks| - 1;
      var t, dry, live := tasks[n], Steps(FreshRun(db), tasks[..n], true), Steps(FreshRun(db), tasks[..n], false);
      FewerAreAccepted(db, tasks);
      GlobalStillFirst(tasks);
      AcceptedAreUnrefused(db, tasks[..n]);
      RunsInStep(db, tasks[..n]);
      if t.Offer? {
        ObstaclesInStep(dry, live, db, Additions(FreshRun(db), tasks[..n], true), t);
        if Obstacle(dry, t, true).None? {
          LastIsAccepted(db, tasks);
          InsertIsAccepted(dry, live, db, Additions(FreshRun(db), tasks[..n], true), t);
        }
      }
      LaterSkips(live, t);
    }
  }

  lemma {:induction false} NoneRefusedYet(db: Db)
    ensures NoneRefused(FreshRun(db).skipped)
  {
  }

  lemma {:induction false} GlobalStillFirst(tasks: seq<Task>)
    requires tasks != [] && GlobalComesFirst(tasks)
    ensures GlobalComesFirst(tasks[..|tasks| - 1])
  {
  }

  lemma {:induction false} LaterSkips(live: Run, t: Task)
    requires NoneRefused(live.skipped) && (t.Skip? ==> !t.reason.Refused?)
    requires t.Offer? ==> Obstacle(live, t, false) != Some(Refused)
    ensures NoneRefused(Step(live, t, false).skipped)
  {
    hide Obstacle, Imported, KindOf, KeyText;
    SkippedOf(live, t, false);
  }

  lemma {:induction false} FewerAreAccepted(db: Db, tasks: seq<Task>)
    requires tasks != [] && GlobalComesFirst(tasks) && AreAccepted(db, Additions(FreshRun(db), tasks, true))
    ensures AreAccepted(db, Additions(FreshRun(db), tasks[..|tasks| - 1], true))
  {
    var n := |tasks| - 1;
    var t, rows, before := tasks[n], Additions(FreshRun(db), tasks, true), Additions(FreshRun(db), tasks[..n], true);
    OneMoreAddition(db, tasks);
    PlanOfDryRun(db, tasks[..n]);
    hide Additions, Steps, IsPlanned, Accepts, HolderOf, Refuses;
    forall k | k in before
      ensures k in rows && rows[k] == before[k]
      ensures k.Space? && Global in rows ==> Global in before
    {
      assert IsOffered(tasks[..n], k, before[k]);
      var i :| 0 <= i < n && tasks[..n][i].Offer? && tasks[..n][i].key == k;
      assert tasks[i].key == k;
    }
  }

  /** Every offer passes its setter's checks, and a space mapping follows the offer of a global one. */
  predicate AreFit(tasks: seq<Task>) {
    (forall i :: 0 <= i < |tasks| && tasks[i].Offer? ==> Accepts(tasks[i].key, tasks[i].row))
    && forall i :: 0 <= i < |tasks| && tasks[i].Offer? && tasks[i].key.Space? ==> OffersGlobal(tasks[..i])
  }

  predicate OffersGlobal(tasks: seq<Task>) {
    exists i :: 0 <= i < |tasks| && tasks[i].Offer? && tasks[i].key == Global
  }

  // Once the global mapping has been offered it is there, or planned.
  lemma {:induction false} GlobalIsThere(db: Db, tasks: seq<Task>)
    requires OffersGlobal(tasks)
    ensures Global in db || Global in Additions(FreshRun(db), tasks, true)
  {
    var n := |tasks| - 1;
    OneMoreAddition(db, tasks);
    PlanOfDryRun(db, tasks[..n]);
    DryRunWritesNothing(FreshRun(db), tasks[..n], true);
    hide Additions, Steps, IsPlanned, HolderOf, Refuses;
    if !(tasks[n].Offer? && tasks[n].key == Global) {
      assert forall i :: 0 <= i < n ==> tasks[..n][i] == tasks[i];
      GlobalIsThere(db, tasks[..n]);
    }
  }

  /** The rows planned for such offers are accepted, whatever the database holds. */
  lemma {:induction false} FitIsAccepted(db: Db, tasks: seq<Task>)
    requires AreFit(tasks)
    ensures AreAccepted(db, Additions(FreshRun(db), tasks, true))
  {
    PlanOfDryRun(db, tasks);
    hide Additions, Steps, IsPlanned, Accepts, OffersGlobal;
    var rows := Additions(FreshRun(db), tasks, true);
    forall k | k in rows
      ensures Accepts(k, rows[k]) && (k.Space? ==> Global in db || Global in rows)
    {
      assert IsOffered(tasks, k, rows[k]);
      var i :| 0 <= i < |tasks| && tasks[i].Offer? && tasks[i].key == k && tasks[i].row == rows[k];
      if k.Space? {
        OfferedBefore(tasks, i);
        GlobalIsThere(db, tasks);
      }
    }
  }

  lemma {:induction false} OfferedBefore(tasks: seq<Task>, n: nat)
    requires n <= |tasks| && OffersGlobal(tasks[..n])
    ensures OffersGlobal(tasks)
  {
    var i :| 0 <= i < n && tasks[..n][i].Offer? && tasks[..n][i].key == Global;
    assert tasks[i] == tasks[..n][i];
  }

  /** A dry run reports what a real run would, exactly if the setters accept the rows it plans; the real run
      then leaves the database with those rows added. */
  lemma {:induction false} DryRunPredicts(db: Db, tasks: seq<Task>)
    requires AreRead(tasks) && GlobalComesFirst(tasks)
    ensures var dry, live := Steps(FreshRun(db), tasks, true), Steps(FreshRun(db), tasks, false);
            var rows := Additions(FreshRun(db), tasks, true);
            (SameReport(dry, live) <==> AreAccepted(db, rows))
            && (AreAccepted(db, rows) ==>
                  live.db == db + rows && live.planned == dry.planned && NoneRefused(live.skipped)
                  && forall k :: (k in rows <==> IsPlanned(dry.planned, k)) && (k in rows ==> k !in db))
  {
    hide NoneRefused, Steps, Additions, AreAccepted;
    var dry, live := Steps(FreshRun(db), tasks, true), Steps(FreshRun(db), tasks, false);
    NoneInNothing();
    DryRunRefusesNothing(FreshRun(db), tasks, true);
    if NoneRefused(live.skipped) {
      RunsInStep(db, tasks);
      UnrefusedAreAccepted(db, tasks);
    }
    if AreAccepted(db, Additions(FreshRun(db), tasks, true)) {
      AcceptedAreUnrefused(db, tasks);
    }
  }

  lemma {:induction false} NoneInNothing()
    ensures NoneRefused([])
  {
  }

  // ---------------------------------------------------------------------------
  // Importing again
  // ---------------------------------------------------------------------------

  /** Nothing is left to do for a record: its row is there, its issue is held, or the setter refuses it. */
  ghost predicate IsSettled(db: Db, t: Task, dryRun: bool) {
    t.Offer? ==>
      t.key in db
      || (t.key.Worktree? && exists h :: Holds(Issues(db), IssueOf(t.row), t.key.path, h))
      || Refuses(db, t.key, t.row)
  }

  ghost predicate AreSettled(db: Db, tasks: seq<Task>, dryRun: bool) {
    forall i :: 0 <= i < |tasks| ==> IsSettled(db, tasks[i], dryRun)
  }

  /** What a real run has planned it has also written. */
  ghost predicate PlanIsWritten(r: Run) {
    (forall k :: IsPlanned(r.planned, k) ==> k in r.db)
    && forall p :: p in r.planned.worktrees ==> IssueOf(r.db[Worktree(p)]) == r.planned.worktrees[p]
  }

  lemma {:induction false} StepWritesPlan(r: Run, t: Task, dryRun: bool)
    requires PlanIsWritten(r) && !dryRun
    ensures PlanIsWritten(Step(r, t, dryRun))
  {
    hide HolderOf, Refuses, IssueOf, KindOf, KeyText, SameReport;
    if t.Offer? && Obstacle(r, t, dryRun).None? {
      PlannedAlso(r.planned, t.key, t.row);
      PlannedWorktrees(r.planned, t.key, t.row);
      assert t.key !in r.db;
      hide WithPlanned;
      forall p | p in Step(r, t, dryRun).planned.worktrees
        ensures IsPlanned(Step(r, t, dryRun).planned, Worktree(p))
      {
      }
      forall p | p in r.planned.worktrees
        ensures Worktree(p) in r.db
      {
        assert IsPlanned(r.planned, Worktree(p));
      }
    }
  }

  // Whoever is found to hold an issue holds it in the database.
  lemma {:induction false} HolderIsThere(r: Run, issue: string, path: string)
    requires PlanIsWritten(r) && HolderOf(r, issue, path).Some?
    ensures Holds(Issues(r.db), issue, path, HolderOf(r, issue, path).value)
  {
    FirstHolderFinds(r.planned.worktrees, issue, path);
    FirstHolderFinds(Issues(r.db), issue, path);
    IssuesAt(r.db);
    hide FirstHolder, Issues, IssueOf;
    var h := HolderOf(r, issue, path).value;
    if h in r.planned.worktrees {
      assert IsPlanned(r.planned, Worktree(h));
    }
  }

  lemma {:induction false} StepSettles(r: Run, t: Task, dryRun: bool)
    requires PlanIsWritten(r) && !dryRun
    ensures IsSettled(Step(r, t, dryRun).db, t, dryRun)
  {
    if t.Offer? {
      var obstacle := Obstacle(r, t, dryRun);
      if obstacle.Some? {
        StepKeepsState(r, t, dryRun);
        if t.key !in r.db && t.key.Worktree? && HolderOf(r, IssueOf(t.row), t.key.path).Some? {
          HolderIsThere(r, IssueOf(t.row), t.key.path);
        }
      }
      hide HolderOf, Refuses, Issues, IssueOf, Holds;
    }
  }

  // A settled record stays settled while rows are only added, and no global mapping after a space.
  lemma {:induction false} StaysSettled(before: Db, after: Db, t: Task, dryRun: bool)
    requires IsSettled(before, t, dryRun) && Extends(after, before)
    requires t.Offer? && t.key.Space? && Global in after ==> Global in before
    ensures IsSettled(after, t, dryRun)
  {
    IssuesAt(before);
    IssuesAt(after);
    hide Issues, IssueOf;
    if t.Offer? && t.key.Worktree? && exists h :: Holds(Issues(before), IssueOf(t.row), t.key.path, h) {
      var h :| Holds(Issues(before), IssueOf(t.row), t.key.path, h);
      assert Worktree(h) in before && after[Worktree(h)] == before[Worktree(h)];
      assert Holds(Issues(after), IssueOf(t.row), t.key.path, h);
    }
  }

  lemma {:induction false} StepExtends(r: Run, t: Task, dryRun: bool)
    ensures Extends(Step(r, t, dryRun).db, r.db)
    ensures Global in Step(r, t, dryRun).db ==> Global in r.db || (t.Offer? && t.key == Global)
  {
    hide HolderOf, Refuses, WithPlanned, KindOf, KeyText;
  }

  lemma {:induction false} RunSettles(r: Run, tasks: seq<Task>, dryRun: bool)
    requires PlanIsWritten(r) && !dryRun && GlobalComesFirst(tasks)
    ensures PlanIsWritten(Steps(r, tasks, dryRun)) && AreSettled(Steps(r, tasks, dryRun).db, tasks, dryRun)
  {
    if tasks != [] {
      hide Step, PlanIsWritten, IsSettled, Extends;
      var n := |tasks| - 1;
      var before := Steps(r, tasks[..n], dryRun);
      RunSettles(r, tasks[..n], dryRun);
      StepWritesPlan(before, tasks[n], dryRun);
      StepSettles(before, tasks[n], dryRun);
      StepExtends(before, tasks[n], dryRun);
      forall i | 0 <= i < n
        ensures IsSettled(Step(before, tasks[n], dryRun).db, tasks[i], dryRun)
      {
        assert tasks[i] == tasks[..n][i];
        StaysSettled(before.db, Step(before, tasks[n], dryRun).db, tasks[i], dryRun);
      }
    }
  }

  /** Nothing is imported, planned or announced, and the database is as it was. */
  predicate ImportsNothing(r: Run, db: Db) {
    r == FreshRun(db).(skipped := r.skipped, ignored := r.ignored)
  }

  lemma {:induction false} SettledStep(r: Run, t: Task, db: Db, dryRun: bool)
    requires ImportsNothing(r, db) && IsSettled(db, t, dryRun) && !dryRun
    ensures ImportsNothing(Step(r, t, dryRun), db)
  {
    if t.Offer? {
      if t.key.Worktree? {
        FirstHolderFinds(Issues(db), IssueOf(t.row), t.key.path);
      }
      hide FirstHolder, Refuses, Issues, IssueOf, Holds;
      assert Obstacle(r, t, dryRun).Some?;
    }
  }

  lemma {:induction false} SettledRun(db: Db, tasks: seq<Task>, dryRun: bool)
    requires AreSettled(db, tasks, dryRun) && !dryRun
    ensures ImportsNothing(Steps(FreshRun(db), tasks, dryRun), db)
  {
    if tasks != [] {
      hide Step, IsSettled;
      var n := |tasks| - 1;
      SettledRun(db, tasks[..n], dryRun);
      SettledStep(Steps(FreshRun(db), tasks[..n], dryRun), tasks[n], db, dryRun);
    }
  }

  /** A second run over the same store imports nothing and leaves the database equal. */
  lemma {:induction false} SecondImportIsEmpty(db: Db, tasks: seq<Task>, dryRun: bool)
    requires GlobalComesFirst(tasks) && !dryRun
    ensures var first := Steps(FreshRun(db), tasks, dryRun);
            ImportsNothing(Steps(FreshRun(first.db), tasks, dryRun), first.db)
  {
    RunSettles(FreshRun(db), tasks, dryRun);
    SettledRun(Steps(FreshRun(db), tasks, dryRun).db, tasks, dryRun);
  }

  // ---------------------------------------------------------------------------
  // What a run announces
  // ---------------------------------------------------------------------------

  /** The space a change of a row is announced for: a space record's workspace, every space for the rest. */
  function Announced(key: Key): Option<string> {
    if key.SpaceRecord? then Some(key.workspace) else None
  }

  predicate AreAnnounced(tasks: seq<Task>) {
    forall i :: 0 <= i < |tasks| && tasks[i].Offer? ==> tasks[i].space == Announced(tasks[i].key)
  }

  lemma {:induction false} StepAnnounces(r: Run, t: Task, db: Db, dryRun: bool)
    requires r.changed == (set k | k in r.db && k !in db :: Announced(k)) && Extends(r.db, db) && !dryRun
    requires t.Offer? ==> t.space == Announced(t.key)
    ensures var after := Step(r, t, dryRun); after.changed == set k | k in after.db && k !in db :: Announced(k)
  {
    hide HolderOf, Refuses, WithPlanned, KindOf, KeyText, Announced;
    if t.Offer? && Obstacle(r, t, dryRun).None? {
      var after := Step(r, t, dryRun);
      assert t.key !in db;
      forall space
        ensures space in after.changed <==> space in set k | k in after.db && k !in db :: Announced(k)
      {
        if space == Announced(t.key) {
          assert t.key in after.db && t.key !in db;
        }
      }
    }
  }

  /** The spaces a real run announces are exactly those of the rows it added. */
  lemma {:induction false} AdditionsAreAnnounced(db: Db, tasks: seq<Task>, dryRun: bool)
    requires AreAnnounced(tasks) && !dryRun
    ensures var end := Steps(FreshRun(db), tasks, dryRun);
            end.changed == set k | k in end.db && k !in db :: Announced(k)
  {
    hide Step, Announced;
    ImportOnlyInserts(FreshRun(db), tasks, dryRun);
    if tasks != [] {
      var n := |tasks| - 1;
      ImportOnlyInserts(FreshRun(db), tasks[..n], dryRun);
      AdditionsAreAnnounced(db, tasks[..n], dryRun);
      StepAnnounces(Steps(FreshRun(db), tasks[..n], dryRun), tasks[n], db, dryRun);
    }
  }

  // ---------------------------------------------------------------------------
  // Every record is reported once
  // ---------------------------------------------------------------------------

  function TaskSource(t: Task): string {
    if t.Ignore? then t.path else t.source
  }

  function TaskSources(tasks: seq<Task>): (r: seq<string>)
    ensures |r| == |tasks|
  {
    if tasks == [] then [] else TaskSources(tasks[..|tasks| - 1]) + [TaskSource(tasks[|tasks| - 1])]
  }

  function ItemSources(items: seq<Item>): seq<string> {
    if items == [] then [] else ItemSources(items[..|items| - 1]) + [items[|items| - 1].source]
  }

  /** The sources of all three lists, counted. */
  function Reported(r: Run): multiset<string> {
    multiset(ItemSources(r.imported)) + multiset(ItemSources(r.skipped)) + multiset(r.ignored)
  }

  predicate OneMoreItem(items: seq<Item>, after: seq<Item>, source: string) {
    |after| == |items| + 1 && after[..|items|] == items && after[|items|].source == source
  }

  /** One list grew by one entry from this source. */
  predicate OneMoreReport(r: Run, after: Run, source: string) {
    (OneMoreItem(r.imported, after.imported, source) && after.skipped == r.skipped && after.ignored == r.ignored)
    || (after.imported == r.imported && OneMoreItem(r.skipped, after.skipped, source) && after.ignored == r.ignored)
    || (after.imported == r.imported && after.skipped == r.skipped && after.ignored == r.ignored + [source])
  }

  lemma {:induction false} StepAddsOneReport(r: Run, t: Task, dryRun: bool)
    ensures OneMoreReport(r, Step(r, t, dryRun), TaskSource(t))
  {
    hide Obstacle, WithPlanned, KindOf, KeyText;
  }

  lemma {:induction false} OneMoreSource(items: seq<Item>, after: seq<Item>, source: string)
    requires OneMoreItem(items, after, source)
    ensures multiset(ItemSources(after)) == multiset(ItemSources(items)) + multiset{source}
  {
    assert after[..|after| - 1] == items;
  }

  lemma {:induction false} StepReportsOnce(r: Run, t: Task, dryRun: bool)
    ensures Reported(Step(r, t, dryRun)) == Reported(r) + multiset{TaskSource(t)}
  {
    hide Step, TaskSource, ItemSources, OneMoreItem;
    StepAddsOneReport(r, t, dryRun);
    var after, source := Step(r, t, dryRun), TaskSource(t);
    if OneMoreItem(r.imported, after.imported, source) && after.skipped == r.skipped && after.ignored == r.ignored {
      OneMoreSource(r.imported, after.imported, source);
    } else if after.ignored != r.ignored + [source] {
      OneMoreSource(r.skipped, after.skipped, source);
    }
  }

  /** Every record lands in exactly one of the three lists, once. */
  lemma {:induction false} EveryRecordIsReportedOnce(r: Run, tasks: seq<Task>, dryRun: bool)
    ensures Reported(Steps(r, tasks, dryRun)) == Reported(r) + multiset(TaskSources(tasks))
  {
    hide Step, Reported;
    if tasks != [] {
      var n := |tasks| - 1;
      EveryRecordIsReportedOnce(r, tasks[..n], dryRun);
      StepReportsOnce(Steps(r, tasks[..n], dryRun), tasks[n], dryRun);
    }
  }

  /** No record from this file is offered. */
  predicate NotOffered(tasks: seq<Task>, path: string) {
    forall i :: 0 <= i < |tasks| && tasks[i].Offer? ==> tasks[i].source != path
  }

  /** Only what is offered is imported. */
  lemma {:induction false} OnlyOffersAreImported(db: Db, tasks: seq<Task>, dryRun: bool, path: string)
    requires NotOffered(tasks, path)
    ensures forall i :: 0 <= i < |Steps(FreshRun(db), tasks, dryRun).imported| ==>
              Steps(FreshRun(db), tasks, dryRun).imported[i].source != path
  {
    hide Obstacle, WithPlanned, KindOf, KeyText;
    if tasks != [] {
      OnlyOffersAreImported(db, tasks[..|tasks| - 1], dryRun, path);
    }
  }

  predicate Avoids(tasks: seq<Task>, path: string) {
    forall i :: 0 <= i < |tasks| ==> TaskSource(tasks[i]) != path
  }

  lemma {:induction false} AvoidsCounts(tasks: seq<Task>, path: string)
    requires Avoids(tasks, path)
    ensures multiset(TaskSources(tasks))[path] == 0
  {
    hide TaskSource;
    if tasks != [] {
      var n := |tasks| - 1;
      AvoidsCounts(tasks[..n], path);
    }
  }

  lemma {:induction false} TaskSourcesAppend(a: seq<Task>, b: seq<Task>)
    ensures TaskSources(a + b) == TaskSources(a) + TaskSources(b)
  {
    hide TaskSource;
    if b == [] {
      assert a + b == a;
    } else {
      var n := |b| - 1;
      TaskSourcesAppend(a, b[..n]);
      assert (a + b)[..|a + b| - 1] == a + b[..n];
    }
  }
}

/** Importing the work plugin's store: the five kinds of record, read in the order of their directories. */
module Import {
  import opened Text
  import opened Records
  import opened ImportRun

  // ---------------------------------------------------------------------------
  // The store, as its directories list it
  // ---------------------------------------------------------------------------

  datatype Entry = File(name: string, read: Read) | Folder(name: string)

  datatype WorkspaceEntry = Loose(name: string, read: Read) | SessionFolder(name: string, files: seq<Entry>)

  datatype RootEntry = RootEntry(name: string, isDir: bool)

  datatype Store = Store(root: seq<RootEntry>, board: BoardRead, workspaces: seq<WorkspaceEntry>,
                         bindings: seq<Entry>, contexts: seq<Entry>, scopes: seq<Entry>)

  const BOARD := "board.json"
  const WORKSPACES := "workspaces"
  const BINDINGS := "bindings"
  const CONTEXTS := "contexts"
  const SCOPES := "scopes"
  const FLAT_SESSION := "default"
  const JSON := ".json"

  // ---------------------------------------------------------------------------
  // Names
  // ---------------------------------------------------------------------------

  function Stem(name: string): string
    requires EndsWith(name, JSON)
  {
    name[..|name| - |JSON|]
  }

  predicate IsHidden(name: string) {
    name != "" && name[0] == '.'
  }

  predicate IsRecordName(name: string) {
    EndsWith(name, JSON) && !IsHidden(name)
  }

  function TrimJson(s: string): string {
    if EndsWith(s, JSON) then TrimJson(Stem(s)) else s
  }

  /** The session a context record is named for. */
  function SessionOf(name: string): (session: Option<string>)
    requires IsRecordName(name)
    ensures session.Some? ==> TextOk(session.value)
  {
    if !("session-" <= Stem(name)) || !TextOk(Stem(name)[8..]) then None else Some(Stem(name)[8..])
  }

  function Under(dir: string, name: string): string {
    dir + "/" + name
  }

  predicate IsRecordFile(entry: Entry) {
    entry.File? && IsRecordName(entry.name)
  }

  function RecordFiles(entries: seq<Entry>): (files: seq<Entry>)
    ensures forall i :: 0 <= i < |files| ==> IsRecordFile(files[i])
  {
    if entries == [] then []
    else
      var n := |entries| - 1;
      RecordFiles(entries[..n]) + if IsRecordFile(entries[n]) then [entries[n]] else []
  }

  // ---------------------------------------------------------------------------
  // What each kind of record asks for
  // ---------------------------------------------------------------------------

  function OtherEntries(dir: string, entries: seq<Entry>): seq<Task> {
    if entries == [] then []
    else
      var n := |entries| - 1;
      OtherEntries(dir, entries[..n]) + if IsRecordFile(entries[n]) then [] else [Ignore(Under(dir, entries[n].name))]
  }

  function SpaceMappingTask(entry: SpaceMapping): Task {
    Offer(BOARD, Space(entry.space), MappingRow(entry.mapping), [], None)
  }

  function SpaceMappingTasks(entries: seq<SpaceMapping>): seq<Task> {
    seq(|entries|, i requires 0 <= i < |entries| => SpaceMappingTask(entries[i]))
  }

  function GlobalTask(config: BoardConfig): Task {
    Offer(BOARD, Global, MappingRow(config.globalMapping), [], None)
  }

  /** A file that cannot be read is shown by its name, an unusable config as the global mapping. */
  function BoardShown(board: BoardRead): string {
    if board.BoardUnread? then BOARD else KeyText(Global)
  }

  function BoardTasks(board: BoardRead): seq<Task> {
    match ConfigOf(board)
    case Error(why) => [Skip(Grouping, BoardShown(board), BOARD, Unusable(why))]
    case Ok(config) => [GlobalTask(config)] + SpaceMappingTasks(config.spaces)
  }

  /** A space record and where it was found. */
  datatype SpaceFile = SpaceFile(session: string, workspace: string, path: string, read: Read) {
    function Parsed(): Checked<SpaceColumns> {
      var record :- Opened(read);
      SpaceOf(session, workspace, record)
    }
  }

  function DroppedOf(read: Read): seq<string> {
    if read.Trusted? then DroppedFields(read.record) else []
  }

  function SpaceTask(file: SpaceFile): Task {
    match file.Parsed()
    case Error(why) => Skip(SpaceBinding, KeyText(SpaceRecord(file.session, file.workspace)), file.path, Unusable(why))
    case Ok(columns) =>
      Offer(file.path, SpaceRecord(file.session, file.workspace), SpaceRow(columns), DroppedOf(file.read), Some(file.workspace))
  }

  function SpaceTasks(files: seq<SpaceFile>): seq<Task> {
    seq(|files|, i requires 0 <= i < |files| => SpaceTask(files[i]))
  }

  function FlatTask(file: SpaceFile, keyed: set<string>): Task {
    if file.workspace in keyed then
      Skip(SpaceBinding, KeyText(SpaceRecord(FLAT_SESSION, file.workspace)), file.path, Superseded(file.workspace))
    else SpaceTask(file)
  }

  function FlatTasks(files: seq<SpaceFile>, keyed: set<string>): seq<Task> {
    seq(|files|, i requires 0 <= i < |files| => FlatTask(files[i], keyed))
  }

  function KeyedFile(session: string, file: Entry): SpaceFile
    requires IsRecordFile(file)
  {
    SpaceFile(session, Stem(file.name), Under(Under(WORKSPACES, session), file.name), file.read)
  }

  function KeyedIn(session: string, files: seq<Entry>): seq<SpaceFile> {
    if files == [] then []
    else
      var n := |files| - 1;
      KeyedIn(session, files[..n]) + if IsRecordFile(files[n]) then [KeyedFile(session, files[n])] else []
  }

  function KeyedOf(entries: seq<WorkspaceEntry>): seq<SpaceFile> {
    if entries == [] then []
    else
      var n := |entries| - 1;
      KeyedOf(entries[..n]) + if entries[n].SessionFolder? then KeyedIn(entries[n].name, entries[n].files) else []
  }

  predicate IsFlat(entry: WorkspaceEntry) {
    entry.Loose? && IsRecordName(entry.name)
  }

  function FlatFile(entry: WorkspaceEntry): SpaceFile
    requires IsFlat(entry)
  {
    SpaceFile(FLAT_SESSION, Stem(entry.name), Under(WORKSPACES, entry.name), entry.read)
  }

  function FlatOf(entries: seq<WorkspaceEntry>): seq<SpaceFile> {
    if entries == [] then []
    else
      var n := |entries| - 1;
      FlatOf(entries[..n]) + if IsFlat(entries[n]) then [FlatFile(entries[n])] else []
  }

  function StraysOf(entries: seq<WorkspaceEntry>): seq<Task> {
    if entries == [] then []
    else
      var n := |entries| - 1;
      StraysOf(entries[..n])
      + if entries[n].SessionFolder? then OtherEntries(Under(WORKSPACES, entries[n].name), entries[n].files)
        else if IsFlat(entries[n]) then []
        else [Ignore(Under(WORKSPACES, entries[n].name))]
  }

  function SpacesOf(files: seq<SpaceFile>): set<string> {
    set i | 0 <= i < |files| :: files[i].workspace
  }

  function WorkspaceTasks(entries: seq<WorkspaceEntry>): seq<Task> {
    StraysOf(entries) + SpaceTasks(KeyedOf(entries)) + FlatTasks(FlatOf(entries), SpacesOf(KeyedOf(entries)))
  }

  function ParsedBinding(read: Read): Checked<Binding> {
    var record :- Opened(read);
    WorktreeOf(record)
  }

  function BindingShown(read: Read, path: string): string {
    if read.Trusted? && ShownPath(read.record).Some? then ShownPath(read.record).value else path
  }

  function BindingTask(file: Entry): Task
    requires IsRecordFile(file)
  {
    var path := Under(BINDINGS, file.name);
    match ParsedBinding(file.read)
    case Error(why) => Skip(WorktreeBinding, BindingShown(file.read, path), path, Unusable(why))
    case Ok(b) => Offer(path, Worktree(b.path), WorktreeRow(b.columns), DroppedOf(file.read), None)
  }

  function BindingFileTasks(files: seq<Entry>): seq<Task>
    requires forall i :: 0 <= i < |files| ==> IsRecordFile(files[i])
  {
    seq(|files|, i requires 0 <= i < |files| => BindingTask(files[i]))
  }

  function BindingTasks(entries: seq<Entry>): seq<Task> {
    OtherEntries(BINDINGS, entries) + BindingFileTasks(RecordFiles(entries))
  }

  function ParsedContext(session: string, read: Read): Checked<ScopeColumns>
    requires TextOk(session)
  {
    var record :- Opened(read);
    ScopeOfSession(session, record)
  }

  function ContextTask(file: Entry): Task
    requires IsRecordFile(file)
  {
    var path, session := Under(CONTEXTS, file.name), SessionOf(file.name);
    if session.None? then Ignore(path)
    else
      match ParsedContext(session.value, file.read)
      case Error(why) => Skip(SessionScope, session.value, path, Unusable(why))
      case Ok(columns) => Offer(path, Session(session.value), ScopeRow(columns), DroppedOf(file.read), None)
  }

  function ContextFileTasks(files: seq<Entry>): seq<Task>
    requires forall i :: 0 <= i < |files| ==> IsRecordFile(files[i])
  {
    seq(|files|, i requires 0 <= i < |files| => ContextTask(files[i]))
  }

  function ContextTasks(entries: seq<Entry>): seq<Task> {
    OtherEntries(CONTEXTS, entries) + ContextFileTasks(RecordFiles(entries))
  }

  function RepoTask(source: string, scope: string, repo: string): Task {
    if IsAbsolute(repo) then Offer(source, Repo(scope, repo), Listed, [], None)
    else Skip(ScopeRepo, KeyText(Repo(scope, repo)), source, Unusable(NotAbsolute))
  }

  function RepoTasks(source: string, scope: string, repos: seq<string>): seq<Task> {
    seq(|repos|, i requires 0 <= i < |repos| => RepoTask(source, scope, repos[i]))
  }

  function ScopeOf(name: string): string {
    TrimJson(name)
  }

  function ParsedScope(scope: string, read: Read): Checked<seq<string>> {
    var record :- Opened(read);
    ReposOf(scope, record)
  }

  function ScopeFileTasks(file: Entry): seq<Task>
    requires IsRecordFile(file)
  {
    var path, scope := Under(SCOPES, file.name), ScopeOf(file.name);
    match ParsedScope(scope, file.read)
    case Error(why) => [Skip(ScopeRepo, scope, path, Unusable(why))]
    case Ok(repos) => RepoTasks(path, scope, repos)
  }

  function ScopeFilesTasks(files: seq<Entry>): seq<Task>
    requires forall i :: 0 <= i < |files| ==> IsRecordFile(files[i])
  {
    if files == [] then []
    else ScopeFilesTasks(files[..|files| - 1]) + ScopeFileTasks(files[|files| - 1])
  }

  function ScopeTasks(entries: seq<Entry>): seq<Task> {
    OtherEntries(SCOPES, entries) + ScopeFilesTasks(RecordFiles(entries))
  }

  /** What the import knows by name at the top of the store. */
  predicate IsHandled(entry: RootEntry) {
    if entry.isDir then entry.name in [WORKSPACES, BINDINGS, CONTEXTS, SCOPES] else entry.name == BOARD
  }

  function Unhandled(root: seq<RootEntry>): seq<Task> {
    if root == [] then []
    else
      var n := |root| - 1;
      Unhandled(root[..n]) + if IsHandled(root[n]) then [] else [Ignore(root[n].name)]
  }

  /** All a store asks for, in order. */
  function StoreTasks(store: Store): seq<Task> {
    Unhandled(store.root)
    + (if RootEntry(BOARD, false) in store.root then BoardTasks(store.board) else [])
    + (if RootEntry(WORKSPACES, true) in store.root then WorkspaceTasks(store.workspaces) else [])
    + (if RootEntry(BINDINGS, true) in store.root then BindingTasks(store.bindings) else [])
    + (if RootEntry(CONTEXTS, true) in store.root then ContextTasks(store.contexts) else [])
    + (if RootEntry(SCOPES, true) in store.root then ScopeTasks(store.scopes) else [])
  }

  lemma {:induction false} NoTasks(r: Run, dryRun: bool)
    ensures Steps(r, [], dryRun) == r
  {
  }

  // A lesser holder found replaces the first of those seen before.
  lemma {:induction false} KeepsLeast(issues: map<string, string>, issue: string, path: string, unseen: set<string>,
                                      first: string, h: string)
    requires LexLess(h, first)
    requires forall other :: Holds(issues, issue, path, other) && other !in unseen ==> other == first || LexLess(first, other)
    ensures forall other :: Holds(issues, issue, path, other) && other !in unseen ==> LexLess(h, other)
  {
    forall other | Holds(issues, issue, path, other) && other !in unseen
      ensures LexLess(h, other)
    {
      if other != first {
        LexLessTransitive(h, first, other);
      }
    }
  }

  // Doing some tasks and then more is doing them all; doing none changes nothing.
  lemma {:induction false} Onward(r: Run, done: seq<Task>, more: seq<Task>, dryRun: bool) returns (all: seq<Task>)
    ensures all == done + more && Steps(r, all, dryRun) == Steps(Steps(r, done, dryRun), more, dryRun)
    ensures more == [] ==> Steps(r, all, dryRun) == Steps(r, done, dryRun)
  {
    all := done + more;
    StepsAppend(r, done, more, dryRun);
  }

  // The tasks of a store, directory by directory.
  lemma {:induction false} StoreParts(store: Store)
    returns (board: seq<Task>, workspaces: seq<Task>, bindings: seq<Task>, contexts: seq<Task>, scopes: seq<Task>)
    ensures StoreTasks(store) == Unhandled(store.root) + board + workspaces + bindings + contexts + scopes
    ensures board == if RootEntry(BOARD, false) in store.root then BoardTasks(store.board) else []
    ensures workspaces == if RootEntry(WORKSPACES, true) in store.root then WorkspaceTasks(store.workspaces) else []
    ensures bindings == if RootEntry(BINDINGS, true) in store.root then BindingTasks(store.bindings) else []
    ensures contexts == if RootEntry(CONTEXTS, true) in store.root then ContextTasks(store.contexts) else []
    ensures scopes == if RootEntry(SCOPES, true) in store.root then ScopeTasks(store.scopes) else []
  {
    hide Unhandled, BoardTasks, WorkspaceTasks, BindingTasks, ContextTasks, ScopeTasks;
    board := if RootEntry(BOARD, false) in store.root then BoardTasks(store.board) else [];
    workspaces := if RootEntry(WORKSPACES, true) in store.root then WorkspaceTasks(store.workspaces) else [];
    bindings := if RootEntry(BINDINGS, true) in store.root then BindingTasks(store.bindings) else [];
    contexts := if RootEntry(CONTEXTS, true) in store.root then ContextTasks(store.contexts) else [];
    scopes := if RootEntry(SCOPES, true) in store.root then ScopeTasks(store.scopes) else [];
  }

  lemma {:induction false} SkipIsStep(r: Run, t: Task, dryRun: bool)
    requires t.Skip?
    ensures Step(r, t, dryRun) == Skipped(r, t.kind, t.shown, t.source, t.reason)
  {
  }

  // ---------------------------------------------------------------------------
  // The import itself
  // ---------------------------------------------------------------------------

  class Import {
    const dryRun: bool
    var db: Db
    var imported: seq<Item>
    var skipped: seq<Item>
    var ignored: seq<string>
    var changed: set<Option<string>>
    var planned: Planned

    ghost function State(): Run
      reads this
    {
      Run(db, imported, skipped, ignored, changed, planned)
    }

    constructor (db: Db, dryRun: bool)
      ensures State() == FreshRun(db) && this.dryRun == dryRun
    {
      this.db, this.dryRun := db, dryRun;
      imported, skipped, ignored, changed, planned := [], [], [], {}, NOTHING_PLANNED;
    }

    method SkipRecord(kind: Kind, shown: string, source: string, reason: Reason)
      modifies this
      ensures State() == Skipped(old(State()), kind, shown, source, reason)
    {
      skipped := skipped + [Item(kind, shown, source, Some(reason), [])];
    }

    /** A setter of the database: validates, then inserts or overwrites. */
    method Write(key: Key, row: Row) returns (ok: bool)
      modifies this`db
      ensures ok == !Refuses(old(db), key, row)
      ensures db == if ok then old(db)[key := row] else old(db)
    {
      ok := !Refuses(db, key, row);
      if ok {
        db := db[key := row];
      }
    }

    /** Records one insert, performing it unless this is a dry run; a refusal turns it into a skip. The
        caller notes it in the plan. */
    method Insert(source: string, key: Key, row: Row, dropped: seq<string>, space: Option<string>) returns (ok: bool)
      modifies this
      ensures ok == (dryRun || !Refuses(old(db), key, row))
      ensures State() == if ok then Imported(old(State()), Offer(source, key, row, dropped, space), dryRun).(planned := old(planned))
                         else Skipped(old(State()), KindOf(key), KeyText(key), source, Refused)
    {
      if !dryRun {
        var written := Write(key, row);
        if !written {
          SkipRecord(KindOf(key), KeyText(key), source, Refused);
          return false;
        }
        changed := changed + {space};
      }
      imported := imported + [Item(KindOf(key), KeyText(key), source, None, dropped)];
      ok := true;
    }

    /** The grouping rows. Which spaces are mapped is read once, before anything is inserted. */
    method ImportBoard(board: BoardRead)
      requires IsSound(db)
      modifies this
      ensures State() == Steps(old(State()), BoardTasks(board), dryRun)
    {
      hide KindOf, KeyText, HolderOf, Refuses, Steps, Step, ConfigOf;
      var parsed := ConfigOf(board);
      if parsed.Error? {
        SkipIsStep(State(), BoardTasks(board)[0], dryRun);
        SkipRecord(Grouping, BoardShown(board), BOARD, Unusable(parsed.error));
        OneMoreTask(old(State()), [], BoardTasks(board)[0], dryRun);
        return;
      }
      var config := parsed.value;
      StepOfOffer(State(), GlobalTask(config), dryRun);
      var hasGlobal := Global in db;
      var existing := if hasGlobal then set k | k in db && k.Space? :: k.space else {};
      if hasGlobal || planned.globalMapping {
        SkipRecord(KindOf(Global), KeyText(Global), BOARD, AlreadyThere);
      } else {
        var ok := Insert(BOARD, Global, MappingRow(config.globalMapping), [], None);
        if ok {
          planned := planned.(globalMapping := true);
        }
      }
      OneMoreTask(old(State()), [], GlobalTask(config), dryRun);
      StepsAppend(old(State()), [GlobalTask(config)], SpaceMappingTasks(config.spaces), dryRun);
      ImportSpaces(config.spaces, existing);
    }

    method ImportSpaces(spaces: seq<SpaceMapping>, existing: set<string>)
      requires forall s :: s in existing ==> Space(s) in db
      requires forall s :: Space(s) in db ==> s in existing || s in planned.spaces
      modifies this
      ensures State() == Steps(old(State()), SpaceMappingTasks(spaces), dryRun)
    {
      hide KeyText, HolderOf, Refuses, Steps;
      ghost var start := State();
      NoTasks(start, dryRun);
      assert SpaceMappingTasks(spaces[..0]) == [];
      for i := 0 to |spaces|
        invariant State() == Steps(start, SpaceMappingTasks(spaces[..i]), dryRun)
        invariant forall s :: s in existing ==> Space(s) in db
        invariant forall s :: Space(s) in db ==> s in existing || s in planned.spaces
      {
        var entry := spaces[i];
        assert SpaceMappingTasks(spaces[..i + 1]) == SpaceMappingTasks(spaces[..i]) + [SpaceMappingTask(entry)];
        OneMoreTask(start, SpaceMappingTasks(spaces[..i]), SpaceMappingTask(entry), dryRun);
        if entry.space in existing || entry.space in planned.spaces {
          SkipRecord(Grouping, KeyText(Space(entry.space)), BOARD, AlreadyThere);
          continue;
        }
        var ok := Insert(BOARD, Space(entry.space), MappingRow(entry.mapping), [], None);
        if ok {
          planned := planned.(spaces := planned.spaces + {entry.space});
        }
      }
      assert spaces[..|spaces|] == spaces;
    }

    /** Space records: those keyed by a session first, then the flat ones no keyed record supersedes. */
    method ImportWorkspaces(entries: seq<WorkspaceEntry>)
      modifies this
      ensures State() == Steps(old(State()), WorkspaceTasks(entries), dryRun)
    {
      hide Steps, StraysOf, KeyedOf, FlatOf, SpaceTask, FlatTask;
      ghost var start := State();
      var keyed, flat := SortWorkspaces(entries);
      var keyedSpaces := SpacesOf(keyed);
      ImportKeyed(keyed);
      ghost var strays, first := StraysOf(entries), SpaceTasks(keyed);
      StepsAppend(start, strays, first, dryRun);
      StepsAppend(start, strays + first, FlatTasks(flat, keyedSpaces), dryRun);
      ImportFlat(flat, keyedSpaces);
    }

    method SortWorkspaces(entries: seq<WorkspaceEntry>) returns (keyed: seq<SpaceFile>, flat: seq<SpaceFile>)
      modifies this
      ensures keyed == KeyedOf(entries) && flat == FlatOf(entries)
      ensures State() == Steps(old(State()), StraysOf(entries), dryRun)
    {
      hide Steps, KeyedIn, OtherEntries;
      ghost var start := State();
      NoTasks(start, dryRun);
      keyed, flat := [], [];
      for i := 0 to |entries|
        invariant keyed == KeyedOf(entries[..i]) && flat == FlatOf(entries[..i])
        invariant State() == Steps(start, StraysOf(entries[..i]), dryRun)
      {
        var entry := entries[i];
        assert entries[..i + 1][..i] == entries[..i];
        ghost var strays := StraysOf(entries[..i]);
        if entry.SessionFolder? {
          StepsAppend(start, strays, OtherEntries(Under(WORKSPACES, entry.name), entry.files), dryRun);
          var files := SortFolder(entry.name, entry.files);
          keyed := keyed + files;
        } else if IsFlat(entry) {
          flat := flat + [FlatFile(entry)];
          assert StraysOf(entries[..i + 1]) == strays;
        } else {
          OneMoreTask(start, strays, Ignore(Under(WORKSPACES, entry.name)), dryRun);
          ignored := ignored + [Under(WORKSPACES, entry.name)];
        }
      }
      assert entries[..|entries|] == entries;
    }

    method SortFolder(session: string, files: seq<Entry>) returns (keyed: seq<SpaceFile>)
      modifies this
      ensures keyed == KeyedIn(session, files)
      ensures State() == Steps(old(State()), OtherEntries(Under(WORKSPACES, session), files), dryRun)
    {
      hide Steps;
      ghost var start, dir := State(), Under(WORKSPACES, session);
      NoTasks(start, dryRun);
      keyed := [];
      for i := 0 to |files|
        invariant keyed == KeyedIn(session, files[..i])
        invariant State() == Steps(start, OtherEntries(dir, files[..i]), dryRun)
      {
        var file := files[i];
        assert files[..i + 1][..i] == files[..i];
        if IsRecordFile(file) {
          keyed := keyed + [KeyedFile(session, file)];
          assert OtherEntries(dir, files[..i + 1]) == OtherEntries(dir, files[..i]);
        } else {
          OneMoreTask(start, OtherEntries(dir, files[..i]), Ignore(Under(dir, file.name)), dryRun);
          ignored := ignored + [Under(Under(WORKSPACES, session), file.name)];
        }
      }
      assert files[..|files|] == files;
    }

    method ImportKeyed(files: seq<SpaceFile>)
      modifies this
      ensures State() == Steps(old(State()), SpaceTasks(files), dryRun)
    {
      hide Steps, SpaceTask;
      ghost var start := State();
      NoTasks(start, dryRun);
      assert SpaceTasks(files[..0]) == [];
      for i := 0 to |files|
        invariant State() == Steps(start, SpaceTasks(files[..i]), dryRun)
      {
        assert SpaceTasks(files[..i + 1]) == SpaceTasks(files[..i]) + [SpaceTask(files[i])];
        OneMoreTask(start, SpaceTasks(files[..i]), SpaceTask(files[i]), dryRun);
        ImportSpaceRecord(files[i]);
      }
      assert files[..|files|] == files;
    }

    method ImportFlat(files: seq<SpaceFile>, keyed: set<string>)
      modifies this
      ensures State() == Steps(old(State()), FlatTasks(files, keyed), dryRun)
    {
      hide Steps, SpaceTask, KeyText;
      ghost var start := State();
      NoTasks(start, dryRun);
      assert FlatTasks(files[..0], keyed) == [];
      for i := 0 to |files|
        invariant State() == Steps(start, FlatTasks(files[..i], keyed), dryRun)
      {
        var file := files[i];
        assert FlatTasks(files[..i + 1], keyed) == FlatTasks(files[..i], keyed) + [FlatTask(file, keyed)];
        OneMoreTask(start, FlatTasks(files[..i], keyed), FlatTask(file, keyed), dryRun);
        if file.workspace in keyed {
          SkipRecord(SpaceBinding, KeyText(SpaceRecord(FLAT_SESSION, file.workspace)), file.path, Superseded(file.workspace));
        } else {
          ImportSpaceRecord(file);
        }
      }
      assert files[..|files|] == files;
    }

    method ImportSpaceRecord(file: SpaceFile)
      modifies this
      ensures State() == Step(old(State()), SpaceTask(file), dryRun)
    {
      hide KeyText, HolderOf, Refuses;
      var key := SpaceRecord(file.session, file.workspace);
      var parsed := file.Parsed();
      if parsed.Error? {
        SkipRecord(SpaceBinding, KeyText(key), file.path, Unusable(parsed.error));
        return;
      }
      var natural := (file.session, file.workspace);
      if key in db || natural in planned.spaceBindings {
        SkipRecord(SpaceBinding, KeyText(key), file.path, AlreadyThere);
        return;
      }
      var ok := Insert(file.path, key, SpaceRow(parsed.value), DroppedOf(file.read), Some(file.workspace));
      if ok {
        planned := planned.(spaceBindings := planned.spaceBindings + {natural});
      }
    }

    /** The record files of a directory; everything else in it is ignored. */
    method JsonFiles(dir: string, entries: seq<Entry>) returns (files: seq<Entry>)
      modifies this
      ensures files == RecordFiles(entries)
      ensures State() == Steps(old(State()), OtherEntries(dir, entries), dryRun)
    {
      hide Steps, IsRecordFile;
      ghost var start := State();
      NoTasks(start, dryRun);
      files := [];
      for i := 0 to |entries|
        invariant files == RecordFiles(entries[..i])
        invariant State() == Steps(start, OtherEntries(dir, entries[..i]), dryRun)
      {
        assert entries[..i + 1][..i] == entries[..i];
        if IsRecordFile(entries[i]) {
          files := files + [entries[i]];
          assert OtherEntries(dir, entries[..i + 1]) == OtherEntries(dir, entries[..i]);
        } else {
          OneMoreTask(start, OtherEntries(dir, entries[..i]), Ignore(Under(dir, entries[i].name)), dryRun);
          ignored := ignored + [Under(dir, entries[i].name)];
        }
      }
      assert entries[..|entries|] == entries;
    }

    /** Worktree bindings, one per worktree, and one worktree per issue. */
    method ImportBindings(entries: seq<Entry>)
      modifies this
      ensures State() == Steps(old(State()), BindingTasks(entries), dryRun)
    {
      hide Steps, BindingTask, RecordFiles, OtherEntries;
      ghost var begin := State();
      var files := JsonFiles(BINDINGS, entries);
      ghost var start := State();
      StepsAppend(begin, OtherEntries(BINDINGS, entries), BindingFileTasks(files), dryRun);
      NoTasks(start, dryRun);
      assert BindingFileTasks(files[..0]) == [];
      for i := 0 to |files|
        invariant State() == Steps(start, BindingFileTasks(files[..i]), dryRun)
      {
        assert BindingFileTasks(files[..i + 1]) == BindingFileTasks(files[..i]) + [BindingTask(files[i])];
        OneMoreTask(start, BindingFileTasks(files[..i]), BindingTask(files[i]), dryRun);
        ImportBinding(files[i]);
      }
      assert files[..|files|] == files;
    }

    method ImportBinding(file: Entry)
      requires IsRecordFile(file)
      modifies this
      ensures State() == Step(old(State()), BindingTask(file), dryRun)
    {
      hide HolderOf, Refuses, Under;
      var rel := Under(BINDINGS, file.name);
      var parsed := ParsedBinding(file.read);
      if parsed.Error? {
        SkipRecord(WorktreeBinding, BindingShown(file.read, rel), rel, Unusable(parsed.error));
        return;
      }
      var binding, issue := parsed.value, parsed.value.columns.issue;
      var key := binding.path;
      if Worktree(key) in db || key in planned.worktrees {
        SkipRecord(WorktreeBinding, key, rel, AlreadyThere);
        return;
      }
      var holder := IssueHolder(issue, key);
      if holder.Some? {
        SkipRecord(WorktreeBinding, key, rel, IssueHeld(issue, holder.value));
        return;
      }
      var ok := Insert(rel, Worktree(key), WorktreeRow(binding.columns), DroppedOf(file.read), None);
      if ok {
        planned := planned.(worktrees := planned.worktrees[key := issue]);
      }
    }

    /** The other worktree an issue is bound to: one planned in this run, or one in the database. */
    method IssueHolder(issue: string, path: string) returns (holder: Option<string>)
      ensures holder == HolderOf(State(), issue, path)
    {
      holder := FirstInPathOrder(planned.worktrees, issue, path);
      if holder.None? {
        holder := FirstInPathOrder(Issues(db), issue, path);
      }
    }

    static method FirstInPathOrder(issues: map<string, string>, issue: string, path: string) returns (holder: Option<string>)
      ensures holder == FirstHolder(issues, issue, path)
    {
      var rest := issues.Keys;
      holder := None;
      while rest != {}
        invariant rest <= issues.Keys
        invariant holder.Some? ==> Holds(issues, issue, path, holder.value)
        invariant forall h :: Holds(issues, issue, path, h) && h !in rest ==>
                    holder.Some? && (h == holder.value || LexLess(holder.value, h))
        decreases |rest|
      {
        var h :| h in rest;
        rest := rest - {h};
        if Holds(issues, issue, path, h) && (holder.None? || LexLess(h, holder.value)) {
          if holder.Some? {
            KeepsLeast(issues, issue, path, rest + {h}, holder.value, h);
          }
          holder := Some(h);
        } else if holder.Some? {
          LexLessIsStrictOrder(h, holder.value);
        }
      }
      FirstHolderFinds(issues, issue, path);
      if holder.Some? {
        FirstHolderIs(issues, issue, path, holder.value);
      }
    }

    /** Session scopes, for the context records named after a session. */
    method ImportContexts(entries: seq<Entry>)
      modifies this
      ensures State() == Steps(old(State()), ContextTasks(entries), dryRun)
    {
      hide Steps, ContextTask, RecordFiles, OtherEntries;
      ghost var begin := State();
      var files := JsonFiles(CONTEXTS, entries);
      ghost var start := State();
      StepsAppend(begin, OtherEntries(CONTEXTS, entries), ContextFileTasks(files), dryRun);
      NoTasks(start, dryRun);
      assert ContextFileTasks(files[..0]) == [];
      for i := 0 to |files|
        invariant State() == Steps(start, ContextFileTasks(files[..i]), dryRun)
      {
        assert ContextFileTasks(files[..i + 1]) == ContextFileTasks(files[..i]) + [ContextTask(files[i])];
        OneMoreTask(start, ContextFileTasks(files[..i]), ContextTask(files[i]), dryRun);
        ImportContext(files[i]);
      }
      assert files[..|files|] == files;
    }

    method ImportContext(file: Entry)
      requires IsRecordFile(file)
      modifies this
      ensures State() == Step(old(State()), ContextTask(file), dryRun)
    {
      hide HolderOf, Refuses, SessionOf, Under;
      var rel := Under(CONTEXTS, file.name);
      var named := SessionOf(file.name);
      if named.None? {
        ignored := ignored + [rel];
        return;
      }
      var session := named.value;
      var parsed := ParsedContext(session, file.read);
      if parsed.Error? {
        SkipRecord(SessionScope, session, rel, Unusable(parsed.error));
        return;
      }
      if Session(session) in db || session in planned.sessions {
        SkipRecord(SessionScope, session, rel, AlreadyThere);
        return;
      }
      var ok := Insert(rel, Session(session), ScopeRow(parsed.value), DroppedOf(file.read), None);
      if ok {
        planned := planned.(sessions := planned.sessions + {session});
      }
    }

    /** The repositories of each scope. */
    method ImportScopes(entries: seq<Entry>)
      modifies this
      ensures State() == Steps(old(State()), ScopeTasks(entries), dryRun)
    {
      hide Steps, ScopeFileTasks, RecordFiles, OtherEntries;
      ghost var begin := State();
      var files := JsonFiles(SCOPES, entries);
      ghost var start := State();
      StepsAppend(begin, OtherEntries(SCOPES, entries), ScopeFilesTasks(files), dryRun);
      NoTasks(start, dryRun);
      for i := 0 to |files|
        invariant State() == Steps(start, ScopeFilesTasks(files[..i]), dryRun)
      {
        assert files[..i + 1][..i] == files[..i];
        StepsAppend(start, ScopeFilesTasks(files[..i]), ScopeFileTasks(files[i]), dryRun);
        ImportScope(files[i]);
      }
      assert files[..|files|] == files;
    }

    /** One scope. Which repositories it has is read once, before anything is inserted. */
    method ImportScope(file: Entry)
      requires IsRecordFile(file)
      modifies this
      ensures State() == Steps(old(State()), ScopeFileTasks(file), dryRun)
    {
      hide Steps, Step, HolderOf, Refuses, ScopeOf, Under, KeyText, ParsedScope, IsAbsolute;
      ghost var start := State();
      var rel, scope := Under(SCOPES, file.name), ScopeOf(file.name);
      var parsed := ParsedScope(scope, file.read);
      if parsed.Error? {
        SkipIsStep(start, Skip(ScopeRepo, scope, rel, Unusable(parsed.error)), dryRun);
        OneMoreTask(start, [], Skip(ScopeRepo, scope, rel, Unusable(parsed.error)), dryRun);
        SkipRecord(ScopeRepo, scope, rel, Unusable(parsed.error));
        return;
      }
      var repos := parsed.value;
      var existing := set k | k in db && k.Repo? && k.scope == scope :: k.path;
      NoTasks(start, dryRun);
      assert RepoTasks(rel, scope, repos[..0]) == [];
      for i := 0 to |repos|
        invariant State() == Steps(start, RepoTasks(rel, scope, repos[..i]), dryRun)
        invariant forall p :: p in existing ==> Repo(scope, p) in db
        invariant forall p :: Repo(scope, p) in db ==> p in existing || (scope, p) in planned.repos
      {
        var repo := repos[i];
        assert RepoTasks(rel, scope, repos[..i + 1]) == RepoTasks(rel, scope, repos[..i]) + [RepoTask(rel, scope, repo)];
        OneMoreTask(start, RepoTasks(rel, scope, repos[..i]), RepoTask(rel, scope, repo), dryRun);
        if !IsAbsolute(repo) {
          SkipIsStep(State(), RepoTask(rel, scope, repo), dryRun);
          SkipRecord(ScopeRepo, KeyText(Repo(scope, repo)), rel, Unusable(NotAbsolute));
          continue;
        }
        StepOfOffer(State(), RepoTask(rel, scope, repo), dryRun);
        var natural := (scope, repo);
        if repo in existing || natural in planned.repos {
          SkipRecord(ScopeRepo, KeyText(Repo(scope, repo)), rel, AlreadyThere);
          continue;
        }
        var ok := Insert(rel, Repo(scope, repo), Listed, [], None);
        if ok {
          planned := planned.(repos := planned.repos + {natural});
        }
      }
      assert repos[..|repos|] == repos;
    }

    /** Imports a store, if there is one, and says which spaces a subscriber must hear about. */
    method ImportWorkStore(store: Option<Store>) returns (changedSpaces: set<Option<string>>)
      requires IsSound(db)
      modifies this
      ensures State() == if store.Some? then Steps(old(State()), StoreTasks(store.value), dryRun) else old(State())
      ensures changedSpaces == if dryRun then {} else changed
    {
      hide *;
      if store.Some? {
        var s := store.value;
        ghost var start, done := State(), Unhandled(s.root);
        ghost var board, workspaces, bindings, contexts, scopes := StoreParts(s);
        ListRoot(s.root);
        done := Onward(start, done, board, dryRun);
        if RootEntry(BOARD, false) in s.root {
          ImportBoard(s.board);
        }
        done := Onward(start, done, workspaces, dryRun);
        if RootEntry(WORKSPACES, true) in s.root {
          ImportWorkspaces(s.workspaces);
        }
        done := Onward(start, done, bindings, dryRun);
        if RootEntry(BINDINGS, true) in s.root {
          ImportBindings(s.bindings);
        }
        done := Onward(start, done, contexts, dryRun);
        if RootEntry(CONTEXTS, true) in s.root {
          ImportContexts(s.contexts);
        }
        done := Onward(start, done, scopes, dryRun);
        if RootEntry(SCOPES, true) in s.root {
          ImportScopes(s.scopes);
        }
      }
      changedSpaces := if dryRun then {} else changed;
    }

    method ListRoot(root: seq<RootEntry>)
      modifies this
      ensures State() == Steps(old(State()), Unhandled(root), dryRun) && db == old(db)
    {
      hide Steps, IsHandled;
      ghost var start := State();
      NoTasks(start, dryRun);
      for i := 0 to |root|
        invariant State() == Steps(start, Unhandled(root[..i]), dryRun) && db == old(db)
      {
        assert root[..i + 1][..i] == root[..i];
        if IsHandled(root[i]) {
          assert Unhandled(root[..i + 1]) == Unhandled(root[..i]);
        } else {
          OneMoreTask(start, Unhandled(root[..i]), Ignore(root[i].name), dryRun);
          ignored := ignored + [root[i].name];
        }
      }
      assert root[..|root|] == root;
    }
  }

  // ---------------------------------------------------------------------------
  // What holds of the tasks of a store
  // ---------------------------------------------------------------------------

  /** Nothing is skipped as refused beforehand, a row's announcement follows from its key, and its setter accepts it. */
  predicate IsPlain(t: Task) {
    (t.Skip? ==> !t.reason.Refused?) && (t.Offer? ==> t.space == Announced(t.key) && Accepts(t.key, t.row))
  }

  /** Neither is a grouping row offered. */
  predicate IsOther(t: Task) {
    IsPlain(t) && (t.Offer? ==> t.key != Global && !t.key.Space?)
  }

  predicate AreOther(tasks: seq<Task>) {
    forall i :: 0 <= i < |tasks| ==> IsOther(tasks[i])
  }

  lemma {:induction false} OtherTogether(a: seq<Task>, b: seq<Task>)
    requires AreOther(a) && AreOther(b)
    ensures AreOther(a + b)
  {
  }

  lemma {:induction false} OtherEntriesAreOther(dir: string, entries: seq<Entry>)
    ensures AreOther(OtherEntries(dir, entries))
  {
    hide IsRecordFile;
    if entries != [] {
      OtherEntriesAreOther(dir, entries[..|entries| - 1]);
    }
  }

  lemma {:induction false} StraysAreOther(entries: seq<WorkspaceEntry>)
    ensures AreOther(StraysOf(entries))
  {
    if entries != [] {
      var n := |entries| - 1;
      StraysAreOther(entries[..n]);
      if entries[n].SessionFolder? {
        OtherEntriesAreOther(Under(WORKSPACES, entries[n].name), entries[n].files);
      }
      hide IsFlat, OtherEntries;
    }
  }

  lemma {:induction false} SpaceTasksAreOther(files: seq<SpaceFile>)
    ensures AreOther(SpaceTasks(files))
  {
    hide KeyText;
  }

  lemma {:induction false} FlatTasksAreOther(files: seq<SpaceFile>, keyed: set<string>)
    ensures AreOther(FlatTasks(files, keyed))
  {
    hide KeyText;
  }

  lemma {:induction false} WorkspacesAreOther(entries: seq<WorkspaceEntry>)
    ensures AreOther(WorkspaceTasks(entries))
  {
    hide StraysOf, KeyedOf, FlatOf, SpacesOf, SpaceTasks, FlatTasks, AreOther;
    StraysAreOther(entries);
    SpaceTasksAreOther(KeyedOf(entries));
    FlatTasksAreOther(FlatOf(entries), SpacesOf(KeyedOf(entries)));
    var keyed, flat := SpaceTasks(KeyedOf(entries)), FlatTasks(FlatOf(entries), SpacesOf(KeyedOf(entries)));
    OtherTogether(StraysOf(entries), keyed);
    OtherTogether(StraysOf(entries) + keyed, flat);
  }

  lemma {:induction false} BindingsAreOther(entries: seq<Entry>)
    ensures AreOther(BindingTasks(entries))
  {
    OtherEntriesAreOther(BINDINGS, entries);
    hide OtherEntries, RecordFiles, Under;
    OtherTogether(OtherEntries(BINDINGS, entries), BindingFileTasks(RecordFiles(entries)));
  }

  lemma {:induction false} ContextFilesAreOther(files: seq<Entry>)
    requires forall i :: 0 <= i < |files| ==> IsRecordFile(files[i])
    ensures AreOther(ContextFileTasks(files))
  {
    hide Under, SessionOf, IsRecordFile;
  }

  lemma {:induction false} ContextsAreOther(entries: seq<Entry>)
    ensures AreOther(ContextTasks(entries))
  {
    hide OtherEntries, RecordFiles, ContextFileTasks, AreOther;
    OtherEntriesAreOther(CONTEXTS, entries);
    ContextFilesAreOther(RecordFiles(entries));
    OtherTogether(OtherEntries(CONTEXTS, entries), ContextFileTasks(RecordFiles(entries)));
  }

  lemma {:induction false} ScopeFilesAreOther(files: seq<Entry>)
    requires forall i :: 0 <= i < |files| ==> IsRecordFile(files[i])
    ensures AreOther(ScopeFilesTasks(files))
  {
    hide IsRecordFile, Under, ScopeOf, KeyText;
    if files != [] {
      var n := |files| - 1;
      ScopeFilesAreOther(files[..n]);
      OtherTogether(ScopeFilesTasks(files[..n]), ScopeFileTasks(files[n]));
    }
  }

  lemma {:induction false} ScopesAreOther(entries: seq<Entry>)
    ensures AreOther(ScopeTasks(entries))
  {
    OtherEntriesAreOther(SCOPES, entries);
    ScopeFilesAreOther(RecordFiles(entries));
    hide OtherEntries, RecordFiles;
    OtherTogether(OtherEntries(SCOPES, entries), ScopeFilesTasks(RecordFiles(entries)));
  }

  lemma {:induction false} UnhandledAreOther(root: seq<RootEntry>)
    ensures AreOther(Unhandled(root))
  {
    hide IsHandled;
    if root != [] {
      UnhandledAreOther(root[..|root| - 1]);
    }
  }

  /** Grouping rows, if any, are offered with the global one first. */
  predicate IsFirst(tasks: seq<Task>) {
    (forall i :: 0 <= i < |tasks| ==> IsPlain(tasks[i])) && GlobalComesFirst(tasks) && AreFit(tasks)
  }

  lemma {:induction false} BoardIsFirst(before: seq<Task>, board: BoardRead)
    requires AreOther(before)
    ensures IsFirst(before + BoardTasks(board))
  {
    hide IsMapping, KeyText, TextOk;
    var tasks := before + BoardTasks(board);
    BoardIsPlain(board);
    PlainTogether(before, BoardTasks(board));
    hide IsPlain;
    assert GlobalComesFirst(tasks);
    forall i | 0 <= i < |tasks| && tasks[i].Offer? && tasks[i].key.Space?
      ensures OffersGlobal(tasks[..i])
    {
      assert i > |before|;
      assert tasks[..i][|before|] == BoardTasks(board)[0];
    }
    PlainIsFit(tasks);
  }

  lemma {:induction false} BoardIsPlain(board: BoardRead)
    ensures forall i :: 0 <= i < |BoardTasks(board)| ==> IsPlain(BoardTasks(board)[i])
  {
    hide IsMapping, KeyText, TextOk, SpaceNames, AreDistinct;
  }

  lemma {:induction false} PlainTogether(a: seq<Task>, b: seq<Task>)
    requires forall i :: 0 <= i < |a| ==> IsPlain(a[i])
    requires forall i :: 0 <= i < |b| ==> IsPlain(b[i])
    ensures forall i :: 0 <= i < |a + b| ==> IsPlain((a + b)[i])
  {
    hide IsPlain;
  }

  lemma {:induction false} PlainIsFit(tasks: seq<Task>)
    requires forall i :: 0 <= i < |tasks| ==> IsPlain(tasks[i])
    requires forall i :: 0 <= i < |tasks| && tasks[i].Offer? && tasks[i].key.Space? ==> OffersGlobal(tasks[..i])
    ensures AreFit(tasks)
  {
    hide Accepts, OffersGlobal, Announced;
  }

  lemma {:induction false} FirstThenOther(a: seq<Task>, b: seq<Task>)
    requires IsFirst(a) && AreOther(b)
    ensures IsFirst(a + b)
  {
    hide Accepts, Announced, OffersGlobal;
    PlainTogether(a, b);
    hide IsPlain;
    forall i | 0 <= i < |a + b| && (a + b)[i].Offer? && (a + b)[i].key.Space?
      ensures OffersGlobal((a + b)[..i])
    {
      assert i < |a| && (a + b)[..i] == a[..i];
    }
    PlainIsFit(a + b);
  }

  lemma {:induction false} StoreTasksAreFirst(store: Store)
    ensures AreRead(StoreTasks(store)) && GlobalComesFirst(StoreTasks(store)) && AreAnnounced(StoreTasks(store))
    ensures AreFit(StoreTasks(store))
  {
    hide Unhandled, BoardTasks, WorkspaceTasks, BindingTasks, ContextTasks, ScopeTasks, AreOther, IsFirst;
    UnhandledAreOther(store.root);
    NothingIsOther();
    BoardIsFirst(Unhandled(store.root), store.board);
    FirstAlone(Unhandled(store.root));
    WorkspacesAreOther(store.workspaces);
    BindingsAreOther(store.bindings);
    ContextsAreOther(store.contexts);
    ScopesAreOther(store.scopes);
    var board := Unhandled(store.root) + if RootEntry(BOARD, false) in store.root then BoardTasks(store.board) else [];
    var workspaces := if RootEntry(WORKSPACES, true) in store.root then WorkspaceTasks(store.workspaces) else [];
    var bindings := if RootEntry(BINDINGS, true) in store.root then BindingTasks(store.bindings) else [];
    var contexts := if RootEntry(CONTEXTS, true) in store.root then ContextTasks(store.contexts) else [];
    var scopes := if RootEntry(SCOPES, true) in store.root then ScopeTasks(store.scopes) else [];
    FirstThenOther(board, workspaces);
    FirstThenOther(board + workspaces, bindings);
    FirstThenOther(board + workspaces + bindings, contexts);
    FirstThenOther(board + workspaces + bindings + contexts, scopes);
    FirstIsRead(StoreTasks(store));
  }

  lemma {:induction false} FirstIsRead(tasks: seq<Task>)
    requires IsFirst(tasks)
    ensures AreRead(tasks) && GlobalComesFirst(tasks) && AreAnnounced(tasks) && AreFit(tasks)
  {
  }

  lemma {:induction false} NothingIsOther()
    ensures AreOther([])
  {
  }

  lemma {:induction false} FirstAlone(tasks: seq<Task>)
    requires AreOther(tasks)
    ensures IsFirst(tasks) && tasks + [] == tasks
  {
  }

  // ---------------------------------------------------------------------------
  // Theorems about importing a store
  // ---------------------------------------------------------------------------

  /** The run over a store; dryRun decides whether anything is written. */
  ghost function ImportOf(db: Db, store: Store, dryRun: bool): Run {
    Steps(FreshRun(db), StoreTasks(store), dryRun)
  }

  /** From any database, a dry run over a store reports exactly what the real run does: what the importer
      takes from a record its setter accepts. The real run adds the planned rows and nothing else. */
  lemma {:induction false} DryImportPredicts(db: Db, store: Store)
    ensures var dry, live := ImportOf(db, store, true), ImportOf(db, store, false);
            var rows := Additions(FreshRun(db), StoreTasks(store), true);
            SameReport(dry, live) && dry.db == db && dry.changed == {} && NoneRefused(live.skipped)
            && live.db == db + rows && live.planned == dry.planned
            && forall k :: (k in rows <==> IsPlanned(dry.planned, k)) && (k in rows ==> k !in db)
  {
    hide StoreTasks, Steps, Additions, SameReport, NoneRefused, IsPlanned, AreFit, AreAccepted;
    StoreTasksAreFirst(store);
    FitIsAccepted(db, StoreTasks(store));
    DryRunPredicts(db, StoreTasks(store));
    DryRunWritesNothing(FreshRun(db), StoreTasks(store), true);
  }

  /** Importing the same store a second time imports nothing, announces nothing and leaves the database equal. */
  lemma {:induction false} ImportingTwiceIsOnce(db: Db, store: Store)
    ensures var dryRun := false; var first := ImportOf(db, store, dryRun);
            ImportsNothing(ImportOf(first.db, store, dryRun), first.db)
  {
    hide StoreTasks, Steps, ImportsNothing, AreRead, GlobalComesFirst;
    StoreTasksAreFirst(store);
    SecondImportIsEmpty(db, StoreTasks(store), false);
  }

  /** A real import announces exactly the spaces of the rows it adds; every space, unless they are space records. */
  lemma {:induction false} ImportAnnouncesAdditions(db: Db, store: Store)
    ensures var end := ImportOf(db, store, false);
            end.changed == set k | k in end.db && k !in db :: Announced(k)
  {
    hide StoreTasks, Steps, Announced, AreAnnounced, AreRead, GlobalComesFirst;
    StoreTasksAreFirst(store);
    AdditionsAreAnnounced(db, StoreTasks(store), false);
  }

  /** A name in a directory holds no separator. */
  predicate IsName(name: string) {
    '/' !in name
  }

  lemma {:induction false} UnderIsInjective(dir: string, a: string, b: string)
    requires Under(dir, a) == Under(dir, b)
    ensures a == b
  {
    assert Under(dir, a)[|dir| + 1..] == a && Under(dir, b)[|dir| + 1..] == b;
  }

  lemma {:induction false} UnderTwice(dir: string, session: string, file: string, name: string)
    requires IsName(name)
    ensures Under(Under(dir, session), file) != Under(dir, name)
  {
    var joined := session + "/" + file;
    assert joined[|session|] == '/';
    assert Under(Under(dir, session), file) == Under(dir, joined);
    if Under(dir, joined) == Under(dir, name) {
      UnderIsInjective(dir, joined, name);
    }
  }

  lemma {:induction false} FirstCharUnder(dir: string, name: string)
    requires dir != ""
    ensures Under(dir, name) != "" && Under(dir, name)[0] == dir[0]
  {
  }

  lemma {:induction false} KeyedPaths(session: string, files: seq<Entry>, name: string)
    requires IsName(name)
    ensures forall i :: 0 <= i < |KeyedIn(session, files)| ==> KeyedIn(session, files)[i].path != Under(WORKSPACES, name)
  {
    hide IsRecordFile, Under;
    if files != [] {
      var n := |files| - 1;
      KeyedPaths(session, files[..n], name);
      UnderTwice(WORKSPACES, session, files[n].name, name);
    }
  }

  lemma {:induction false} AllKeyedPaths(entries: seq<WorkspaceEntry>, name: string)
    requires IsName(name)
    ensures forall i :: 0 <= i < |KeyedOf(entries)| ==> KeyedOf(entries)[i].path != Under(WORKSPACES, name)
  {
    hide KeyedIn, Under;
    if entries != [] {
      var n := |entries| - 1;
      AllKeyedPaths(entries[..n], name);
      if entries[n].SessionFolder? {
        KeyedPaths(entries[n].name, entries[n].files, name);
      }
    }
  }

  lemma {:induction false} FlatPaths(entries: seq<WorkspaceEntry>, name: string)
    requires IsRecordName(name)
    ensures forall i :: 0 <= i < |FlatOf(entries)| && FlatOf(entries)[i].path == Under(WORKSPACES, name) ==>
              FlatOf(entries)[i].workspace == Stem(name)
  {
    if entries != [] {
      var n := |entries| - 1;
      FlatPaths(entries[..n], name);
      if IsFlat(entries[n]) && Under(WORKSPACES, entries[n].name) == Under(WORKSPACES, name) {
        UnderIsInjective(WORKSPACES, entries[n].name, name);
      }
      hide Under, IsRecordName, Stem;
    }
  }

  lemma {:induction false} NotOfferedTogether(a: seq<Task>, b: seq<Task>, path: string)
    requires NotOffered(a, path) && NotOffered(b, path)
    ensures NotOffered(a + b, path)
  {
  }

  // Nothing that is only ignored is offered.
  lemma {:induction false} StraysNotOffered(entries: seq<WorkspaceEntry>, path: string)
    ensures NotOffered(StraysOf(entries), path)
  {
    if entries != [] {
      var n := |entries| - 1;
      StraysNotOffered(entries[..n], path);
      if entries[n].SessionFolder? {
        OtherEntriesNotOffered(Under(WORKSPACES, entries[n].name), entries[n].files, path);
      }
      hide IsFlat, OtherEntries, Under;
    }
  }

  lemma {:induction false} OtherEntriesNotOffered(dir: string, entries: seq<Entry>, path: string)
    ensures NotOffered(OtherEntries(dir, entries), path)
  {
    hide IsRecordFile, Under;
    if entries != [] {
      OtherEntriesNotOffered(dir, entries[..|entries| - 1], path);
    }
  }

  lemma {:induction false} FlatNotOffered(entries: seq<WorkspaceEntry>, name: string)
    requires IsName(name) && IsRecordName(name) && Stem(name) in SpacesOf(KeyedOf(entries))
    ensures NotOffered(WorkspaceTasks(entries), Under(WORKSPACES, name))
  {
    var path := Under(WORKSPACES, name);
    StraysNotOffered(entries, path);
    AllKeyedPaths(entries, name);
    FlatPaths(entries, name);
    hide StraysOf, KeyedOf, FlatOf, KeyText, Under, IsRecordName, Stem, SpacesOf;
    var keyed, flat := SpaceTasks(KeyedOf(entries)), FlatTasks(FlatOf(entries), SpacesOf(KeyedOf(entries)));
    NotOfferedTogether(StraysOf(entries), keyed, path);
    NotOfferedTogether(StraysOf(entries) + keyed, flat, path);
  }

  /** Every task comes from a path that begins with this letter. */
  predicate AllFrom(tasks: seq<Task>, c: char) {
    forall i :: 0 <= i < |tasks| ==> TaskSource(tasks[i]) != "" && TaskSource(tasks[i])[0] == c
  }

  lemma {:induction false} AllFromTogether(a: seq<Task>, b: seq<Task>, c: char)
    requires AllFrom(a, c) && AllFrom(b, c)
    ensures AllFrom(a + b, c)
  {
    hide TaskSource;
  }

  lemma {:induction false} OtherEntriesFrom(dir: string, entries: seq<Entry>)
    requires dir != ""
    ensures AllFrom(OtherEntries(dir, entries), dir[0])
  {
    hide IsRecordFile;
    if entries != [] {
      OtherEntriesFrom(dir, entries[..|entries| - 1]);
    }
  }

  lemma {:induction false} KeyedInFrom(session: string, files: seq<Entry>)
    ensures forall i :: 0 <= i < |KeyedIn(session, files)| ==>
              KeyedIn(session, files)[i].path != "" && KeyedIn(session, files)[i].path[0] == 'w'
  {
    hide IsRecordFile;
    if files != [] {
      KeyedInFrom(session, files[..|files| - 1]);
      FirstCharUnder(WORKSPACES, session);
      FirstCharUnder(Under(WORKSPACES, session), files[|files| - 1].name);
      hide Under;
    }
  }

  lemma {:induction false} SpaceFilesFrom(entries: seq<WorkspaceEntry>)
    ensures forall i :: 0 <= i < |KeyedOf(entries)| ==> KeyedOf(entries)[i].path != "" && KeyedOf(entries)[i].path[0] == 'w'
    ensures forall i :: 0 <= i < |FlatOf(entries)| ==> FlatOf(entries)[i].path != "" && FlatOf(entries)[i].path[0] == 'w'
    ensures AllFrom(StraysOf(entries), 'w')
  {
    hide IsFlat, KeyedIn, OtherEntries;
    if entries != [] {
      var n := |entries| - 1;
      SpaceFilesFrom(entries[..n]);
      FirstCharUnder(WORKSPACES, entries[n].name);
      if entries[n].SessionFolder? {
        KeyedInFrom(entries[n].name, entries[n].files);
        OtherEntriesFrom(Under(WORKSPACES, entries[n].name), entries[n].files);
      }
      hide Under;
    }
  }

  lemma {:induction false} WorkspacesFrom(entries: seq<WorkspaceEntry>)
    ensures AllFrom(WorkspaceTasks(entries), 'w')
  {
    SpaceFilesFrom(entries);
    hide StraysOf, KeyedOf, FlatOf, KeyText, SpacesOf;
    var keyed, flat := SpaceTasks(KeyedOf(entries)), FlatTasks(FlatOf(entries), SpacesOf(KeyedOf(entries)));
    AllFromTogether(StraysOf(entries), keyed, 'w');
    AllFromTogether(StraysOf(entries) + keyed, flat, 'w');
  }

  lemma {:induction false} BoardFrom(board: BoardRead)
    ensures AllFrom(BoardTasks(board), 'b')
  {
    hide ConfigOf;
  }

  lemma {:induction false} BindingsFrom(entries: seq<Entry>)
    ensures AllFrom(BindingTasks(entries), 'b')
  {
    OtherEntriesFrom(BINDINGS, entries);
    hide OtherEntries, RecordFiles;
    AllFromTogether(OtherEntries(BINDINGS, entries), BindingFileTasks(RecordFiles(entries)), 'b');
  }

  lemma {:induction false} ContextsFrom(entries: seq<Entry>)
    ensures AllFrom(ContextTasks(entries), 'c')
  {
    OtherEntriesFrom(CONTEXTS, entries);
    hide OtherEntries, RecordFiles, SessionOf;
    AllFromTogether(OtherEntries(CONTEXTS, entries), ContextFileTasks(RecordFiles(entries)), 'c');
  }

  lemma {:induction false} ScopeFilesFrom(files: seq<Entry>)
    requires forall i :: 0 <= i < |files| ==> IsRecordFile(files[i])
    ensures AllFrom(ScopeFilesTasks(files), 's')
  {
    hide IsRecordFile, ScopeOf, KeyText;
    if files != [] {
      var n := |files| - 1;
      ScopeFilesFrom(files[..n]);
      AllFromTogether(ScopeFilesTasks(files[..n]), ScopeFileTasks(files[n]), 's');
    }
  }

  lemma {:induction false} ScopesFrom(entries: seq<Entry>)
    ensures AllFrom(ScopeTasks(entries), 's')
  {
    OtherEntriesFrom(SCOPES, entries);
    ScopeFilesFrom(RecordFiles(entries));
    hide OtherEntries, RecordFiles;
    AllFromTogether(OtherEntries(SCOPES, entries), ScopeFilesTasks(RecordFiles(entries)), 's');
  }

  lemma {:induction false} FromElsewhere(tasks: seq<Task>, c: char, path: string)
    requires AllFrom(tasks, c) && (path == "" || path[0] != c)
    ensures NotOffered(tasks, path) && Avoids(tasks, path)
  {
  }

  lemma {:induction false} UnhandledNotOffered(root: seq<RootEntry>, path: string)
    ensures NotOffered(Unhandled(root), path)
  {
    hide IsHandled;
    if root != [] {
      UnhandledNotOffered(root[..|root| - 1], path);
    }
  }

  lemma {:induction false} NothingOffered(path: string)
    ensures NotOffered([], path)
  {
  }

  lemma {:induction false} StoreNotOffered(store: Store, path: string)
    requires NotOffered(Unhandled(store.root), path) && NotOffered(BoardTasks(store.board), path)
    requires NotOffered(WorkspaceTasks(store.workspaces), path) && NotOffered(BindingTasks(store.bindings), path)
    requires NotOffered(ContextTasks(store.contexts), path) && NotOffered(ScopeTasks(store.scopes), path)
    ensures NotOffered(StoreTasks(store), path)
  {
    hide Unhandled, BoardTasks, WorkspaceTasks, BindingTasks, ContextTasks, ScopeTasks, NotOffered;
    NothingOffered(path);
    var a := Unhandled(store.root);
    var b := a + if RootEntry(BOARD, false) in store.root then BoardTasks(store.board) else [];
    var c := b + if RootEntry(WORKSPACES, true) in store.root then WorkspaceTasks(store.workspaces) else [];
    var d := c + if RootEntry(BINDINGS, true) in store.root then BindingTasks(store.bindings) else [];
    var e := d + if RootEntry(CONTEXTS, true) in store.root then ContextTasks(store.contexts) else [];
    NotOfferedTogether(a, if RootEntry(BOARD, false) in store.root then BoardTasks(store.board) else [], path);
    NotOfferedTogether(b, if RootEntry(WORKSPACES, true) in store.root then WorkspaceTasks(store.workspaces) else [], path);
    NotOfferedTogether(c, if RootEntry(BINDINGS, true) in store.root then BindingTasks(store.bindings) else [], path);
    NotOfferedTogether(d, if RootEntry(CONTEXTS, true) in store.root then ContextTasks(store.contexts) else [], path);
    NotOfferedTogether(e, if RootEntry(SCOPES, true) in store.root then ScopeTasks(store.scopes) else [], path);
  }

  /** A flat workspace record is never imported when any session-keyed file names that workspace. */
  lemma {:induction false} FlatRecordIsSuperseded(db: Db, store: Store, dryRun: bool, name: string)
    requires IsName(name) && IsRecordName(name) && Stem(name) in SpacesOf(KeyedOf(store.workspaces))
    ensures forall i :: 0 <= i < |ImportOf(db, store, dryRun).imported| ==>
              ImportOf(db, store, dryRun).imported[i].source != Under(WORKSPACES, name)
  {
    hide Under, IsRecordName, KeyedOf, Unhandled, BoardTasks, WorkspaceTasks, BindingTasks, ContextTasks, ScopeTasks, Steps,
         NotOffered, Stem, Avoids, AllFrom, SpacesOf, StoreTasks;
    var path := Under(WORKSPACES, name);
    FirstCharUnder(WORKSPACES, name);
    UnhandledNotOffered(store.root, path);
    BoardFrom(store.board);
    FromElsewhere(BoardTasks(store.board), 'b', path);
    FlatNotOffered(store.workspaces, name);
    BindingsFrom(store.bindings);
    FromElsewhere(BindingTasks(store.bindings), 'b', path);
    ContextsFrom(store.contexts);
    FromElsewhere(ContextTasks(store.contexts), 'c', path);
    ScopesFrom(store.scopes);
    FromElsewhere(ScopeTasks(store.scopes), 's', path);
    StoreNotOffered(store, path);
    OnlyOffersAreImported(db, StoreTasks(store), dryRun, path);
  }

  function Paths(dir: string, entries: seq<Entry>): (r: seq<string>)
    ensures |r| == |entries|
  {
    if entries == [] then [] else Paths(dir, entries[..|entries| - 1]) + [Under(dir, entries[|entries| - 1].name)]
  }

  lemma {:induction false} BindingFileSource(files: seq<Entry>, file: Entry)
    requires forall i :: 0 <= i < |files| ==> IsRecordFile(files[i])
    requires IsRecordFile(file)
    ensures TaskSources(BindingFileTasks(files + [file]))
         == TaskSources(BindingFileTasks(files)) + [Under(BINDINGS, file.name)]
  {
    var tasks := BindingFileTasks(files);
    assert BindingFileTasks(files + [file]) == tasks + [BindingTask(file)];
    hide IsRecordFile, Under;
    assert (tasks + [BindingTask(file)])[..|tasks|] == tasks;
    assert TaskSource(BindingTask(file)) == Under(BINDINGS, file.name);
  }

  // The record files and the rest of the directory are its entries, each once.
  lemma {:induction false} BindingSources(entries: seq<Entry>)
    ensures multiset(TaskSources(OtherEntries(BINDINGS, entries)))
            + multiset(TaskSources(BindingFileTasks(RecordFiles(entries))))
            == multiset(Paths(BINDINGS, entries))
  {
    hide IsRecordFile, Under, BindingFileTasks;
    if entries == [] {
      assert BindingFileTasks(RecordFiles(entries)) == [] by {
        NoBindingFiles();
      }
    } else {
      var n := |entries| - 1;
      var others, files := OtherEntries(BINDINGS, entries[..n]), RecordFiles(entries[..n]);
      var path := Under(BINDINGS, entries[n].name);
      BindingSources(entries[..n]);
      if IsRecordFile(entries[n]) {
        BindingFileSource(files, entries[n]);
        assert OtherEntries(BINDINGS, entries) == others;
      } else {
        TaskSourcesAppend(others, [Ignore(path)]);
        assert TaskSources([Ignore(path)]) == [path];
        assert RecordFiles(entries) == files;
      }
    }
  }

  lemma {:induction false} NoBindingFiles()
    ensures BindingFileTasks([]) == []
  {
  }

  function Names(entries: seq<Entry>): (r: seq<string>)
    ensures |r| == |entries| && forall i :: 0 <= i < |r| ==> r[i] == entries[i].name
  {
    seq(|entries|, i requires 0 <= i < |entries| => entries[i].name)
  }

  predicate IsNamed(entries: seq<Entry>, name: string) {
    exists i :: 0 <= i < |entries| && entries[i].name == name
  }

  lemma {:induction false} NamedInPrefix(entries: seq<Entry>, name: string)
    requires entries != [] && AreDistinct(Names(entries))
    ensures var n := |entries| - 1;
            IsNamed(entries, name) == (IsNamed(entries[..n], name) || entries[n].name == name)
            && !IsNamed(entries[..n], entries[n].name)
  {
    var n := |entries| - 1;
    if IsNamed(entries, name) && entries[n].name != name {
      var i :| 0 <= i < |entries| && entries[i].name == name;
      assert entries[..n][i] == entries[i];
    }
    if IsNamed(entries[..n], name) {
      var i :| 0 <= i < n && entries[..n][i].name == name;
      assert entries[i].name == name;
    }
  }

  lemma {:induction false} PathsCount(dir: string, entries: seq<Entry>, name: string)
    requires AreDistinct(Names(entries))
    ensures multiset(Paths(dir, entries))[Under(dir, name)] == if IsNamed(entries, name) then 1 else 0
  {
    if entries != [] {
      var n := |entries| - 1;
      PathsCount(dir, entries[..n], name);
      NamedInPrefix(entries, name);
      if Under(dir, entries[n].name) == Under(dir, name) {
        UnderIsInjective(dir, entries[n].name, name);
      }
      hide Under, IsNamed, AreDistinct;
    }
  }

  lemma {:induction false} UnhandledAvoids(root: seq<RootEntry>, path: string)
    requires '/' in path && forall i :: 0 <= i < |root| ==> IsName(root[i].name)
    ensures Avoids(Unhandled(root), path)
  {
    hide IsHandled;
    if root != [] {
      UnhandledAvoids(root[..|root| - 1], path);
    }
  }

  lemma {:induction false} BoardAvoids(board: BoardRead, path: string)
    requires '/' in path
    ensures Avoids(BoardTasks(board), path)
  {
    hide ConfigOf, KeyText;
  }

  lemma {:induction false} CountApart(a: seq<Task>, b: seq<Task>, path: string)
    ensures multiset(TaskSources(a + b))[path] == multiset(TaskSources(a))[path] + multiset(TaskSources(b))[path]
  {
    TaskSourcesAppend(a, b);
    hide TaskSources;
    assert multiset(TaskSources(a) + TaskSources(b)) == multiset(TaskSources(a)) + multiset(TaskSources(b));
  }

  // Outside its own directory no record comes from a binding's path.
  lemma {:induction false} BindingCount(store: Store, path: string)
    requires '/' in path && path[0] == 'b' && RootEntry(BINDINGS, true) in store.root
    requires forall i :: 0 <= i < |store.root| ==> IsName(store.root[i].name)
    ensures multiset(TaskSources(StoreTasks(store)))[path] == multiset(TaskSources(BindingTasks(store.bindings)))[path]
  {
    hide Unhandled, BoardTasks, WorkspaceTasks, BindingTasks, ContextTasks, ScopeTasks, Avoids, AllFrom, NotOffered, TaskSources;
    var a := Unhandled(store.root);
    var board := if RootEntry(BOARD, false) in store.root then BoardTasks(store.board) else [];
    var workspaces := if RootEntry(WORKSPACES, true) in store.root then WorkspaceTasks(store.workspaces) else [];
    var bindings := BindingTasks(store.bindings);
    var contexts := if RootEntry(CONTEXTS, true) in store.root then ContextTasks(store.contexts) else [];
    var scopes := if RootEntry(SCOPES, true) in store.root then ScopeTasks(store.scopes) else [];
    NothingAvoids(path);
    UnhandledAvoids(store.root, path);
    BoardAvoids(store.board, path);
    WorkspacesFrom(store.workspaces);
    FromElsewhere(WorkspaceTasks(store.workspaces), 'w', path);
    ContextsFrom(store.contexts);
    FromElsewhere(ContextTasks(store.contexts), 'c', path);
    ScopesFrom(store.scopes);
    FromElsewhere(ScopeTasks(store.scopes), 's', path);
    AvoidsCounts(a, path);
    AvoidsCounts(board, path);
    AvoidsCounts(workspaces, path);
    AvoidsCounts(contexts, path);
    AvoidsCounts(scopes, path);
    CountApart(a, board, path);
    CountApart(a + board, workspaces, path);
    CountApart(a + board + workspaces, bindings, path);
    CountApart(a + board + workspaces + bindings, contexts, path);
    CountApart(a + board + workspaces + bindings + contexts, scopes, path);
  }

  lemma {:induction false} NothingAvoids(path: string)
    ensures Avoids([], path)
  {
  }

  /** Each entry of the bindings directory lands in exactly one of imported, skipped and ignored, once. */
  lemma {:induction false} BindingFilesAreReportedOnce(db: Db, store: Store, dryRun: bool, i: nat)
    requires RootEntry(BINDINGS, true) in store.root && i < |store.bindings| && AreDistinct(Names(store.bindings))
    requires forall j :: 0 <= j < |store.root| ==> IsName(store.root[j].name)
    ensures Reported(ImportOf(db, store, dryRun))[Under(BINDINGS, store.bindings[i].name)] == 1
  {
    var path := Under(BINDINGS, store.bindings[i].name);
    assert path[8] == '/';
    hide Under, StoreTasks, OtherEntries, BindingFileTasks, RecordFiles, Steps, Paths, IsName;
    EveryRecordIsReportedOnce(FreshRun(db), StoreTasks(store), dryRun);
    BindingCount(store, path);
    BindingSources(store.bindings);
    CountApart(OtherEntries(BINDINGS, store.bindings), BindingFileTasks(RecordFiles(store.bindings)), path);
    PathsCount(BINDINGS, store.bindings, store.bindings[i].name);
  }
}

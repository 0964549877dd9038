/** What a store asks the import for, entry by entry, with every name and path spelled out. */
module StoreAsks {
  import opened Text
  import opened Records
  import opened ImportRun
  import opened Import

  // ---------------------------------------------------------------------------
  // What each entry asks for
  // ---------------------------------------------------------------------------

  /** The name of a record: it ends in `.json` and is not a hidden one. */
  predicate IsJson(name: string) {
    5 <= |name| && name[|name| - 5..] == ".json" && name[0] != '.'
  }

  predicate IsJsonFile(e: Entry) {
    e.File? && IsJson(e.name)
  }

  predicate IsKnown(e: RootEntry) {
    if e.isDir then e.name in ["workspaces", "bindings", "contexts", "scopes"] else e.name == "board.json"
  }

  ghost predicate AsksOfBoard(board: BoardRead, t: Task) {
    var config := ConfigOf(board);
    if config.Ok? then
      t == Offer("board.json", Global, MappingRow(config.value.globalMapping), [], None)
      || exists s :: s in config.value.spaces && t == Offer("board.json", Space(s.space), MappingRow(s.mapping), [], None)
    else t == Skip(Grouping, if board.BoardUnread? then "board.json" else "global", "board.json", Unusable(config.error))
  }

  predicate AsksOfSpace(session: string, workspace: string, path: string, read: Read, t: Task) {
    match read
    case Untrusted(why) => t == Skip(SpaceBinding, session + "/" + workspace, path, Unusable(Unread(why)))
    case Trusted(record) =>
      match SpaceOf(session, workspace, record)
      case Error(why) => t == Skip(SpaceBinding, session + "/" + workspace, path, Unusable(why))
      case Ok(columns) =>
        t == Offer(path, SpaceRecord(session, workspace), SpaceRow(columns), DroppedFields(record), Some(workspace))
  }

  predicate AsksOfKeyed(session: string, file: Entry, t: Task) {
    var path := "workspaces/" + session + "/" + file.name;
    if IsJsonFile(file) then AsksOfSpace(session, file.name[..|file.name| - 5], path, file.read, t) else t == Ignore(path)
  }

  /** A session has a record of its own for the workspace. */
  ghost predicate IsKeyed(entries: seq<WorkspaceEntry>, workspace: string) {
    exists e, file :: e in entries && e.SessionFolder? && file in e.files && IsJsonFile(file) && file.name == workspace + ".json"
  }

  ghost predicate AsksOfWorkspace(entries: seq<WorkspaceEntry>, e: WorkspaceEntry, t: Task) {
    match e
    case SessionFolder(session, files) => exists file :: file in files && AsksOfKeyed(session, file, t)
    case Loose(name, read) =>
      if !IsJson(name) then t == Ignore("workspaces/" + name)
      else
        var workspace := name[..|name| - 5];
        if IsKeyed(entries, workspace) then
          t == Skip(SpaceBinding, "default/" + workspace, "workspaces/" + name, Superseded(workspace))
        else AsksOfSpace("default", workspace, "workspaces/" + name, read, t)
  }

  predicate AsksOfBinding(e: Entry, t: Task) {
    var path := "bindings/" + e.name;
    if !IsJsonFile(e) then t == Ignore(path)
    else
      match e.read
      case Untrusted(why) => t == Skip(WorktreeBinding, path, path, Unusable(Unread(why)))
      case Trusted(record) =>
        match WorktreeOf(record)
        case Ok(b) => t == Offer(path, Worktree(b.path), WorktreeRow(b.columns), DroppedFields(record), None)
        case Error(why) =>
          var at := if "worktree_path" in record then record["worktree_path"] else Null;
          t == Skip(WorktreeBinding, if at.Str? && TextOk(at.text) then at.text else path, path, Unusable(why))
  }

  predicate AsksOfContext(e: Entry, t: Task) {
    var path := "contexts/" + e.name;
    var n := |e.name|;
    if !(IsJsonFile(e) && 13 <= n && e.name[..8] == "session-" && TextOk(e.name[8..n - 5])) then t == Ignore(path)
    else
      var session := e.name[8..n - 5];
      match e.read
      case Untrusted(why) => t == Skip(SessionScope, session, path, Unusable(Unread(why)))
      case Trusted(record) =>
        match ScopeOfSession(session, record)
        case Error(why) => t == Skip(SessionScope, session, path, Unusable(why))
        case Ok(columns) => t == Offer(path, Session(session), ScopeRow(columns), DroppedFields(record), None)
  }

  function Endings(k: nat): string {
    if k == 0 then "" else Endings(k - 1) + ".json"
  }

  /** The name is the scope's with `.json` after it any number of times, and the scope's does not end so. */
  ghost predicate IsScopeFile(name: string, scope: string) {
    !(5 <= |scope| && scope[|scope| - 5..] == ".json") && exists k: nat :: name == scope + Endings(k)
  }

  predicate AsksOfRepo(path: string, scope: string, repo: string, t: Task) {
    if IsAbsolute(repo) then t == Offer(path, Repo(scope, repo), Listed, [], None)
    else t == Skip(ScopeRepo, scope + " " + repo, path, Unusable(NotAbsolute))
  }

  ghost predicate AsksOfRepos(path: string, scope: string, read: Read, t: Task) {
    if read.Untrusted? then t == Skip(ScopeRepo, scope, path, Unusable(Unread(read.why)))
    else
      var repos := ReposOf(scope, read.record);
      if repos.Error? then t == Skip(ScopeRepo, scope, path, Unusable(repos.error))
      else exists repo :: repo in repos.value && AsksOfRepo(path, scope, repo, t)
  }

  ghost predicate AsksOfScope(e: Entry, t: Task) {
    var path := "scopes/" + e.name;
    if !IsJsonFile(e) then t == Ignore(path)
    else exists scope :: IsScopeFile(e.name, scope) && AsksOfRepos(path, scope, e.read, t)
  }

  ghost predicate Asks(store: Store, t: Task) {
    (exists e :: e in store.root && !IsKnown(e) && t == Ignore(e.name))
    || (RootEntry("board.json", false) in store.root && AsksOfBoard(store.board, t))
    || (RootEntry("workspaces", true) in store.root && exists e :: e in store.workspaces && AsksOfWorkspace(store.workspaces, e, t))
    || (RootEntry("bindings", true) in store.root && exists e :: e in store.bindings && AsksOfBinding(e, t))
    || (RootEntry("contexts", true) in store.root && exists e :: e in store.contexts && AsksOfContext(e, t))
    || (RootEntry("scopes", true) in store.root && exists e :: e in store.scopes && AsksOfScope(e, t))
  }

  // ---------------------------------------------------------------------------
  // Names
  // ---------------------------------------------------------------------------

  lemma {:induction false} JsonIsRecord(name: string)
    ensures IsRecordName(name) <==> IsJson(name)
    ensures IsJson(name) ==> Stem(name) == name[..|name| - 5]
  {
  }

  lemma {:induction false} TrimmedIsScope(name: string)
    ensures IsScopeFile(name, TrimJson(name))
  {
    if EndsWith(name, JSON) {
      var stem := Stem(name);
      TrimmedIsScope(stem);
      assert name == stem + ".json";
      var k: nat :| stem == TrimJson(stem) + Endings(k);
      assert name == TrimJson(stem) + Endings(k + 1);
    } else {
      assert name == name + Endings(0);
    }
  }

  lemma {:induction false} ScopeIsTrimmed(name: string, scope: string, k: nat)
    requires IsScopeFile(name, scope) && name == scope + Endings(k)
    ensures TrimJson(name) == scope
  {
    if k > 0 {
      var stem := scope + Endings(k - 1);
      assert name == stem + ".json";
      assert name[..|name| - 5] == stem && name[|name| - 5..] == ".json";
      ScopeIsTrimmed(stem, scope, k - 1);
    } else {
      assert name == scope;
    }
  }

  lemma {:induction false} ScopeIsOf(name: string, scope: string)
    ensures IsScopeFile(name, scope) <==> scope == ScopeOf(name)
  {
    hide TrimJson;
    TrimmedIsScope(name);
    if IsScopeFile(name, scope) {
      var k: nat :| name == scope + Endings(k);
      ScopeIsTrimmed(name, scope, k);
    }
  }

  // ---------------------------------------------------------------------------
  // Lists of entries
  // ---------------------------------------------------------------------------

  lemma {:induction false} InRecordFiles(entries: seq<Entry>, e: Entry)
    ensures e in RecordFiles(entries) <==> e in entries && IsRecordFile(e)
  {
    hide IsRecordFile;
    if entries != [] {
      var n := |entries| - 1;
      InRecordFiles(entries[..n], e);
      assert entries == entries[..n] + [entries[n]];
    }
  }

  lemma {:induction false} InOthers(dir: string, entries: seq<Entry>, t: Task)
    ensures t in OtherEntries(dir, entries) <==> exists e :: e in entries && !IsRecordFile(e) && t == Ignore(Under(dir, e.name))
  {
    hide IsRecordFile, Under;
    if entries != [] {
      var n := |entries| - 1;
      InOthers(dir, entries[..n], t);
      assert entries == entries[..n] + [entries[n]];
    }
  }

  lemma {:induction false} InUnhandled(root: seq<RootEntry>, t: Task)
    ensures t in Unhandled(root) <==> exists e :: e in root && !IsKnown(e) && t == Ignore(e.name)
  {
    assert forall e :: IsHandled(e) <==> IsKnown(e);
    hide IsHandled, IsKnown;
    if root != [] {
      var n := |root| - 1;
      InUnhandled(root[..n], t);
      assert root == root[..n] + [root[n]];
    }
  }

  // ---------------------------------------------------------------------------
  // Bindings and contexts
  // ---------------------------------------------------------------------------

  lemma {:induction false} BindingIsAsked(e: Entry, t: Task)
    ensures if IsRecordFile(e) then t == BindingTask(e) <==> AsksOfBinding(e, t)
            else t == Ignore(Under(BINDINGS, e.name)) <==> AsksOfBinding(e, t)
  {
    hide WorktreeOf, DroppedFields, TextOk, IsRecordName, IsJson;
    JsonIsRecord(e.name);
    assert Under(BINDINGS, e.name) == "bindings/" + e.name;
  }

  lemma {:induction false} BindingsAreAsked(entries: seq<Entry>, t: Task)
    ensures t in BindingTasks(entries) <==> exists e :: e in entries && AsksOfBinding(e, t)
  {
    hide BindingTask, AsksOfBinding, IsRecordFile, Under;
    var files := RecordFiles(entries);
    InOthers(BINDINGS, entries, t);
    forall e | e in entries
      ensures e in files <==> IsRecordFile(e)
      ensures if IsRecordFile(e) then t == BindingTask(e) <==> AsksOfBinding(e, t)
              else t == Ignore(Under(BINDINGS, e.name)) <==> AsksOfBinding(e, t)
    {
      InRecordFiles(entries, e);
      BindingIsAsked(e, t);
    }
    if t in BindingFileTasks(files) {
      var i :| 0 <= i < |files| && t == BindingTask(files[i]);
      InRecordFiles(entries, files[i]);
    }
    if e :| e in files && t == BindingTask(e) {
      var i :| 0 <= i < |files| && files[i] == e;
      assert BindingFileTasks(files)[i] == t;
    }
  }

  lemma {:induction false} ContextIsAsked(e: Entry, t: Task)
    ensures if IsRecordFile(e) then t == ContextTask(e) <==> AsksOfContext(e, t)
            else t == Ignore(Under(CONTEXTS, e.name)) <==> AsksOfContext(e, t)
  {
    hide ScopeOfSession, DroppedFields, TextOk, IsHidden;
    JsonIsRecord(e.name);
    assert Under(CONTEXTS, e.name) == "contexts/" + e.name;
    if IsRecordFile(e) {
      var stem := Stem(e.name);
      assert |stem| == |e.name| - 5;
      assert "session-" <= stem <==> 8 <= |stem| && e.name[..8] == "session-";
      assert 8 <= |stem| ==> stem[8..] == e.name[8..|e.name| - 5];
    }
  }

  lemma {:induction false} ContextsAreAsked(entries: seq<Entry>, t: Task)
    ensures t in ContextTasks(entries) <==> exists e :: e in entries && AsksOfContext(e, t)
  {
    hide ContextTask, AsksOfContext, IsRecordFile, Under;
    var files := RecordFiles(entries);
    InOthers(CONTEXTS, entries, t);
    forall e | e in entries
      ensures e in files <==> IsRecordFile(e)
      ensures if IsRecordFile(e) then t == ContextTask(e) <==> AsksOfContext(e, t)
              else t == Ignore(Under(CONTEXTS, e.name)) <==> AsksOfContext(e, t)
    {
      InRecordFiles(entries, e);
      ContextIsAsked(e, t);
    }
    if t in ContextFileTasks(files) {
      var i :| 0 <= i < |files| && t == ContextTask(files[i]);
      InRecordFiles(entries, files[i]);
    }
    if e :| e in files && t == ContextTask(e) {
      var i :| 0 <= i < |files| && files[i] == e;
      assert ContextFileTasks(files)[i] == t;
    }
  }

  // ---------------------------------------------------------------------------
  // Scopes
  // ---------------------------------------------------------------------------

  lemma {:induction false} InRepoTasks(source: string, scope: string, repos: seq<string>, t: Task)
    ensures t in RepoTasks(source, scope, repos) <==> exists repo :: repo in repos && AsksOfRepo(source, scope, repo, t)
  {
    assert forall repo :: t == RepoTask(source, scope, repo) <==> AsksOfRepo(source, scope, repo, t);
    hide RepoTask, AsksOfRepo;
    if repo :| repo in repos && AsksOfRepo(source, scope, repo, t) {
      var i :| 0 <= i < |repos| && repos[i] == repo;
      assert RepoTasks(source, scope, repos)[i] == t;
    }
  }

  lemma {:induction false} ScopeIsAsked(e: Entry, t: Task)
    ensures if IsRecordFile(e) then t in ScopeFileTasks(e) <==> AsksOfScope(e, t)
            else t == Ignore(Under(SCOPES, e.name)) <==> AsksOfScope(e, t)
  {
    JsonIsRecord(e.name);
    assert Under(SCOPES, e.name) == "scopes/" + e.name;
    hide IsJson, IsRecordName, Under;
    if IsRecordFile(e) {
      var path, scope := "scopes/" + e.name, ScopeOf(e.name);
      forall s
        ensures IsScopeFile(e.name, s) <==> s == scope
      {
        ScopeIsOf(e.name, s);
      }
      hide IsScopeFile, ScopeOf, ReposOf, RepoTasks, AsksOfRepo;
      if e.read.Trusted? && ReposOf(scope, e.read.record).Ok? {
        InRepoTasks(path, scope, ReposOf(scope, e.read.record).value, t);
      }
      assert t in ScopeFileTasks(e) <==> AsksOfRepos(path, scope, e.read, t);
    }
  }

  lemma {:induction false} InScopeFiles(files: seq<Entry>, t: Task)
    requires forall i :: 0 <= i < |files| ==> IsRecordFile(files[i])
    ensures t in ScopeFilesTasks(files) <==> exists e :: e in files && IsRecordFile(e) && t in ScopeFileTasks(e)
  {
    hide IsRecordFile, ScopeFileTasks;
    if files != [] {
      var n := |files| - 1;
      InScopeFiles(files[..n], t);
      assert files == files[..n] + [files[n]];
    }
  }

  lemma {:induction false} ScopesAreAsked(entries: seq<Entry>, t: Task)
    ensures t in ScopeTasks(entries) <==> exists e :: e in entries && AsksOfScope(e, t)
  {
    hide ScopeFileTasks, AsksOfScope, IsRecordFile, Under;
    var files := RecordFiles(entries);
    InOthers(SCOPES, entries, t);
    InScopeFiles(files, t);
    forall e
      ensures e in files <==> e in entries && IsRecordFile(e)
      ensures if IsRecordFile(e) then t in ScopeFileTasks(e) <==> AsksOfScope(e, t)
              else t == Ignore(Under(SCOPES, e.name)) <==> AsksOfScope(e, t)
    {
      InRecordFiles(entries, e);
      ScopeIsAsked(e, t);
    }
  }

  // ---------------------------------------------------------------------------
  // The board
  // ---------------------------------------------------------------------------

  lemma {:induction false} BoardIsAsked(board: BoardRead, t: Task)
    ensures t in BoardTasks(board) <==> AsksOfBoard(board, t)
  {
    hide ConfigOf, IsConfig;
    if ConfigOf(board).Ok? {
      var spaces := ConfigOf(board).value.spaces;
      if s :| s in spaces && t == SpaceMappingTask(s) {
        var i :| 0 <= i < |spaces| && spaces[i] == s;
        assert SpaceMappingTasks(spaces)[i] == t;
      }
    }
  }

  // ---------------------------------------------------------------------------
  // Workspaces
  // ---------------------------------------------------------------------------

  lemma {:induction false} SpaceIsAsked(file: SpaceFile, t: Task)
    ensures t == SpaceTask(file) <==> AsksOfSpace(file.session, file.workspace, file.path, file.read, t)
  {
    hide SpaceOf, DroppedFields;
  }

  lemma {:induction false} InKeyedIn(session: string, files: seq<Entry>, f: SpaceFile)
    ensures f in KeyedIn(session, files) <==> exists file :: file in files && IsRecordFile(file) && f == KeyedFile(session, file)
  {
    hide IsRecordFile, KeyedFile;
    if files != [] {
      var n := |files| - 1;
      InKeyedIn(session, files[..n], f);
      assert files == files[..n] + [files[n]];
    }
  }

  lemma {:induction false} InKeyedOf(entries: seq<WorkspaceEntry>, f: SpaceFile)
    ensures f in KeyedOf(entries) <==> exists e :: e in entries && e.SessionFolder? && f in KeyedIn(e.name, e.files)
  {
    hide KeyedIn;
    if entries != [] {
      var n := |entries| - 1;
      InKeyedOf(entries[..n], f);
      assert entries == entries[..n] + [entries[n]];
    }
  }

  lemma {:induction false} InFlatOf(entries: seq<WorkspaceEntry>, f: SpaceFile)
    ensures f in FlatOf(entries) <==> exists e :: e in entries && IsFlat(e) && f == FlatFile(e)
  {
    hide IsFlat, FlatFile;
    if entries != [] {
      var n := |entries| - 1;
      InFlatOf(entries[..n], f);
      assert entries == entries[..n] + [entries[n]];
    }
  }

  predicate StraysAt(e: WorkspaceEntry, t: Task) {
    if e.SessionFolder? then t in OtherEntries(Under(WORKSPACES, e.name), e.files)
    else !IsFlat(e) && t == Ignore(Under(WORKSPACES, e.name))
  }

  lemma {:induction false} InStrays(entries: seq<WorkspaceEntry>, t: Task)
    ensures t in StraysOf(entries) <==> exists e :: e in entries && StraysAt(e, t)
  {
    hide IsFlat, Under, OtherEntries;
    if entries != [] {
      var n := |entries| - 1;
      InStrays(entries[..n], t);
      assert entries == entries[..n] + [entries[n]];
      assert t in StraysOf(entries) <==> t in StraysOf(entries[..n]) || StraysAt(entries[n], t);
      hide StraysAt, StraysOf;
    }
  }

  lemma {:induction false} KeyedIsKeyed(entries: seq<WorkspaceEntry>, workspace: string)
    ensures workspace in SpacesOf(KeyedOf(entries)) <==> IsKeyed(entries, workspace)
  {
    hide IsRecordFile, IsJsonFile;
    var keyed := KeyedOf(entries);
    if workspace in SpacesOf(keyed) {
      var i :| 0 <= i < |keyed| && keyed[i].workspace == workspace;
      InKeyedOf(entries, keyed[i]);
      var e :| e in entries && e.SessionFolder? && keyed[i] in KeyedIn(e.name, e.files);
      InKeyedIn(e.name, e.files, keyed[i]);
      var file :| file in e.files && IsRecordFile(file) && keyed[i] == KeyedFile(e.name, file);
      RecordIsJsonFile(file);
      StemIsName(file);
    }
    if e, file :| e in entries && e.SessionFolder? && file in e.files && IsJsonFile(file) && file.name == workspace + ".json" {
      RecordIsJsonFile(file);
      StemIsName(file);
      var f := KeyedFile(e.name, file);
      InKeyedIn(e.name, e.files, f);
      InKeyedOf(entries, f);
      var i :| 0 <= i < |keyed| && keyed[i] == f;
      assert f.workspace == workspace;
    }
  }

  lemma {:induction false} RecordIsJsonFile(file: Entry)
    ensures IsRecordFile(file) <==> IsJsonFile(file)
  {
    JsonIsRecord(file.name);
  }

  lemma {:induction false} StemIsName(file: Entry)
    requires IsRecordFile(file)
    ensures file.name == KeyedFile("", file).workspace + ".json"
    ensures forall stem, session :: file.name == stem + ".json" ==> stem == KeyedFile(session, file).workspace
  {
    var name := file.name;
    JsonIsRecord(name);
    assert name == name[..|name| - 5] + name[|name| - 5..];
    forall stem | name == stem + ".json"
      ensures stem == Stem(name)
    {
      assert name[..|name| - 5] == stem;
    }
  }

  lemma {:induction false} InSpaceTasks(entries: seq<WorkspaceEntry>, t: Task)
    ensures t in SpaceTasks(KeyedOf(entries))
       <==> exists e, file :: e in entries && e.SessionFolder? && file in e.files && IsRecordFile(file)
                              && t == SpaceTask(KeyedFile(e.name, file))
  {
    hide IsRecordFile, KeyedFile, SpaceTask;
    var keyed := KeyedOf(entries);
    if t in SpaceTasks(keyed) {
      var i :| 0 <= i < |keyed| && t == SpaceTask(keyed[i]);
      InKeyedOf(entries, keyed[i]);
      var e :| e in entries && e.SessionFolder? && keyed[i] in KeyedIn(e.name, e.files);
      InKeyedIn(e.name, e.files, keyed[i]);
    }
    if e, file :| e in entries && e.SessionFolder? && file in e.files && IsRecordFile(file) && t == SpaceTask(KeyedFile(e.name, file)) {
      var f := KeyedFile(e.name, file);
      InKeyedIn(e.name, e.files, f);
      InKeyedOf(entries, f);
      var i :| 0 <= i < |keyed| && keyed[i] == f;
      assert SpaceTasks(keyed)[i] == t;
    }
  }

  lemma {:induction false} InFlatTasks(entries: seq<WorkspaceEntry>, keyed: set<string>, t: Task)
    ensures t in FlatTasks(FlatOf(entries), keyed)
       <==> exists e :: e in entries && IsFlat(e) && t == FlatTask(FlatFile(e), keyed)
  {
    hide IsFlat, FlatFile, FlatTask;
    var flat := FlatOf(entries);
    if t in FlatTasks(flat, keyed) {
      var i :| 0 <= i < |flat| && t == FlatTask(flat[i], keyed);
      InFlatOf(entries, flat[i]);
    }
    if e :| e in entries && IsFlat(e) && t == FlatTask(FlatFile(e), keyed) {
      InFlatOf(entries, FlatFile(e));
      var i :| 0 <= i < |flat| && flat[i] == FlatFile(e);
      assert FlatTasks(flat, keyed)[i] == t;
    }
  }

  lemma {:induction false} KeyedIsAsked(session: string, file: Entry, t: Task)
    ensures AsksOfKeyed(session, file, t)
       <==> if IsRecordFile(file) then t == SpaceTask(KeyedFile(session, file))
            else t == Ignore(Under(Under(WORKSPACES, session), file.name))
  {
    hide AsksOfSpace, SpaceTask, IsHidden;
    JsonIsRecord(file.name);
    var path := "workspaces/" + session + "/" + file.name;
    assert Under(Under(WORKSPACES, session), file.name) == path;
    if IsRecordFile(file) {
      SpaceIsAsked(KeyedFile(session, file), t);
    }
  }

  lemma {:induction false} FlatIsAsked(entries: seq<WorkspaceEntry>, e: WorkspaceEntry, t: Task)
    requires e.Loose?
    ensures AsksOfWorkspace(entries, e, t)
       <==> if IsFlat(e) then t == FlatTask(FlatFile(e), SpacesOf(KeyedOf(entries)))
            else t == Ignore(Under(WORKSPACES, e.name))
  {
    hide AsksOfSpace, SpaceTask, IsHidden, IsKeyed, SpacesOf;
    JsonIsRecord(e.name);
    assert Under(WORKSPACES, e.name) == "workspaces/" + e.name;
    if IsFlat(e) {
      var file := FlatFile(e);
      KeyedIsKeyed(entries, file.workspace);
      SpaceIsAsked(file, t);
      assert FLAT_SESSION + "/" + file.workspace == "default/" + file.workspace;
    }
  }

  lemma {:induction false} FolderIsAsked(entries: seq<WorkspaceEntry>, e: WorkspaceEntry, t: Task)
    requires e.SessionFolder?
    ensures AsksOfWorkspace(entries, e, t)
       <==> t in OtherEntries(Under(WORKSPACES, e.name), e.files)
            || exists file :: file in e.files && IsRecordFile(file) && t == SpaceTask(KeyedFile(e.name, file))
  {
    hide SpaceTask, IsRecordFile, KeyedFile, AsksOfKeyed, Under;
    InOthers(Under(WORKSPACES, e.name), e.files, t);
    forall file
      ensures AsksOfKeyed(e.name, file, t)
         <==> if IsRecordFile(file) then t == SpaceTask(KeyedFile(e.name, file))
              else t == Ignore(Under(Under(WORKSPACES, e.name), file.name))
    {
      KeyedIsAsked(e.name, file, t);
    }
  }

  lemma {:induction false} WorkspacesAreAsked(entries: seq<WorkspaceEntry>, t: Task)
    ensures t in WorkspaceTasks(entries) <==> exists e :: e in entries && AsksOfWorkspace(entries, e, t)
  {
    hide SpaceTask, FlatTask, FlatFile, IsFlat, IsRecordFile, KeyedFile, Under, OtherEntries, AsksOfWorkspace, StraysOf, SpacesOf,
         SpaceTasks, FlatTasks, KeyedOf, FlatOf;
    var keyed := SpacesOf(KeyedOf(entries));
    InStrays(entries, t);
    InSpaceTasks(entries, t);
    InFlatTasks(entries, keyed, t);
    forall e | e in entries
      ensures e.Loose? ==> (AsksOfWorkspace(entries, e, t)
                            <==> if IsFlat(e) then t == FlatTask(FlatFile(e), keyed) else t == Ignore(Under(WORKSPACES, e.name)))
      ensures e.SessionFolder? ==>
                (AsksOfWorkspace(entries, e, t)
                 <==> t in OtherEntries(Under(WORKSPACES, e.name), e.files)
                      || exists file :: file in e.files && IsRecordFile(file) && t == SpaceTask(KeyedFile(e.name, file)))
      ensures IsFlat(e) ==> e.Loose?
    {
      FlatIsLoose(e);
      if e.Loose? {
        FlatIsAsked(entries, e, t);
      } else {
        FolderIsAsked(entries, e, t);
      }
    }
  }

  lemma {:induction false} FlatIsLoose(e: WorkspaceEntry)
    ensures IsFlat(e) ==> e.Loose?
  {
  }

  // ---------------------------------------------------------------------------
  // The store
  // ---------------------------------------------------------------------------

  /** The tasks of a store are exactly what its entries ask for. */
  lemma {:induction false} TasksAreAsked(store: Store, t: Task)
    ensures t in StoreTasks(store) <==> Asks(store, t)
  {
    hide BoardTasks, WorkspaceTasks, BindingTasks, ContextTasks, ScopeTasks, Unhandled,
         IsKnown, AsksOfBoard, AsksOfWorkspace, AsksOfBinding, AsksOfContext, AsksOfScope;
    InUnhandled(store.root, t);
    BoardIsAsked(store.board, t);
    WorkspacesAreAsked(store.workspaces, t);
    BindingsAreAsked(store.bindings, t);
    ContextsAreAsked(store.contexts, t);
    ScopesAreAsked(store.scopes, t);
  }

  ghost predicate AsksForRow(store: Store, key: Key, row: Row) {
    exists t :: Asks(store, t) && t.Offer? && t.key == key && t.row == row
  }

  lemma {:induction false} NewRowsAreOffered(db: Db, tasks: seq<Task>, dryRun: bool, key: Key)
    requires var end := Steps(FreshRun(db), tasks, dryRun); key in end.db && key !in db
    ensures exists t :: t in tasks && t.Offer? && t.key == key && t.row == Steps(FreshRun(db), tasks, dryRun).db[key]
  {
    if tasks != [] {
      hide Obstacle, WithPlanned;
      var n := |tasks| - 1;
      var before := Steps(FreshRun(db), tasks[..n], dryRun);
      assert tasks == tasks[..n] + [tasks[n]];
      if key in before.db && before.db[key] == Step(before, tasks[n], dryRun).db[key] {
        NewRowsAreOffered(db, tasks[..n], dryRun, key);
      } else {
        assert tasks[n] in tasks;
      }
    }
  }

  /** Every row an import adds is one that an entry of the store asks for. */
  lemma {:induction false} AddedRowsAreAsked(db: Db, store: Store, dryRun: bool, key: Key)
    requires var end := ImportOf(db, store, dryRun); key in end.db && key !in db
    ensures AsksForRow(store, key, ImportOf(db, store, dryRun).db[key])
  {
    hide Asks, StoreTasks, Steps;
    NewRowsAreOffered(db, StoreTasks(store), dryRun, key);
    var t :| t in StoreTasks(store) && t.Offer? && t.key == key && t.row == ImportOf(db, store, dryRun).db[key];
    TasksAreAsked(store, t);
  }
}

/** Records of the work plugin's store, and the columns of the rows they ask for: what the importer makes of a
    record, and what the board's setters accept. */
module Records {
  import opened Text

  // ---------------------------------------------------------------------------
  // JSON values, once decoded and sanitised
  // ---------------------------------------------------------------------------

  /** A number is one the importer can tell apart only when it is a natural one. */
  datatype Value =
    | Null
    | Bool(flag: bool)
    | Number(natural: Option<nat>)
    | Str(text: string)
    | List(items: seq<Value>)
    | Fields(fields: Record)

  type Record = map<string, Value>

  function FieldOf(record: Record, field: string): Value {
    if field in record then record[field] else Null
  }

  // ---------------------------------------------------------------------------
  // Text
  // ---------------------------------------------------------------------------

  predicate IsControl(c: char) {
    c as int < 0x20 || 0x7F <= c as int < 0xA0
  }

  /** Format characters and the line and paragraph separators. */
  predicate IsFormat(c: char) {
    var n := c as int;
    n == 0xAD || n == 0x061C || n == 0x180E || 0x200B <= n <= 0x200F || 0x2028 <= n <= 0x202E
    || 0x2060 <= n <= 0x206F || n == 0xFEFF || 0xFFF9 <= n <= 0xFFFB || 0xE0000 <= n <= 0xE007F
  }

  predicate TextOk(s: string) {
    s != "" && forall i :: 0 <= i < |s| ==> !IsControl(s[i])
  }

  function StripControl(s: string): (r: string)
    ensures forall i :: 0 <= i < |r| ==> !IsControl(r[i])
    ensures r != "" ==> TextOk(r)
  {
    if s == "" then ""
    else (if IsControl(s[0]) || IsFormat(s[0]) then "" else [s[0]]) + StripControl(s[1..])
  }

  lemma {:induction false} StripControlKeepsRest(s: string, c: char)
    ensures c in StripControl(s) <==> c in s && !IsControl(c) && !IsFormat(c)
  {
    hide IsControl, IsFormat;
    if s != "" {
      StripControlKeepsRest(s[1..], c);
      assert s == [s[0]] + s[1..];
    }
  }

  lemma {:induction false} StripControlShortens(s: string)
    ensures |StripControl(s)| <= |s|
  {
    hide IsControl, IsFormat;
    if s != "" {
      StripControlShortens(s[1..]);
    }
  }

  lemma {:induction false} StripControlOfClean(s: string)
    ensures StripControl(s) == s <==> forall i :: 0 <= i < |s| ==> !IsControl(s[i]) && !IsFormat(s[i])
  {
    hide IsControl, IsFormat;
    if s != "" {
      var rest := s[1..];
      StripControlOfClean(rest);
      StripControlShortens(rest);
      assert s == [s[0]] + rest;
      assert forall i :: 0 <= i < |rest| ==> rest[i] == s[i + 1];
      if !IsControl(s[0]) && !IsFormat(s[0]) {
        assert StripControl(s)[1..] == StripControl(rest);
      }
    }
  }

  /** Characters that must not reach a terminal, by their numbers. */
  predicate IsHiddenChar(n: int) {
    n <= 0x1F || 0x7F <= n <= 0x9F
    || n in [0xAD, 0x61C, 0x180E, 0xFEFF]
    || 0x200B <= n <= 0x200F || 0x2028 <= n <= 0x202E || 0x2060 <= n <= 0x206F || 0xFFF9 <= n <= 0xFFFB
    || 0xE0000 <= n <= 0xE007F
  }

  lemma {:induction false} HiddenIsDropped(c: char)
    ensures IsHiddenChar(c as int) <==> IsControl(c) || IsFormat(c)
  {
  }

  /** Exactly the hidden characters are dropped. */
  lemma {:induction false} StripControlDrops(s: string, c: char)
    ensures c in StripControl(s) <==> c in s && !IsHiddenChar(c as int)
    ensures StripControl(s) == s <==> forall i :: 0 <= i < |s| ==> !IsHiddenChar(s[i] as int)
    ensures |StripControl(s)| <= |s|
  {
    hide StripControl, IsHiddenChar, IsControl, IsFormat;
    StripControlKeepsRest(s, c);
    StripControlOfClean(s);
    StripControlShortens(s);
    HiddenIsDropped(c);
    forall i | 0 <= i < |s|
      ensures IsHiddenChar(s[i] as int) <==> IsControl(s[i]) || IsFormat(s[i])
    {
      HiddenIsDropped(s[i]);
    }
  }

  /** Text is dropped from piece by piece, so that nothing is reordered. */
  lemma {:induction false} StripControlAppend(s: string, t: string)
    ensures StripControl(s + t) == StripControl(s) + StripControl(t)
  {
    hide IsControl, IsFormat, TextOk;
    if s == "" {
      assert s + t == t;
    } else {
      var first := if IsControl(s[0]) || IsFormat(s[0]) then "" else [s[0]];
      StripControlAppend(s[1..], t);
      assert (s + t)[0] == s[0] && (s + t)[1..] == s[1..] + t;
      assert first + (StripControl(s[1..]) + StripControl(t)) == first + StripControl(s[1..]) + StripControl(t);
      hide StripControl;
    }
  }

  predicate IsAbsolute(path: string) {
    path != "" && path[0] == '/' && TextOk(path)
  }

  // ---------------------------------------------------------------------------
  // What the board accepts
  // ---------------------------------------------------------------------------

  datatype Mapping = Mapping(levels: map<string, string>, filter: Record)

  datatype SpaceColumns = SpaceColumns(project: string, displayName: Option<string>, teamIds: seq<string>, view: Option<Value>)

  datatype WorktreeColumns =
    WorktreeColumns(issue: string, state: string, branch: Option<string>, tab: Option<string>,
                    displayName: Option<string>, teamIds: seq<string>, view: Option<Value>, carried: Record)

  datatype ScopeColumns = ScopeColumns(team: string, teamKey: Option<string>)

  const LEVELS := ["space", "tab", "column", "row"]
  const FIELD_KINDS := ["team", "project", "milestone", "cycle", "assignee", "state", "priority", "parent"]
  const FILTER_KEYS := ["team", "project", "milestone", "cycle", "assignee", "state", "parent", "label", "state-type", "priority"]
  const STATE_TYPES := ["triage", "backlog", "unstarted", "started", "completed", "canceled"]
  const LABEL_GROUP := "label-group:"

  predicate IsLevelKind(kind: string) {
    kind in FIELD_KINDS || kind == "ticket" || kind == "sub-ticket"
    || (LABEL_GROUP <= kind && TextOk(kind[|LABEL_GROUP|..]))
  }

  predicate IsFilterItem(key: string, item: Value) {
    if key == "priority" then item.Number? && item.natural.Some? && item.natural.value <= 4
    else item.Str? && TextOk(item.text) && (key == "state-type" ==> item.text in STATE_TYPES)
  }

  predicate IsFilterValue(key: string, value: Value) {
    if value.List? then value.items != [] && forall i :: 0 <= i < |value.items| ==> IsFilterItem(key, value.items[i])
    else IsFilterItem(key, value)
  }

  predicate IsMapping(m: Mapping) {
    m.levels != map[] && m.filter != map[]
    && (forall level :: level in m.levels ==> level in LEVELS && IsLevelKind(m.levels[level]))
    && (forall a, b :: a in m.levels && b in m.levels && m.levels[a] == m.levels[b] ==> a == b)
    && (forall key :: key in m.filter ==> key in FILTER_KEYS && IsFilterValue(key, m.filter[key]))
  }

  predicate IsUuid(s: string) {
    |s| == 36 && forall i :: 0 <= i < 36 ==> if i in [8, 13, 18, 23] then s[i] == '-' else IsHexDigit(s[i])
  }

  predicate IsUpper(c: char) {
    'A' <= c <= 'Z'
  }

  /** A Linear issue key (`WEB-123`) or an issue UUID in its hyphenated form. */
  predicate IsIssue(s: string) {
    if |s| == 36 then IsUuid(s)
    else
      match SplitOnce(s, '-')
      case None => false
      case Some((team, number)) =>
        1 <= |team| <= 10 && IsUpper(team[0]) && (forall i :: 0 <= i < |team| ==> IsUpper(team[i]) || IsDigit(team[i]))
        && 1 <= |number| <= 9 && number[0] != '0' && AllDigits(number)
  }

  predicate IsId(s: string) {
    s != "" && forall i :: 0 <= i < |s| ==> IsDigit(s[i]) || 'a' <= s[i] <= 'z' || IsUpper(s[i]) || s[i] in "-_"
  }

  /** `project-<id>.team-<id>`, `team-<id>` or `project-<id>`; no id holds a dot. */
  predicate IsScopeKey(s: string) {
    if "project-" <= s then
      match SplitOnce(s[8..], '.')
      case None => IsId(s[8..])
      case Some((project, after)) => IsId(project) && "team-" <= after && IsId(after[5..])
    else "team-" <= s && IsId(s[5..])
  }

  predicate OptionalOk(s: Option<string>) {
    s.Some? ==> TextOk(s.value)
  }

  predicate TeamsOk(ids: seq<string>) {
    forall i :: 0 <= i < |ids| ==> TextOk(ids[i])
  }

  predicate AcceptsSpace(session: string, workspace: string, c: SpaceColumns) {
    TextOk(session) && TextOk(workspace) && TextOk(c.project) && OptionalOk(c.displayName) && TeamsOk(c.teamIds)
  }

  predicate AcceptsWorktree(path: string, c: WorktreeColumns) {
    IsAbsolute(path) && IsIssue(c.issue) && OptionalOk(c.branch) && OptionalOk(c.tab) && OptionalOk(c.displayName)
    && TeamsOk(c.teamIds)
  }

  predicate AcceptsScope(id: string, c: ScopeColumns) {
    TextOk(id) && TextOk(c.team) && OptionalOk(c.teamKey)
  }

  // ---------------------------------------------------------------------------
  // Reading a record
  // ---------------------------------------------------------------------------

  /** Why a record is not used. */
  datatype Fault =
    | Unread(why: string) | BadName | NoPath | OtherPath(path: string) | NotAbsolute | NoState | OtherState(state: string)
    | NotText(field: string) | Missing(field: string) | NotIssue(issue: string) | BadTeamId | TeamsNotListed | BadView
    | NotScopeKey | ReposNotListed | NotABoard | BadBoard

  type Checked<+T> = Result<T, Fault>

  /** What opening, trusting and decoding a file comes to: a version 1 record, or none. */
  datatype Read = Trusted(record: Record) | Untrusted(why: string)

  function Opened(read: Read): Checked<Record> {
    if read.Trusted? then Ok(read.record) else Error(Unread(read.why))
  }

  function ExpectPath(record: Record, expected: string): Checked<string> {
    match FieldOf(record, "worktree_path")
    case Str(path) => if path == expected then Ok(path) else Error(OtherPath(path))
    case _ => Error(NoPath)
  }

  function RequireState(record: Record, allowed: seq<string>): (r: Checked<string>)
    ensures r.Ok? ==> r.value in allowed
  {
    match FieldOf(record, "state")
    case Str(state) => if state in allowed then Ok(state) else Error(OtherState(state))
    case _ => Error(NoState)
  }

  /** An empty text is no value. */
  function OptionalText(record: Record, field: string): (r: Checked<Option<string>>)
    ensures r.Ok? ==> OptionalOk(r.value)
  {
    match FieldOf(record, field)
    case Null => Ok(None)
    case Str(text) => Ok(if StripControl(text) == "" then None else Some(StripControl(text)))
    case _ => Error(NotText(field))
  }

  function RequiredText(record: Record, field: string): (r: Checked<string>)
    ensures r.Ok? ==> TextOk(r.value)
  {
    var text :- OptionalText(record, field);
    if text.Some? then Ok(text.value) else Error(Missing(field))
  }

  function TeamIdsOf(items: seq<Value>): (r: Checked<seq<string>>)
    ensures r.Ok? ==> TeamsOk(r.value)
  {
    if items == [] then Ok([])
    else
      var before :- TeamIdsOf(items[..|items| - 1]);
      match items[|items| - 1]
      case Str(text) => if StripControl(text) == "" then Error(BadTeamId) else Ok(before + [StripControl(text)])
      case _ => Error(BadTeamId)
  }

  function TeamIds(record: Record): (r: Checked<seq<string>>)
    ensures r.Ok? ==> TeamsOk(r.value)
  {
    match FieldOf(record, "team_ids")
    case Null => Ok([])
    case List(items) => TeamIdsOf(items)
    case _ => Error(TeamsNotListed)
  }

  function ViewOf(record: Record): Checked<Option<Value>> {
    match FieldOf(record, "view")
    case Null => Ok(None)
    case Fields(fields) => Ok(Some(Fields(fields)))
    case _ => Error(BadView)
  }

  const RETIRING_FIELDS := ["proposal", "consent", "consent_proposal", "pending_consent", "pending_placement", "declined",
                            "pending_judgment"]
  const MAPPED_FIELDS := ["version", "worktree_path", "state", "issue_identifier", "updated_at", "branch_at_confirmation",
                          "tab", "display_name", "team_ids", "view"]

  predicate IsEmptyValue(v: Value) {
    match v
    case Null => true
    case Str(text) => text == ""
    case List(items) => items == []
    case Fields(fields) => fields == map[]
    case _ => false
  }

  function DroppedFrom(record: Record, fields: seq<string>): seq<string> {
    if fields == [] then []
    else (if IsEmptyValue(FieldOf(record, fields[0])) then [] else [fields[0]]) + DroppedFrom(record, fields[1..])
  }

  /** The retiring fields a record still uses. */
  function DroppedFields(record: Record): seq<string> {
    DroppedFrom(record, RETIRING_FIELDS)
  }

  function SpaceOf(session: string, workspace: string, record: Record): (r: Checked<SpaceColumns>)
    ensures r.Ok? ==> AcceptsSpace(session, workspace, r.value)
  {
    if !TextOk(session) || !TextOk(workspace) then Error(BadName)
    else
      var _ :- ExpectPath(record, "workspace:" + workspace);
      var _ :- RequireState(record, ["bound"]);
      var project :- RequiredText(record, "issue_identifier");
      var name :- OptionalText(record, "display_name");
      var teams :- TeamIds(record);
      var view :- ViewOf(record);
      Ok(SpaceColumns(project, name, teams, view))
  }

  function CarriedOf(record: Record): Record {
    map k | k in record && k !in MAPPED_FIELDS && k !in RETIRING_FIELDS && !record[k].Null? :: record[k]
  }

  datatype Binding = Binding(path: string, columns: WorktreeColumns)

  function WorktreeOf(record: Record): (r: Checked<Binding>)
    ensures r.Ok? ==> AcceptsWorktree(r.value.path, r.value.columns)
  {
    var path := FieldOf(record, "worktree_path");
    if !path.Str? || !IsAbsolute(path.text) then Error(NotAbsolute)
    else
      var state :- RequireState(record, ["bound", "misplaced", "stale"]);
      var issue :- RequiredText(record, "issue_identifier");
      if !IsIssue(issue) then Error(NotIssue(issue))
      else
        var branch :- OptionalText(record, "branch_at_confirmation");
        var tab :- OptionalText(record, "tab");
        var name :- OptionalText(record, "display_name");
        var teams :- TeamIds(record);
        var view :- ViewOf(record);
        Ok(Binding(path.text, WorktreeColumns(issue, state, branch, tab, name, teams, view, CarriedOf(record))))
  }

  /** What a binding that is not used is shown as: its worktree, if that is usable text. */
  function ShownPath(record: Record): Option<string> {
    match FieldOf(record, "worktree_path")
    case Str(path) => if TextOk(path) then Some(path) else None
    case _ => None
  }

  function ScopeOfSession(session: string, record: Record): (r: Checked<ScopeColumns>)
    requires TextOk(session)
    ensures r.Ok? ==> AcceptsScope(session, r.value)
  {
    var _ :- ExpectPath(record, "session:" + session);
    var _ :- RequireState(record, ["bound"]);
    var team :- RequiredText(record, "issue_identifier");
    var key :- OptionalText(record, "display_name");
    Ok(ScopeColumns(team, key))
  }

  function Texts(items: seq<Value>): Option<seq<string>> {
    if items == [] then Some([])
    else
      var before :- Texts(items[..|items| - 1]);
      match items[|items| - 1]
      case Str(text) => Some(before + [text])
      case _ => None
  }

  function ReposOf(scope: string, record: Record): (r: Checked<seq<string>>)
    ensures r.Ok? ==> IsScopeKey(scope)
  {
    if !IsScopeKey(scope) then Error(NotScopeKey)
    else
      match FieldOf(record, "repositories")
      case List(items) => if Texts(items).Some? then Ok(Texts(items).value) else Error(ReposNotListed)
      case _ => Error(ReposNotListed)
  }

  // ---------------------------------------------------------------------------
  // What a record says
  // ---------------------------------------------------------------------------

  /** A field that is absent or null says nothing. */
  predicate SaysNothing(record: Record, field: string) {
    field in record ==> record[field].Null?
  }

  /** What is left of a text without its control and format characters is what it says; if nothing is left, nothing. */
  predicate SaysText(record: Record, field: string, text: Option<string>) {
    if SaysNothing(record, field) then text.None?
    else record[field].Str? && text == (if StripControl(record[field].text) == "" then None else Some(StripControl(record[field].text)))
  }

  predicate SaysTeams(record: Record, ids: seq<string>) {
    if SaysNothing(record, "team_ids") then ids == []
    else
      record["team_ids"].List? && AreTeams(record["team_ids"].items, ids)
  }

  predicate AreTeams(items: seq<Value>, ids: seq<string>) {
    |items| == |ids| && forall i :: 0 <= i < |ids| ==> items[i].Str? && StripControl(items[i].text) == ids[i] && ids[i] != ""
  }

  predicate SaysView(record: Record, view: Option<Value>) {
    if SaysNothing(record, "view") then view.None? else record["view"].Fields? && view == Some(record["view"])
  }

  predicate SaysExactly(record: Record, field: string, text: string) {
    field in record && record[field] == Str(text)
  }

  /** The fields that are columns of their own. */
  function ColumnFields(): set<string> {
    {"worktree_path", "state", "issue_identifier", "branch_at_confirmation", "tab", "display_name", "team_ids", "view"}
  }

  predicate IsColumn(field: string) {
    field in ColumnFields()
  }

  /** The fields that are left behind: those the database keeps itself, and the retiring ones. */
  predicate IsPassedOver(field: string) {
    field in ["version", "updated_at", "proposal", "consent", "consent_proposal", "pending_consent", "pending_placement",
              "declined", "pending_judgment"]
  }

  predicate IsNamedField(field: string) {
    IsColumn(field) || IsPassedOver(field)
  }

  /** Every other field that says something is carried as it is. */
  ghost predicate SaysRest(record: Record, carried: Record) {
    forall field ::
      (field in carried <==> (field in record && !IsNamedField(field) && !record[field].Null?))
      && (field in carried ==> carried[field] == record[field])
  }

  ghost predicate SaysWorktree(record: Record, b: Binding) {
    SaysExactly(record, "worktree_path", b.path)
    && SaysExactly(record, "state", b.columns.state) && b.columns.state in ["bound", "misplaced", "stale"]
    && SaysText(record, "issue_identifier", Some(b.columns.issue))
    && SaysText(record, "branch_at_confirmation", b.columns.branch)
    && SaysText(record, "tab", b.columns.tab)
    && SaysText(record, "display_name", b.columns.displayName)
    && SaysTeams(record, b.columns.teamIds) && SaysView(record, b.columns.view) && SaysRest(record, b.columns.carried)
  }

  lemma {:induction false} TextIsSaid(record: Record, field: string, text: Option<string>)
    ensures OptionalText(record, field) == Ok(text) <==> SaysText(record, field, text)
    ensures text.Some? ==> (RequiredText(record, field) == Ok(text.value) <==> SaysText(record, field, text))
  {
    hide StripControl, TextOk;
  }

  lemma {:induction false} StateIsSaid(record: Record, allowed: seq<string>, state: string)
    ensures RequireState(record, allowed) == Ok(state) <==> SaysExactly(record, "state", state) && state in allowed
  {
  }

  lemma {:induction false} TeamsAreIds(items: seq<Value>, ids: seq<string>)
    ensures TeamIdsOf(items) == Ok(ids) <==> AreTeams(items, ids)
  {
    hide StripControl, TextOk;
    if items != [] {
      var n := |items| - 1;
      if TeamIdsOf(items) == Ok(ids) {
        TeamsAreIds(items[..n], ids[..|ids| - 1]);
        assert ids == ids[..|ids| - 1] + [ids[|ids| - 1]];
      }
      if AreTeams(items, ids) {
        TeamsAreIds(items[..n], ids[..n]);
        assert ids == ids[..n] + [ids[n]];
      }
    }
  }

  lemma {:induction false} TeamsAreSaid(record: Record, ids: seq<string>)
    ensures TeamIds(record) == Ok(ids) <==> SaysTeams(record, ids)
  {
    hide TeamIdsOf, AreTeams, TextOk;
    if "team_ids" in record && record["team_ids"].List? {
      TeamsAreIds(record["team_ids"].items, ids);
    }
  }

  lemma {:induction false} ViewIsSaid(record: Record, view: Option<Value>)
    ensures ViewOf(record) == Ok(view) <==> SaysView(record, view)
  {
  }

  lemma {:induction false} RestIsSaid(record: Record, carried: Record)
    ensures CarriedOf(record) == carried <==> SaysRest(record, carried)
  {
    assert forall field :: IsNamedField(field) <==> field in MAPPED_FIELDS || field in RETIRING_FIELDS;
    hide IsNamedField;
    if SaysRest(record, carried) {
      assert CarriedOf(record).Keys == carried.Keys;
    }
  }

  /** A record is read as a binding exactly if that is what its fields say, and the setter accepts it. */
  lemma {:induction false} WorktreeIsSaid(record: Record, b: Binding)
    ensures WorktreeOf(record) == Ok(b) <==> SaysWorktree(record, b) && AcceptsWorktree(b.path, b.columns)
  {
    hide OptionalText, RequiredText, RequireState, TeamIds, ViewOf, CarriedOf, SaysText, SaysTeams, SaysView, SaysRest,
         IsAbsolute, TextOk, IsIssue, OptionalOk, TeamsOk;
    var c := b.columns;
    StateIsSaid(record, ["bound", "misplaced", "stale"], c.state);
    TextIsSaid(record, "issue_identifier", Some(c.issue));
    TextIsSaid(record, "branch_at_confirmation", c.branch);
    TextIsSaid(record, "tab", c.tab);
    TextIsSaid(record, "display_name", c.displayName);
    TeamsAreSaid(record, c.teamIds);
    ViewIsSaid(record, c.view);
    RestIsSaid(record, c.carried);
  }

  ghost predicate SaysSpace(record: Record, workspace: string, c: SpaceColumns) {
    SaysExactly(record, "worktree_path", "workspace:" + workspace) && SaysExactly(record, "state", "bound")
    && SaysText(record, "issue_identifier", Some(c.project)) && SaysText(record, "display_name", c.displayName)
    && SaysTeams(record, c.teamIds) && SaysView(record, c.view)
  }

  lemma {:induction false} SpaceIsSaid(session: string, workspace: string, record: Record, c: SpaceColumns)
    ensures SpaceOf(session, workspace, record) == Ok(c)
       <==> SaysSpace(record, workspace, c) && AcceptsSpace(session, workspace, c)
  {
    hide OptionalText, RequiredText, RequireState, TeamIds, ViewOf, SaysText, SaysTeams, SaysView, TextOk, OptionalOk, TeamsOk;
    StateIsSaid(record, ["bound"], "bound");
    TextIsSaid(record, "issue_identifier", Some(c.project));
    TextIsSaid(record, "display_name", c.displayName);
    TeamsAreSaid(record, c.teamIds);
    ViewIsSaid(record, c.view);
  }

  predicate SaysScope(record: Record, session: string, c: ScopeColumns) {
    SaysExactly(record, "worktree_path", "session:" + session) && SaysExactly(record, "state", "bound")
    && SaysText(record, "issue_identifier", Some(c.team)) && SaysText(record, "display_name", c.teamKey)
  }

  lemma {:induction false} ScopeIsSaid(session: string, record: Record, c: ScopeColumns)
    requires TextOk(session)
    ensures ScopeOfSession(session, record) == Ok(c) <==> SaysScope(record, session, c) && AcceptsScope(session, c)
  {
    hide OptionalText, RequiredText, RequireState, SaysText, TextOk, OptionalOk;
    StateIsSaid(record, ["bound"], "bound");
    TextIsSaid(record, "issue_identifier", Some(c.team));
    TextIsSaid(record, "display_name", c.teamKey);
  }

  // Records written out

  function TextValue(text: Option<string>): Value {
    if text.None? then Null else Str(text.value)
  }

  function TeamsValue(ids: seq<string>): Value {
    List(seq(|ids|, i requires 0 <= i < |ids| => Str(ids[i])))
  }

  function WorktreeField(b: Binding, field: string): Value {
    if field == "worktree_path" then Str(b.path)
    else if field == "state" then Str(b.columns.state)
    else if field == "issue_identifier" then Str(b.columns.issue)
    else if field == "branch_at_confirmation" then TextValue(b.columns.branch)
    else if field == "tab" then TextValue(b.columns.tab)
    else if field == "display_name" then TextValue(b.columns.displayName)
    else if field == "team_ids" then TeamsValue(b.columns.teamIds)
    else if field == "view" then OrNull(b.columns.view)
    else if field in b.columns.carried then b.columns.carried[field]
    else Null
  }

  function OrNull(value: Option<Value>): Value {
    if value.None? then Null else value.value
  }

  /** A record that says a binding: each column under its own field, and what is carried. */
  function RecordOf(b: Binding): Record {
    map field | field in b.columns.carried.Keys + ColumnFields() :: WorktreeField(b, field)
  }

  /** Text that reading leaves as it is. */
  predicate IsClean(text: Option<string>) {
    text.Some? ==> text.value != "" && StripControl(text.value) == text.value
  }

  ghost predicate IsCleanBinding(b: Binding) {
    b.columns.state in ["bound", "misplaced", "stale"]
    && IsClean(Some(b.columns.issue)) && IsClean(b.columns.branch) && IsClean(b.columns.tab) && IsClean(b.columns.displayName)
    && (forall i :: 0 <= i < |b.columns.teamIds| ==> IsClean(Some(b.columns.teamIds[i])))
    && (b.columns.view.Some? ==> b.columns.view.value.Fields?)
    && (forall field :: field in b.columns.carried ==> !IsNamedField(field) && !b.columns.carried[field].Null?)
  }

  // A field that says a text, whatever else the record holds.
  lemma {:induction false} CleanTextIsSaid(record: Record, field: string, text: Option<string>)
    requires field in record && record[field] == TextValue(text) && IsClean(text)
    ensures SaysText(record, field, text)
  {
    hide StripControl;
  }

  lemma {:induction false} CleanTeamsAreSaid(record: Record, ids: seq<string>)
    requires "team_ids" in record && record["team_ids"] == TeamsValue(ids)
    requires forall i :: 0 <= i < |ids| ==> IsClean(Some(ids[i]))
    ensures SaysTeams(record, ids)
  {
    hide StripControl;
  }

  lemma {:induction false} ColumnIsKept(field: string)
    ensures IsColumn(field) ==> !IsPassedOver(field)
  {
  }

  // A field is written under its own name, and no field passed over changes it.
  lemma {:induction false} FieldIsWritten(b: Binding, others: Record, field: string)
    requires !IsPassedOver(field) && forall f :: f in others ==> IsPassedOver(f)
    ensures field in RecordOf(b) + others <==> field in b.columns.carried || IsColumn(field)
    ensures field in RecordOf(b) + others ==> (RecordOf(b) + others)[field] == WorktreeField(b, field)
  {
    hide WorktreeField, ColumnFields, IsPassedOver;
    assert field !in others;
  }

  // What is carried is under its own field, and no other field is added to it.
  lemma {:induction false} OtherIsWritten(b: Binding, others: Record, field: string)
    requires !IsNamedField(field) && forall f :: f in others ==> IsPassedOver(f)
    ensures field in RecordOf(b) + others <==> field in b.columns.carried
    ensures field in b.columns.carried ==> (RecordOf(b) + others)[field] == b.columns.carried[field]
  {
    hide IsPassedOver, RecordOf;
    FieldIsWritten(b, others, field);
  }

  lemma {:induction false} ColumnIsWritten(b: Binding, others: Record, field: string)
    requires IsColumn(field) && forall f :: f in others ==> IsPassedOver(f)
    ensures field in RecordOf(b) + others && (RecordOf(b) + others)[field] == WorktreeField(b, field)
  {
    ColumnIsKept(field);
    hide IsPassedOver, RecordOf, WorktreeField, IsColumn;
    FieldIsWritten(b, others, field);
  }

  lemma {:induction false} RestIsWritten(b: Binding, others: Record)
    requires IsCleanBinding(b)
    requires forall f :: f in others ==> IsPassedOver(f)
    ensures SaysRest(RecordOf(b) + others, b.columns.carried)
  {
    hide IsPassedOver, IsNamedField, IsClean, RecordOf;
    forall field | !IsNamedField(field)
      ensures field in RecordOf(b) + others <==> field in b.columns.carried
      ensures field in b.columns.carried ==> (RecordOf(b) + others)[field] == b.columns.carried[field]
    {
      OtherIsWritten(b, others, field);
    }
  }

  lemma {:induction false} WorktreeFields(b: Binding)
    ensures WorktreeField(b, "worktree_path") == Str(b.path) && WorktreeField(b, "state") == Str(b.columns.state)
    ensures WorktreeField(b, "issue_identifier") == Str(b.columns.issue)
    ensures WorktreeField(b, "branch_at_confirmation") == TextValue(b.columns.branch)
    ensures WorktreeField(b, "tab") == TextValue(b.columns.tab)
    ensures WorktreeField(b, "display_name") == TextValue(b.columns.displayName)
    ensures WorktreeField(b, "team_ids") == TeamsValue(b.columns.teamIds) && WorktreeField(b, "view") == OrNull(b.columns.view)
  {
  }

  lemma {:induction false} ColumnNames()
    ensures IsColumn("worktree_path") && IsColumn("state") && IsColumn("issue_identifier") && IsColumn("branch_at_confirmation")
    ensures IsColumn("tab") && IsColumn("display_name") && IsColumn("team_ids") && IsColumn("view")
  {
  }

  /** Every binding of clean text is written by its record. */
  lemma {:induction false} WorktreeIsWritten(b: Binding, others: Record)
    requires IsCleanBinding(b)
    requires forall field :: field in others ==> IsPassedOver(field)
    ensures SaysWorktree(RecordOf(b) + others, b)
  {
    hide IsClean, SaysText, SaysTeams, IsPassedOver, RecordOf, SaysRest, TeamsValue, WorktreeField, IsColumn;
    var record := RecordOf(b) + others;
    WorktreeFields(b);
    ColumnNames();
    ColumnIsWritten(b, others, "worktree_path");
    ColumnIsWritten(b, others, "state");
    ColumnIsWritten(b, others, "issue_identifier");
    ColumnIsWritten(b, others, "branch_at_confirmation");
    ColumnIsWritten(b, others, "tab");
    ColumnIsWritten(b, others, "display_name");
    ColumnIsWritten(b, others, "team_ids");
    ColumnIsWritten(b, others, "view");
    CleanTextIsSaid(record, "issue_identifier", Some(b.columns.issue));
    CleanTextIsSaid(record, "branch_at_confirmation", b.columns.branch);
    CleanTextIsSaid(record, "tab", b.columns.tab);
    CleanTextIsSaid(record, "display_name", b.columns.displayName);
    CleanTeamsAreSaid(record, b.columns.teamIds);
    RestIsWritten(b, others);
  }

  /** Reading the record of a binding the setter accepts gives it back, whatever the fields that are passed over hold. */
  lemma {:induction false} WorktreeRoundTrip(b: Binding, others: Record)
    requires AcceptsWorktree(b.path, b.columns) && IsCleanBinding(b)
    requires forall field :: field in others ==> IsPassedOver(field)
    ensures WorktreeOf(RecordOf(b) + others) == Ok(b)
  {
    hide *;
    WorktreeIsWritten(b, others);
    WorktreeIsSaid(RecordOf(b) + others, b);
  }

  function SpaceRecord(workspace: string, c: SpaceColumns): Record {
    map["worktree_path" := Str("workspace:" + workspace), "state" := Str("bound"), "issue_identifier" := Str(c.project),
        "display_name" := TextValue(c.displayName), "team_ids" := TeamsValue(c.teamIds), "view" := OrNull(c.view)]
  }

  /** Reading the record of a space the setter accepts gives it back, whatever else the record holds. */
  lemma {:induction false} SpaceRoundTrip(session: string, workspace: string, c: SpaceColumns, others: Record)
    requires AcceptsSpace(session, workspace, c)
    requires IsClean(Some(c.project)) && IsClean(c.displayName) && (forall i :: 0 <= i < |c.teamIds| ==> IsClean(Some(c.teamIds[i])))
    requires c.view.Some? ==> c.view.value.Fields?
    ensures SpaceOf(session, workspace, others + SpaceRecord(workspace, c)) == Ok(c)
  {
    hide AcceptsSpace, SpaceOf, IsClean, SaysText, SaysTeams, TeamsValue;
    var record := others + SpaceRecord(workspace, c);
    CleanTextIsSaid(record, "issue_identifier", Some(c.project));
    CleanTextIsSaid(record, "display_name", c.displayName);
    CleanTeamsAreSaid(record, c.teamIds);
    SpaceIsSaid(session, workspace, record, c);
  }

  function ScopeRecord(session: string, c: ScopeColumns): Record {
    map["worktree_path" := Str("session:" + session), "state" := Str("bound"), "issue_identifier" := Str(c.team),
        "display_name" := TextValue(c.teamKey)]
  }

  /** Reading the record of a session the setter accepts gives it back, whatever else the record holds. */
  lemma {:induction false} ScopeRoundTrip(session: string, c: ScopeColumns, others: Record)
    requires AcceptsScope(session, c) && IsClean(Some(c.team)) && IsClean(c.teamKey)
    ensures ScopeOfSession(session, others + ScopeRecord(session, c)) == Ok(c)
  {
    hide ScopeOfSession, IsClean, SaysText;
    var record := others + ScopeRecord(session, c);
    CleanTextIsSaid(record, "issue_identifier", Some(c.team));
    CleanTextIsSaid(record, "display_name", c.teamKey);
    ScopeIsSaid(session, record, c);
  }

  // ---------------------------------------------------------------------------
  // board.json
  // ---------------------------------------------------------------------------

  datatype SpaceMapping = SpaceMapping(space: string, mapping: Mapping)

  datatype BoardConfig = BoardConfig(globalMapping: Mapping, spaces: seq<SpaceMapping>)

  /** What reading and decoding board.json comes to; spaces in the order of the file. */
  datatype BoardRead = Board(config: BoardConfig) | NoBoard | BoardUnread(why: string)

  function CleanSpaces(spaces: seq<SpaceMapping>): (r: seq<SpaceMapping>)
    ensures |r| == |spaces|
  {
    seq(|spaces|, i requires 0 <= i < |spaces| => SpaceMapping(StripControl(spaces[i].space), spaces[i].mapping))
  }

  function SpaceNames(spaces: seq<SpaceMapping>): (r: seq<string>)
    ensures |r| == |spaces| && forall i :: 0 <= i < |r| ==> r[i] == spaces[i].space
  {
    seq(|spaces|, i requires 0 <= i < |spaces| => spaces[i].space)
  }

  predicate IsConfig(config: BoardConfig) {
    IsMapping(config.globalMapping) && AreDistinct(SpaceNames(config.spaces))
    && forall i :: 0 <= i < |config.spaces| ==> TextOk(config.spaces[i].space) && IsMapping(config.spaces[i].mapping)
  }

  function ConfigOf(read: BoardRead): (r: Checked<BoardConfig>)
    ensures r.Ok? ==> IsConfig(r.value)
  {
    match read
    case BoardUnread(why) => Error(Unread(why))
    case NoBoard => Error(NotABoard)
    case Board(config) =>
      var clean := BoardConfig(config.globalMapping, CleanSpaces(config.spaces));
      if IsConfig(clean) then Ok(clean) else Error(BadBoard)
  }

  // ---------------------------------------------------------------------------
  // Accepted texts and mappings, spelled out
  // ---------------------------------------------------------------------------

  /** Usable text is not empty and has no control character; a usable path is an absolute one. */
  lemma {:induction false} UsableText(s: string)
    ensures TextOk(s) <==> s != "" && forall i :: 0 <= i < |s| ==> 0x20 <= s[i] as int < 0x7F || 0xA0 <= s[i] as int
    ensures IsAbsolute(s) <==> "/" <= s && TextOk(s)
  {
  }

  predicate IsKeyChar(c: char) {
    0x41 <= c as int <= 0x5A || 0x30 <= c as int <= 0x39
  }

  ghost predicate IsIssueKey(s: string, team: string, number: string) {
    s == team + "-" + number
    && 1 <= |team| <= 10 && 0x41 <= team[0] as int <= 0x5A && (forall i :: 0 <= i < |team| ==> IsKeyChar(team[i]))
    && 1 <= |number| <= 9 && number[0] != '0' && forall i :: 0 <= i < |number| ==> 0x30 <= number[i] as int <= 0x39
  }

  predicate AreHex(s: string) {
    forall i :: 0 <= i < |s| ==> 0x30 <= s[i] as int <= 0x39 || 0x41 <= s[i] as int <= 0x46 || 0x61 <= s[i] as int <= 0x66
  }

  ghost predicate IsIssueUuid(s: string, a: string, b: string, c: string, d: string, e: string) {
    s == a + "-" + b + "-" + c + "-" + d + "-" + e && |a| == 8 && |b| == 4 && |c| == 4 && |d| == 4 && |e| == 12
    && AreHex(a) && AreHex(b) && AreHex(c) && AreHex(d) && AreHex(e)
  }

  /** An issue is named by a team of one to ten capitals and digits, the first a capital, and a number of one to nine
      digits without leading zero; or by five groups of hexadecimal digits. */
  lemma {:induction false} IssueIsSpelled(s: string)
    ensures IsIssue(s) <==> (exists team, number :: IsIssueKey(s, team, number))
                            || exists a, b, c, d, e :: IsIssueUuid(s, a, b, c, d, e)
  {
    KeyIsSpelled(s);
    UuidIsSpelled(s);
    hide IsUuid, IsIssueKey, IsIssueUuid;
  }

  lemma {:induction false} KeyIsSpelled(s: string)
    ensures |s| != 36 ==> (IsIssue(s) <==> exists team, number :: IsIssueKey(s, team, number))
    ensures |s| == 36 ==> !exists team, number :: IsIssueKey(s, team, number)
  {
    if |s| != 36 && IsIssue(s) {
      SplitOnceShrinks(s, '-');
      var (team, number) := SplitOnce(s, '-').value;
      assert s == team + "-" + number;
      assert IsIssueKey(s, team, number);
    }
    if exists team, number :: IsIssueKey(s, team, number) {
      var team, number :| IsIssueKey(s, team, number);
      assert s == team + ['-'] + number;
      SplitOnceAt(team, '-', number);
    }
  }

  lemma {:induction false} UuidIsSpelled(s: string)
    ensures |s| == 36 && IsUuid(s) <==> exists a, b, c, d, e :: IsIssueUuid(s, a, b, c, d, e)
  {
    if |s| == 36 && IsUuid(s) {
      UuidGroups(s);
    }
    hide IsUuid;
    forall a, b, c, d, e | IsIssueUuid(s, a, b, c, d, e)
      ensures |s| == 36 && IsUuid(s)
    {
      GroupsAreUuid(s, a, b, c, d, e);
    }
  }

  lemma {:induction false} UuidGroups(s: string)
    requires IsUuid(s)
    ensures IsIssueUuid(s, s[..8], s[9..13], s[14..18], s[19..23], s[24..])
  {
  }

  lemma {:induction false} GroupsAreUuid(s: string, a: string, b: string, c: string, d: string, e: string)
    requires IsIssueUuid(s, a, b, c, d, e)
    ensures IsUuid(s)
  {
  }

  predicate IsIdText(s: string) {
    s != ""
    && forall i :: 0 <= i < |s| ==>
         0x30 <= s[i] as int <= 0x39 || 0x41 <= s[i] as int <= 0x5A || 0x61 <= s[i] as int <= 0x7A || s[i] == '-' || s[i] == '_'
  }

  lemma {:induction false} IdIsSpelled(s: string)
    ensures IsId(s) <==> IsIdText(s)
    ensures IsId(s) ==> '.' !in s
  {
  }

  predicate IsProjectTeam(s: string, project: string, team: string) {
    s == "project-" + project + ".team-" + team && IsIdText(project) && IsIdText(team)
  }

  /** A scope is named by a project, a team, or a project and a team. */
  lemma {:induction false} ScopeKeyIsSpelled(s: string)
    ensures IsScopeKey(s) <==> ("team-" <= s && IsIdText(s[5..])) || ("project-" <= s && IsIdText(s[8..]))
                               || exists project, team :: IsProjectTeam(s, project, team)
  {
    hide IsId, IsIdText, SplitOnce, IsProjectTeam;
    if "project-" <= s {
      ProjectKeyIsSpelled(s, s[8..]);
      assert s == "project-" + s[8..];
      assert s[0] == 'p' && "team-"[0] != s[0];
    } else if "team-" <= s {
      IdIsSpelled(s[5..]);
    }
    forall project, team | IsProjectTeam(s, project, team)
      ensures IsScopeKey(s)
    {
      ProjectTeamIsKey(s, project, team);
    }
  }

  lemma {:induction false} ProjectKeyIsSpelled(s: string, rest: string)
    requires s == "project-" + rest
    ensures IsScopeKey(s) ==> IsIdText(rest) || exists project, team :: IsProjectTeam(s, project, team)
    ensures IsIdText(rest) ==> IsScopeKey(s)
  {
    hide IsId, IsIdText, SplitOnce;
    assert s[8..] == rest;
    IdIsSpelled(rest);
    if SplitOnce(rest, '.').Some? {
      SplitOnceShrinks(rest, '.');
      var (project, after) := SplitOnce(rest, '.').value;
      assert rest[|project|] == '.';
      IdIsSpelled(project);
      if "team-" <= after {
        var team := after[5..];
        IdIsSpelled(team);
        assert s == "project-" + project + ".team-" + team;
        assert IsScopeKey(s) ==> IsProjectTeam(s, project, team);
      }
    }
  }

  lemma {:induction false} ProjectTeamIsKey(s: string, project: string, team: string)
    requires IsProjectTeam(s, project, team)
    ensures IsScopeKey(s)
  {
    hide IsIdText, IsId, SplitOnce;
    IdIsSpelled(project);
    IdIsSpelled(team);
    assert s[8..] == project + ['.'] + ("team-" + team);
    SplitOnceAt(project, '.', "team-" + team);
    assert ("team-" + team)[5..] == team;
  }

  predicate IsKind(kind: string) {
    kind in ["team", "project", "milestone", "cycle", "assignee", "state", "priority", "parent", "ticket", "sub-ticket"]
    || ("label-group:" <= kind && TextOk(kind[12..]))
  }

  predicate IsSelected(key: string, item: Value) {
    if key == "priority" then item.Number? && item.natural in {Some(0), Some(1), Some(2), Some(3), Some(4)}
    else if key == "state-type" then
      item in {Str("triage"), Str("backlog"), Str("unstarted"), Str("started"), Str("completed"), Str("canceled")}
    else
      key in ["team", "project", "milestone", "cycle", "assignee", "state", "parent", "label"] && item.Str? && TextOk(item.text)
  }

  predicate IsSelection(key: string, value: Value) {
    if value.List? then value.items != [] && forall i :: 0 <= i < |value.items| ==> IsSelected(key, value.items[i])
    else IsSelected(key, value)
  }

  /** A mapping gives one or more of four levels different kinds each, and selects by one or more of ten keys, each with
      a value of its own kind or a list of those that is not empty. */
  lemma {:induction false} MappingIsSpelled(m: Mapping)
    ensures IsMapping(m)
       <==> m.levels != map[] && m.filter != map[]
            && (forall level :: level in m.levels ==> level in ["space", "tab", "column", "row"] && IsKind(m.levels[level]))
            && (forall a, b :: a in m.levels && b in m.levels && a != b ==> m.levels[a] != m.levels[b])
            && forall key :: key in m.filter ==> IsSelection(key, m.filter[key])
  {
    forall level | level in m.levels
      ensures level in LEVELS && IsLevelKind(m.levels[level]) <==> level in ["space", "tab", "column", "row"] && IsKind(m.levels[level])
    {
      KindIsSpelled(m.levels[level]);
    }
    forall key | key in m.filter
      ensures key in FILTER_KEYS && IsFilterValue(key, m.filter[key]) <==> IsSelection(key, m.filter[key])
    {
      ValueIsSpelled(key, m.filter[key]);
    }
    hide IsLevelKind, IsKind, IsFilterValue, IsSelection;
  }

  lemma {:induction false} ValueIsSpelled(key: string, value: Value)
    ensures key in FILTER_KEYS && IsFilterValue(key, value) <==> IsSelection(key, value)
  {
    hide IsSelected, IsFilterItem;
    if value.List? {
      forall i | 0 <= i < |value.items|
        ensures key in FILTER_KEYS && IsFilterItem(key, value.items[i]) <==> IsSelected(key, value.items[i])
      {
        SelectionIsSpelled(key, value.items[i]);
      }
      assert value.items != [] ==> value.items[0] == value.items[0];
    } else {
      SelectionIsSpelled(key, value);
    }
  }

  lemma {:induction false} KindIsSpelled(kind: string)
    ensures IsLevelKind(kind) <==> IsKind(kind)
  {
    hide TextOk;
  }

  lemma {:induction false} SelectionIsSpelled(key: string, item: Value)
    ensures key in FILTER_KEYS && IsFilterItem(key, item) <==> IsSelected(key, item)
  {
  }

  /** A retiring field a record still uses. */
  predicate IsUsed(record: Record, field: string) {
    field in record && record[field] !in {Null, Str(""), List([]), Fields(map[])}
  }

  function Used(record: Record, field: string): seq<string> {
    if IsUsed(record, field) then [field] else []
  }

  lemma {:induction false} DropFirst(record: Record, field: string, rest: seq<string>)
    ensures DroppedFrom(record, [field] + rest) == Used(record, field) + DroppedFrom(record, rest)
  {
    assert ([field] + rest)[1..] == rest;
  }

  lemma {:induction false} DropLast(record: Record)
    ensures DroppedFrom(record, ["pending_placement", "declined", "pending_judgment"])
         == Used(record, "pending_placement") + (Used(record, "declined") + Used(record, "pending_judgment"))
  {
    DropFirst(record, "pending_placement", ["declined", "pending_judgment"]);
    DropFirst(record, "declined", ["pending_judgment"]);
    DropFirst(record, "pending_judgment", []);
    assert Used(record, "pending_judgment") + DroppedFrom(record, []) == Used(record, "pending_judgment");
    hide Used, DroppedFrom;
    assert ["pending_placement"] + ["declined", "pending_judgment"] == ["pending_placement", "declined", "pending_judgment"];
    assert ["declined"] + ["pending_judgment"] == ["declined", "pending_judgment"];
    assert ["pending_judgment"] + [] == ["pending_judgment"];
  }

  /** The retiring fields still used are listed, in this order. */
  lemma {:induction false} DroppedAreListed(record: Record)
    ensures DroppedFields(record)
         == Used(record, "proposal")
            + (Used(record, "consent")
               + (Used(record, "consent_proposal")
                  + (Used(record, "pending_consent")
                     + (Used(record, "pending_placement") + (Used(record, "declined") + Used(record, "pending_judgment"))))))
  {
    hide Used, DroppedFrom;
    DropLast(record);
    var last3 := ["pending_placement", "declined", "pending_judgment"];
    var last4 := ["pending_consent"] + last3;
    var last5 := ["consent_proposal"] + last4;
    var last6 := ["consent"] + last5;
    DropFirst(record, "pending_consent", last3);
    DropFirst(record, "consent_proposal", last4);
    DropFirst(record, "consent", last5);
    DropFirst(record, "proposal", last6);
    assert RETIRING_FIELDS == ["proposal"] + last6;
  }

  lemma {:induction false} TextsAreAll(items: seq<Value>, texts: seq<string>)
    ensures Texts(items) == Some(texts)
       <==> |items| == |texts| && forall i :: 0 <= i < |texts| ==> items[i] == Str(texts[i])
  {
    if items != [] {
      var n := |items| - 1;
      if Texts(items) == Some(texts) {
        TextsAreAll(items[..n], texts[..|texts| - 1]);
        assert texts == texts[..|texts| - 1] + [texts[|texts| - 1]];
      }
      if |items| == |texts| && forall i :: 0 <= i < |texts| ==> items[i] == Str(texts[i]) {
        TextsAreAll(items[..n], texts[..n]);
        assert texts == texts[..n] + [texts[n]];
      }
    }
  }

  /** A scope's record gives its repositories as they are listed. */
  lemma {:induction false} ReposAreListed(scope: string, record: Record, repos: seq<string>)
    ensures ReposOf(scope, record) == Ok(repos)
       <==> IsScopeKey(scope) && "repositories" in record && record["repositories"].List?
            && |record["repositories"].items| == |repos|
            && forall i :: 0 <= i < |repos| ==> record["repositories"].items[i] == Str(repos[i])
  {
    hide Texts, IsScopeKey;
    if "repositories" in record && record["repositories"].List? {
      TextsAreAll(record["repositories"].items, repos);
    }
  }

  /** A board config is taken as it is read, but for what is hidden in the names of its spaces: exactly if every mapping is
      one, and the names left are usable and different. */
  lemma {:induction false} ConfigIsTaken(config: BoardConfig, taken: BoardConfig)
    ensures ConfigOf(Board(config)) == Ok(taken)
       <==> taken.globalMapping == config.globalMapping && |taken.spaces| == |config.spaces|
            && (forall i :: 0 <= i < |taken.spaces| ==>
                  taken.spaces[i] == SpaceMapping(StripControl(config.spaces[i].space), config.spaces[i].mapping))
            && IsMapping(taken.globalMapping)
            && (forall i :: 0 <= i < |taken.spaces| ==> TextOk(taken.spaces[i].space) && IsMapping(taken.spaces[i].mapping))
            && forall i, j :: 0 <= i < j < |taken.spaces| ==> taken.spaces[i].space != taken.spaces[j].space
  {
    hide IsMapping, TextOk, StripControl;
    var names := SpaceNames(taken.spaces);
    assert |taken.spaces| == |config.spaces|
           && (forall i :: 0 <= i < |taken.spaces| ==>
                 taken.spaces[i] == SpaceMapping(StripControl(config.spaces[i].space), config.spaces[i].mapping))
      <==> taken.spaces == CleanSpaces(config.spaces);
    assert (forall i, j :: 0 <= i < j < |taken.spaces| ==> taken.spaces[i].space != taken.spaces[j].space)
      <==> forall i, j :: 0 <= i < j < |names| ==> names[i] != names[j];
  }

  predicate IsUsable(text: Option<string>) {
    text == None || TextOk(text.value)
  }

  /** The setters take a row exactly if all its texts are usable, a worktree's path absolute, and its issue one. */
  lemma {:induction false} SettersAreSpelled(key: string, other: string, space: SpaceColumns, worktree: WorktreeColumns, scope: ScopeColumns)
    ensures AcceptsSpace(key, other, space)
       <==> (forall s :: s in [key, other, space.project] + space.teamIds ==> TextOk(s)) && IsUsable(space.displayName)
    ensures AcceptsWorktree(key, worktree)
       <==> IsAbsolute(key) && IsIssue(worktree.issue) && (forall s :: s in worktree.teamIds ==> TextOk(s))
            && IsUsable(worktree.branch) && IsUsable(worktree.tab) && IsUsable(worktree.displayName)
    ensures AcceptsScope(key, scope) <==> TextOk(key) && TextOk(scope.team) && IsUsable(scope.teamKey)
  {
    hide TextOk, IsAbsolute, IsIssue;
    var texts := [key, other, space.project] + space.teamIds;
    assert texts[0] == key && texts[1] == other && texts[2] == space.project;
    assert forall i :: 0 <= i < |space.teamIds| ==> texts[3 + i] == space.teamIds[i];
  }
}

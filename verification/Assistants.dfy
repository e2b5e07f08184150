/**
 The assistant service (crates/chisl-assistant/src/service.rs): three sources merged in a list
 and looked up one at a time, user rows, per-assistant overrides, and bulk import.

 The repositories (crates/chisl-db/src/repository/sqlite_assistant.rs) are tables: user rows in
 listing order, most recently updated first, and overrides by assistant id.
 */
module Assistants {
  import opened RuleFiles
  import opened Wrappers

  datatype Source = Builtin | User | Extension

  /** The optional columns of an assistant; JSON columns hold their decoded value's text. */
  datatype Field =
    | Description | Avatar | EnabledSkills | CustomSkillNames | DisabledBuiltinSkills
    | Prompts | Models | NameI18n | DescriptionI18n | PromptsI18n

  type Fields = map<Field, string>

  datatype BuiltinAssistant = BuiltinAssistant(id: string, name: string, preset: string, fields: Fields)
  datatype ExtensionAssistant = ExtensionAssistant(
    id: string, name: string, description: Option<string>, icon: Option<string>, context: Option<string>)
  datatype Row = Row(id: string, name: string, preset: string, fields: Fields)
  datatype Override = Override(enabled: bool, sortOrder: int, lastUsedAt: Option<int>, preset: Option<string>)

  datatype Response = Response(
    id: string, source: Source, name: string, enabled: bool, sortOrder: int, preset: string,
    fields: Fields, context: Option<string>, lastUsedAt: Option<int>)

  datatype CreateRequest = CreateRequest(id: Option<string>, name: string, preset: Option<string>, fields: Fields)
  datatype UpdateRequest = UpdateRequest(name: Option<string>, preset: Option<string>, fields: Fields)
  datatype StateRequest = StateRequest(enabled: Option<bool>, sortOrder: Option<int>, lastUsedAt: Option<int>)

  datatype AppError = BadRequest | Forbidden | NotFound | Conflict | Internal

  const DEFAULT_AGENT_TYPE := "aionrs"

  /** What the service is given: built-ins, extension assistants, and the providers' enabled flags. */
  datatype World = World(
    builtins: seq<BuiltinAssistant>, extensions: seq<ExtensionAssistant>, providers: Result<seq<bool>, AppError>)

  datatype Store = Store(rows: seq<Row>, overrides: map<string, Override>)

  // ------------------------------------------------------------------
  // Lookups
  // ------------------------------------------------------------------

  function FindBuiltin(builtins: seq<BuiltinAssistant>, id: string): (r: Option<BuiltinAssistant>)
    ensures r.Some? ==> r.value in builtins && r.value.id == id
    ensures r.None? ==> forall b | b in builtins :: b.id != id
  {
    if builtins == [] then None
    else if builtins[0].id == id then Some(builtins[0]) else FindBuiltin(builtins[1..], id)
  }

  function FindExtension(extensions: seq<ExtensionAssistant>, id: string): (r: Option<ExtensionAssistant>)
    ensures r.Some? ==> r.value in extensions && r.value.id == id
    ensures r.None? ==> forall e | e in extensions :: e.id != id
  {
    if extensions == [] then None
    else if extensions[0].id == id then Some(extensions[0]) else FindExtension(extensions[1..], id)
  }

  function FindRow(rows: seq<Row>, id: string): (r: Option<Row>)
    ensures r.Some? ==> r.value in rows && r.value.id == id
    ensures r.None? ==> forall row | row in rows :: row.id != id
  {
    if rows == [] then None else if rows[0].id == id then Some(rows[0]) else FindRow(rows[1..], id)
  }

  function FindOverride(overrides: map<string, Override>, id: string): Option<Override> {
    if id in overrides then Some(overrides[id]) else None
  }

  function ClassifySource(w: World, id: string): Source {
    if FindBuiltin(w.builtins, id).Some? then Builtin
    else if FindExtension(w.extensions, id).Some? then Extension
    else User
  }

  // ------------------------------------------------------------------
  // Responses
  // ------------------------------------------------------------------

  function EnabledOf(ov: Option<Override>): bool { if ov.Some? then ov.value.enabled else true }

  function SortOrderOf(ov: Option<Override>): int { if ov.Some? then ov.value.sortOrder else 0 }

  function LastUsedOf(ov: Option<Override>): Option<int> { if ov.Some? then ov.value.lastUsedAt else None }

  function PresetOf(ov: Option<Override>): Option<string> { if ov.Some? then ov.value.preset else None }

  function BuiltinResponse(b: BuiltinAssistant, ov: Option<Override>): Response {
    Response(b.id, Builtin, b.name, EnabledOf(ov), SortOrderOf(ov), PresetOf(ov).GetOr(b.preset),
             b.fields, None, LastUsedOf(ov))
  }

  function RowResponse(row: Row, ov: Option<Override>): Response {
    Response(row.id, User, row.name, EnabledOf(ov), SortOrderOf(ov), row.preset, row.fields, None, LastUsedOf(ov))
  }

  /** Of the optional columns an extension has only a description and, for the avatar, an icon. */
  function ExtensionFields(e: ExtensionAssistant): Fields {
    (if e.description.Some? then map[Description := e.description.value] else map[])
    + (if e.icon.Some? then map[Avatar := e.icon.value] else map[])
  }

  function ExtensionResponse(e: ExtensionAssistant): Response {
    Response(e.id, Extension, e.name, true, 0, DEFAULT_AGENT_TYPE, ExtensionFields(e), e.context, None)
  }

  function GetResponse(w: World, st: Store, id: string): Result<Response, AppError> {
    match ClassifySource(w, id)
    case Builtin => Success(BuiltinResponse(FindBuiltin(w.builtins, id).value, FindOverride(st.overrides, id)))
    case Extension => Success(ExtensionResponse(FindExtension(w.extensions, id).value))
    case User =>
      match FindRow(st.rows, id)
      case None => Failure(NotFound)
      case Some(row) => Success(RowResponse(row, FindOverride(st.overrides, id)))
  }

  // ------------------------------------------------------------------
  // The merged list
  // ------------------------------------------------------------------

  /** None is older than every time. */
  predicate AtLeastAsRecent(a: Option<int>, b: Option<int>) {
    b.None? || (a.Some? && a.value >= b.value)
  }

  /** sort_order ascending, then newest use first. */
  predicate Precedes(a: Response, b: Response) {
    a.sortOrder < b.sortOrder || (a.sortOrder == b.sortOrder && AtLeastAsRecent(a.lastUsedAt, b.lastUsedAt))
  }

  /** Puts r behind everything that precedes it, so equals keep their order. */
  function InsertSorted(sorted: seq<Response>, r: Response): seq<Response> {
    if sorted == [] then [r]
    else if Precedes(sorted[|sorted| - 1], r) then sorted + [r]
    else InsertSorted(sorted[..|sorted| - 1], r) + [sorted[|sorted| - 1]]
  }

  function Sort(rs: seq<Response>): seq<Response> {
    if rs == [] then [] else InsertSorted(Sort(rs[..|rs| - 1]), rs[|rs| - 1])
  }

  function BuiltinResponses(builtins: seq<BuiltinAssistant>, overrides: map<string, Override>): seq<Response> {
    seq(|builtins|,
        i requires 0 <= i < |builtins| => BuiltinResponse(builtins[i], FindOverride(overrides, builtins[i].id)))
  }

  function RowResponses(rows: seq<Row>, overrides: map<string, Override>): seq<Response> {
    seq(|rows|, i requires 0 <= i < |rows| => RowResponse(rows[i], FindOverride(overrides, rows[i].id)))
  }

  function ExtensionResponses(extensions: seq<ExtensionAssistant>): seq<Response> {
    seq(|extensions|, i requires 0 <= i < |extensions| => ExtensionResponse(extensions[i]))
  }

  function Merged(w: World, st: Store): seq<Response> {
    BuiltinResponses(w.builtins, st.overrides) + RowResponses(st.rows, st.overrides) + ExtensionResponses(w.extensions)
  }

  function Listed(w: World, st: Store): seq<Response> {
    Sort(Merged(w, st))
  }

  /** The overrides left by the list's orphan cleanup. */
  function WithoutOrphans(w: World, st: Store): map<string, Override> {
    map id | id in st.overrides && (exists r | r in Listed(w, st) :: r.id == id) :: st.overrides[id]
  }

  // ------------------------------------------------------------------
  // Create, update, delete, set_state
  // ------------------------------------------------------------------

  predicate IsWhitespace(c: char) {
    var n := c as int;
    0x09 <= n <= 0x0D || n == 0x20 || n == 0x85 || n == 0xA0 || n == 0x1680 || 0x2000 <= n <= 0x200A
    || n == 0x2028 || n == 0x2029 || n == 0x202F || n == 0x205F || n == 0x3000
  }

  function Trim(s: string): (r: string)
    ensures r == "" <==> forall c | c in s :: IsWhitespace(c)
  {
    if s == "" then ""
    else if IsWhitespace(s[0]) then Trim(s[1..])
    else TrimEnd(s)
  }

  function TrimEnd(s: string): (r: string)
    ensures r == "" <==> forall c | c in s :: IsWhitespace(c)
  {
    if s == "" then ""
    else if IsWhitespace(s[|s| - 1]) then TrimEnd(s[..|s| - 1])
    else s
  }

  function ResolveDefaultAgentType(w: World): Result<string, AppError> {
    match w.providers
    case Failure(_) => Failure(Internal)
    case Success(flags) => if true in flags then Success("aionrs") else Failure(BadRequest)
  }

  function AgentType(w: World, preset: Option<string>): Result<string, AppError> {
    if preset.Some? && preset.value != "" then Success(preset.value) else ResolveDefaultAgentType(w)
  }

  function IdOf(id: Option<string>, generated: string): string {
    if id.Some? && id.value != "" then id.value else generated
  }

  function CreateError(w: World, st: Store, req: CreateRequest, generated: string): Option<AppError> {
    var id := IdOf(req.id, generated);
    if Trim(req.name) == "" then Some(BadRequest)
    else if ClassifySource(w, id) != User then Some(BadRequest)
    else if AgentType(w, req.preset).Failure? then Some(AgentType(w, req.preset).error)
    else if FindRow(st.rows, id).Some? then Some(Conflict)
    else None
  }

  function NewRow(w: World, req: CreateRequest, generated: string): Row
    requires AgentType(w, req.preset).Success?
  {
    Row(IdOf(req.id, generated), Trim(req.name), AgentType(w, req.preset).value, req.fields)
  }

  function Created(w: World, st: Store, req: CreateRequest, generated: string): Store {
    if CreateError(w, st, req, generated).Some? then st
    else st.(rows := [NewRow(w, req, generated)] + st.rows)
  }

  function WithoutRow(rows: seq<Row>, id: string): seq<Row> {
    if rows == [] then [] else (if rows[0].id == id then [] else [rows[0]]) + WithoutRow(rows[1..], id)
  }

  function MergedRow(row: Row, req: UpdateRequest): Row {
    Row(row.id, req.name.GetOr(row.name), req.preset.GetOr(row.preset), row.fields + req.fields)
  }

  /** A write that leaves the preset as it is when none is given, and never clears the last use. */
  function Upserted(overrides: map<string, Override>, id: string, enabled: bool, sortOrder: int,
                    lastUsedAt: Option<int>, preset: Option<string>): map<string, Override> {
    var existing := FindOverride(overrides, id);
    overrides[id := Override(enabled, sortOrder, lastUsedAt.Or(LastUsedOf(existing)), preset.Or(PresetOf(existing)))]
  }

  function UpdateError(w: World, st: Store, id: string, req: UpdateRequest): Option<AppError> {
    match ClassifySource(w, id)
    case Builtin =>
      if req.name.Some? || req.fields != map[] then Some(Forbidden)
      else if req.preset.None? then Some(BadRequest) else None
    case Extension => Some(Forbidden)
    case User => if FindRow(st.rows, id).None? then Some(NotFound) else None
  }

  function Updated(w: World, st: Store, id: string, req: UpdateRequest): Store {
    if UpdateError(w, st, id, req).Some? then st
    else if ClassifySource(w, id) == Builtin then
      var ov := FindOverride(st.overrides, id);
      st.(overrides := Upserted(st.overrides, id, EnabledOf(ov), SortOrderOf(ov), LastUsedOf(ov), req.preset))
    else
      st.(rows := [MergedRow(FindRow(st.rows, id).value, req)] + WithoutRow(st.rows, id))
  }

  function DeleteError(w: World, st: Store, id: string): Option<AppError> {
    if ClassifySource(w, id) != User then Some(Forbidden)
    else if FindRow(st.rows, id).None? then Some(NotFound)
    else None
  }

  function Deleted(w: World, st: Store, id: string): Store {
    if DeleteError(w, st, id).Some? then st else Store(WithoutRow(st.rows, id), st.overrides - {id})
  }

  function SetStateError(w: World, st: Store, id: string): Option<AppError> {
    match ClassifySource(w, id)
    case Extension => Some(BadRequest)
    case Builtin => None
    case User => if FindRow(st.rows, id).None? then Some(NotFound) else None
  }

  function StateSet(w: World, st: Store, id: string, req: StateRequest): Store {
    if SetStateError(w, st, id).Some? then st else
    var ov := FindOverride(st.overrides, id);
    st.(overrides := Upserted(st.overrides, id, req.enabled.GetOr(EnabledOf(ov)), req.sortOrder.GetOr(SortOrderOf(ov)),
                              req.lastUsedAt.Or(LastUsedOf(ov)), None))
  }

  // ------------------------------------------------------------------
  // Import
  // ------------------------------------------------------------------

  /** What the repository does to one entry, besides its normal work. */
  datatype Fault = NoFault | GetFails | CreateConflicts | CreateFails

  datatype ImportError = ImportError(id: string, error: AppError)
  datatype ImportResult = ImportResult(imported: nat, skipped: nat, failed: nat, errors: seq<ImportError>)

  datatype Outcome = Imported | Skipped | Failed(error: AppError)

  function ImportOutcome(w: World, rows: seq<Row>, entry: CreateRequest, generated: string, fault: Fault): Outcome {
    var id := IdOf(entry.id, generated);
    if ClassifySource(w, id) != User then Skipped
    else if fault == GetFails then Failed(Internal)
    else if FindRow(rows, id).Some? then Skipped
    else if Trim(entry.name) == "" then Failed(BadRequest)
    else if AgentType(w, entry.preset).Failure? then Failed(AgentType(w, entry.preset).error)
    else match fault
      case CreateConflicts => Skipped
      case CreateFails => Failed(Internal)
      case _ => Imported
  }

  function Tally(r: ImportResult, id: string, outcome: Outcome): ImportResult {
    match outcome
    case Imported => r.(imported := r.imported + 1)
    case Skipped => r.(skipped := r.skipped + 1)
    case Failed(error) => r.(failed := r.failed + 1, errors := r.errors + [ImportError(id, error)])
  }

  /** One entry with the id generated for it and what befalls it. */
  datatype Entry = Entry(request: CreateRequest, generated: string, fault: Fault)

  function ImportRows(w: World, rows: seq<Row>, entries: seq<Entry>): seq<Row> {
    if entries == [] then rows else
    var before, e := ImportRows(w, rows, entries[..|entries| - 1]), entries[|entries| - 1];
    if ImportOutcome(w, before, e.request, e.generated, e.fault) == Imported
    then [NewRow(w, e.request, e.generated)] + before
    else before
  }

  function ImportTally(w: World, rows: seq<Row>, entries: seq<Entry>): ImportResult {
    if entries == [] then ImportResult(0, 0, 0, []) else
    var init, e := entries[..|entries| - 1], entries[|entries| - 1];
    Tally(ImportTally(w, rows, init), IdOf(e.request.id, e.generated),
          ImportOutcome(w, ImportRows(w, rows, init), e.request, e.generated, e.fault))
  }

  lemma NothingImported(w: World, rows: seq<Row>)
    ensures ImportRows(w, rows, []) == rows && ImportTally(w, rows, []) == ImportResult(0, 0, 0, [])
  {
  }

  lemma ImportNext(w: World, rows: seq<Row>, entries: seq<Entry>, i: nat)
    requires i < |entries|
    ensures var before, e := ImportRows(w, rows, entries[..i]), entries[i];
            var outcome := ImportOutcome(w, before, e.request, e.generated, e.fault);
            && ImportRows(w, rows, entries[..i + 1]) ==
               (if outcome == Imported then [NewRow(w, e.request, e.generated)] + before else before)
            && ImportTally(w, rows, entries[..i + 1]) ==
               Tally(ImportTally(w, rows, entries[..i]), IdOf(e.request.id, e.generated), outcome)
  {
    assert entries[..i + 1][..i] == entries[..i];
  }

  // ------------------------------------------------------------------
  // The service object
  // ------------------------------------------------------------------

  /** The files of each directory that cannot be removed. */
  datatype Stuck = Stuck(rules: set<string>, skills: set<string>, avatars: set<string>)

  class AssistantService {
    const w: World
    const bundle: Rules  // the built-ins' own rules
    var rows: seq<Row>
    var overrides: map<string, Override>
    var rules: Files
    var skills: Files
    var avatars: Files

    constructor (w: World, bundle: Rules)
      ensures this.w == w && this.bundle == bundle && Contents() == Store([], map[])
      ensures rules == skills == avatars == map[]
    {
      this.w := w;
      this.bundle := bundle;
      rows := [];
      overrides := map[];
      rules, skills, avatars := map[], map[], map[];
    }

    ghost function Contents(): Store
      reads this
    {
      Store(rows, overrides)
    }

    method Get(id: string) returns (r: Result<Response, AppError>)
      ensures r == GetResponse(w, Contents(), id)
    {
      var ov := FindOverride(overrides, id);
      match ClassifySource(w, id)
      case Builtin =>
        r := Success(BuiltinResponse(FindBuiltin(w.builtins, id).value, ov));
      case Extension =>
        r := Success(ExtensionResponse(FindExtension(w.extensions, id).value));
      case User =>
        var row := FindRow(rows, id);
        if row.None? {
          return Failure(NotFound);
        }
        r := Success(RowResponse(row.value, ov));
    }

    method List() returns (result: seq<Response>)
      modifies this`overrides
      ensures result == Listed(w, old(Contents()))
      ensures overrides == WithoutOrphans(w, old(Contents()))
    {
      result := [];
      for i := 0 to |w.builtins|
        invariant result == BuiltinResponses(w.builtins, overrides)[..i]
      {
        result := result + [BuiltinResponse(w.builtins[i], FindOverride(overrides, w.builtins[i].id))];
      }
      ghost var b := result;
      for i := 0 to |rows|
        invariant result == b + RowResponses(rows, overrides)[..i]
      {
        result := result + [RowResponse(rows[i], FindOverride(overrides, rows[i].id))];
      }
      ghost var u := result;
      for i := 0 to |w.extensions|
        invariant result == u + ExtensionResponses(w.extensions)[..i]
      {
        result := result + [ExtensionResponse(w.extensions[i])];
      }
      assert result == Merged(w, Contents());
      result := Sort(result);
      overrides := map id | id in overrides && (exists r | r in result :: r.id == id) :: overrides[id];
    }

    method Create(req: CreateRequest, generated: string) returns (r: Result<Response, AppError>)
      modifies this`rows
      ensures Contents() == Created(w, old(Contents()), req, generated)
      ensures var error := CreateError(w, old(Contents()), req, generated);
              r == if error.Some? then Failure(error.value) else GetResponse(w, Contents(), IdOf(req.id, generated))
    {
      var name := Trim(req.name);
      if name == "" {
        return Failure(BadRequest);
      }
      var id := if req.id.Some? && req.id.value != "" then req.id.value else generated;
      if FindBuiltin(w.builtins, id).Some? || FindExtension(w.extensions, id).Some? {
        return Failure(BadRequest);
      }
      var agentType := AgentType(w, req.preset);
      if agentType.Failure? {
        return Failure(agentType.error);
      }
      if FindRow(rows, id).Some? {
        return Failure(Conflict);
      }
      var row := Row(id, name, agentType.value, req.fields);
      rows := [row] + rows;
      r := Success(RowResponse(row, FindOverride(overrides, id)));
    }

    method Update(id: string, req: UpdateRequest) returns (r: Result<Response, AppError>)
      modifies this`rows, this`overrides
      ensures Contents() == Updated(w, old(Contents()), id, req)
      ensures var error := UpdateError(w, old(Contents()), id, req);
              r == if error.Some? then Failure(error.value) else GetResponse(w, Contents(), id)
    {
      match ClassifySource(w, id) {
        case Builtin =>
          if req.name.Some? || req.fields != map[] {
            return Failure(Forbidden);
          }
          if req.preset.None? {
            return Failure(BadRequest);
          }
          var existing := FindOverride(overrides, id);
          overrides := Upserted(overrides, id, EnabledOf(existing), SortOrderOf(existing), LastUsedOf(existing),
                                req.preset);
          r := Get(id);
          return;
        case Extension =>
          return Failure(Forbidden);
        case User =>
      }
      var row := FindRow(rows, id);
      if row.None? {
        return Failure(NotFound);
      }
      var merged := MergedRow(row.value, req);
      rows := [merged] + WithoutRow(rows, id);
      r := Success(RowResponse(merged, FindOverride(overrides, id)));
    }

    /** With the row go its override and, as far as they can be removed, its files. */
    method Delete(id: string, stuck: Stuck) returns (r: Result<(), AppError>)
      modifies this
      ensures Contents() == Deleted(w, old(Contents()), id)
      ensures var error := DeleteError(w, old(Contents()), id);
              r == if error.Some? then Failure(error.value) else Success(())
      ensures r.Failure? ==> rules == old(rules) && skills == old(skills) && avatars == old(avatars)
      ensures r.Success? ==>
                && rules == Remaining(old(rules), MdFilesOf(id), stuck.rules)
                && skills == Remaining(old(skills), MdFilesOf(id), stuck.skills)
                && avatars == Remaining(old(avatars), AvatarFilesOf(id), stuck.avatars)
    {
      if ClassifySource(w, id) != User {
        return Failure(Forbidden);
      }
      if FindRow(rows, id).None? {
        return Failure(NotFound);
      }
      rows := WithoutRow(rows, id);
      overrides := overrides - {id};
      var deleted: bool;
      rules, deleted := RemoveFiles(rules, MdFilesOf(id), stuck.rules);
      skills, deleted := RemoveFiles(skills, MdFilesOf(id), stuck.skills);
      avatars, deleted := RemoveFiles(avatars, AvatarFilesOf(id), stuck.avatars);
      r := Success(());
    }

    method SetState(id: string, req: StateRequest) returns (r: Result<Response, AppError>)
      modifies this`overrides
      ensures Contents() == StateSet(w, old(Contents()), id, req)
      ensures var error := SetStateError(w, old(Contents()), id);
              r == if error.Some? then Failure(error.value) else GetResponse(w, Contents(), id)
    {
      match ClassifySource(w, id) {
        case Extension =>
          return Failure(BadRequest);
        case Builtin =>
        case User =>
          if FindRow(rows, id).None? {
            return Failure(NotFound);
          }
      }
      var existing := FindOverride(overrides, id);
      var enabled := if req.enabled.Some? then req.enabled.value else EnabledOf(existing);
      var sortOrder := if req.sortOrder.Some? then req.sortOrder.value else SortOrderOf(existing);
      var lastUsedAt := if req.lastUsedAt.Some? then req.lastUsedAt else LastUsedOf(existing);
      overrides := Upserted(overrides, id, enabled, sortOrder, lastUsedAt, None);
      r := Get(id);
    }

    /** The default agent type is resolved once and remembered. */
    method Import(entries: seq<Entry>) returns (result: ImportResult)
      modifies this`rows
      ensures Contents() == Store(ImportRows(w, old(rows), entries), old(overrides))
      ensures result == ImportTally(w, old(rows), entries)
    {
      hide ImportRows, ImportTally, FindRow, FindBuiltin, FindExtension, Trim, ResolveDefaultAgentType;
      result := ImportResult(0, 0, 0, []);
      var cached: Option<string> := None;
      NothingImported(w, rows);
      assert entries[..0] == [];
      for i := 0 to |entries|
        invariant rows == ImportRows(w, old(rows), entries[..i]) && overrides == old(overrides)
        invariant result == ImportTally(w, old(rows), entries[..i])
        invariant cached.Some? ==> ResolveDefaultAgentType(w) == Success(cached.value)
      {
        var e := entries[i];
        ImportNext(w, old(rows), entries, i);
        var id := if e.request.id.Some? && e.request.id.value != "" then e.request.id.value else e.generated;
        if FindBuiltin(w.builtins, id).Some? {
          result := result.(skipped := result.skipped + 1);
          continue;
        }
        if FindExtension(w.extensions, id).Some? {
          result := result.(skipped := result.skipped + 1);
          continue;
        }
        if e.fault == GetFails {
          result := result.(failed := result.failed + 1, errors := result.errors + [ImportError(id, Internal)]);
          continue;
        }
        if FindRow(rows, id).Some? {
          result := result.(skipped := result.skipped + 1);
          continue;
        }
        var name := Trim(e.request.name);
        if name == "" {
          result := result.(failed := result.failed + 1, errors := result.errors + [ImportError(id, BadRequest)]);
          continue;
        }
        var agentType: string;
        if e.request.preset.Some? && e.request.preset.value != "" {
          agentType := e.request.preset.value;
        } else if cached.Some? {
          agentType := cached.value;
        } else {
          var resolved := ResolveDefaultAgentType(w);
          if resolved.Failure? {
            result := result.(failed := result.failed + 1, errors := result.errors + [ImportError(id, resolved.error)]);
            continue;
          }
          cached := Some(resolved.value);
          agentType := resolved.value;
        }
        match e.fault
        case CreateConflicts =>
          result := result.(skipped := result.skipped + 1);
        case CreateFails =>
          result := result.(failed := result.failed + 1, errors := result.errors + [ImportError(id, Internal)]);
        case _ =>
          rows := [Row(id, name, agentType, e.request.fields)] + rows;
          result := result.(imported := result.imported + 1);
      }
      assert entries[..|entries|] == entries;
    }

    /** `readable` is false for a file that cannot be read as text. */
    method ReadRule(id: string, locale: Option<string>, readable: bool) returns (content: string)
      ensures content ==
              match ClassifySource(w, id)
              case Builtin => if (id, Normal(locale)) in bundle then bundle[(id, Normal(locale))] else ""
              case Extension => ""
              case User => if readable then ReadFile(rules, AssistantMdName(id, locale)) else ""
    {
      match ClassifySource(w, id)
      case Builtin =>
        var key := (id, if locale.Some? then locale.value else "");
        content := if key in bundle then bundle[key] else "";
      case Extension =>
        content := "";
      case User =>
        var name := AssistantMdName(id, locale);
        content := if readable && name in rules then rules[name] else "";
    }

    method WriteRule(id: string, locale: Option<string>, content: string, disk: Disk) returns (r: Result<(), AppError>)
      modifies this`rules
      ensures ClassifySource(w, id) != User ==> r == Failure(BadRequest) && rules == old(rules)
      ensures ClassifySource(w, id) == User ==>
                && r == (if disk == Works then Success(()) else Failure(Internal))
                && rules == Written(old(rules), AssistantMdName(id, locale), content, disk)
      ensures r.Success? ==> ReadFile(rules, AssistantMdName(id, locale)) == content
      ensures forall name :: name != AssistantMdName(id, locale) ==> ReadFile(rules, name) == ReadFile(old(rules), name)
    {
      WrittenIs(rules, AssistantMdName(id, locale), content, disk);
      if ClassifySource(w, id) != User {
        return Failure(BadRequest);
      }
      rules := Written(rules, AssistantMdName(id, locale), content, disk);
      r := if disk == Works then Success(()) else Failure(Internal);
    }

    method DeleteRule(id: string, stuck: set<string>) returns (r: Result<bool, AppError>)
      modifies this`rules
      ensures ClassifySource(w, id) != User ==> r == Failure(BadRequest) && rules == old(rules)
      ensures ClassifySource(w, id) == User ==>
                rules == Remaining(old(rules), MdFilesOf(id), stuck) && r == Success(rules != old(rules))
    {
      if ClassifySource(w, id) != User {
        return Failure(BadRequest);
      }
      var deleted: bool;
      rules, deleted := RemoveFiles(rules, MdFilesOf(id), stuck);
      r := Success(deleted);
    }
  }
}

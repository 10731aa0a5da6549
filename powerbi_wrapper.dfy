/** The Power BI entry points (powerbi_wrapper.py): validation of a
    returned table, the mapping of exceptions to one-cell error tables,
    and the login flow of each wrapper.  The endpoint clients a wrapper
    hands over to (workspaces, fields, farms, notes, GeoServer) are
    represented by what they return or raise. */
module PowerBiWrapper {
  import opened Basics
  import opened Lists
  import opened Dicts
  import opened Json
  import opened Http
  import opened Tables
  import opened Auth
  import opened FarmPortions

  const NoDataMessage: string := "No data returned from API"
  const NoneHasNoEmpty: string := "'NoneType' object has no attribute 'empty'"
  const BadCredentialsMessage: string := "Failed to authenticate with provided credentials"
  const AuthFailedCell: string := "Authentication failed. Please check your credentials."
  const NetworkCell: string := "Network error. Please check your internet connection."

  const WorkspaceColumns: seq<string> := ["name"]
  const PortionColumns: seq<string> := ["portion_id", "farm_id"]

  /** `validate_dataframe(df, required_columns)`: the exception it raises,
      or None; the missing columns are listed
      in required-list order.  A missing frame (a client that answered None) raises
      AttributeError at `df.empty`. */
  function Validation(df: Option<Table>, required: seq<string>): (r: Option<Exception>)
  {
    if df.None? then Some(AttributeError(NoneHasNoEmpty))
    else if IsEmpty(df.value) then Some(DataValidationError(NoDataMessage))
    else
      var missing := Drop(required, df.value.columns);
      if missing != [] then Some(DataValidationError("Missing required columns: " + Join(", ", missing)))
      else None
  }

  /** The cell text `handle_api_error` shows for an exception. */
  function ErrorCell(e: Exception): string
  {
    match e
    case AuthenticationError(_) => AuthFailedCell
    case APIError(m) => "API Error: " + m
    case RequestException(_) => NetworkCell
    case _ => "Unexpected error: " + e.message
  }

  /** `@handle_api_error`: a result passes through, an exception becomes a
      one-row table with a single `error` column. */
  function HandleApiError(r: Result<Table>): (t: Table)
    ensures r.Ok? ==> t == r.value
    ensures r.Err? ==> t == SingleCell("error", JStr(ErrorCell(r.error)))
  {
    match r
    case Ok(t) => t
    case Err(e) => SingleCell("error", JStr(ErrorCell(e)))
  }

  /** A validation failure re-raised as APIError with `context`; the other
      exceptions (AttributeError) pass unchanged. */
  function Validated(df: Option<Table>, required: seq<string>, context: string): (r: Result<Table>)
  {
    match Validation(df, required)
    case None => Ok(df.value)
    case Some(DataValidationError(m)) => Err(APIError(context + m))
    case Some(e) => Err(e)
  }

  /** The login every wrapper starts with: a fresh session and the given
      credentials, the environment as fallback. */
  function WrapperLogin(username: Option<string>, password: Option<string>,
                        envUser: Option<string>, envPass: Option<string>, reply: Reply): Outcome
  {
    LoginOutcome(InitialSession, username, password, envUser, envPass, reply)
  }

  /** The body of `get_workspaces`, before the decorator; `fetched` is what
      the GeoServer client's `get_workspaces()` returns or raises. */
  function WorkspacesResult(username: Option<string>, password: Option<string>,
                            envUser: Option<string>, envPass: Option<string>, loginReply: Reply,
                            fetched: Result<Option<Table>>): Result<Table>
  {
    var o := WrapperLogin(username, password, envUser, envPass, loginReply);
    if o.result.Err? then Err(o.result.error)
    else if !o.result.value then Err(AuthenticationError(BadCredentialsMessage))
    else if fetched.Err? then Err(fetched.error)
    else Validated(fetched.value, WorkspaceColumns, "Invalid workspace data returned: ")
  }

  /** `get_workspaces(username, password)`. */
  function GetWorkspaces(username: Option<string>, password: Option<string>,
                         envUser: Option<string>, envPass: Option<string>, loginReply: Reply,
                         fetched: Result<Option<Table>>): Table
  {
    HandleApiError(WorkspacesResult(username, password, envUser, envPass, loginReply, fetched))
  }

  /** The body of `get_farm_portions`, before the decorator: login, then
      the portions client with the logged-in headers. */
  function PortionsResult(username: Option<string>, password: Option<string>,
                          envUser: Option<string>, envPass: Option<string>, loginReply: Reply,
                          farmId: Json, extent: Json, portionsReply: Reply): Result<Table>
  {
    var o := WrapperLogin(username, password, envUser, envPass, loginReply);
    if o.result.Err? then Err(o.result.error)
    else if !o.result.value then Err(AuthenticationError(BadCredentialsMessage))
    else PortionsChecked(o.session.headers, farmId, extent, portionsReply)
  }

  /** `FarmPortions(auth_client).get_farm_portions(...)` followed by the
      validation of its frame. */
  function PortionsChecked(headers: Dict<string>, farmId: Json, extent: Json, reply: Reply): Result<Table>
  {
    var (df, _) := PortionsOutcome(headers, extent, farmId, reply);
    if df.Err? then Err(df.error)
    else Validated(df.value, PortionColumns, "Invalid farm portions data returned: ")
  }

  /** `get_farm_portions(username, password, farm_id, extent)`. */
  function GetFarmPortions(username: Option<string>, password: Option<string>,
                           envUser: Option<string>, envPass: Option<string>, loginReply: Reply,
                           farmId: Json, extent: Json, portionsReply: Reply): Table
  {
    HandleApiError(PortionsResult(username, password, envUser, envPass, loginReply, farmId, extent, portionsReply))
  }

  /** `get_fields`, `get_farms` and `get_geoserver_info`: an empty frame
      when login answers False, otherwise what the client returns; nothing
      is caught. */
  function LoginThenFetch(username: Option<string>, password: Option<string>,
                          envUser: Option<string>, envPass: Option<string>, loginReply: Reply,
                          fetched: Result<Option<Table>>): Result<Option<Table>>
  {
    var o := WrapperLogin(username, password, envUser, envPass, loginReply);
    if o.result.Err? then Err(o.result.error)
    else if !o.result.value then Ok(Some(EmptyTable))
    else fetched
  }

  /** `get_field_notes`: the notes of one field for a truthy field id,
      otherwise all notes. */
  function GetFieldNotes(username: Option<string>, password: Option<string>,
                         envUser: Option<string>, envPass: Option<string>, loginReply: Reply,
                         fieldId: Json, fieldNotes: Result<Option<Table>>, allNotes: Result<Option<Table>>)
    : Result<Option<Table>>
  {
    LoginThenFetch(username, password, envUser, envPass, loginReply, if Truthy(fieldId) then fieldNotes else allNotes)
  }

  // ---------------------------------------------------------------------
  // Properties

  /** An empty frame is rejected first; a non-empty one is accepted exactly
      when it has every required column, and otherwise the message names
      the missing ones. */
  lemma ValidationRules(df: Table, required: seq<string>)
    ensures IsEmpty(df) ==> Validation(Some(df), required) == Some(DataValidationError(NoDataMessage))
    ensures !IsEmpty(df) ==>
      (Validation(Some(df), required).None? <==> forall c :: c in required ==> c in df.columns)
    ensures !IsEmpty(df) && Validation(Some(df), required).Some? ==>
      Validation(Some(df), required)
        == Some(DataValidationError("Missing required columns: " + Join(", ", Drop(required, df.columns))))
  {
    var missing := Drop(required, df.columns);
    DropMembers(required, df.columns);
    if !IsEmpty(df) && missing != [] {
      assert missing[0] in missing;
    }
  }

  /** What `Validated` accepts: a present, non-empty frame holding every
      required column, handed back unchanged. */
  lemma ValidatedAccepts(df: Option<Table>, required: seq<string>, context: string)
    ensures var r := Validated(df, required, context);
      r.Ok? ==> df == Some(r.value) && !IsEmpty(r.value) && forall c :: c in required ==> c in r.value.columns
  {
    if df.Some? {
      ValidationRules(df.value, required);
    }
  }

  /** Every exception becomes a one-row table with the single column
      `error`; nothing is re-raised. */
  lemma ErrorTables(e: Exception)
    ensures var t := HandleApiError(Err(e));
      t.columns == ["error"] && |t.rows| == 1 && WellFormed(t)
      && Get(t.rows[0], "error") == Some(JStr(ErrorCell(e)))
    ensures e.AuthenticationError? ==> ErrorCell(e) == AuthFailedCell
    ensures e.APIError? ==> ErrorCell(e) == "API Error: " + e.message
    ensures e.RequestException? ==> ErrorCell(e) == NetworkCell
    ensures !e.AuthenticationError? && !e.APIError? && !e.RequestException? ==>
      ErrorCell(e) == "Unexpected error: " + e.message
  {
  }

  /** A False login ends the decorated wrappers in the credentials error
      table, and the undecorated ones in an empty frame. */
  lemma FailedLogin(username: Option<string>, password: Option<string>,
                    envUser: Option<string>, envPass: Option<string>, loginReply: Reply,
                    fetched: Result<Option<Table>>, farmId: Json, extent: Json, portionsReply: Reply)
    requires WrapperLogin(username, password, envUser, envPass, loginReply).result == Ok(false)
    ensures GetWorkspaces(username, password, envUser, envPass, loginReply, fetched)
      == SingleCell("error", JStr(AuthFailedCell))
    ensures GetFarmPortions(username, password, envUser, envPass, loginReply, farmId, extent, portionsReply)
      == SingleCell("error", JStr(AuthFailedCell))
    ensures LoginThenFetch(username, password, envUser, envPass, loginReply, fetched) == Ok(Some(EmptyTable))
  {
  }

  /** Missing credentials are an unexpected error for the decorated
      wrappers, and raise from the undecorated ones. */
  lemma MissingCredentialsReported(username: Option<string>, password: Option<string>,
                                   envUser: Option<string>, envPass: Option<string>, loginReply: Reply,
                                   fetched: Result<Option<Table>>)
    requires Credential(username, envUser).None? || Credential(password, envPass).None?
    ensures GetWorkspaces(username, password, envUser, envPass, loginReply, fetched)
      == SingleCell("error", JStr("Unexpected error: " + MissingCredentials))
    ensures LoginThenFetch(username, password, envUser, envPass, loginReply, fetched) == Err(ValueError(MissingCredentials))
  {
  }

  /** `get_workspaces` hands back the client's table only when it is
      non-empty and has a `name` column. */
  lemma WorkspacesChecked(username: Option<string>, password: Option<string>,
                          envUser: Option<string>, envPass: Option<string>, loginReply: Reply,
                          fetched: Result<Option<Table>>)
    ensures var r := WorkspacesResult(username, password, envUser, envPass, loginReply, fetched);
      r.Ok? ==> fetched == Ok(Some(r.value)) && !IsEmpty(r.value) && "name" in r.value.columns
  {
    if fetched.Ok? {
      ValidatedAccepts(fetched.value, WorkspaceColumns, "Invalid workspace data returned: ");
      assert WorkspaceColumns[0] in WorkspaceColumns;
    }
  }

  /** A client that answers None after a True login surfaces as the
      AttributeError of `df.empty`. */
  lemma WorkspacesOfNone(username: Option<string>, password: Option<string>,
                         envUser: Option<string>, envPass: Option<string>, loginReply: Reply)
    requires WrapperLogin(username, password, envUser, envPass, loginReply).result == Ok(true)
    ensures GetWorkspaces(username, password, envUser, envPass, loginReply, Ok(None))
      == SingleCell("error", JStr("Unexpected error: " + NoneHasNoEmpty))
  {
  }

  /** The decorated wrappers always hand Power BI a well-formed table:
      the portions wrapper unconditionally, the workspaces wrapper when
      its client's table is one. */
  lemma DecoratedWellFormed(username: Option<string>, password: Option<string>,
                            envUser: Option<string>, envPass: Option<string>, loginReply: Reply,
                            fetched: Result<Option<Table>>, farmId: Json, extent: Json, portionsReply: Reply)
    ensures fetched.Ok? && fetched.value.Some? && WellFormed(fetched.value.value) ==>
      WellFormed(GetWorkspaces(username, password, envUser, envPass, loginReply, fetched))
    ensures WellFormed(GetFarmPortions(username, password, envUser, envPass, loginReply, farmId, extent, portionsReply))
  {
    var w := WorkspacesResult(username, password, envUser, envPass, loginReply, fetched);
    if w.Ok? {
      WorkspacesChecked(username, password, envUser, envPass, loginReply, fetched);
    }
    var p := PortionsResult(username, password, envUser, envPass, loginReply, farmId, extent, portionsReply);
    if p.Ok? {
      var o := WrapperLogin(username, password, envUser, envPass, loginReply);
      PortionsTableWellFormed(o.session.headers, farmId, extent, portionsReply);
    }
  }

  /** A portions table that passes validation is one the client built. */
  lemma PortionsTableWellFormed(headers: Dict<string>, farmId: Json, extent: Json, reply: Reply)
    ensures var r := PortionsChecked(headers, farmId, extent, reply);
      r.Ok? ==> WellFormed(r.value)
  {
    var (df, _) := PortionsOutcome(headers, extent, farmId, reply);
    if df.Ok? {
      ValidatedAccepts(df.value, PortionColumns, "Invalid farm portions data returned: ");
    }
  }

  /** The portions table itself comes back only when the FeatureCollection
      object has `portion_id` and `farm_id` among its own top-level keys:
      the collection is one unflattened row, so its features are never the
      rows. */
  lemma PortionsNeedTopLevelColumns(headers: Dict<string>, farmId: Json, extent: Json, reply: Reply)
    ensures var r := PortionsChecked(headers, farmId, extent, reply);
      r.Ok? ==>
        reply.Received? && reply.response.body.Some?
        && var data := reply.response.body.value;
        IsFeatureCollection(data) && r.value.rows == [data.members]
        && HasKey(data.members, "portion_id") && HasKey(data.members, "farm_id")
  {
    var (df, _) := PortionsOutcome(headers, extent, farmId, reply);
    PortionsTable(headers, extent, farmId, reply);
    if df.Ok? {
      ValidatedAccepts(df.value, PortionColumns, "Invalid farm portions data returned: ");
      assert PortionColumns[0] == "portion_id" && PortionColumns[1] == "farm_id";
      assert PortionColumns[0] in PortionColumns && PortionColumns[1] in PortionColumns;
    }
  }

  /** After a True login the portions client needs no second login. */
  lemma PortionsClientAfterLogin(username: Option<string>, password: Option<string>,
                                 envUser: Option<string>, envPass: Option<string>, loginReply: Reply, reply: Reply)
    requires WrapperLogin(username, password, envUser, envPass, loginReply).result == Ok(true)
    ensures var s := WrapperLogin(username, password, envUser, envPass, loginReply).session;
      ConstructOutcome(s, envUser, envPass, reply) == Outcome(Ok(true), s, None)
  {
    TrueMeansAuthenticated(InitialSession, username, password, envUser, envPass, loginReply);
  }

  /** `get_field_notes` asks for one field's notes exactly when the field
      id is truthy. */
  lemma FieldNotesChoice(username: Option<string>, password: Option<string>,
                         envUser: Option<string>, envPass: Option<string>, loginReply: Reply,
                         fieldId: Json, fieldNotes: Result<Option<Table>>, allNotes: Result<Option<Table>>)
    requires WrapperLogin(username, password, envUser, envPass, loginReply).result == Ok(true)
    ensures GetFieldNotes(username, password, envUser, envPass, loginReply, fieldId, fieldNotes, allNotes)
      == if Truthy(fieldId) then fieldNotes else allNotes
  {
  }
}

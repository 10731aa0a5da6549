/** The authentication session (auth.py): an access token, a refresh token
    and the header map sent with every request, changed only by `login` and
    `refresh_tokens`. */
module Auth {
  import opened Basics
  import opened Dicts
  import opened Json
  import opened Http

  const BaseUrl: string := "https://dashboard.staging.terraclim.co.za"
  const LoginUrl: string := BaseUrl + "/api/token/"
  const RefreshUrl: string := BaseUrl + "/api/token/refresh/"

  const JsonHeaders: Dict<string> := [("Content-Type", "application/json"), ("Accept", "application/json")]

  const MissingCredentials: string :=
    "Username and password must be provided either as arguments or environment variables"

  /** The three fields of the client. */
  datatype Session = Session(access: Json, refresh: Json, headers: Dict<string>)

  const InitialSession: Session := Session(JNull, JNull, JsonHeaders)

  /** `is_authenticated()`: the access token is truthy. */
  predicate Authenticated(s: Session)
  {
    Truthy(s.access)
  }

  /** The JSON content headers a session never loses. */
  predicate KeepsJsonHeaders(s: Session)
  {
    Get(s.headers, "Content-Type") == Some("application/json")
    && Get(s.headers, "Accept") == Some("application/json")
  }

  /** What a call did: its result (or the exception it raised), the session
      after it, and the request it sent, if any. */
  datatype Outcome = Outcome(result: Result<bool>, session: Session, sent: Option<Request>)

  /** `arg or os.getenv(...)`, and then `not value` rejects None and "". */
  function Credential(arg: Option<string>, env: Option<string>): (r: Option<string>)
    ensures r.Some? ==> r.value != "" && (r == arg || r == env)
    ensures r.None? <==> (arg.None? || arg.value == "") && (env.None? || env.value == "")
  {
    var v := if arg.Some? && arg.value != "" then arg else env;
    if v.Some? && v.value != "" then v else None
  }

  function LoginRequest(s: Session, username: string, password: string): Request
  {
    Request("POST", LoginUrl, [], JObject([("username", JStr(username)), ("password", JStr(password))]), s.headers)
  }

  function RefreshRequest(s: Session): Request
  {
    Request("POST", RefreshUrl, [], JObject([("refresh", s.refresh)]), JsonHeaders)
  }

  /** The session once a token pair has been read from an object body:
      both tokens are overwritten, and the bearer header is set only for a
      truthy access token. */
  function StoreTokens(s: Session, ms: Dict<Json>): Session
  {
    var access := GetOr(ms, "access", JNull);
    var refresh := GetOr(ms, "refresh", JNull);
    Session(access, refresh,
      if Truthy(access) then Put(s.headers, "Authorization", "Bearer " + Str(access)) else s.headers)
  }

  /** `login(username, password)` from session `s`, with the two
      environment variables and the server's reply as inputs. */
  function LoginOutcome(s: Session, username: Option<string>, password: Option<string>,
                        envUser: Option<string>, envPass: Option<string>, reply: Reply): Outcome
  {
    var user := Credential(username, envUser);
    var pass := Credential(password, envPass);
    if user.None? || pass.None? then Outcome(Err(ValueError(MissingCredentials)), s, None)
    else
      var sent := Some(LoginRequest(s, user.value, pass.value));
      match reply
      case NetworkError(_) => Outcome(Ok(false), s, sent)
      case Received(resp) =>
        if resp.body.None? || !resp.Ok() then Outcome(Ok(false), s, sent)
        else match resp.body.value
          case JObject(ms) =>
            var s' := StoreTokens(s, ms);
            Outcome(Ok(Truthy(s'.access)), s', sent)
          case _ => Outcome(Ok(false), s, sent)
  }

  /** `refresh_tokens()` from session `s`, with the server's reply as input. */
  function RefreshOutcome(s: Session, reply: Reply): Outcome
  {
    if !Truthy(s.refresh) then Outcome(Ok(false), s, None)
    else
      var sent := Some(RefreshRequest(s));
      match reply
      case NetworkError(_) => Outcome(Ok(false), s, sent)
      case Received(resp) =>
        if !resp.Ok() || resp.body.None? then Outcome(Ok(false), s, sent)
        else match resp.body.value
          case JObject(ms) =>
            var s' := StoreTokens(s, ms);
            Outcome(Ok(Truthy(s'.access)), s', sent)
          case v => Outcome(Err(AttributeError("'" + TypeName(v) + "' object has no attribute 'get'")), s, sent)
  }

  /** `format_token(token)`: None where slicing or concatenation raises
      TypeError (a truthy token that is not a string). */
  function FormatToken(t: Json): (r: Option<string>)
    ensures !Truthy(t) ==> r == Some("None")
    ensures t.JStr? && t.s != "" ==>
      (r.Some? && |r.value| == Min(20, |t.s|) + 3 && r.value == t.s[..Min(20, |t.s|)] + "...")
    ensures Truthy(t) && !t.JStr? ==> r.None?
  {
    if !Truthy(t) then Some("None")
    else match t
      case JStr(s) => Some(s[..Min(20, |s|)] + "...")
      case _ => None
  }

  function Min(a: int, b: int): int
  {
    if a < b then a else b
  }

  // ---------------------------------------------------------------------
  // The client object

  class TerraClimAuth {
    var accessToken: Json
    var refreshToken: Json
    var headers: Dict<string>

    function State(): Session
      reads this
    {
      Session(accessToken, refreshToken, headers)
    }

    /** A fresh client: no tokens, and only the JSON content headers. */
    constructor()
      ensures State() == InitialSession
    {
      accessToken := JNull;
      refreshToken := JNull;
      headers := JsonHeaders;
    }

    /** `get_headers()`: the header map itself. */
    function GetHeaders(): Dict<string>
      reads this
    {
      headers
    }

    /** `is_authenticated()`. */
    predicate IsAuthenticated()
      reads this
    {
      Truthy(accessToken)
    }

    method Login(username: Option<string>, password: Option<string>,
                 envUser: Option<string>, envPass: Option<string>, reply: Reply)
      returns (r: Result<bool>, sent: Option<Request>)
      modifies this
      ensures Outcome(r, State(), sent) == LoginOutcome(old(State()), username, password, envUser, envPass, reply)
      ensures r == Ok(true) ==>
        (IsAuthenticated() && Get(GetHeaders(), "Authorization") == Some("Bearer " + Str(accessToken)))
    {
      var user := Credential(username, envUser);
      var pass := Credential(password, envPass);
      if user.None? || pass.None? {
        return Err(ValueError(MissingCredentials)), None;
      }
      sent := Some(LoginRequest(State(), user.value, pass.value));
      if reply.NetworkError? {
        return Ok(false), sent;
      }
      var response := reply.response;
      if response.body.None? || !response.Ok() {
        return Ok(false), sent;
      }
      var data := response.body.value;
      if data.JObject? {
        accessToken := GetOr(data.members, "access", JNull);
        refreshToken := GetOr(data.members, "refresh", JNull);
        if Truthy(accessToken) {
          headers := Put(headers, "Authorization", "Bearer " + Str(accessToken));
          return Ok(true), sent;
        } else {
          return Ok(false), sent;
        }
      }
      return Ok(false), sent;
    }

    method RefreshTokens(reply: Reply) returns (r: Result<bool>, sent: Option<Request>)
      modifies this
      ensures Outcome(r, State(), sent) == RefreshOutcome(old(State()), reply)
      ensures r == Ok(true) ==>
        (IsAuthenticated() && Get(GetHeaders(), "Authorization") == Some("Bearer " + Str(accessToken)))
    {
      if !Truthy(refreshToken) {
        return Ok(false), None;
      }
      sent := Some(RefreshRequest(State()));
      if reply.NetworkError? || !reply.response.Ok() || reply.response.body.None? {
        return Ok(false), sent;
      }
      var tokens := reply.response.body.value;
      if !tokens.JObject? {
        return Err(AttributeError("'" + TypeName(tokens) + "' object has no attribute 'get'")), sent;
      }
      accessToken := GetOr(tokens.members, "access", JNull);
      refreshToken := GetOr(tokens.members, "refresh", JNull);
      if Truthy(accessToken) {
        headers := Put(headers, "Authorization", "Bearer " + Str(accessToken));
        return Ok(true), sent;
      }
      return Ok(false), sent;
    }
  }

  // ---------------------------------------------------------------------
  // Properties of the session

  /** A fresh client is not authenticated and sends only the JSON headers. */
  lemma InitialState()
    ensures !Authenticated(InitialSession)
    ensures Keys(InitialSession.headers) == ["Content-Type", "Accept"]
    ensures KeepsJsonHeaders(InitialSession)
  {
  }

  /** Missing credentials raise ValueError before any request, and only then. */
  lemma LoginNeedsCredentials(s: Session, username: Option<string>, password: Option<string>,
                              envUser: Option<string>, envPass: Option<string>, reply: Reply)
    ensures var o := LoginOutcome(s, username, password, envUser, envPass, reply);
      o.result.Err? <==> o.sent.None?
    ensures var o := LoginOutcome(s, username, password, envUser, envPass, reply);
      o.result.Err? <==>
        ((username.None? || username.value == "") && (envUser.None? || envUser.value == ""))
        || ((password.None? || password.value == "") && (envPass.None? || envPass.value == ""))
    ensures var o := LoginOutcome(s, username, password, envUser, envPass, reply);
      o.result.Err? ==> o.result.error == ValueError(MissingCredentials) && o.session == s
  {
  }

  /** A transport failure, an unparsable body, a failed status or a body
      that is not an object: login answers False and the session is as it
      was. */
  lemma LoginRejected(s: Session, username: Option<string>, password: Option<string>,
                      envUser: Option<string>, envPass: Option<string>, reply: Reply)
    requires Credential(username, envUser).Some? && Credential(password, envPass).Some?
    requires reply.NetworkError? || reply.response.body.None? || !reply.response.Ok()
             || !reply.response.body.value.JObject?
    ensures var o := LoginOutcome(s, username, password, envUser, envPass, reply);
      o.result == Ok(false) && o.session == s
      && o.sent == Some(LoginRequest(s, Credential(username, envUser).value, Credential(password, envPass).value))
  {
  }

  /** An ok object body overwrites both tokens (a missing one becomes None);
      the answer is True exactly when the new access token is truthy, and
      only then is the bearer header written, every other header staying. */
  lemma LoginAccepted(s: Session, username: Option<string>, password: Option<string>,
                      envUser: Option<string>, envPass: Option<string>, resp: Response, ms: Dict<Json>)
    requires Credential(username, envUser).Some? && Credential(password, envPass).Some?
    requires resp.Ok() && resp.body == Some(JObject(ms))
    ensures var o := LoginOutcome(s, username, password, envUser, envPass, Received(resp));
      o.session.access == GetOr(ms, "access", JNull) && o.session.refresh == GetOr(ms, "refresh", JNull)
      && (o.result == Ok(true) <==> Authenticated(o.session))
      && (Authenticated(o.session) ==> Get(o.session.headers, "Authorization") == Some("Bearer " + Str(o.session.access)))
      && (!Authenticated(o.session) ==> o.session.headers == s.headers)
      && forall k :: k != "Authorization" ==> Get(o.session.headers, k) == Get(s.headers, k)
  {
    StoreTokensHeaders(s, ms);
  }

  lemma StoreTokensHeaders(s: Session, ms: Dict<Json>)
    ensures var s' := StoreTokens(s, ms);
      (Truthy(s'.access) ==> Get(s'.headers, "Authorization") == Some("Bearer " + Str(s'.access)))
      && forall k :: k != "Authorization" ==> Get(s'.headers, k) == Get(s.headers, k)
  {
    var s' := StoreTokens(s, ms);
    forall k | k != "Authorization"
      ensures Get(s'.headers, k) == Get(s.headers, k)
    {
      if Truthy(s'.access) {
        PutOther(s.headers, "Authorization", "Bearer " + Str(s'.access), k);
      }
    }
  }

  /** Without a truthy refresh token nothing is sent and nothing changes. */
  lemma RefreshWithoutToken(s: Session, reply: Reply)
    requires !Truthy(s.refresh)
    ensures RefreshOutcome(s, reply) == Outcome(Ok(false), s, None)
  {
  }

  /** A transport failure, a 4xx/5xx status or an unparsable body: False,
      tokens and headers unchanged; a body that is not an object raises
      AttributeError, also with nothing changed. */
  lemma RefreshFailure(s: Session, reply: Reply)
    requires Truthy(s.refresh)
    ensures var o := RefreshOutcome(s, reply);
      o.sent == Some(RefreshRequest(s))
      && (reply.NetworkError? || !reply.response.Ok() || reply.response.body.None? ==> o.result == Ok(false) && o.session == s)
      && (reply.Received? && reply.response.Ok() && reply.response.body.Some? && !reply.response.body.value.JObject?
          ==> o.result.Err? && o.result.error.AttributeError? && o.session == s)
  {
  }

  /** An ok object body replaces both tokens; True, and a new bearer
      header, exactly when the new access token is truthy. */
  lemma RefreshSuccess(s: Session, resp: Response, ms: Dict<Json>)
    requires Truthy(s.refresh) && resp.Ok() && resp.body == Some(JObject(ms))
    ensures var o := RefreshOutcome(s, Received(resp));
      o.session.access == GetOr(ms, "access", JNull) && o.session.refresh == GetOr(ms, "refresh", JNull)
      && (o.result == Ok(true) <==> Authenticated(o.session))
      && (Authenticated(o.session) ==> Get(o.session.headers, "Authorization") == Some("Bearer " + Str(o.session.access)))
      && (!Authenticated(o.session) ==> o.session.headers == s.headers)
  {
    StoreTokensHeaders(s, ms);
  }

  /** Neither operation ever loses the JSON content headers. */
  lemma JsonHeadersKept(s: Session, username: Option<string>, password: Option<string>,
                        envUser: Option<string>, envPass: Option<string>, reply: Reply)
    requires KeepsJsonHeaders(s)
    ensures KeepsJsonHeaders(LoginOutcome(s, username, password, envUser, envPass, reply).session)
    ensures KeepsJsonHeaders(RefreshOutcome(s, reply).session)
  {
    if reply.Received? && reply.response.body.Some? && reply.response.body.value.JObject? {
      StoreTokensHeaders(s, reply.response.body.value.members);
    }
  }

  /** A True answer from either operation leaves the session authenticated
      with the matching bearer header. */
  lemma TrueMeansAuthenticated(s: Session, username: Option<string>, password: Option<string>,
                               envUser: Option<string>, envPass: Option<string>, reply: Reply)
    ensures var o := LoginOutcome(s, username, password, envUser, envPass, reply);
      o.result == Ok(true) ==>
        (Authenticated(o.session) && Get(o.session.headers, "Authorization") == Some("Bearer " + Str(o.session.access)))
    ensures var o := RefreshOutcome(s, reply);
      o.result == Ok(true) ==>
        (Authenticated(o.session) && Get(o.session.headers, "Authorization") == Some("Bearer " + Str(o.session.access)))
  {
    if reply.Received? && reply.response.body.Some? && reply.response.body.value.JObject? {
      StoreTokensHeaders(s, reply.response.body.value.members);
    }
  }
}

/** The farm portions client (farm_portions.py): extent validation, the
    query string of the portions URL, and the checks on the reply. */
module FarmPortions {
  import opened Basics
  import opened Dicts
  import opened Json
  import opened Http
  import opened Tables
  import opened Utils
  import opened Auth

  const PortionsEndpoint: string := "farms/portions/"

  const ExtentShapeMessage: string := "Extent must be a list of 4 coordinates [minx, miny, maxx, maxy]"
  const ExtentNumbersMessage: string := "All extent coordinates must be numbers"
  const ExtentRequiredMessage: string := "The extent parameter is required"
  const LoginFailedMessage: string := "Authentication required. Login failed."

  /** `isinstance(x, (int, float))`; a bool is an int in Python. */
  predicate IsNumber(v: Json)
  {
    v.JInt? || v.JFloat? || v.JBool?
  }

  predicate AllNumbers(xs: seq<Json>)
  {
    forall i :: 0 <= i < |xs| ==> IsNumber(xs[i])
  }

  /** `f"[{', '.join(map(str, extent))}]"`. */
  function ExtentText(xs: seq<Json>): string
  {
    "[" + Join(", ", seq(|xs|, i requires 0 <= i < |xs| => Str(xs[i]))) + "]"
  }

  /** The URL followed by `?` (or `&` when it already has a query) and the
      `k=v` pairs joined by `&`; the URL alone when there are no pairs. */
  function WithQuery(url: string, params: Dict<string>): string
  {
    if params == [] then url
    else url + QuerySeparator(url) + Join("&", seq(|params|, i requires 0 <= i < |params| => params[i].0 + "=" + params[i].1))
  }

  function QuerySeparator(url: string): string
  {
    if '?' in url then "&" else "?"
  }

  /** What `_build_url(farm_id, extent)` returns or raises. */
  function PortionsUrl(farmId: Json, extent: Json): Result<string>
  {
    var url := GetApiUrl(PortionsEndpoint);
    var farm: Dict<string> := if Truthy(farmId) then [("farm_id", Str(farmId))] else [];
    if !Truthy(extent) then Ok(WithQuery(url, farm))
    else if !extent.JArray? || |extent.items| != 4 then Err(ValueError(ExtentShapeMessage))
    else if !AllNumbers(extent.items) then Err(ValueError(ExtentNumbersMessage))
    else Ok(WithQuery(url, farm + [("extent", ExtentText(extent.items))]))
  }

  /** What `get_farm_portions(extent, farm_id)` returns or raises, with the
      headers of the session, and the request it sends. */
  function PortionsOutcome(headers: Dict<string>, extent: Json, farmId: Json, reply: Reply)
    : (Result<Option<Table>>, Option<Request>)
  {
    if !Truthy(extent) then (Err(ValueError(ExtentRequiredMessage)), None)
    else match PortionsUrl(farmId, extent)
      case Err(e) => (Err(e), None)
      case Ok(url) =>
        var sent := Some(Request("GET", url, [], JNull, headers));
        match reply
        case NetworkError(_) => (Ok(None), sent)
        case Received(resp) =>
          if !HandleErrorResponse(resp).0 || resp.body.None? then (Ok(None), sent)
          else if IsFeatureCollection(resp.body.value) then (Ok(Some(ResponseToDataframe(resp.body.value, false))), sent)
          else (Ok(None), sent)
  }

  /** `isinstance(data, dict) and data.get('type') == 'FeatureCollection'`. */
  predicate IsFeatureCollection(data: Json)
  {
    data.JObject? && Get(data.members, "type") == Some(JStr("FeatureCollection"))
  }

  /** `FarmPortions.__init__`: an unauthenticated client logs in from the
      environment, and a False answer raises ValueError. */
  function ConstructOutcome(s: Session, envUser: Option<string>, envPass: Option<string>, reply: Reply): (o: Outcome)
  {
    if Authenticated(s) then Outcome(Ok(true), s, None)
    else
      var o := LoginOutcome(s, None, None, envUser, envPass, reply);
      if o.result == Ok(false) then Outcome(Err(ValueError(LoginFailedMessage)), o.session, o.sent)
      else o
  }

  class FarmPortionsClient {
    const auth: TerraClimAuth

    constructor(auth: TerraClimAuth)
      ensures this.auth == auth
    {
      this.auth := auth;
    }

    /** `_build_url`: fills the parameter dict, then renders the URL. */
    method BuildUrl(farmId: Json, extent: Json) returns (r: Result<string>)
      ensures r == PortionsUrl(farmId, extent)
    {
      var url := GetApiUrl(PortionsEndpoint);
      var params: Dict<string> := [];
      if Truthy(farmId) {
        PutAppend(params, "farm_id", Str(farmId));
        params := Put(params, "farm_id", Str(farmId));
      }
      if Truthy(extent) {
        if !extent.JArray? || |extent.items| != 4 {
          return Err(ValueError(ExtentShapeMessage));
        }
        if !AllNumbers(extent.items) {
          return Err(ValueError(ExtentNumbersMessage));
        }
        PutAppend(params, "extent", ExtentText(extent.items));
        params := Put(params, "extent", ExtentText(extent.items));
      }
      if params != [] {
        return Ok(WithQuery(url, params));
      }
      return Ok(url);
    }

    method GetFarmPortions(extent: Json, farmId: Json, reply: Reply)
      returns (r: Result<Option<Table>>, sent: Option<Request>)
      ensures (r, sent) == PortionsOutcome(auth.headers, extent, farmId, reply)
    {
      if !Truthy(extent) {
        return Err(ValueError(ExtentRequiredMessage)), None;
      }
      var url := BuildUrl(farmId, extent);
      if url.Err? {
        return Err(url.error), None;
      }
      sent := Some(Request("GET", url.value, [], JNull, auth.headers));
      if reply.NetworkError? {
        return Ok(None), sent;
      }
      var response := reply.response;
      var (success, _) := HandleErrorResponse(response);
      if !success || response.body.None? {
        return Ok(None), sent;
      }
      var data := response.body.value;
      if !IsFeatureCollection(data) {
        return Ok(None), sent;
      }
      return Ok(Some(ResponseToDataframe(data, false))), sent;
    }
  }

  /** `FarmPortions(auth_client)`: a new session when none is given. */
  method Open(authClient: Option<TerraClimAuth>, envUser: Option<string>, envPass: Option<string>, reply: Reply)
    returns (r: Result<FarmPortionsClient>, sent: Option<Request>)
    modifies if authClient.Some? then {authClient.value} else {}
    ensures var before := if authClient.Some? then old(authClient.value.State()) else InitialSession;
      var o := ConstructOutcome(before, envUser, envPass, reply);
      sent == o.sent && r.Ok? == o.result.Ok? && (r.Err? ==> r.error == o.result.error)
      && (authClient.Some? ==> authClient.value.State() == o.session)
      && (r.Ok? ==> r.value.auth.State() == o.session && fresh(r.value)
                    && (authClient.Some? ==> r.value.auth == authClient.value)
                    && (authClient.None? ==> fresh(r.value.auth)))
  {
    var a: TerraClimAuth;
    if authClient.Some? {
      a := authClient.value;
    } else {
      a := new TerraClimAuth();
    }
    sent := None;
    if !a.IsAuthenticated() {
      var ok;
      ok, sent := a.Login(None, None, envUser, envPass, reply);
      if ok.Err? {
        return Err(ok.error), sent;
      }
      if ok == Ok(false) {
        return Err(ValueError(LoginFailedMessage)), sent;
      }
    }
    var client := new FarmPortionsClient(a);
    r := Ok(client);
  }

  // ---------------------------------------------------------------------
  // Properties

  /** The extent is accepted exactly when it is falsy or a list of four
      numbers; otherwise the shape is checked before the element types. */
  lemma ExtentValidation(farmId: Json, extent: Json)
    ensures PortionsUrl(farmId, extent).Ok? <==>
      !Truthy(extent) || (extent.JArray? && |extent.items| == 4 && AllNumbers(extent.items))
    ensures Truthy(extent) && (!extent.JArray? || |extent.items| != 4) ==>
      PortionsUrl(farmId, extent) == Err(ValueError(ExtentShapeMessage))
    ensures Truthy(extent) && extent.JArray? && |extent.items| == 4 && !AllNumbers(extent.items) ==>
      PortionsUrl(farmId, extent) == Err(ValueError(ExtentNumbersMessage))
  {
  }

  lemma PortionsBase()
    ensures GetApiUrl(PortionsEndpoint) == "https://dashboard.staging.terraclim.co.za/api/v0/farms/portions/"
  {
    PlainEndpointUrl(PortionsEndpoint);
    ApiPrefixText();
  }

  /** The accepted URLs: the bare endpoint, or the query separator and
      then `farm_id=` (for a truthy farm id) before `extent=[a, b, c, d]`
      (for a truthy extent), joined by `&`. */
  lemma PortionsUrlRendering(farmId: Json, extent: Json)
    requires PortionsUrl(farmId, extent).Ok?
    ensures var base := GetApiUrl(PortionsEndpoint);
      var sep := QuerySeparator(base);
      var url := PortionsUrl(farmId, extent).value;
      (!Truthy(farmId) && !Truthy(extent) ==> url == base)
      && (Truthy(farmId) && !Truthy(extent) ==> url == base + sep + "farm_id" + "=" + Str(farmId))
      && (!Truthy(farmId) && Truthy(extent) ==> url == base + sep + "extent" + "=" + ExtentText(extent.items))
      && (Truthy(farmId) && Truthy(extent) ==>
            url == base + sep + "farm_id" + "=" + Str(farmId) + "&" + "extent" + "=" + ExtentText(extent.items))
  {
    var base := GetApiUrl(PortionsEndpoint);
    if Truthy(extent) {
      var ext := ("extent", ExtentText(extent.items));
      if Truthy(farmId) {
        var farm := ("farm_id", Str(farmId));
        assert [farm] + [ext] == [farm, ext];
        WithQueryTwo(base, farm.0, farm.1, ext.0, ext.1);
      } else {
        var none: Dict<string> := [];
        assert none + [ext] == [ext];
        WithQueryOne(base, ext.0, ext.1);
      }
    } else if Truthy(farmId) {
      WithQueryOne(base, "farm_id", Str(farmId));
    }
  }

  lemma WithQueryOne(url: string, k: string, v: string)
    ensures WithQuery(url, [(k, v)]) == url + QuerySeparator(url) + k + "=" + v
  {
    var pairs: Dict<string> := [(k, v)];
    var parts := seq(|pairs|, i requires 0 <= i < |pairs| => pairs[i].0 + "=" + pairs[i].1);
    assert parts == [k + "=" + v];
  }

  lemma WithQueryTwo(url: string, k1: string, v1: string, k2: string, v2: string)
    ensures WithQuery(url, [(k1, v1), (k2, v2)]) == url + QuerySeparator(url) + k1 + "=" + v1 + "&" + k2 + "=" + v2
  {
    var pairs: Dict<string> := [(k1, v1), (k2, v2)];
    var parts := seq(|pairs|, i requires 0 <= i < |pairs| => pairs[i].0 + "=" + pairs[i].1);
    assert parts[0] == k1 + "=" + v1 && parts[1] == k2 + "=" + v2;
    assert parts == [parts[0], parts[1]];
    JoinTwo("&", parts[0], parts[1]);
  }

  /** The extent text of four coordinates. */
  lemma ExtentTextOfFour(xs: seq<Json>)
    requires |xs| == 4
    ensures ExtentText(xs) == "[" + Str(xs[0]) + ", " + Str(xs[1]) + ", " + Str(xs[2]) + ", " + Str(xs[3]) + "]"
  {
    var parts := seq(|xs|, i requires 0 <= i < |xs| => Str(xs[i]));
    assert parts == [Str(xs[0]), Str(xs[1]), Str(xs[2]), Str(xs[3])];
    JoinFour(", ", Str(xs[0]), Str(xs[1]), Str(xs[2]), Str(xs[3]));
  }

  /** A falsy extent or an invalid one raises before any request is sent;
      every other call sends one GET to the built URL with the session
      headers. */
  lemma RaisesBeforeRequest(headers: Dict<string>, extent: Json, farmId: Json, reply: Reply)
    ensures var (r, sent) := PortionsOutcome(headers, extent, farmId, reply);
      (r.Err? <==> sent.None?)
      && (!Truthy(extent) ==> r == Err(ValueError(ExtentRequiredMessage)))
      && (Truthy(extent) && PortionsUrl(farmId, extent).Err? ==> r == Err(PortionsUrl(farmId, extent).error))
      && (sent.Some? ==> sent.value == Request("GET", PortionsUrl(farmId, extent).value, [], JNull, headers))
  {
  }

  /** The reply yields a table only when it is ok and its body is an
      object of type FeatureCollection; that object, unflattened, is then
      the table's single row. */
  lemma PortionsTable(headers: Dict<string>, extent: Json, farmId: Json, reply: Reply)
    ensures var (r, _) := PortionsOutcome(headers, extent, farmId, reply);
      r.Ok? && r.value.Some? <==>
        (PortionsUrl(farmId, extent).Ok? && Truthy(extent) && reply.Received? && reply.response.Ok()
         && reply.response.body.Some? && IsFeatureCollection(reply.response.body.value))
    ensures var (r, _) := PortionsOutcome(headers, extent, farmId, reply);
      r.Ok? && r.value.Some? ==> r.value.value.rows == [reply.response.body.value.members]
    ensures var (r, _) := PortionsOutcome(headers, extent, farmId, reply);
      r.Ok? && r.value.Some? ==>
        forall c :: c in r.value.value.columns <==> c in Keys(reply.response.body.value.members)
  {
    var (r, _) := PortionsOutcome(headers, extent, farmId, reply);
    if r.Ok? && r.value.Some? {
      var data := reply.response.body.value;
      assert data.members != [];
      assert Truthy(data);
      var ms := data.members;
      assert forall c :: (exists i :: 0 <= i < 1 && c in Keys([ms][i])) <==> c in Keys(ms) by {
        assert [ms][0] == ms;
      }
    }
  }

  /** An authenticated session builds the client without a request; an
      unauthenticated one logs in from the environment, and any answer
      but True becomes an error. */
  lemma ConstructorLogsIn(s: Session, envUser: Option<string>, envPass: Option<string>, reply: Reply)
    ensures var o := ConstructOutcome(s, envUser, envPass, reply);
      (Authenticated(s) ==> o == Outcome(Ok(true), s, None))
      && (o.result.Ok? ==> o.result == Ok(true) && Authenticated(o.session))
      && (!Authenticated(s) && LoginOutcome(s, None, None, envUser, envPass, reply).result == Ok(false)
          ==> o.result == Err(ValueError(LoginFailedMessage)))
  {
    TrueMeansAuthenticated(s, None, None, envUser, envPass, reply);
  }
}

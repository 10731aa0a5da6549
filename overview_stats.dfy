/** The overview statistics client (the package's overview_stats.py): one
    of two ids is required, and each given id becomes one parameter. */
module OverviewStats {
  import opened Basics
  import opened Dicts
  import opened Json
  import opened Http
  import opened Tables
  import opened Utils
  import opened Auth

  const OverviewEndpoint: string := "overview-stats/"
  const NotLoggedInMessage: string := "Authentication required. Please login first."
  const MissingIdMessage: string := "Either farm_id or field_id must be provided"

  /** The field id under `fieldID`, then the farm id under `farm_id`, each
      present when it is not None (so 0 and "" are sent). */
  function OverviewParams(farmId: Json, fieldId: Json): Dict<Json>
  {
    (if fieldId.JNull? then [] else [("fieldID", fieldId)])
    + (if farmId.JNull? then [] else [("farm_id", farmId)])
  }

  /** What `get_overview_stats(farm_id, field_id)` returns or raises, and
      the request it sends. */
  function OverviewOutcome(headers: Dict<string>, farmId: Json, fieldId: Json, reply: Reply)
    : (Result<Option<Table>>, Option<Request>)
  {
    if farmId.JNull? && fieldId.JNull? then (Err(ValueError(MissingIdMessage)), None)
    else
      var sent := Request("GET", GetApiUrl(OverviewEndpoint), OverviewParams(farmId, fieldId), JNull, headers);
      (Ok(TableOfReply(reply, false)), Some(sent))
  }

  class OverviewStatsClient {
    const auth: TerraClimAuth

    constructor(auth: TerraClimAuth)
      ensures this.auth == auth
    {
      this.auth := auth;
    }

    method GetOverviewStats(farmId: Json, fieldId: Json, reply: Reply)
      returns (r: Result<Option<Table>>, sent: Option<Request>)
      ensures (r, sent) == OverviewOutcome(auth.headers, farmId, fieldId, reply)
    {
      if farmId.JNull? && fieldId.JNull? {
        return Err(ValueError(MissingIdMessage)), None;
      }
      var url := GetApiUrl(OverviewEndpoint);
      var params: Dict<Json> := [];
      if !fieldId.JNull? {
        PutAppend(params, "fieldID", fieldId);
        params := Put(params, "fieldID", fieldId);
      }
      if !farmId.JNull? {
        assert !HasKey(params, "farm_id") by {
          assert Keys(params) == (if fieldId.JNull? then [] else ["fieldID"]);
        }
        PutAppend(params, "farm_id", farmId);
        params := Put(params, "farm_id", farmId);
      }
      assert params == OverviewParams(farmId, fieldId);
      sent := Some(Request("GET", url, params, JNull, auth.headers));
      r := Ok(TableOfReply(reply, false));
    }
  }

  /** `OverviewStats(auth_client)`: only an authenticated session is
      accepted. */
  method Open(authClient: Option<TerraClimAuth>) returns (r: Result<OverviewStatsClient>)
    ensures r.Ok? <==> authClient.Some? && authClient.value.IsAuthenticated()
    ensures r.Err? ==> r.error == ValueError(NotLoggedInMessage)
    ensures r.Ok? ==> r.value.auth == authClient.value
  {
    if authClient.None? || !authClient.value.IsAuthenticated() {
      return Err(ValueError(NotLoggedInMessage));
    }
    var client := new OverviewStatsClient(authClient.value);
    return Ok(client);
  }

  // ---------------------------------------------------------------------
  // Properties

  /** ValueError, and no request, exactly when both ids are None. */
  lemma NeedsAnId(headers: Dict<string>, farmId: Json, fieldId: Json, reply: Reply)
    ensures var (r, sent) := OverviewOutcome(headers, farmId, fieldId, reply);
      (r.Err? <==> farmId.JNull? && fieldId.JNull?)
      && (r.Err? ==> r.error == ValueError(MissingIdMessage) && sent.None?)
      && (r.Ok? ==> sent.Some? && sent.value.params == OverviewParams(farmId, fieldId))
  {
  }

  /** The parameters are exactly the given ids, the field id first under
      `fieldID`, the farm id under `farm_id`, unchanged; nothing else is
      added. */
  lemma ParamsShape(farmId: Json, fieldId: Json)
    ensures var p := OverviewParams(farmId, fieldId);
      Keys(p) == (if fieldId.JNull? then [] else ["fieldID"]) + (if farmId.JNull? then [] else ["farm_id"])
      && (HasKey(p, "fieldID") <==> !fieldId.JNull?)
      && (HasKey(p, "farm_id") <==> !farmId.JNull?)
      && (!fieldId.JNull? ==> Get(p, "fieldID") == Some(fieldId))
      && (!farmId.JNull? ==> Get(p, "farm_id") == Some(farmId))
  {
    var a: Dict<Json> := if fieldId.JNull? then [] else [("fieldID", fieldId)];
    var b: Dict<Json> := if farmId.JNull? then [] else [("farm_id", farmId)];
    KeysConcat(a, b);
    var p := a + b;
    if !farmId.JNull? && fieldId.JNull? {
      assert p == b;
    }
  }

  /** A farm id of 0 is still sent: the test is `is not None`. */
  lemma ZeroFarmIdSent()
    ensures OverviewParams(JInt(0), JNull) == [("farm_id", JInt(0))]
    ensures !Truthy(JInt(0))
  {
  }

  /** A failed exchange gives None; a good one the unflattened table of
      the body. */
  lemma OverviewReply(headers: Dict<string>, farmId: Json, fieldId: Json, reply: Reply)
    requires !(farmId.JNull? && fieldId.JNull?)
    ensures var (r, _) := OverviewOutcome(headers, farmId, fieldId, reply);
      r.Ok? && (r.value.Some? <==> reply.Received? && reply.response.Ok() && reply.response.body.Some?)
      && (r.value.Some? ==> r.value.value == ResponseToDataframe(reply.response.body.value, false))
  {
  }
}

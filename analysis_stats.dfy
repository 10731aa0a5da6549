/** The analysis statistics client (analysis_stats.py): the default date
    window, the query parameters, and the reading of the reply. */
module AnalysisStats {
  import opened Basics
  import opened Dicts
  import opened Json
  import opened Http
  import opened Tables
  import opened Calendar
  import opened Strptime
  import opened Utils
  import opened Auth

  const AnalysisEndpoint: string := "analysis-stats/"
  const NotLoggedInMessage: string := "Authentication required. Please login first."

  /** The default window is the 60 days before the end date. */
  const WindowDays: nat := 60

  /** `end_date`, or today when it is absent or empty. */
  function EndDate(endDate: Option<string>, today: Date): (r: string)
    requires ValidDate(today)
    ensures endDate.Some? && endDate.value != "" ==> r == endDate.value
    ensures endDate.None? || endDate.value == "" ==> r == DateText(today)
  {
    if endDate.Some? && endDate.value != "" then endDate.value else DateText(today)
  }

  /** `start_date`, or the date 60 days before `end`; parsing `end` can
      raise strptime's ValueError, and going before 0001-01-01
      OverflowError. */
  function StartDate(startDate: Option<string>, end: string): Result<string>
  {
    if startDate.Some? && startDate.value != "" then Ok(startDate.value)
    else match ParseDate(end)
      case Err(e) => Err(e)
      case Ok(d) =>
        match MinusDays(d, WindowDays)
        case None => Err(OverflowError("date value out of range"))
        case Some(s) => Ok(DateText(s))
  }

  /** `field_id`: a list joined by "," after `str` of each element, any
      other value stringified, and None left out. */
  function FieldIdParam(fieldIds: Json): (r: Option<string>)
    ensures r.None? <==> fieldIds.JNull?
  {
    match fieldIds
    case JNull => None
    case JArray(xs) => Some(Join(",", seq(|xs|, i requires 0 <= i < |xs| => Str(xs[i]))))
    case v => Some(Str(v))
  }

  /** A `format_date` result as a parameter value: None stays None. */
  function ParamValue(v: Option<string>): Json
  {
    if v.Some? then JStr(v.value) else JNull
  }

  function AnalysisParams(start: string, end: string, fieldIds: Json): Dict<Json>
  {
    var dates := [("start_date", ParamValue(FormatDate(Some(start)))), ("end_date", ParamValue(FormatDate(Some(end))))];
    match FieldIdParam(fieldIds)
    case None => dates
    case Some(f) => dates + [("field_id", JStr(f))]
  }

  /** What `get_analysis_stats(start_date, end_date, field_ids)` returns or
      raises, with the session headers, today's date and the reply as
      inputs, and the request it sends. */
  function AnalysisOutcome(headers: Dict<string>, startDate: Option<string>, endDate: Option<string>,
                           fieldIds: Json, today: Date, reply: Reply): (Result<Option<Table>>, Option<Request>)
    requires ValidDate(today)
  {
    var end := EndDate(endDate, today);
    match StartDate(startDate, end)
    case Err(e) => (Err(e), None)
    case Ok(start) =>
      var sent := Request("GET", GetApiUrl(AnalysisEndpoint), AnalysisParams(start, end, fieldIds), JNull, headers);
      (Ok(TableOfReply(reply, true)), Some(sent))
  }

  class AnalysisStatsClient {
    const auth: TerraClimAuth

    constructor(auth: TerraClimAuth)
      ensures this.auth == auth
    {
      this.auth := auth;
    }

    method GetAnalysisStats(startDate: Option<string>, endDate: Option<string>, fieldIds: Json,
                            today: Date, reply: Reply)
      returns (r: Result<Option<Table>>, sent: Option<Request>)
      requires ValidDate(today)
      ensures (r, sent) == AnalysisOutcome(auth.headers, startDate, endDate, fieldIds, today, reply)
    {
      var url := GetApiUrl(AnalysisEndpoint);
      var window := DefaultDates(startDate, endDate, today);
      if window.Err? {
        return Err(window.error), None;
      }
      var (start, end) := window.value;
      var params: Dict<Json> := [("start_date", ParamValue(FormatDate(Some(start)))),
                                 ("end_date", ParamValue(FormatDate(Some(end))))];
      if !fieldIds.JNull? {
        params := Put(params, "field_id", JStr(FieldIdParam(fieldIds).value));
      }
      ParamsBuilt(start, end, fieldIds);
      OutcomeOnceDated(auth.headers, startDate, endDate, fieldIds, today, reply, start, end);
      sent := Some(Request("GET", url, params, JNull, auth.headers));
      r := Ok(TableOfReply(reply, true));
    }
  }

  /** The date defaulting of `get_analysis_stats`: `end_date` becomes today
      when falsy, then `start_date` 60 days before it when falsy. */
  method DefaultDates(startDate: Option<string>, endDate: Option<string>, today: Date)
    returns (r: Result<(string, string)>)
    requires ValidDate(today)
    ensures var end := EndDate(endDate, today);
      match StartDate(startDate, end)
      case Ok(start) => r == Ok((start, end))
      case Err(e) => r == Err(e)
  {
    var end := if endDate.Some? then endDate.value else "";
    if end == "" {
      end := DateText(today);
    }
    var start := if startDate.Some? then startDate.value else "";
    if start == "" {
      var parsed := ParseDate(end);
      if parsed.Err? {
        return Err(parsed.error);
      }
      var earlier := MinusDays(parsed.value, WindowDays);
      if earlier.None? {
        return Err(OverflowError("date value out of range"));
      }
      start := DateText(earlier.value);
    }
    return Ok((start, end));
  }

  /** The parameter dict as the method fills it. */
  lemma ParamsBuilt(start: string, end: string, fieldIds: Json)
    ensures var dates: Dict<Json> := [("start_date", ParamValue(FormatDate(Some(start)))),
                                      ("end_date", ParamValue(FormatDate(Some(end))))];
      AnalysisParams(start, end, fieldIds)
        == if fieldIds.JNull? then dates else Put(dates, "field_id", JStr(FieldIdParam(fieldIds).value))
  {
    var dates: Dict<Json> := [("start_date", ParamValue(FormatDate(Some(start)))),
                              ("end_date", ParamValue(FormatDate(Some(end))))];
    assert Keys(dates) == ["start_date", "end_date"];
    if !fieldIds.JNull? {
      PutAppend(dates, "field_id", JStr(FieldIdParam(fieldIds).value));
    }
  }

  /** Once both dates are settled, the outcome is the request and the
      reply's table. */
  lemma OutcomeOnceDated(headers: Dict<string>, startDate: Option<string>, endDate: Option<string>,
                         fieldIds: Json, today: Date, reply: Reply, start: string, end: string)
    requires ValidDate(today)
    requires EndDate(endDate, today) == end && StartDate(startDate, end) == Ok(start)
    ensures AnalysisOutcome(headers, startDate, endDate, fieldIds, today, reply)
      == (Ok(TableOfReply(reply, true)),
          Some(Request("GET", GetApiUrl(AnalysisEndpoint), AnalysisParams(start, end, fieldIds), JNull, headers)))
  {
  }

  /** `AnalysisStats(auth_client)`: only an authenticated session is
      accepted; a new one never is. */
  method Open(authClient: Option<TerraClimAuth>) returns (r: Result<AnalysisStatsClient>)
    ensures r.Ok? <==> authClient.Some? && authClient.value.IsAuthenticated()
    ensures r.Err? ==> r.error == ValueError(NotLoggedInMessage)
    ensures r.Ok? ==> r.value.auth == authClient.value
  {
    if authClient.None? || !authClient.value.IsAuthenticated() {
      return Err(ValueError(NotLoggedInMessage));
    }
    var client := new AnalysisStatsClient(authClient.value);
    return Ok(client);
  }

  // ---------------------------------------------------------------------
  // Properties

  /** Without a start date, a valid end date more than 60 days after
      0001-01-01 gives the date exactly 60 days earlier. */
  lemma DefaultStartIsSixtyDaysEarlier(end: Date)
    requires ValidDate(end) && Ordinal(end) > WindowDays
    ensures var r := StartDate(None, DateText(end));
      r.Ok? && exists s :: ValidDate(s) && Ordinal(s) == Ordinal(end) - WindowDays && r.value == DateText(s)
  {
    Pad4Year(end.year);
    ValuePad4(end.year);
    ParseDateFields(Pad4(end.year), end.month, end.day, Pad2(end.month), Pad2(end.day));
  }

  /** Without either date, the window ends today and starts 60 days
      before. */
  lemma DefaultWindow(startDate: Option<string>, endDate: Option<string>, today: Date)
    requires ValidDate(today) && Ordinal(today) > WindowDays
    requires startDate.None? || startDate.value == ""
    requires endDate.None? || endDate.value == ""
    ensures EndDate(endDate, today) == DateText(today)
    ensures var r := StartDate(startDate, EndDate(endDate, today));
      r.Ok? && exists s :: ValidDate(s) && Ordinal(s) == Ordinal(today) - WindowDays && r.value == DateText(s)
  {
    DefaultStartIsSixtyDaysEarlier(today);
  }

  /** Without a start date, an end date strptime rejects raises its
      ValueError, and one in the first 60 days of the calendar raises
      OverflowError. */
  lemma DefaultStartErrors(end: string)
    ensures ParseDate(end).Err? ==> StartDate(None, end) == Err(ParseDate(end).error)
    ensures ParseDate(end).Ok? && Ordinal(ParseDate(end).value) <= WindowDays
      ==> StartDate(None, end) == Err(OverflowError("date value out of range"))
  {
  }

  /** An end date in the right shape that names no date raises datetime's
      own message: "2024-02-30" gives "day is out of range for month",
      "0000-01-01" gives "year 0 is out of range". */
  lemma DefaultStartNonexistentEnd(y: nat, m: nat, d: nat)
    requires y <= 9999 && 1 <= m <= 12 && 1 <= d <= 31 && !ValidDate(Date(y, m, d))
    ensures StartDate(None, Pad4(y) + "-" + Pad2(m) + "-" + Pad2(d)) == Err(CheckDate(Date(y, m, d)).error)
    ensures y == 0 ==> StartDate(None, Pad4(y) + "-" + Pad2(m) + "-" + Pad2(d)) == Err(ValueError("year 0 is out of range"))
    ensures y == 2024 && m == 2 && d == 30
      ==> StartDate(None, Pad4(y) + "-" + Pad2(m) + "-" + Pad2(d)) == Err(ValueError("day is out of range for month"))
  {
    var end := Pad4(y) + "-" + Pad2(m) + "-" + Pad2(d);
    assert ParseDate(end) == CheckDate(Date(y, m, d)) by {
      Pad4Year(y);
      ValuePad4(y);
      ParseDateFields(Pad4(y), m, d, Pad2(m), Pad2(d));
    }
    if y == 0 {
      YearZeroMessage(m, d);
    } else if y == 2024 && m == 2 && d == 30 {
      FebruaryThirtiethMessage();
    }
  }

  /** A date error is raised before any request is sent. */
  lemma DateErrorSendsNothing(headers: Dict<string>, startDate: Option<string>, endDate: Option<string>,
                              fieldIds: Json, today: Date, reply: Reply)
    requires ValidDate(today)
    requires StartDate(startDate, EndDate(endDate, today)).Err?
    ensures AnalysisOutcome(headers, startDate, endDate, fieldIds, today, reply)
      == (Err(StartDate(startDate, EndDate(endDate, today)).error), None)
  {
  }

  /** The parameters always hold both dates, each passed through
      `format_date`, then `field_id` exactly when field ids are given. */
  lemma ParamsShape(start: string, end: string, fieldIds: Json)
    ensures var p := AnalysisParams(start, end, fieldIds);
      Keys(p) == ["start_date", "end_date"] + (if fieldIds.JNull? then [] else ["field_id"])
      && Get(p, "start_date") == Some(ParamValue(FormatDate(Some(start))))
      && Get(p, "end_date") == Some(ParamValue(FormatDate(Some(end))))
      && (!fieldIds.JNull? ==> Get(p, "field_id") == Some(JStr(FieldIdParam(fieldIds).value)))
  {
    var dates: Dict<Json> := [("start_date", ParamValue(FormatDate(Some(start)))), ("end_date", ParamValue(FormatDate(Some(end))))];
    assert Keys(dates) == ["start_date", "end_date"];
    if !fieldIds.JNull? {
      var extra: Dict<Json> := [("field_id", JStr(FieldIdParam(fieldIds).value))];
      KeysConcat(dates, extra);
      PutAppend(dates, "field_id", JStr(FieldIdParam(fieldIds).value));
    }
  }

  /** A list of field ids becomes their decimal strings joined by ",", an
      empty list the empty string. */
  lemma FieldIdList(ids: seq<int>)
    ensures var xs := seq(|ids|, i requires 0 <= i < |ids| => JInt(ids[i]));
      FieldIdParam(JArray(xs)) == Some(Join(",", seq(|ids|, i requires 0 <= i < |ids| => Decimal(ids[i]))))
    ensures FieldIdParam(JArray([])) == Some("")
  {
    var xs := seq(|ids|, i requires 0 <= i < |ids| => JInt(ids[i]));
    assert seq(|xs|, i requires 0 <= i < |xs| => Str(xs[i])) == seq(|ids|, i requires 0 <= i < |ids| => Decimal(ids[i]));
  }

  /** A single field id is stringified. */
  lemma FieldIdScalar(id: int)
    ensures FieldIdParam(JInt(id)) == Some(Decimal(id))
  {
  }

  /** Every call that gets as far as sending answers None on a failed
      exchange and the flattened table of the body otherwise. */
  lemma AnalysisReply(headers: Dict<string>, startDate: Option<string>, endDate: Option<string>,
                      fieldIds: Json, today: Date, reply: Reply)
    requires ValidDate(today)
    ensures var (r, sent) := AnalysisOutcome(headers, startDate, endDate, fieldIds, today, reply);
      (r.Ok? <==> sent.Some?)
      && (r.Ok? ==> (r.value.Some? <==> reply.Received? && reply.response.Ok() && reply.response.body.Some?))
      && (r.Ok? && r.value.Some? ==> r.value.value == ResponseToDataframe(reply.response.body.value, true))
  {
  }
}

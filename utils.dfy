/** The shared helpers of the client (utils.py; the copy at the top of the
    repository is the same file): API URLs, date normalisation, the
    classification of error responses, and the conversion of a JSON body
    into a table. */
module Utils {
  import opened Basics
  import opened Dicts
  import opened Json
  import opened Http
  import opened Tables
  import opened Calendar
  import opened Strptime

  const BaseUrl: string := "https://dashboard.staging.terraclim.co.za"
  const ApiVersion: string := "v0"

  /** Everything `GetApiUrl` puts in front of the endpoint. */
  function ApiPrefix(): string
  {
    BaseUrl + "/api/" + ApiVersion + "/"
  }

  lemma ApiPrefixText()
    ensures ApiPrefix() == "https://dashboard.staging.terraclim.co.za/api/v0/"
  {
  }

  function Slashes(n: nat): (s: string)
    ensures |s| == n && forall k :: 0 <= k < n ==> s[k] == '/'
  {
    if n == 0 then "" else "/" + Slashes(n - 1)
  }

  /** `s.lstrip('/')`: `s` is some slashes followed by the result, and the
      result does not start with a slash. */
  function LStripSlash(s: string): (r: string)
    ensures |r| <= |s| && s == Slashes(|s| - |r|) + r
    ensures r == [] || r[0] != '/'
  {
    if s != [] && s[0] == '/' then
      var r := LStripSlash(s[1..]);
      assert s == "/" + s[1..];
      r
    else s
  }

  /** `get_api_url(endpoint)`. */
  function GetApiUrl(endpoint: string): (url: string)
    ensures StartsWith(url, ApiPrefix())
    ensures var rest := url[|ApiPrefix()|..];
      (rest == [] || rest[0] != '/') && exists n: nat :: endpoint == Slashes(n) + rest
  {
    var rest := LStripSlash(endpoint);
    var url := ApiPrefix() + rest;
    assert url[|ApiPrefix()|..] == rest;
    url
  }

  /** An endpoint without a leading '/' is appended as it is. */
  lemma PlainEndpointUrl(endpoint: string)
    requires endpoint == [] || endpoint[0] != '/'
    ensures GetApiUrl(endpoint) == ApiPrefix() + endpoint
  {
  }

  lemma {:induction false} StripSlashes(endpoint: string, n: nat)
    ensures LStripSlash(Slashes(n) + endpoint) == LStripSlash(endpoint)
  {
    if n > 0 {
      var s := Slashes(n) + endpoint;
      assert s[0] == '/' && s[1..] == Slashes(n - 1) + endpoint;
      StripSlashes(endpoint, n - 1);
    } else {
      assert Slashes(0) + endpoint == endpoint;
    }
  }

  /** However many slashes lead the endpoint, the URL is the same, so
      "farms/", "/farms/" and "///farms/" name the same resource. */
  lemma LeadingSlashesIgnored(endpoint: string, n: nat)
    ensures GetApiUrl(Slashes(n) + endpoint) == GetApiUrl(endpoint)
  {
    StripSlashes(endpoint, n);
  }

  // ---------------------------------------------------------------------
  // format_date

  /** `format_date(date_str)`: None for an absent or empty input, otherwise
      the ISO form of the first of '%Y-%m-%d' and '%Y-%m-%d %H:%M:%S' that
      parses; the ValueError of each failed attempt is swallowed. */
  function FormatDate(dateStr: Option<string>): (r: Option<string>)
    ensures dateStr.None? || dateStr.value == "" ==> r.None?
    ensures r.Some? ==> exists t :: ValidDateTime(t) && r.value == IsoFormat(t)
  {
    match dateStr
    case None => None
    case Some(s) =>
      if s == "" then None
      else match ParseDate(s)
      case Ok(d) => Some(IsoFormat(DateTime(d, 0, 0, 0)))
      case Err(_) =>
        match ParseDateTime(s)
        case Ok(t) => Some(IsoFormat(t))
        case Err(_) => None
  }

  /** A valid date written YYYY-MM-DD is returned as the same date at
      midnight. */
  lemma FormatDateOfDate(d: Date)
    requires ValidDate(d)
    ensures FormatDate(Some(DateText(d))) == Some(DateText(d) + "T00:00:00")
  {
    Pad4Year(d.year);
    ValuePad4(d.year);
    ParseDateFields(Pad4(d.year), d.month, d.day, Pad2(d.month), Pad2(d.day));
    Midnight(d);
  }

  lemma Midnight(d: Date)
    requires ValidDate(d)
    ensures IsoFormat(DateTime(d, 0, 0, 0)) == DateText(d) + "T00:00:00"
  {
    assert DigitChar(0) == '0';
    assert Pad2(0) == "00";
  }

  /** strptime also takes a month or day without its leading zero; the
      result is zero-padded all the same. */
  lemma FormatDateUnpadded(d: Date)
    requires ValidDate(d)
    ensures FormatDate(Some(Pad4(d.year) + "-" + NatDecimal(d.month) + "-" + NatDecimal(d.day)))
         == Some(DateText(d) + "T00:00:00")
  {
    Pad4Year(d.year);
    ValuePad4(d.year);
    NatDecimalSpelled(d.month);
    NatDecimalSpelled(d.day);
    ParseDateFields(Pad4(d.year), d.month, d.day, NatDecimal(d.month), NatDecimal(d.day));
    Midnight(d);
  }

  /** %Y is `\d\d\d\d`, which takes any decimal digits: "<Y>-MM-DD" for
      four such digits is read as the year they spell. */
  lemma FormatDateAnyYearDigits(yt: string, m: nat, d: nat)
    requires YearDigits(yt) && ValidDate(Date(Value(yt), m, d))
    ensures FormatDate(Some(yt + "-" + Pad2(m) + "-" + Pad2(d))) == Some(DateText(Date(Value(yt), m, d)) + "T00:00:00")
  {
    ParseDateFields(yt, m, d, Pad2(m), Pad2(d));
    Midnight(Date(Value(yt), m, d));
  }

  /** Arabic-Indic "2024" is such a year: "\u0662\u0660\u0662\u0664-01-01"
      gives "2024-01-01T00:00:00". */
  lemma ArabicIndicYear(yt: string)
    requires |yt| == 4 && yt[0] == '\U{0662}' && yt[1] == '\U{0660}' && yt[2] == '\U{0662}' && yt[3] == '\U{0664}'
    ensures YearDigits(yt) && Value(yt) == 2024
  {
    forall k | 0 <= k < 4
      ensures IsDigit(yt[k]) && DigitValue(yt[k]) == yt[k] as int - 0x660
    {
      ArabicIndicDigit(yt[k]);
    }
    Value4(yt);
  }

  /** `DateText(t.date) + sep + HH:MM:SS`, the second accepted form. */
  function DateTimeText(t: DateTime, sep: char): (r: string)
    requires ValidDateTime(t)
    ensures |r| == 19 && r[..10] == DateText(t.date) && r[10] == sep
  {
    DateText(t.date) + [sep] + Pad2(t.hour) + ":" + Pad2(t.minute) + ":" + Pad2(t.second)
  }

  /** A valid "YYYY-MM-DD HH:MM:SS", with any whitespace character for the
      space (as `\s+` in the compiled format allows), is returned in ISO
      form with T in its place. */
  lemma FormatDateOfDateTime(t: DateTime, sep: char)
    requires ValidDateTime(t) && IsSpace(sep)
    ensures FormatDate(Some(DateTimeText(t, sep))) == Some(IsoFormat(t))
  {
    var s := DateTimeText(t, sep);
    assert ParseDate(s).Err? by {
      var d := t.date;
      var rest := [sep] + Pad2(t.hour) + ":" + Pad2(t.minute) + ":" + Pad2(t.second);
      assert s == Pad4(d.year) + "-" + Pad2(d.month) + "-" + Pad2(d.day) + rest;
      ParseDateTrailing(d.year, d.month, d.day, rest);
    }
    assert ParseDateTime(s) == Ok(t) by {
      var d := t.date;
      ParseDateTimeFields(d.year, d.month, d.day, t.hour, t.minute, t.second, sep);
    }
  }

  /** A unit separator (U+001F) is whitespace to Python's `\s`, so it is
      taken for the space: "2024-01-01\x1f12:00:00" gives
      "2024-01-01T12:00:00". */
  lemma FormatDateUnitSeparator(t: DateTime)
    requires ValidDateTime(t)
    ensures FormatDate(Some(DateTimeText(t, '\U{001F}'))) == Some(IsoFormat(t))
  {
    FormatDateOfDateTime(t, '\U{001F}');
  }

  /** The two forms differ only in the separator at index 10. */
  lemma IsoFormatSeparator(t: DateTime)
    requires ValidDateTime(t)
    ensures IsoFormat(t)[..10] + " " + IsoFormat(t)[11..] == DateTimeText(t, ' ')
  {
    var x := Pad2(t.hour) + ":" + Pad2(t.minute) + ":" + Pad2(t.second);
    assert DateTimeText(t, ' ') == DateText(t.date) + " " + x;
    assert IsoFormat(t) == DateText(t.date) + "T" + x;
    assert IsoFormat(t)[..10] == DateText(t.date);
    assert IsoFormat(t)[11..] == x;
  }

  /** February 30th, February 29th of a common year, April 31st, year 0000:
      text in the right shape naming a date that does not exist gives None. */
  lemma FormatDateRejectsNonexistentDate(y: nat, m: nat, d: nat)
    requires y <= 9999 && 1 <= m <= 12 && 1 <= d <= 31
    requires !ValidDate(Date(y, m, d))
    ensures FormatDate(Some(Pad4(y) + "-" + Pad2(m) + "-" + Pad2(d))) == None
  {
    Pad4Year(y);
    ValuePad4(y);
    ParseDateFields(Pad4(y), m, d, Pad2(m), Pad2(d));
    ParseDateTimeNeedsSpace(y, m, d, "");
    assert Pad4(y) + "-" + Pad2(m) + "-" + Pad2(d) + "" == Pad4(y) + "-" + Pad2(m) + "-" + Pad2(d);
  }

  /** The output form is not an accepted input: format_date is not
      idempotent. */
  lemma FormatDateNotIdempotent(t: DateTime)
    requires ValidDateTime(t)
    ensures FormatDate(Some(IsoFormat(t))) == None
  {
    var d := t.date;
    var rest := "T" + Pad2(t.hour) + ":" + Pad2(t.minute) + ":" + Pad2(t.second);
    assert IsoFormat(t) == Pad4(d.year) + "-" + Pad2(d.month) + "-" + Pad2(d.day) + rest;
    ParseDateTrailing(d.year, d.month, d.day, rest);
    ParseDateTimeNeedsSpace(d.year, d.month, d.day, rest);
  }

  /** Whatever text was accepted, writing the result back with a space is
      accepted again and gives the same result. */
  lemma FormatDateCanonical(s: string)
    requires FormatDate(Some(s)).Some?
    ensures var r := FormatDate(Some(s)).value;
      FormatDate(Some(r[..10] + " " + r[11..])) == Some(r)
  {
    var r := FormatDate(Some(s)).value;
    var t :| ValidDateTime(t) && r == IsoFormat(t);
    FormatDateOfDateTime(t, ' ');
    IsoFormatSeparator(t);
  }

  // ---------------------------------------------------------------------
  // handle_error_response

  /** `handle_error_response(response)`: the success flag and message. */
  function HandleErrorResponse(resp: Response): (r: (bool, Json))
  {
    if resp.Ok() then (true, JNull)
    else match resp.body
      case None => (false, JStr(if resp.text != "" then resp.text else "HTTP " + Decimal(resp.status)))
      case Some(JObject(ms)) =>
        (false, if HasKey(ms, "detail") then GetOr(ms, "detail", JNull)
                else if HasKey(ms, "message") then GetOr(ms, "message", JNull)
                else JStr(Str(JObject(ms))))
      case Some(v) => (false, JStr(Str(v)))
  }

  /** Success exactly when the response is ok; the body is then not looked at. */
  lemma ErrorResponseSuccessIffOk(resp: Response)
    ensures HandleErrorResponse(resp).0 <==> resp.Ok()
    ensures resp.Ok() ==> forall b :: HandleErrorResponse(resp.(body := b)) == (true, JNull)
  {
  }

  /** On a failed response with a JSON object body, `detail` wins whenever
      it is present, even when its value is null; `message` comes next; the
      stringified object last. */
  lemma ErrorResponseObjectPrecedence(resp: Response, ms: Dict<Json>)
    requires !resp.Ok() && resp.body == Some(JObject(ms))
    ensures HasKey(ms, "detail") ==> HandleErrorResponse(resp) == (false, Get(ms, "detail").value)
    ensures !HasKey(ms, "detail") && HasKey(ms, "message") ==> HandleErrorResponse(resp) == (false, Get(ms, "message").value)
    ensures !HasKey(ms, "detail") && !HasKey(ms, "message") ==> HandleErrorResponse(resp) == (false, JStr(Repr(JObject(ms))))
  {
  }

  /** A failed response whose body parses to something other than an
      object has that value, stringified, as its message; an unparsable
      body gives the body text, or "HTTP <status>" when the text is empty. */
  lemma ErrorResponseOtherBodies(resp: Response)
    requires !resp.Ok()
    ensures resp.body.Some? && !resp.body.value.JObject? ==> HandleErrorResponse(resp) == (false, JStr(Str(resp.body.value)))
    ensures resp.body.None? && resp.text != "" ==> HandleErrorResponse(resp) == (false, JStr(resp.text))
    ensures resp.body.None? && resp.text == "" ==> HandleErrorResponse(resp) == (false, JStr("HTTP " + Decimal(resp.status)))
  {
  }

  // ---------------------------------------------------------------------
  // response_to_dataframe

  predicate IsObject(v: Json)
  {
    v.JObject?
  }

  function Concat<T>(xss: seq<seq<T>>): seq<T>
  {
    if xss == [] then [] else xss[0] + Concat(xss[1..])
  }

  /** The column name pandas gives a nested key: parent and key joined by
      ".", or the key alone under an empty parent. */
  function PathJoin(prefix: string, key: string): string
  {
    if prefix == "" then key else prefix + "." + key
  }

  /** The (dotted path, leaf) pairs pandas' `_normalise_json` assigns for a
      value reached by `prefix`; an empty nested object contributes nothing. */
  function Paths(prefix: string, v: Json): seq<(string, Json)>
    decreases v
  {
    match v
    case JObject(ms) =>
      Concat(seq(|ms|, i requires 0 <= i < |ms| => Paths(PathJoin(prefix, ms[i].0), ms[i].1)))
    case _ => [(prefix, v)]
  }

  /** Members whose value is not an object, in order. */
  function Leaves(ms: Dict<Json>): (r: Dict<Json>)
    ensures (forall i :: 0 <= i < |ms| ==> !IsObject(ms[i].1)) ==> r == ms
  {
    if ms == [] then []
    else (if IsObject(ms[0].1) then [] else [ms[0]]) + Leaves(ms[1..])
  }

  /** Members whose value is an object, in order. */
  function Branches(ms: Dict<Json>): (r: Dict<Json>)
    ensures (forall i :: 0 <= i < |ms| ==> !IsObject(ms[i].1)) ==> r == []
  {
    if ms == [] then []
    else (if IsObject(ms[0].1) then [ms[0]] else []) + Branches(ms[1..])
  }

  /** `json_normalize` of one record: the non-object members first, as they
      are, then the leaves of the nested objects under dotted names. */
  function Flatten(ms: Dict<Json>): Record
  {
    PutAll(FromPairs(Leaves(ms)), FromPairs(NestedPaths(Branches(ms))))
  }

  /** The dotted paths of the nested objects, in order. */
  function NestedPaths(branches: Dict<Json>): (r: seq<(string, Json)>)
    ensures branches == [] ==> r == []
  {
    Concat(seq(|branches|, i requires 0 <= i < |branches| => Paths(branches[i].0, branches[i].1)))
  }

  lemma FlatParts(ms: Dict<Json>)
    requires forall i :: 0 <= i < |ms| ==> !IsObject(ms[i].1)
    ensures Leaves(ms) == ms && NestedPaths(Branches(ms)) == []
  {
  }

  lemma FromNoPairs(d: Dict<Json>)
    ensures PutAll(d, FromPairs([])) == d
  {
    var empty: Dict<Json> := [];
    assert FromPairs(empty) == empty;
  }

  /** A record without nested objects is its own flattening. */
  lemma FlattenFlat(ms: Dict<Json>)
    requires Distinct(Keys(ms))
    requires forall i :: 0 <= i < |ms| ==> !IsObject(ms[i].1)
    ensures Flatten(ms) == ms
  {
    FlatParts(ms);
    FromPairsDistinct(ms);
    FromNoPairs(ms);
  }

  /** What `_simple_json_normalize` makes of an element of a list: an
      object is flattened, a list is normalised item by item, and anything
      else becomes an empty dict. */
  function Normalized(v: Json): (r: Json)
    ensures v.JArray? <==> r.JArray?
    ensures v.JArray? ==> |r.items| == |v.items| && forall i :: 0 <= i < |v.items| ==> r.items[i] == Normalized(v.items[i])
    ensures v.JObject? ==> r == JObject(Flatten(v.members))
    ensures !v.JArray? && !v.JObject? ==> r == JObject([])
  {
    match v
    case JObject(ms) => JObject(Flatten(ms))
    case JArray(xs) => JArray(seq(|xs|, i requires 0 <= i < |xs| => Normalized(xs[i])))
    case _ => JObject([])
  }

  /** A list as a row of `pd.DataFrame`: item i under the column `i`. */
  function Positional(xs: seq<Json>): (r: Record)
    ensures |r| == |xs| && forall i :: 0 <= i < |xs| ==> r[i] == (Decimal(i), xs[i])
  {
    seq(|xs|, i requires 0 <= i < |xs| => (Decimal(i), xs[i]))
  }

  /** The record pandas builds for one element of a list, or None where the
      model treats the element as a conversion failure. The first element
      decides the shape: a list of lists is two-dimensional, anything else
      a list of dicts (after flattening, every object and every scalar is a
      dict). */
  function ElementRecord(v: Json, flatten: bool, first: Json): Option<Record>
  {
    if flatten then
      if first.JArray? then
        if v.JArray? then Some(Positional(Normalized(v).items)) else None
      else match v
        case JObject(ms) => Some(Flatten(ms))
        case JArray(_) => None
        case _ => Some([])
    else match first
      case JObject(_) => if v.JObject? then Some(v.members) else None
      case JArray(_) => if v.JArray? then Some(Positional(v.items)) else None
      case _ => Some([("0", v)])
  }

  function ElementRecords(items: seq<Json>, flatten: bool, first: Json): (r: Option<seq<Record>>)
    ensures r.Some? ==> |r.value| == |items|
    ensures r.Some? ==> forall i :: 0 <= i < |items| ==> ElementRecord(items[i], flatten, first) == Some(r.value[i])
    ensures r.None? ==> exists i :: 0 <= i < |items| && ElementRecord(items[i], flatten, first).None?
  {
    if items == [] then Some([])
    else match (ElementRecord(items[0], flatten, first), ElementRecords(items[1..], flatten, first))
      case (Some(x), Some(xs)) =>
        assert forall i :: 1 <= i < |items| ==> items[i] == items[1..][i - 1];
        Some([x] + xs)
      case (None, _) => None
      case (_, None) =>
        var i :| 0 <= i < |items[1..]| && ElementRecord(items[1..][i], flatten, first).None?;
        assert items[i + 1] == items[1..][i];
        None
  }

  /** `response_to_dataframe(response_data, flatten)`. */
  function ResponseToDataframe(data: Json, flatten: bool): (t: Table)
    ensures WellFormed(t)
  {
    if !Truthy(data) then EmptyTable
    else match data
      case JObject(ms) => FromRecords([if flatten then Flatten(ms) else ms])
      case JArray(items) =>
        (match ElementRecords(items, flatten, items[0])
         case Some(records) => FromRecords(records)
         case None => EmptyTable)
      case _ => EmptyTable
  }

  /** Falsy data (None, an empty list or dict, "", 0, False) gives a table
      with no rows. */
  lemma DataframeOfFalsy(data: Json, flatten: bool)
    requires !Truthy(data)
    ensures ResponseToDataframe(data, flatten).rows == []
  {
  }

  /** A single object gives exactly one row: the object itself, or its
      flattening; without flattening its keys are the columns. */
  lemma DataframeOfObject(ms: Dict<Json>, flatten: bool)
    requires ms != [] && Distinct(Keys(ms))
    ensures var t := ResponseToDataframe(JObject(ms), flatten);
      t.rows == [if flatten then Flatten(ms) else ms]
      && (!flatten ==> forall c :: c in t.columns <==> c in Keys(ms))
  {
    var t := ResponseToDataframe(JObject(ms), flatten);
    assert forall c :: (exists i :: 0 <= i < 1 && c in Keys([ms][i])) <==> c in Keys(ms) by {
      assert [ms][0] == ms;
    }
  }

  /** A list gives one row per element, in order, or an empty table when
      the conversion fails; a list of objects never fails. */
  lemma DataframeOfList(items: seq<Json>, flatten: bool)
    requires items != []
    ensures var t := ResponseToDataframe(JArray(items), flatten);
      t == EmptyTable || |t.rows| == |items|
    ensures (forall i :: 0 <= i < |items| ==> items[i].JObject?) ==>
      var t := ResponseToDataframe(JArray(items), flatten);
      |t.rows| == |items|
      && forall i :: 0 <= i < |items| ==> t.rows[i] == (if flatten then Flatten(items[i].members) else items[i].members)
  {
    if forall i :: 0 <= i < |items| ==> items[i].JObject? {
      var r := ElementRecords(items, flatten, items[0]);
      if r.None? {
        assert false;
      }
    }
  }

  /** A list of lists gives one row per element, its items under the
      columns `0`, `1`, ...; flattened, each item is normalised
      (`[[1, 2], [3, 4]]` gives two rows of two columns either way). */
  lemma DataframeOfListOfLists(items: seq<Json>, flatten: bool)
    requires items != [] && forall i :: 0 <= i < |items| ==> items[i].JArray?
    ensures var t := ResponseToDataframe(JArray(items), flatten);
      |t.rows| == |items|
      && forall i :: 0 <= i < |items| ==>
           t.rows[i] == Positional(if flatten then Normalized(items[i]).items else items[i].items)
  {
    var r := ElementRecords(items, flatten, items[0]);
    if r.None? {
      assert false;
    }
  }

  /** Flattening an object without nested objects changes nothing. */
  lemma FlattenIdempotentOnFlat(ms: Dict<Json>)
    requires ms != [] && Distinct(Keys(ms))
    requires forall i :: 0 <= i < |ms| ==> !IsObject(ms[i].1)
    ensures ResponseToDataframe(JObject(ms), true) == ResponseToDataframe(JObject(ms), false)
  {
    FlattenFlat(ms);
    assert Truthy(JObject(ms));
    assert ResponseToDataframe(JObject(ms), true) == FromRecords([Flatten(ms)]);
    assert ResponseToDataframe(JObject(ms), false) == FromRecords([ms]);
  }

  /** How the statistics clients read a reply: a transport failure, a
      failed status or a body that is not JSON gives None (each is a
      `RequestException` they catch); any other body is converted. */
  function TableOfReply(reply: Reply, flatten: bool): (r: Option<Table>)
    ensures r.Some? <==> reply.Received? && reply.response.Ok() && reply.response.body.Some?
    ensures r.Some? ==> r.value == ResponseToDataframe(reply.response.body.value, flatten)
  {
    match reply
    case NetworkError(_) => None
    case Received(resp) =>
      if !HandleErrorResponse(resp).0 then None
      else match resp.body
        case None => None
        case Some(data) => Some(ResponseToDataframe(data, flatten))
  }
}

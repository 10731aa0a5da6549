# TerraCLIM client core, modelled in Dafny

TerraCLIM is a Python client for the TerraCLIM farm-data API. It is built for
Power BI scripts. A session logs in with a username and password, gets a
bearer token, and attaches it to every request. Thin endpoint clients turn the
JSON replies into pandas tables, and a wrapper layer guarantees that Power BI
always receives a table: an error becomes a one-row `error` table.

This project models the parts of the client that hold logic:

- **`Utils`** (`src/terraclim/utils.py`; the top-level `utils.py` is the same
  file). It covers:
  - the API URL builder;
  - `format_date`, with `datetime.strptime` for its two formats (`Strptime`)
    and the proleptic Gregorian calendar (`Calendar`);
  - the classification of error responses;
  - the conversion of a JSON body into a table (`Tables`).
- **`Auth`** (`src/terraclim/auth.py`): the session object, with its access
  token, refresh token and header map, changed in place by `login` and
  `refresh_tokens`.
- **`FarmPortions`**, **`AnalysisStats`** and **`OverviewStats`**: query
  construction, validation, date defaulting and reading of the reply.
- **`PowerBiWrapper`** (`src/terraclim/powerbi_wrapper.py`): table
  validation, the exception-to-table decorator, and the login flow of each
  wrapper.
- **`FarmFieldsReport`** (`examples/powerbi_farm_fields.py`): the farm records
  built from the first row, the merge-column selection, the column reordering,
  and the error table.

Every HTTP exchange is a value:

- a `Request` is the record of what would be sent;
- the server's answer is an input `Reply` (a `Response` or a transport
  failure);
- a response body is `Some(json)`, or `None` when it does not parse.

Python dicts are ordered association lists (`Dicts`). Python exceptions are
the `Exception` datatype, and an operation that can raise returns a
`Result`. The environment variables, today's date, `pd.Timestamp.now()` and
`json.loads` are parameters.

Where the code and the prose description of the system disagree, the model
follows the code:

- `get_farm_portions` turns the FeatureCollection object itself into the
  table. It makes one unflattened row whose columns are the collection's own
  keys, and never one row per feature. `PortionsNeedTopLevelColumns` states
  the consequence: the Power BI wrapper accepts a portions table only when
  the collection object itself has top-level `portion_id` and `farm_id` keys.
- No reply is checked for an HTML body.
- A response is ok unless its status is 4xx or 5xx, as in `requests`. A 1xx or
  3xx status therefore counts as success.
- `tests/test_analysis_stats.py:40-46` expects `get_analysis_stats()` to raise
  `ValueError` when no field ids are given. The code raises nothing there: it
  simply leaves `field_id` out of the parameters (`FieldIdParam`).

`datetime.strptime` is modelled as CPython 3.12 runs it:

- the format is compiled into a regular expression whose directives are
  groups of alternatives (`%m` is `1[0-2]|0[1-9]|[1-9]`, `%d` also has
  ` [1-9]`), tried in order with backtracking;
- `%Y` is `\d\d\d\d` and the space is `\s+`, where `\d` and `\s` are the
  Unicode classes (all decimal digits; the whitespace characters, among them
  U+001C to U+001F);
- text left after the match raises "unconverted data remains: …", no match
  raises "time data … does not match format …";
- each capture is read by `int()`, then `datetime` checks the year, month,
  day, hour, minute and second in that order, each with its own message.

A further point concerns the version of `requests`. With `requests` 2.27 or
later, an unparsable body makes `response.json()` raise an exception that is
both a `ValueError` and a `RequestException`. Each caller therefore treats an
unparsable body as its own handler for those exceptions does:

- `login` returns False;
- the portions client returns None, from its inner `ValueError` handler;
- the statistics clients return None, from their `RequestException` handler.

## Model

| member | source | states |
|---|---|---|
| `Utils.GetApiUrl` | src/terraclim/utils.py:23-25 | the URL is the fixed base `…/api/v0/` followed by the endpoint with some number of leading slashes removed, and what follows the base never starts with `/` |
| `Utils.LStripSlash` | src/terraclim/utils.py:24 | the input is the result preceded by some slashes, and the result does not start with `/` |
| `Utils.LeadingSlashesIgnored` | src/terraclim/utils.py:23-25 | any number of leading slashes gives the same URL (`"farms/"`, `"/farms/"`, `"///farms/"`) |
| `Utils.ApiPrefixText` | src/terraclim/utils.py:10-11 | the base is `https://dashboard.staging.terraclim.co.za/api/v0/` |
| `Utils.FormatDate` | src/terraclim/utils.py:70-82 | None for an absent or empty input; any result is the ISO 8601 extended combined form of a date and time that exists |
| `Utils.FormatDateOfDate` | src/terraclim/utils.py:73-75 | a valid `YYYY-MM-DD` maps to itself followed by `T00:00:00` |
| `Utils.FormatDateUnpadded` | src/terraclim/utils.py:73-75 | a month or day written without its leading zero is accepted, and the output is zero-padded |
| `Utils.FormatDateOfDateTime` | src/terraclim/utils.py:76-80 | a valid `YYYY-MM-DD HH:MM:SS`, with any whitespace character for the space, maps to the ISO form of the same date and time |
| `Utils.FormatDateUnitSeparator` | src/terraclim/utils.py:76-80 | U+001F in place of the space is accepted (`"2024-01-01\x1f12:00:00"` gives `"2024-01-01T12:00:00"`) |
| `Utils.DateTimeText` | src/terraclim/utils.py:79 | the second accepted form: the date, the separator at index 10, 19 characters |
| `Utils.FormatDateAnyYearDigits` | src/terraclim/utils.py:73-75 | a year in any four decimal digits is read as the year they spell |
| `Utils.ArabicIndicYear` | src/terraclim/utils.py:73-75 | Arabic-Indic `٢٠٢٤` are four such digits, spelling 2024 |
| `Utils.IsoFormatSeparator` | src/terraclim/utils.py:79-80 | the ISO output differs from the date-time input only in the `T` at index 10 |
| `Utils.FormatDateRejectsNonexistentDate` | src/terraclim/utils.py:73-82 | text of the right shape naming a date that does not exist (February 30, February 29 of a common year, year 0) gives None |
| `Utils.FormatDateNotIdempotent` | src/terraclim/utils.py:73-82 | the function's own output is rejected: it gives None |
| `Utils.FormatDateCanonical` | src/terraclim/utils.py:73-80 | any accepted text's result, written back with a space, is accepted again and gives the same result |
| `Utils.ErrorResponseSuccessIffOk` | src/terraclim/utils.py:94-95 | success exactly when the response is ok, and then the result is `(True, None)` whatever the body |
| `Utils.ErrorResponseObjectPrecedence` | src/terraclim/utils.py:97-101 | for an object body of a failed response: `detail` when present, even if null; then `message`; then the stringified object |
| `Utils.ErrorResponseOtherBodies` | src/terraclim/utils.py:102-105 | a non-object JSON body gives its `str`; an unparsable body gives the text, or `HTTP <status>` when the text is empty |
| `Utils.ResponseToDataframe` | src/terraclim/utils.py:38-58 | the result is always a well-formed table: distinct columns, and every key of every row among them |
| `Utils.DataframeOfFalsy` | src/terraclim/utils.py:38-39 | falsy data gives a table without rows |
| `Utils.DataframeOfObject` | src/terraclim/utils.py:42-46 | an object gives exactly one row, the object or its flattening; unflattened, its keys are the columns |
| `Utils.DataframeOfList` | src/terraclim/utils.py:47-58 | a list gives one row per element or, on a conversion failure, an empty table; a list of objects gives row i from element i |
| `Utils.DataframeOfListOfLists` | src/terraclim/utils.py:47-51 | a list of lists gives one row per element, item j under column `j`, each item normalised when flattened |
| `Utils.Normalized` | src/terraclim/utils.py:48-49 | `_simple_json_normalize` of a list element: objects flattened, lists item by item, anything else an empty dict |
| `Utils.ElementRecords` | src/terraclim/utils.py:48-51 | one record per element, record i from element i, or None exactly when some element cannot be converted |
| `Utils.FlattenFlat` | src/terraclim/utils.py:44 | `json_normalize` of a record without nested objects is the record itself |
| `Utils.FlattenIdempotentOnFlat` | src/terraclim/utils.py:43-46 | for an object without nested objects, flattening does not change the table |
| `Utils.TableOfReply` | src/terraclim/analysis_stats.py:68-78 | a table exactly when the reply arrived, is ok and parses; the table is the conversion of the body |
| `Calendar.IsoFormat` | src/terraclim/utils.py:75 | `isoformat()`: 19 characters, the date, `T`, and the time separated by `:` |
| `Calendar.DateText` | src/terraclim/analysis_stats.py:45-47 | `strftime('%Y-%m-%d')`: 10 characters with `-` at 4 and 7 |
| `Calendar.Ordinal` | src/terraclim/analysis_stats.py:47 | `toordinal()`: 0001-01-01 is day 1, and every date is day 1 or later |
| `Calendar.PrevDay` | src/terraclim/analysis_stats.py:47 | the day before a date is a valid date whose ordinal is one less |
| `Calendar.MinusDays` | src/terraclim/analysis_stats.py:47 | subtracting n days succeeds exactly when the ordinal exceeds n (otherwise OverflowError), and gives a valid date whose ordinal is n less |
| `Calendar.OrdinalInjective` | src/terraclim/analysis_stats.py:47 | distinct valid dates have distinct ordinals, so the date n days earlier is unique |
| `Strptime.ParseDate` | src/terraclim/utils.py:74 | `strptime(s, '%Y-%m-%d')` accepts only dates that exist |
| `Strptime.ParseDateTime` | src/terraclim/utils.py:79 | `strptime(s, '%Y-%m-%d %H:%M:%S')` accepts only dates and times that exist |
| `Strptime.CheckDate` | src/terraclim/utils.py:74 | `date(y, m, d)` succeeds, with that date, exactly when the date exists; otherwise the year, month or day message, checked in that order |
| `Strptime.CheckDateTime` | src/terraclim/utils.py:79 | `datetime(...)` succeeds exactly when date and time exist; the date's checks come before the hour, minute and second checks |
| `Strptime.DigitFrom` | src/terraclim/utils.py:74 | a character `\d` accepts is zero-plus-v for one of the runs of ten decimal digits, with v its value below 10 |
| `Strptime.ArabicIndicDigit` | src/terraclim/utils.py:74 | U+0660 to U+0669 are digits to `\d`, with values 0 to 9 |
| `Strptime.AltAt` | src/terraclim/utils.py:74 | an alternative that matches fits in the text |
| `Strptime.Match` | src/terraclim/utils.py:74 | a match ends inside the text, at or after where it started |
| `Strptime.TrySpaces` | src/terraclim/utils.py:79 | `\s+` takes at least one character |
| `Strptime.MatchGroups` | src/terraclim/utils.py:74 | a match captures one text per directive of the format |
| `Strptime.IntOfSpelled` | src/terraclim/utils.py:74 | `int()` of a capture that spells n, with or without its leading zero, is n |
| `Strptime.ValuePad4` | src/terraclim/utils.py:74 | `int()` of a zero-padded four-digit year is that year |
| `Strptime.TimeFields` | src/terraclim/utils.py:79 | the captures of `\s+HH:MM:SS`, which ends the text |
| `Strptime.YearAt` | src/terraclim/utils.py:74 | `%Y` takes any four decimal digits, ASCII or not |
| `Strptime.MonthAt` | src/terraclim/utils.py:74 | `%m` before `-` takes the month written with or without its leading zero |
| `Strptime.DayLast` | src/terraclim/utils.py:74 | `%d` at the end of the format takes two digits, or one digit that ends the text |
| `Strptime.DayBeforeSpaces` | src/terraclim/utils.py:79 | `%d` before `\s+` takes the two digits of a zero-padded day |
| `Strptime.HourAt` | src/terraclim/utils.py:79 | `%H` before `:` takes a zero-padded hour |
| `Strptime.MinuteAt` | src/terraclim/utils.py:79 | `%M` before `:` takes a zero-padded minute |
| `Strptime.SecondLast` | src/terraclim/utils.py:79 | `%S` at the end takes a zero-padded second from 00 to 59 |
| `Strptime.SpaceStep` | src/terraclim/utils.py:79 | `\s+` over one whitespace character goes on right after it |
| `Strptime.DateFields` | src/terraclim/utils.py:74 | the three captures of `Y-M-D` are the year's digits and the month and the day as written |
| `Strptime.DateTimeFields` | src/terraclim/utils.py:79 | the six captures of `YYYY-MM-DD HH:MM:SS`, with any whitespace character for the space |
| `Strptime.ParseDateFields` | src/terraclim/utils.py:74 | `Y-M-D`, with any four digits for Y and M, D with or without the leading zero, is read as that date if it exists, and otherwise raises `date`'s own ValueError |
| `Strptime.ParseDateTrailing` | src/terraclim/utils.py:74 | a date followed by any further text raises "unconverted data remains: " with that text |
| `Strptime.ParseDateTimeFields` | src/terraclim/utils.py:79 | `YYYY-MM-DD`, any whitespace character, `HH:MM:SS` is read as that moment if it exists, and otherwise raises `datetime`'s own ValueError |
| `Strptime.ParseDateTimeNeedsSpace` | src/terraclim/utils.py:79 | without whitespace after the date, the second format raises "does not match format" |
| `Strptime.YearZeroMessage` | src/terraclim/analysis_stats.py:47 | year 0 raises "year 0 is out of range" |
| `Strptime.FebruaryThirtiethMessage` | src/terraclim/analysis_stats.py:47 | 2024-02-30 raises "day is out of range for month" |
| `Tables.FromRecords` | src/terraclim/utils.py:51 | the rows are the records; the columns are exactly the keys that occur, without repetition |
| `Tables.SingleCell` | src/terraclim/powerbi_wrapper.py:61 | one column and one row, holding the value |
| `Auth.TerraClimAuth.constructor` | src/terraclim/auth.py:14-22 | no tokens, and headers exactly Content-Type and Accept set to `application/json` |
| `Auth.InitialState` | src/terraclim/auth.py:16-22 | a fresh session is not authenticated and has exactly the two JSON headers |
| `Auth.Credential` | src/terraclim/auth.py:35-38 | the argument when non-empty, else the environment value when non-empty, else missing |
| `Auth.LoginNeedsCredentials` | src/terraclim/auth.py:35-39 | `login` raises ValueError exactly when a username or password is missing from both sources; it then sends no request and changes nothing |
| `Auth.TerraClimAuth.Login` | src/terraclim/auth.py:24-82 | the new fields, the answer and the request sent are those of `LoginOutcome`; True leaves the session authenticated with the matching bearer header |
| `Auth.LoginRejected` | src/terraclim/auth.py:53-64 | an unparsable body, a failed status, a transport failure or a non-object body: False, one request sent, session unchanged |
| `Auth.LoginAccepted` | src/terraclim/auth.py:66-76 | an ok object body overwrites both tokens, a missing one becoming None; True exactly when the new access token is truthy, and only then is the bearer header written, other headers kept |
| `Auth.StoreTokensHeaders` | src/terraclim/auth.py:68-72 | storing tokens sets `Authorization` to `Bearer <access>` for a truthy token and changes no other header |
| `Auth.TerraClimAuth.RefreshTokens` | src/terraclim/auth.py:102-141 | the new fields, the answer and the request sent are those of `RefreshOutcome`; True leaves the session authenticated with the matching bearer header |
| `Auth.RefreshWithoutToken` | src/terraclim/auth.py:109-111 | without a refresh token: False, no request, nothing changed |
| `Auth.RefreshFailure` | src/terraclim/auth.py:115-139 | a transport failure, a 4xx/5xx status or an unparsable body gives False with nothing changed; a non-object body raises AttributeError with nothing changed |
| `Auth.RefreshSuccess` | src/terraclim/auth.py:128-141 | an ok object body replaces both tokens; True, and a new bearer header, exactly when the new access token is truthy |
| `Auth.JsonHeadersKept` | src/terraclim/auth.py:19-22 | neither `login` nor `refresh_tokens` ever loses the two JSON content headers |
| `Auth.TrueMeansAuthenticated` | src/terraclim/auth.py:71-73 | a True answer from either operation leaves the session authenticated, its bearer header naming the access token |
| `Auth.FormatToken` | src/terraclim/auth.py:170-172 | `"None"` for a falsy token; otherwise the first min(20, length) characters followed by `...` |
| `FarmPortions.FarmPortionsClient.constructor` | src/terraclim/farm_portions.py:21 | the client keeps the session it was given |
| `FarmPortions.Open` | src/terraclim/farm_portions.py:14-24 | a new session when none is given; the outcome and the session afterwards are those of `ConstructOutcome` |
| `FarmPortions.ConstructorLogsIn` | src/terraclim/farm_portions.py:21-24 | an authenticated session needs no request; otherwise the constructor logs in from the environment, a False answer raises ValueError, and success means the session is authenticated |
| `FarmPortions.FarmPortionsClient.BuildUrl` | src/terraclim/farm_portions.py:26-54 | the parameter dict filled step by step renders the URL or error of `PortionsUrl` |
| `FarmPortions.ExtentValidation` | src/terraclim/farm_portions.py:45-49 | accepted exactly when the extent is falsy or a list of four numbers; the shape is checked before the element types, each with its own message |
| `FarmPortions.PortionsBase` | src/terraclim/farm_portions.py:38-39 | the portions endpoint URL in full |
| `FarmPortions.PortionsUrlRendering` | src/terraclim/farm_portions.py:41-54 | the bare URL without parameters; otherwise the separator, then `farm_id=` for a truthy farm id before `extent=[…]` for a truthy extent, joined by `&` |
| `FarmPortions.WithQueryOne` | src/terraclim/farm_portions.py:52-53 | one parameter renders as separator, key, `=`, value |
| `FarmPortions.WithQueryTwo` | src/terraclim/farm_portions.py:52-53 | two parameters render in order, joined by `&` |
| `FarmPortions.ExtentTextOfFour` | src/terraclim/farm_portions.py:50 | four coordinates render as `[a, b, c, d]` |
| `FarmPortions.FarmPortionsClient.GetFarmPortions` | src/terraclim/farm_portions.py:56-120 | the result and the request sent are those of `PortionsOutcome` |
| `FarmPortions.RaisesBeforeRequest` | src/terraclim/farm_portions.py:91-99 | an error is raised exactly when no request is sent: for a falsy extent, or an invalid one; otherwise one GET to the built URL with the session headers |
| `FarmPortions.PortionsTable` | src/terraclim/farm_portions.py:101-116 | a table exactly when the reply is ok and its body is an object of type FeatureCollection; that object is then the single row, its keys the columns |
| `AnalysisStats.AnalysisStatsClient.constructor` | src/terraclim/analysis_stats.py:20 | the client keeps the session it was given |
| `AnalysisStats.Open` | src/terraclim/analysis_stats.py:13-22 | accepted exactly when an authenticated session is given; otherwise ValueError |
| `AnalysisStats.EndDate` | src/terraclim/analysis_stats.py:44-45 | a non-empty `end_date` is kept; otherwise today, as `YYYY-MM-DD` |
| `AnalysisStats.DefaultDates` | src/terraclim/analysis_stats.py:43-47 | the reassigned dates are the end date and the start date, or the error that deriving the start raises |
| `AnalysisStats.DefaultStartIsSixtyDaysEarlier` | src/terraclim/analysis_stats.py:46-47 | without a start date, the start is the valid date exactly 60 days before the end date |
| `AnalysisStats.DefaultWindow` | src/terraclim/analysis_stats.py:44-47 | without either date, the window ends today and starts 60 days earlier |
| `AnalysisStats.DefaultStartErrors` | src/terraclim/analysis_stats.py:47 | without a start date, an end date strptime rejects raises strptime's ValueError, and one in the first 60 days of the calendar raises OverflowError |
| `AnalysisStats.DefaultStartNonexistentEnd` | src/terraclim/analysis_stats.py:47 | an end date in the right shape that names no date raises `date`'s message: "year 0 is out of range", "day is out of range for month" |
| `AnalysisStats.DateErrorSendsNothing` | src/terraclim/analysis_stats.py:43-62 | a date error is raised before any request is sent |
| `AnalysisStats.FieldIdParam` | src/terraclim/analysis_stats.py:55-59 | `field_id` is absent exactly when the field ids are None |
| `AnalysisStats.FieldIdList` | src/terraclim/analysis_stats.py:56-57 | a list of ids becomes their decimal strings joined by `,`; an empty list becomes `''` |
| `AnalysisStats.FieldIdScalar` | src/terraclim/analysis_stats.py:58-59 | a single id is stringified |
| `AnalysisStats.ParamsBuilt` | src/terraclim/analysis_stats.py:49-59 | the dict built and then extended in place is the parameter dict of the model |
| `AnalysisStats.ParamsShape` | src/terraclim/analysis_stats.py:49-59 | the keys are `start_date`, `end_date`, then `field_id` exactly when ids are given; each date is passed through `format_date` |
| `AnalysisStats.OutcomeOnceDated` | src/terraclim/analysis_stats.py:49-74 | once both dates are settled, one GET with the parameters, and the reply's flattened table |
| `AnalysisStats.AnalysisStatsClient.GetAnalysisStats` | src/terraclim/analysis_stats.py:24-78 | the result and the request sent are those of `AnalysisOutcome` |
| `AnalysisStats.AnalysisReply` | src/terraclim/analysis_stats.py:61-78 | a request is sent exactly when there is no error; a failed exchange gives None, a good one the flattened table of the body |
| `OverviewStats.OverviewStatsClient.constructor` | src/terraclim/overview_stats.py:17 | the client keeps the session it was given |
| `OverviewStats.Open` | src/terraclim/overview_stats.py:10-19 | accepted exactly when an authenticated session is given; otherwise ValueError |
| `OverviewStats.OverviewStatsClient.GetOverviewStats` | src/terraclim/overview_stats.py:21-61 | the parameters filled by conditional insertion, the result and the request sent are those of `OverviewOutcome` |
| `OverviewStats.NeedsAnId` | src/terraclim/overview_stats.py:32-33 | ValueError, and no request, exactly when both ids are None |
| `OverviewStats.ParamsShape` | src/terraclim/overview_stats.py:38-42 | the keys are exactly `fieldID` for a field id that is not None, then `farm_id` for a farm id that is not None, each with its value unchanged |
| `OverviewStats.ZeroFarmIdSent` | src/terraclim/overview_stats.py:41-42 | a farm id of 0 is sent although it is falsy |
| `OverviewStats.OverviewReply` | src/terraclim/overview_stats.py:44-61 | a failed exchange gives None, a good one the unflattened table of the body |
| `PowerBiWrapper.HandleApiError` | src/terraclim/powerbi_wrapper.py:54-71 | a result passes unchanged; an exception becomes the one-cell `error` table of its message |
| `PowerBiWrapper.ErrorTables` | src/terraclim/powerbi_wrapper.py:56-70 | every exception becomes a well-formed one-row table with the single column `error`: the fixed credentials or network text, `API Error: …`, or `Unexpected error: …` |
| `PowerBiWrapper.ValidationRules` | src/terraclim/powerbi_wrapper.py:73-79 | an empty table is rejected first; a non-empty one is accepted exactly when it has every required column, otherwise the message lists the missing ones in required order, joined by `, ` |
| `PowerBiWrapper.ValidatedAccepts` | src/terraclim/powerbi_wrapper.py:115-121 | an accepted frame is present, non-empty, holds every required column, and is handed back unchanged |
| `PowerBiWrapper.FailedLogin` | src/terraclim/powerbi_wrapper.py:107-136 | a False login gives the credentials error table in the decorated wrappers and an empty table in the undecorated ones |
| `PowerBiWrapper.MissingCredentialsReported` | src/terraclim/powerbi_wrapper.py:107-109 | missing credentials become an `Unexpected error` table in a decorated wrapper, and raise ValueError from an undecorated one |
| `PowerBiWrapper.WorkspacesChecked` | src/terraclim/powerbi_wrapper.py:112-121 | `get_workspaces` returns the client's table only when it is non-empty and has a `name` column |
| `PowerBiWrapper.WorkspacesOfNone` | src/terraclim/powerbi_wrapper.py:113-116 | a client answering None surfaces as the AttributeError of `df.empty`, shown as an unexpected error |
| `PowerBiWrapper.DecoratedWellFormed` | src/terraclim/powerbi_wrapper.py:180-225 | the portions wrapper always returns a well-formed table, and the workspaces wrapper does whenever its client's table is one |
| `PowerBiWrapper.PortionsTableWellFormed` | src/terraclim/powerbi_wrapper.py:215-222 | a validated portions table is well formed |
| `PowerBiWrapper.PortionsNeedTopLevelColumns` | src/terraclim/powerbi_wrapper.py:216-225 | a portions table is returned only when the reply is a FeatureCollection object that is the single row and has top-level `portion_id` and `farm_id` keys |
| `PowerBiWrapper.PortionsClientAfterLogin` | src/terraclim/powerbi_wrapper.py:211-215 | after a True login the portions client is built without a second login |
| `PowerBiWrapper.FieldNotesChoice` | src/terraclim/powerbi_wrapper.py:171-178 | after a True login, one field's notes for a truthy field id, otherwise all notes |
| `FarmFieldsReport.ErrorTable` | examples/powerbi_farm_fields.py:58-64 | columns `status`, `message`, `timestamp`; one row with `error`, the message and the time |
| `FarmFieldsReport.FirstRow` | examples/powerbi_farm_fields.py:69 | the first row as a dict has the table's columns as keys, in order |
| `FarmFieldsReport.FormatFarmData` | examples/powerbi_farm_fields.py:66-82 | the loop's list of records is that of `FormattedFarms`: one record per processable entry of the first row, in order |
| `FarmFieldsReport.FarmRecordShape` | examples/powerbi_farm_fields.py:72-78 | an entry is kept exactly when it holds or decodes to a dict; its record has `farm_id` equal to the key, no `farm_boundary`, and every other key copied |
| `FarmFieldsReport.FarmRecordsAll` | examples/powerbi_farm_fields.py:70-82 | when every entry is processable, one record per entry, record i from entry i |
| `FarmFieldsReport.FarmRecordsTagged` | examples/powerbi_farm_fields.py:75-78 | every record has a `farm_id` key |
| `FarmFieldsReport.FormattedFarmsShape` | examples/powerbi_farm_fields.py:66-82 | IndexError exactly for a frame without rows; otherwise a well-formed table of the records, with a `farm_id` column exactly when some entry was processable |
| `FarmFieldsReport.MergeColumnsRule` | examples/powerbi_farm_fields.py:131-133 | the merge uses exactly the farm columns present, in their fixed order and without repetition, with `farm_id` first when present |
| `FarmFieldsReport.DesiredFirstDistinct` | examples/powerbi_farm_fields.py:148-149 | the seven key columns are distinct |
| `FarmFieldsReport.ReorderRule` | examples/powerbi_farm_fields.py:147-153 | the result is a permutation, without repetition; the desired columns present come first in fixed order, and the rest keep their relative order |
| `FarmFieldsReport.ReorderIdempotent` | examples/powerbi_farm_fields.py:147-153 | reordering twice is reordering once |
| `FarmFieldsReport.MergeStage` | examples/powerbi_farm_fields.py:127-133 | the merge is reached only with a `farm` column in the fields and `farm_id` in the farms, and `farm_id` heads the merge columns |
| `FarmFieldsReport.RunLoginRejected` | examples/powerbi_farm_fields.py:95-100 | a False login shows the fixed checklist message |
| `FarmFieldsReport.NoFarmsStopsRun` | examples/powerbi_farm_fields.py:107-129 | a first row with no processable entry stops the run with KeyError `'farm_id'` |

## Left out

- Network I/O. Each request is a `Request` value, and each reply is an input. Timeouts, retries, redirects and the server are not modelled.
- URL encoding of query parameters by `requests`, including the dropping of parameters whose value is None. The model keeps the parameter dict as built.
- pandas internals. `json_normalize` is modelled for objects nested in objects and for lists of lists, not for lists inside records. Also not modelled: NaN and dtypes; `merge`, `drop`, `rename` and `astype` in the report script; `to_csv`.
- Utils.ElementRecords: for a list that mixes lists with objects or scalars, the first element decides the shape and an element of the other kind counts as a conversion failure. pandas' handling of such mixes is not modelled.
- Utils.DataframeOfList: for the same mixed lists it promises only one row per element or an empty table.
- The merged column list of the report script is not computed. `Reorder` is stated for any list of distinct column names.
- FarmFieldsReport.ReorderRule: it requires distinct column names. With repeated names pandas would select each repeated column more than once.
- Utils.DataframeOfObject: it requires distinct keys. A Python dict cannot repeat a key.
- Python `repr` of strings holding escapes and non-ASCII characters. `str(float)` is taken as a given text, and Unicode is not normalised.
- Strptime.IsDigit and Strptime.IsSpace follow the Unicode 15.0 tables of Python 3.12. Other Python versions differ in a few code points.
- The `_strptime` regex cache and locale handling. Neither format has a locale-dependent directive.
- `strftime('%Y')` writes years below 1000 with four digits here. Some platforms do not pad them.
- Auth.TerraClimAuth.GetHeaders: it has no contract of its own. It returns the header field, which the `Login` and `RefreshTokens` contracts describe.
- PowerBiWrapper.Validation: it has no ensures of its own. `ValidationRules` states its rules.
- Aliasing: `get_headers()` returns the live dict, which the model copies into each `Request`. The report script mutates the decoded farm dicts in place.
- Logging and printing, `show_help`, and every `main`. The import-time setup of powerbi_wrapper is also out: logging configuration, `sys.path`, and `get_version_info`.
- The clock, the environment, `json.loads` and prompts. These are parameters (today's date, `now`, `envUser`/`envPass`, `decode`).
- The endpoint-only clients: fields, farms, field notes, GeoServer, irrigation and the others. Their results are inputs of the wrappers that call them.
- The `main` of src/terraclim/overview_stats.py. It calls a method this version lacks.
- Packaging, installation and the test scripts. The test scripts run against a live server.

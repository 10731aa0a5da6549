/** The Power BI import script for farms and fields
    (examples/powerbi_farm_fields.py): the farm records it builds from the
    first row of the farms frame, the columns it merges on, the order it
    puts the final columns in, and the error table it shows instead when
    any step fails.  The clock reading of the error table is a parameter;
    the pandas merge itself is not modelled. */
module FarmFieldsReport {
  import opened Basics
  import opened Lists
  import opened Dicts
  import opened Json
  import opened Http
  import opened Tables
  import opened Auth

  const LoginFailedMessage: string :=
    "Failed to authenticate with TerraCLIM. Please verify:"
    + "\n1. PowerBI parameters TERRACLIM_USERNAME and TERRACLIM_PASSWORD exist"
    + "\n2. Parameter values are correct (no extra spaces)"
    + "\n3. You have an active TerraCLIM account"
  const FarmsMissingMessage: string := "Failed to retrieve farms data"
  const FieldsMissingMessage: string := "Failed to retrieve fields data"
  /** `str(e)` of the IndexError that `iloc[0]` raises on a frame without rows. */
  const NoFirstRowMessage: string := "single positional indexer is out-of-bounds"

  const ErrorColumns: seq<string> := ["status", "message", "timestamp"]
  /** The farm columns offered to the merge. */
  const FarmColumns: seq<string> := ["farm_id", "farm_name", "farmer_name"]
  /** The columns put first in the final table. */
  const DesiredFirst: seq<string> :=
    ["farm_id", "farm_name", "farmer_name", "field_id", "field_name", "area_ha", "user_id"]

  // ---------------------------------------------------------------------
  // get_error_df

  /** `get_error_df(message)`, `now` standing for `pd.Timestamp.now()`. */
  function ErrorTable(message: string, now: Json): (t: Table)
    ensures t.columns == ErrorColumns && |t.rows| == 1 && WellFormed(t)
    ensures Get(t.rows[0], "status") == Some(JStr("error"))
    ensures Get(t.rows[0], "message") == Some(JStr(message))
    ensures Get(t.rows[0], "timestamp") == Some(now)
  {
    var row := [("status", JStr("error")), ("message", JStr(message)), ("timestamp", now)];
    assert Keys(row) == ErrorColumns;
    assert row[1..][1..] == [("timestamp", now)];
    assert "timestamp" != "status" && "timestamp" != "message";
    assert Get(row[1..][1..], "timestamp") == Some(now);
    assert Get(row[1..], "timestamp") == Some(now);
    Table(ErrorColumns, [row])
  }

  // ---------------------------------------------------------------------
  // format_farm_data

  /** `farms_response.iloc[0].to_dict()`: each column with its cell in the
      first row; a cell the row lacks (NaN) is represented by JNull, which
      the loop skips the same way. */
  function FirstRow(t: Table): (entries: Dict<Json>)
    requires |t.rows| > 0
    ensures Keys(entries) == t.columns
  {
    var entries := seq(|t.columns|, i requires 0 <= i < |t.columns| => (t.columns[i], GetOr(t.rows[0], t.columns[i], JNull)));
    assert forall i :: 0 <= i < |t.columns| ==> Keys(entries)[i] == t.columns[i];
    entries
  }

  /** The dict an entry holds once a string has been decoded with
      `json.loads` (`decode`, None when the text is not JSON), or None when
      the entry is skipped: bad JSON, or a value that is not a dict, so
      that `farm_data['farm_id'] = ...` raises. */
  function FarmObject(value: Json, decode: string -> Option<Json>): Option<Dict<Json>>
  {
    var v := if value.JStr? then decode(value.s) else Some(value);
    if v.Some? && v.value.JObject? then Some(v.value.members) else None
  }

  /** The record one entry contributes: its dict with `farm_id` set to the
      entry's key and `farm_boundary` removed. */
  function FarmRecord(key: string, value: Json, decode: string -> Option<Json>): Option<Record>
  {
    match FarmObject(value, decode)
    case None => None
    case Some(m) => Some(RemoveKey(Put(m, "farm_id", JStr(key)), "farm_boundary"))
  }

  /** The records of the processable entries, in entry order. */
  function FarmRecords(entries: Dict<Json>, decode: string -> Option<Json>): seq<Record>
  {
    if entries == [] then []
    else
      EntryRecords(entries[0], decode) + FarmRecords(entries[1..], decode)
  }

  /** The records one entry contributes: its record, or none. */
  function EntryRecords(entry: (string, Json), decode: string -> Option<Json>): seq<Record>
  {
    match FarmRecord(entry.0, entry.1, decode)
    case Some(r) => [r]
    case None => []
  }

  /** What `format_farm_data(farms_response)` returns or raises. */
  function FormattedFarms(farms: Table, decode: string -> Option<Json>): Result<Table>
  {
    if |farms.rows| == 0 then Err(IndexError(NoFirstRowMessage))
    else Ok(FromRecords(FarmRecords(FirstRow(farms), decode)))
  }

  /** `format_farm_data`: the loop over the first row's entries, appending
      one record per processable entry. */
  method FormatFarmData(farms: Table, decode: string -> Option<Json>) returns (r: Result<Table>)
    ensures r == FormattedFarms(farms, decode)
  {
    if |farms.rows| == 0 {
      return Err(IndexError(NoFirstRowMessage));
    }
    var entries := FirstRow(farms);
    var farmList: seq<Record> := [];
    var i := 0;
    while i < |entries|
      invariant 0 <= i <= |entries|
      invariant farmList == FarmRecords(entries[..i], decode)
    {
      var (farmId, farmData) := entries[i];
      var obj := FarmObject(farmData, decode);
      if obj.Some? {
        var m := Put(obj.value, "farm_id", JStr(farmId));
        var clean := RemoveKey(m, "farm_boundary");
        farmList := farmList + [clean];
      }
      FarmRecordsStep(entries, i, decode);
      i := i + 1;
    }
    assert entries[..i] == entries;
    r := Ok(FromRecords(farmList));
  }

  /** An entry is kept exactly when it holds (or decodes to) a dict; its
      record then has `farm_id` equal to the key, no `farm_boundary`, and
      every other key of the dict with its value. */
  lemma FarmRecordShape(key: string, value: Json, decode: string -> Option<Json>)
    ensures FarmRecord(key, value, decode).Some? <==> FarmObject(value, decode).Some?
    ensures FarmObject(value, decode).Some? ==>
      var rec := FarmRecord(key, value, decode).value;
      var m := FarmObject(value, decode).value;
      && Get(rec, "farm_id") == Some(JStr(key))
      && !HasKey(rec, "farm_boundary")
      && forall k :: k != "farm_id" && k != "farm_boundary" ==> Get(rec, k) == Get(m, k)
  {
    if FarmObject(value, decode).Some? {
      var m := FarmObject(value, decode).value;
      var tagged := Put(m, "farm_id", JStr(key));
      assert "farm_id" != "farm_boundary";
      RemoveKeyOther(tagged, "farm_boundary", "farm_id");
      forall k | k != "farm_id" && k != "farm_boundary"
        ensures Get(RemoveKey(tagged, "farm_boundary"), k) == Get(m, k)
      {
        RemoveKeyOther(tagged, "farm_boundary", k);
        PutOther(m, "farm_id", JStr(key), k);
      }
    }
  }

  /** The records of a run of entries are the records of its parts, in
      order. */
  lemma {:induction false} FarmRecordsConcat(a: Dict<Json>, b: Dict<Json>, decode: string -> Option<Json>)
    ensures FarmRecords(a + b, decode) == FarmRecords(a, decode) + FarmRecords(b, decode)
  {
    if a == [] {
      assert a + b == b;
    } else {
      var ab := a + b;
      assert ab[0] == a[0] && ab[1..] == a[1..] + b;
      FarmRecordsConcat(a[1..], b, decode);
      var head := EntryRecords(a[0], decode);
      assert head + (FarmRecords(a[1..], decode) + FarmRecords(b, decode))
        == (head + FarmRecords(a[1..], decode)) + FarmRecords(b, decode);
    }
  }

  /** The records of the first `i + 1` entries extend those of the first
      `i` by the records of entry `i`. */
  lemma FarmRecordsStep(entries: Dict<Json>, i: nat, decode: string -> Option<Json>)
    requires i < |entries|
    ensures FarmRecords(entries[..i + 1], decode) == FarmRecords(entries[..i], decode) + EntryRecords(entries[i], decode)
  {
    assert entries[..i + 1] == entries[..i] + [entries[i]];
    FarmRecordsConcat(entries[..i], [entries[i]], decode);
    FarmRecordsOfOne(entries[i].0, entries[i].1, decode);
  }

  /** One entry gives one record when it is processable and none
      otherwise. */
  lemma FarmRecordsOfOne(key: string, value: Json, decode: string -> Option<Json>)
    ensures FarmRecords([(key, value)], decode)
      == match FarmRecord(key, value, decode) case Some(r) => [r] case None => []
  {
    assert [(key, value)][1..] == [];
  }

  /** When every entry is processable there is one record per entry, the
      i-th record coming from the i-th entry. */
  lemma {:induction false} FarmRecordsAll(entries: Dict<Json>, decode: string -> Option<Json>)
    requires forall i :: 0 <= i < |entries| ==> FarmObject(entries[i].1, decode).Some?
    ensures var rs := FarmRecords(entries, decode);
      |rs| == |entries|
      && forall i :: 0 <= i < |entries| ==> Some(rs[i]) == FarmRecord(entries[i].0, entries[i].1, decode)
  {
    if entries != [] {
      var rest := entries[1..];
      assert forall i :: 0 <= i < |rest| ==> rest[i] == entries[i + 1];
      FarmRecordsAll(rest, decode);
      FarmRecordShape(entries[0].0, entries[0].1, decode);
    }
  }

  /** The formatted farms: an IndexError for a frame without rows,
      otherwise a table whose rows are the records and which has a
      `farm_id` column as soon as one entry was processable. */
  lemma FormattedFarmsShape(farms: Table, decode: string -> Option<Json>)
    ensures |farms.rows| == 0 <==> FormattedFarms(farms, decode).Err?
    ensures FormattedFarms(farms, decode).Err? ==> FormattedFarms(farms, decode).error == IndexError(NoFirstRowMessage)
    ensures FormattedFarms(farms, decode).Ok? ==>
      var t := FormattedFarms(farms, decode).value;
      && t.rows == FarmRecords(FirstRow(farms), decode)
      && WellFormed(t)
      && ("farm_id" in t.columns <==> t.rows != [])
  {
    if |farms.rows| > 0 {
      var t := FormattedFarms(farms, decode).value;
      FarmRecordsTagged(FirstRow(farms), decode);
      if t.rows != [] {
        assert t.rows[0] in t.rows;
        assert "farm_id" in Keys(t.rows[0]);
      }
    }
  }

  /** Every record carries a `farm_id`. */
  lemma {:induction false} FarmRecordsTagged(entries: Dict<Json>, decode: string -> Option<Json>)
    ensures forall r :: r in FarmRecords(entries, decode) ==> HasKey(r, "farm_id")
  {
    if entries != [] {
      FarmRecordsTagged(entries[1..], decode);
      FarmRecordShape(entries[0].0, entries[0].1, decode);
    }
  }

  // ---------------------------------------------------------------------
  // Column selection

  /** `[col for col in farm_columns if col in farms_df.columns]`. */
  function MergeColumns(columns: seq<string>): seq<string>
  {
    Keep(FarmColumns, columns)
  }

  /** The merge offers exactly the farm columns the farms table has, in
      their fixed order, and its join key comes first whenever present. */
  lemma MergeColumnsRule(columns: seq<string>)
    ensures forall c :: c in MergeColumns(columns) <==> c in FarmColumns && c in columns
    ensures "farm_id" in columns ==> |MergeColumns(columns)| > 0 && MergeColumns(columns)[0] == "farm_id"
    ensures Distinct(MergeColumns(columns))
  {
    assert FarmColumns[1..][1..][1..] == [];
    assert Distinct(FarmColumns);
    KeepMembers(FarmColumns, columns);
    FilterDistinct(FarmColumns, columns);
  }

  /** `df[first_columns + other_columns]`: the key columns present, in
      their fixed order, then every other column in its original order. */
  function Reorder(columns: seq<string>): seq<string>
  {
    var first := Keep(DesiredFirst, columns);
    first + Drop(columns, first)
  }

  lemma DesiredFirstDistinct()
    ensures Distinct(DesiredFirst)
  {
  }

  /** The reordering is a permutation of a column list without
      repetitions: the desired columns present come first, in their fixed
      order, and the rest keep their relative order. */
  lemma ReorderRule(columns: seq<string>)
    requires Distinct(columns)
    ensures var first := Keep(DesiredFirst, columns);
      && Reorder(columns)[..|first|] == first
      && Reorder(columns)[|first|..] == Drop(columns, DesiredFirst)
    ensures forall c :: c in Keep(DesiredFirst, columns) <==> c in DesiredFirst && c in columns
    ensures multiset(Reorder(columns)) == multiset(columns)
    ensures Distinct(Reorder(columns))
  {
    var first := Keep(DesiredFirst, columns);
    var rest := Drop(columns, first);
    KeepMembers(DesiredFirst, columns);
    DropAgrees(columns, first, DesiredFirst);
    assert Reorder(columns)[..|first|] == first;
    assert Reorder(columns)[|first|..] == rest;
    DropMembers(columns, first);
    DesiredFirstDistinct();
    FilterDistinct(DesiredFirst, columns);
    FilterDistinct(columns, first);
    AppendDistinct(first, rest);
    assert forall x :: x in first + rest <==> x in columns;
    SameMembersPermutation(first + rest, columns);
  }

  lemma AppendDistinct(a: seq<string>, b: seq<string>)
    requires Distinct(a) && Distinct(b)
    requires forall x :: x in a ==> x !in b
    ensures Distinct(a + b)
  {
    var s := a + b;
    forall i, j | 0 <= i < j < |s| ensures s[i] != s[j] {
      if j < |a| {
        assert s[i] == a[i] && s[j] == a[j];
      } else if i < |a| {
        assert s[i] == a[i] && s[j] == b[j - |a|];
        assert a[i] in a;
      } else {
        assert s[i] == b[i - |a|] && s[j] == b[j - |a|];
      }
    }
  }

  /** Reordering an already reordered list changes nothing. */
  lemma ReorderIdempotent(columns: seq<string>)
    requires Distinct(columns)
    ensures Reorder(Reorder(columns)) == Reorder(columns)
  {
    var first := Keep(DesiredFirst, columns);
    var rest := Drop(columns, first);
    var once := Reorder(columns);
    ReorderRule(columns);
    DropMembers(columns, first);
    assert forall x :: x in once <==> x in columns by {
      assert forall x :: x in once <==> x in first || x in rest;
    }
    KeepAgrees(DesiredFirst, once, columns);
    DropConcat(first, rest, first);
    DropCovered(first, first);
    DropDisjoint(rest, first);
    assert Drop(once, first) == rest;
  }

  // ---------------------------------------------------------------------
  // The script

  /** Where the script ends: the message of its error table, or the frames
      it merges (fields, farms and the farm columns offered to the
      merge). */
  datatype Stage =
    | Failed(message: string)
    | Merging(fields: Table, farms: Table, mergeColumns: seq<string>)

  /** The script's steps up to the merge.  `farms` and `fields` are what
      `Farms(auth).get_farms()` and `Fields(auth).get_fields()` return or
      raise; `str(KeyError(k))` is the key in quotes. */
  function Run(username: string, password: string, envUser: Option<string>, envPass: Option<string>,
               loginReply: Reply, farms: Result<Option<Table>>, fields: Result<Option<Table>>,
               decode: string -> Option<Json>): Stage
  {
    var o := LoginOutcome(InitialSession, Some(username), Some(password), envUser, envPass, loginReply);
    if o.result.Err? then Failed(o.result.error.message)
    else if !o.result.value then Failed(LoginFailedMessage)
    else if farms.Err? then Failed(farms.error.message)
    else if farms.value.None? then Failed(FarmsMissingMessage)
    else match FormattedFarms(farms.value.value, decode)
      case Err(e) => Failed(e.message)
      case Ok(farmsDf) =>
        if fields.Err? then Failed(fields.error.message)
        else if fields.value.None? then Failed(FieldsMissingMessage)
        else MergeStage(fields.value.value, farmsDf)
  }

  /** The column conversions before the merge: `fields_df['farm']` and
      `farms_df['farm_id']` raise KeyError when the column is absent. */
  function MergeStage(fieldsDf: Table, farmsDf: Table): (st: Stage)
    ensures st.Merging? ==>
      && "farm" in st.fields.columns && "farm_id" in st.farms.columns
      && |st.mergeColumns| > 0 && st.mergeColumns[0] == "farm_id"
      && (forall c :: c in st.mergeColumns <==> c in FarmColumns && c in st.farms.columns)
  {
    if "farm" !in fieldsDf.columns then Failed("'farm'")
    else if "farm_id" !in farmsDf.columns then Failed("'farm_id'")
    else
      MergeColumnsRule(farmsDf.columns);
      Merging(fieldsDf, farmsDf, MergeColumns(farmsDf.columns))
  }

  /** A False login shows the fixed checklist. */
  lemma RunLoginRejected(username: string, password: string, envUser: Option<string>, envPass: Option<string>,
                         loginReply: Reply, farms: Result<Option<Table>>, fields: Result<Option<Table>>,
                         decode: string -> Option<Json>)
    requires LoginOutcome(InitialSession, Some(username), Some(password), envUser, envPass, loginReply).result == Ok(false)
    ensures Run(username, password, envUser, envPass, loginReply, farms, fields, decode) == Failed(LoginFailedMessage)
  {
  }

  /** A first row with no processable entry gives a farms frame without
      columns, so the run stops at `farms_df['farm_id']`. */
  lemma NoFarmsStopsRun(username: string, password: string, envUser: Option<string>, envPass: Option<string>,
                        loginReply: Reply, farmsDf: Table, fieldsDf: Table, decode: string -> Option<Json>)
    requires LoginOutcome(InitialSession, Some(username), Some(password), envUser, envPass, loginReply).result == Ok(true)
    requires |farmsDf.rows| > 0 && FarmRecords(FirstRow(farmsDf), decode) == []
    requires "farm" in fieldsDf.columns
    ensures Run(username, password, envUser, envPass, loginReply, Ok(Some(farmsDf)), Ok(Some(fieldsDf)), decode)
      == Failed("'farm_id'")
  {
    FormattedFarmsShape(farmsDf, decode);
  }
}

/** The Python values the client handles: parsed JSON bodies, query
    parameters and the arguments callers pass.  `JNull` is Python's `None`;
    a float is kept as the text Python's `repr` gives it. */
module Json {
  import opened Basics
  import opened Dicts

  datatype Json =
    | JNull
    | JBool(b: bool)
    | JInt(i: int)
    | JFloat(repr: string)
    | JStr(s: string)
    | JArray(items: seq<Json>)
    | JObject(members: Dict<Json>)

  /** Python truthiness: `None`, `False`, zero, and empty strings, lists
      and dicts are falsy. */
  predicate Truthy(v: Json)
  {
    match v
    case JNull => false
    case JBool(b) => b
    case JInt(i) => i != 0
    case JFloat(r) => r != "0.0" && r != "-0.0"
    case JStr(s) => s != ""
    case JArray(items) => items != []
    case JObject(ms) => ms != []
  }

  /** Python `str(v)`: a string is itself, everything else is its repr. */
  function Str(v: Json): string
  {
    if v.JStr? then v.s else Repr(v)
  }

  /** Python `repr(v)` for `None`, booleans, numbers, strings, lists and
      dicts (string escapes are not modelled). */
  function Repr(v: Json): string
  {
    match v
    case JNull => "None"
    case JBool(b) => if b then "True" else "False"
    case JInt(i) => Decimal(i)
    case JFloat(r) => r
    case JStr(s) => Quote(s)
    case JArray(items) =>
      "[" + Join(", ", seq(|items|, i requires 0 <= i < |items| => Repr(items[i]))) + "]"
    case JObject(ms) =>
      "{" + Join(", ", seq(|ms|, i requires 0 <= i < |ms| => Quote(ms[i].0) + ": " + Repr(ms[i].1))) + "}"
  }

  /** The name of the Python type a JSON value decodes to. */
  function TypeName(v: Json): string
  {
    match v
    case JNull => "NoneType"
    case JBool(_) => "bool"
    case JInt(_) => "int"
    case JFloat(_) => "float"
    case JStr(_) => "str"
    case JArray(_) => "list"
    case JObject(_) => "dict"
  }

  /** Python quotes a string with `'`, or with `"` when only `'` occurs in it. */
  function Quote(s: string): string
  {
    if '\'' in s && '"' !in s then "\"" + s + "\"" else "'" + s + "'"
  }
}

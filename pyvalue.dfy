/**
 * The Python values the repository passes around as `dict[str, Any]`: JSON-shaped
 * data read from SkySpark and FlightDeck, with Python's truthiness, `dict.get`,
 * type names and the built-in exceptions the code can raise on them.
 */
module PyValue {
  import opened Wrappers
  import Strings

  /** A JSON-shaped Python value. Numbers are integers (floats are not modelled). */
  datatype Json =
    | JNull
    | JBool(b: bool)
    | JNum(n: int)
    | JStr(s: string)
    | JList(items: seq<Json>)
    | JObj(fields: map<string, Json>)

  /** A Python `dict[str, Any]` whose order is irrelevant to the code that reads it. */
  type Dict = map<string, Json>

  /** The built-in exceptions raised by the modelled code, each with its message text. */
  datatype Exception =
    | ValueError(msg: string)
    | TypeError(msg: string)
    | AttributeError(msg: string)
    | FileNotFoundError(msg: string)

  /** The text of an exception when it is converted to a string: its message. */
  function Describe(e: Exception): string {
    e.msg
  }

  /** Python's truth value of a JSON value (`if v:`). */
  predicate Truthy(j: Json) {
    match j
    case JNull => false
    case JBool(b) => b
    case JNum(n) => n != 0
    case JStr(s) => s != ""
    case JList(xs) => xs != []
    case JObj(m) => m != map[]
  }

  /** Lists and dicts cannot be hashed, so `v in some_dict` raises TypeError for them. */
  predicate Hashable(j: Json) {
    !j.JList? && !j.JObj?
  }

  /** The name of a value's Python type. */
  function TypeName(j: Json): string {
    match j
    case JNull => "NoneType"
    case JBool(_) => "bool"
    case JNum(_) => "int"
    case JStr(_) => "str"
    case JList(_) => "list"
    case JObj(_) => "dict"
  }

  /** Looking `k` up in a dict, with `default` for a missing key. */
  function Get(d: Dict, k: string, default: Json): Json {
    if k in d then d[k] else default
  }

  /** The AttributeError Python raises when `v.attr` does not exist. */
  function NoAttribute(j: Json, attr: string): Exception {
    AttributeError("'" + TypeName(j) + "' object has no attribute '" + attr + "'")
  }

  /** Calling `get` on a value that may not be a dict: only a dict has that method. */
  function GetOf(j: Json, k: string, default: Json): (r: Result<Json, Exception>)
    ensures r.Ok? <==> j.JObj?
    ensures r.Ok? ==> r.value == (if k in j.fields then j.fields[k] else default)
    ensures r.Err? ==> r.error == NoAttribute(j, "get")
  {
    if j.JObj? then Ok(Get(j.fields, k, default)) else Err(NoAttribute(j, "get"))
  }

  /** Calling `lstrip` on a value that may not be a string: only a string has that method. */
  function LStripOf(j: Json, chars: char -> bool): (r: Result<string, Exception>)
    ensures r.Ok? <==> j.JStr?
    ensures r.Ok? ==> r.value == Strings.TrimStart(j.s, chars)
    ensures r.Err? ==> r.error == NoAttribute(j, "lstrip")
  {
    if j.JStr? then Ok(Strings.TrimStart(j.s, chars)) else Err(NoAttribute(j, "lstrip"))
  }

  /**
   * A value converted to a string. Scalars are rendered as Python renders them; the repr of a list
   * or dict is supplied by `show`, since the order in which Python prints a
   * dict's entries is not part of this model.
   */
  function PyStr(j: Json, show: Json -> string): string {
    match j
    case JNull => "None"
    case JBool(b) => if b then "True" else "False"
    case JNum(n) => Strings.IntToDecimal(n)
    case JStr(s) => s
    case _ => show(j)
  }
}

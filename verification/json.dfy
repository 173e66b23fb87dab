/**
 Decoded JSON values, as Python's `json.loads` hands them to the services,
 and the Python built-ins the services apply to them.
 */
module Json {
  import opened Basics

  /** A value `json.loads` can return: None, bool, int, float, str, list or dict. */
  datatype Json =
    | Null
    | Bool(b: bool)
    | Int(i: int)
    | Float(f: real)
    | Str(s: string)
    | Arr(items: seq<Json>)
    | Obj(fields: map<string, Json>)

  /** Python truthiness, `bool(v)`, of a decoded value. */
  predicate Truthy(v: Json)
  {
    match v
    case Null => false
    case Bool(b) => b
    case Int(i) => i != 0
    case Float(f) => f != 0.0
    case Str(s) => |s| > 0
    case Arr(xs) => |xs| > 0
    case Obj(m) => |m| > 0
  }

  /** `d.get(key)` on a decoded object. */
  function Get(fields: map<string, Json>, key: string): Option<Json>
  {
    if key in fields then Some(fields[key]) else None
  }

  /**
   The two built-ins the pipeline applies to text it does not control, taken as
   parameters so that every property holds whatever they do: `parse` is
   `json.loads` (None where it raises) and `show` is `str()` of a value that is
   not a string (for instance `str(None) == "None"`).
   */
  datatype Host = Host(parse: string -> Option<Json>, show: Json -> string)

  /** `str(v)`: a string is itself; any other value is rendered by the host. */
  function PyStr(v: Json, show: Json -> string): string
  {
    if v.Str? then v.s else show(v)
  }
}

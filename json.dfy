/** JSON values as the program sees them after `json.load`, and the few pieces of
    Python semantics the core relies on: truthiness, `dict.get` and the
    exceptions a failed lookup raises. Floating-point numbers are not modelled. */
module JsonValues {

  datatype Json =
    | JNull
    | JBool(b: bool)
    | JInt(i: int)
    | JStr(s: string)
    | JArr(elems: seq<Json>)
    | JObj(fields: map<string, Json>)

  datatype Option<T> = None | Some(value: T)

  /** The exceptions the core can let escape. */
  datatype PyError = KeyError | TypeError | AttributeError

  /** A computation that either yields a value or raises a Python exception. */
  datatype Result<T> = Ok(value: T) | Raised(error: PyError)

  /** Python's truth value of a JSON value (`bool(x)`). */
  predicate Truthy(j: Json)
  {
    match j
    case JNull => false
    case JBool(b) => b
    case JInt(i) => i != 0
    case JStr(s) => s != ""
    case JArr(a) => a != []
    case JObj(m) => m != map[]
  }

  /** `d.get(key, default)` on a dict. */
  function Get(m: map<string, Json>, key: string, default: Json): Json
  {
    if key in m then m[key] else default
  }

  /** Values Python can put in a set or a tuple used as a set element
      (lists and dicts are unhashable). */
  predicate Hashable(j: Json)
  {
    !j.JArr? && !j.JObj?
  }
}

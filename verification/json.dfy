/**
 * Decoded JSON values, as `json.loads` hands them to the Python code.
 * Numbers are integers only; see README "Left out".
 */
module Json {
  datatype Value =
    | Null
    | Bool(b: bool)
    | Int(i: int)
    | Str(s: string)
    | List(items: seq<Value>)
    | Dict(fields: map<string, Value>)

  /** A JSON object, the shape of one ledger line and of one task result. */
  type Record = map<string, Value>

  /** Python truthiness (`if v:`) of a decoded value. */
  predicate Truthy(v: Value) {
    match v
    case Null => false
    case Bool(b) => b
    case Int(i) => i != 0
    case Str(s) => s != ""
    case List(items) => items != []
    case Dict(fields) => fields != map[]
  }

  /** Lists and dicts cannot be dictionary keys: using one raises TypeError. */
  predicate Hashable(v: Value) {
    !v.List? && !v.Dict?
  }

  /**
   * The key a value stands for in a Python dict: `True == 1` and
   * `False == 0` with equal hashes, so a boolean and the matching integer
   * are one key. Booleans are folded onto their integers.
   */
  function KeyOf(v: Value): Value {
    if v.Bool? then Int(if v.b then 1 else 0) else v
  }
}

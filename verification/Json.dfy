/** Decoded JSON as Python reads it: json.loads gives infinities for numbers out of range. */
module Json {
  datatype Json =
    | Null
    | Bool(flag: bool)
    | Int(i: int)
    | Float(x: real)
    | Infinite(positive: bool)
    | NotANumber
    | Text(s: string)
    | List(items: seq<Json>)
    | Object(fields: map<string, Json>)

  predicate Truthy(j: Json) {
    match j
    case Null => false
    case Bool(b) => b
    case Int(i) => i != 0
    case Float(x) => x != 0.0
    case Infinite(_) => true
    case NotANumber => true
    case Text(s) => s != ""
    case List(items) => items != []
    case Object(fields) => fields != map[]
  }

  /** fields.get(key, default) */
  function Get(fields: map<string, Json>, key: string, default: Json): Json {
    if key in fields then fields[key] else default
  }

  /** int(x): towards zero. */
  function Truncate(x: real): int {
    if x >= 0.0 then x.Floor else -((-x).Floor)
  }
}

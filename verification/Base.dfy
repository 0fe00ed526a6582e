/** Values shared by every part of the model. */
module Base {

  datatype Option<+T> = None | Some(value: T)

  datatype Result<+T, +E> = Ok(value: T) | Err(error: E)

  /** A decoded JSON value. */
  datatype Json =
    | Null
    | Bool(b: bool)
    | Integer(k: int)
    | Number(n: real)
    | Text(text: string)
    | Array(items: seq<Json>)
    | Object(fields: map<string, Json>)

  function Field(fields: map<string, Json>, name: string): Json {
    if name in fields then fields[name] else Null
  }

  /** Python's `bool(value)` on a decoded JSON value. */
  predicate Truthy(value: Json) {
    match value
    case Null => false
    case Bool(b) => b
    case Integer(k) => k != 0
    case Number(n) => n != 0.0
    case Text(text) => text != ""
    case Array(items) => items != []
    case Object(fields) => fields != map[]
  }
}

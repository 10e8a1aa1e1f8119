/** The optional value used throughout the project. */
module Options {
  datatype Option<+T> = None | Some(value: T)
}

/**
 JSON as Go's `encoding/json` hands it over: values that are already parsed, and
 the decoding rules of `json.Unmarshal` for the targets the gateway uses.

 A raw field is an `Option<Json>`: `None` is a missing key, whose empty raw
 message never decodes. JSON `null` decodes into every target and leaves it at
 its zero value.
 */
module Json {
  import opened Options

  type Fields = map<string, Json>

  /** Integer literals are kept apart from literals with a fraction or an exponent. */
  datatype Json =
    | JNull
    | JBool(b: bool)
    | JInt(n: int)
    | JReal(x: real)
    | JStr(s: string)
    | JArr(items: seq<Json>)
    | JObj(fields: Fields)

  const MIN_INT64: int := -0x8000_0000_0000_0000
  const MAX_INT64: int := 0x7fff_ffff_ffff_ffff

  function Get(fields: Fields, name: string): Option<Json> {
    if name in fields then Some(fields[name]) else None
  }

  /** Decoding into a `string`. */
  function AsString(raw: Option<Json>): Option<string> {
    match raw
    case Some(JStr(s)) => Some(s)
    case Some(JNull) => Some("")
    case _ => None
  }

  /** Decoding into a `*int64`: the inner option is the pointer. */
  function AsInt64(raw: Option<Json>): Option<Option<int>> {
    match raw
    case Some(JNull) => Some(None)
    case Some(JInt(n)) => if MIN_INT64 <= n <= MAX_INT64 then Some(Some(n)) else None
    case _ => None
  }

  /** Decoding into a slice of raw messages: the inner option tells a nil slice. */
  function AsArray(raw: Option<Json>): Option<Option<seq<Json>>> {
    match raw
    case Some(JNull) => Some(None)
    case Some(JArr(items)) => Some(Some(items))
    case _ => None
  }

  /** Decoding into a map of raw messages: the inner option tells a nil map. */
  function AsObject(raw: Option<Json>): Option<Option<Fields>> {
    match raw
    case Some(JNull) => Some(None)
    case Some(JObj(fields)) => Some(Some(fields))
    case _ => None
  }

  /** A string field of a struct target: a missing key leaves the zero value. */
  function StringField(fields: Fields, name: string): Option<string> {
    if name in fields then AsString(Some(fields[name])) else Some("")
  }

  /** A counter that is present, an int64 and not negative. */
  function Counter(raw: Option<Json>): Option<int> {
    match AsInt64(raw)
    case Some(Some(n)) => if n >= 0 then Some(n) else None
    case _ => None
  }

  /** An upstream response object: an object that does not carry an error. */
  function ResponseObject(raw: Option<Json>): Option<Fields> {
    match raw
    case Some(JObj(fields)) => if "error" in fields then None else Some(fields)
    case _ => None
  }
}

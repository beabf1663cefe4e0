/** Values shared by every part of the pipeline model: optional values,
    results carrying a Python exception, and JSON documents (the payloads
    of Lambda events, S3 objects and model replies). */
module Base {

  datatype Option<+T> = None | Some(value: T) {
    function GetOr(default: T): T {
      match this
      case Some(v) => v
      case None => default
    }
  }

  /** The Python exceptions the pipeline raises or lets escape. */
  datatype Exc =
    | ValueError(msg: string)
    | KeyError(key: string)
    | TypeError
    | AttributeError
    | IndexError
    | UnboundLocalError
    | EnvironmentError(msg: string)
    | FileNotFoundError
    | TimeoutError
    | ClientError(code: string)
    | ServiceError
    | EOFError

  datatype Result<+T> = Ok(value: T) | Err(error: Exc) {
    predicate IsFailure() { Err? }
    function PropagateFailure<U>(): Result<U>
      requires Err?
    {
      Err(error)
    }
    function Extract(): T
      requires Ok?
    {
      value
    }
  }

  /** A decoded JSON document. */
  datatype Json =
    | JNull
    | JBool(b: bool)
    | JInt(i: int)
    | JStr(s: string)
    | JList(items: seq<Json>)
    | JObj(fields: map<string, Json>)

  /** A Python dict with string keys, as decoded from JSON. */
  type Record = map<string, Json>

  /** Python truthiness of a JSON value. */
  predicate Truthy(v: Json) {
    match v
    case JNull => false
    case JBool(b) => b
    case JInt(i) => i != 0
    case JStr(s) => s != ""
    case JList(xs) => xs != []
    case JObj(m) => m != map[]
  }

  /** `d.get(k, default)` */
  function Get(d: Record, k: string, default: Json): Json {
    if k in d then d[k] else default
  }
}

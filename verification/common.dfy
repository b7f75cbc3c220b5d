/** Small value types shared by every component of the agent pipeline. */
module Common {

  /** Python's `None` versus a present value. */
  datatype Option<+T> = None | Some(value: T) {
    function GetOr(default: T): T {
      match this
      case Some(v) => v
      case None => default
    }
  }

  /** A value, or the message of the exception raised instead. */
  datatype Result<+T> = Success(value: T) | Failure(error: string)

  /** What `json.loads` made of a structured LLM reply: a value of the expected
      shape, or a `JSONDecodeError`. */
  datatype Parsed<+T> = Parsed(value: T) | ParseError

  /** A scalar JSON value as it appears in a parsed LLM reply. A field that is
      absent from the reply reads as `Null`, which is what `dict.get` yields. */
  datatype Json = Null | Bool(b: bool) | Num(n: int) | Str(s: string)

  /** Python truthiness of a scalar JSON value. */
  predicate Truthy(j: Json) {
    match j
    case Null => false
    case Bool(b) => b
    case Num(n) => n != 0
    case Str(s) => s != ""
  }

  /** `d.get(key, default)` for a field the reply may leave out. */
  function FieldOr(field: Option<Json>, default: Json): Json {
    field.GetOr(default)
  }
}

/** Python-level values shared by every module: optional values, the exceptions the
    modelled code can raise, HTTP responses, dynamically typed fields and the
    `(rate, message)` pair every rate source returns. */
module PyCore {

  /** `None` or a value. */
  datatype Option<+T> = None | Some(value: T) {
    function GetOr(default: T): T {
      match this
      case Some(v) => v
      case None => default
    }
  }

  /** The exceptions raised by the modelled code. `BadAuth` is the project's
      `BadAuthException`; the others are Python built-ins. */
  datatype Exception =
    | BadAuth(reason: string)
    | TypeError
    | KeyError(key: string)
    | IndexError
    | AttributeError
    | ValueError
    | ZeroDivisionError

  /** A Python call either returns a value or raises. */
  datatype Result<+T> = Ok(value: T) | Raise(exc: Exception) {
    predicate IsFailure() {
      Raise?
    }

    function PropagateFailure<U>(): Result<U>
      requires Raise?
    {
      Raise(exc)
    }

    function Extract(): T
      requires Ok?
    {
      value
    }
  }

  /** An HTTP response: status code, reason phrase and the decoded JSON body. */
  datatype Response<+B> = Response(status: int, reason: string, body: B)

  /** A dynamically typed Python field: `None`, an `int`, a `float` or a `str`. */
  datatype PyValue = PyNone | PyInt(i: int) | PyFloat(x: real) | PyStr(s: string)

  /** Python's `v == 0`: true only for numeric zero. */
  predicate EqualsZero(v: PyValue) {
    v == PyInt(0) || v == PyFloat(0.0)
  }

  /** The `(rate, message)` tuple a rate source returns; `(None, None)` means no data. */
  datatype RatePair = RatePair(rate: Option<real>, message: Option<string>)

  /** Python's `str(x)` of an optional string: `None` prints as "None". */
  function ShowOptional(s: Option<string>): string {
    match s
    case Some(t) => t
    case None => "None"
  }
}

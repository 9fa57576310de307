/**
 * What a handler sees of a request and what it sends back: JSON values from
 * `req.body`, plain objects from `toObject()`, `ApiError` and the other
 * exceptions a handler can throw, and the `ApiResponse` envelope.
 */
module Http {
  import opened Wrappers
  import opened Text

  /** A JSON request value. Numbers are integers in this model. */
  datatype Value = Undefined | Null | Bool(b: bool) | Num(n: int) | Str(s: string)

  /** A plain object such as `doc.toObject()` returns. */
  type Doc = map<string, Value>

  /** JavaScript truthiness: `undefined`, `null`, `false`, `0` and `""` are falsy. */
  predicate Truthy(v: Value) {
    match v
    case Undefined => false
    case Null => false
    case Bool(b) => b
    case Num(n) => n != 0
    case Str(s) => s != []
  }

  /** A string that is not blank after trimming: what `v?.trim()` treats as given. */
  predicate FilledIn(v: Value) {
    v.Str? && !IsBlank(v.s)
  }

  /** JavaScript truthiness of an optional string, such as an uploaded file's path. */
  predicate Present(o: Option<string>) {
    o.Some? && o.value != []
  }

  /**
   * An exception reaching the error middleware: an `ApiError` thrown by a
   * handler, or any other error (a `TypeError`, a Mongoose `CastError`, a
   * `jsonwebtoken` error, a duplicate-key error from the store).
   */
  datatype Failure =
    | ApiError(statusCode: int, message: string, error: Option<seq<string>>, success: bool, data: Value)
    | Thrown(message: string)

  /**
   * `new ApiError(status, message)`: that status and message, not a success,
   * `data: null`, and no `error` property (`None`), which is the property the
   * error middleware reads its list from.
   */
  function Error(status: int, message: string): (e: Failure)
    ensures e.ApiError? && e.statusCode == status && e.message == message && !e.success
    ensures e.error.None? && e.data == Null
  {
    ApiError(status, message, None, false, Null)
  }

  /**
   * `v?.trim()`: `undefined` and `null` short-circuit (modelled as the empty
   * string, which is just as falsy), a string is trimmed, and any other value
   * throws a `TypeError` because it has no `trim` method.
   */
  function TrimOptional(v: Value, name: string): (r: Result<string, Failure>)
    ensures r.Ok? <==> Trimmable(v)
    ensures v.Str? ==> r == Ok(Trim(v.s))
    ensures v.Undefined? || v.Null? ==> r == Ok([])
    ensures r.Ok? ==> (r.value != [] <==> FilledIn(v))
  {
    match v
    case Undefined => Ok([])
    case Null => Ok([])
    case Str(s) => Ok(Trim(s))
    case _ => Err(Thrown(name + "?.trim is not a function"))
  }

  /** A value `v?.trim()` can be called on: absent, null or a string. */
  predicate Trimmable(v: Value) {
    v.Undefined? || v.Null? || v.Str?
  }

  /** `delete obj[k]` for every `k` in `keys`: those keys go and every other entry stays. */
  function Omit(d: Doc, keys: set<string>): (r: Doc)
    ensures r.Keys == d.Keys - keys
    ensures forall k :: k in r ==> r[k] == d[k]
  {
    map k | k in d && k !in keys :: d[k]
  }

  /** `res.status(status).json(new ApiResponse(..., data, message))`. */
  datatype Response<+T> = Response(status: int, data: T, message: string)

  /** A cookie operation attached to a response. */
  datatype Cookie =
    | SetCookie(name: string, value: string, httpOnly: bool, secure: bool)
    | ClearCookie(name: string, httpOnly: bool, secure: bool)
}

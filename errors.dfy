/**
 * Thrown values and error bodies. `ErrorResponse` is the application's own
 * HTTP exception whose body already has the `{success: false, ...}` shape;
 * its subclasses differ only in status and default message, so they are one
 * function over an `ErrorKind`. Nest's built-in exceptions (thrown by the
 * request guard) carry Nest's own body `{message, error, statusCode}`.
 */
module Errors {
  import opened Wrappers

  /** JSON-like values, enough for exception bodies. */
  datatype JsValue =
    | Undefined
    | Null
    | Bool(b: bool)
    | Num(n: int)
    | Str(s: string)
    | Arr(items: seq<JsValue>)
    | Obj(fields: seq<(string, JsValue)>)

  /** JavaScript truthiness. */
  predicate Truthy(v: JsValue) {
    match v
    case Undefined => false
    case Null => false
    case Bool(b) => b
    case Num(n) => n != 0
    case Str(s) => s != ""
    case _ => true
  }

  /** Property lookup `obj[key]`: the first field so named, `undefined` when there is none. */
  function Get(fields: seq<(string, JsValue)>, key: string): JsValue {
    if |fields| == 0 then Undefined
    else if fields[0].0 == key then fields[0].1
    else Get(fields[1..], key)
  }

  /** A lookup finds the first field with the key. */
  lemma {:induction false} GetAt(fields: seq<(string, JsValue)>, i: nat, key: string)
    requires i < |fields| && fields[i].0 == key
    requires forall j :: 0 <= j < i ==> fields[j].0 != key
    ensures Get(fields, key) == fields[i].1
    decreases i
  {
    if i > 0 {
      GetAt(fields[1..], i - 1, key);
    }
  }

  /** A lookup of a key no field has is `undefined`. */
  lemma {:induction false} GetAbsent(fields: seq<(string, JsValue)>, key: string)
    requires forall j :: 0 <= j < |fields| ==> fields[j].0 != key
    ensures Get(fields, key) == Undefined
    decreases |fields|
  {
    if |fields| > 0 {
      GetAbsent(fields[1..], key);
    }
  }

  const StatusBadRequest: int := 400
  const StatusUnauthorized: int := 401
  const StatusForbidden: int := 403
  const StatusNotFound: int := 404
  const StatusConflict: int := 409
  const StatusInternalServerError: int := 500

  /** What `exception.getResponse()` gives: a string or an object. */
  datatype ExceptionResponse = TextResponse(text: string) | ObjectResponse(fields: seq<(string, JsValue)>)

  /** A thrown value: an HTTP exception, another `Error`, or something that is not an `Error` at all. */
  datatype Thrown =
    | HttpException(status: int, response: ExceptionResponse)
    | PlainError(message: string)
    | NonError

  /**
   * `new ErrorResponse({message, statusCode, metadata})`, an absent argument
   * taking its default ('Error', 500): an HTTP exception with that status
   * whose body says `success: false`, repeats the status, and carries the
   * message and metadata unchanged.
   */
  function ErrorResponse(message: Option<string>, statusCode: Option<int>, metadata: JsValue): (e: Thrown)
    ensures e.HttpException? && e.response.ObjectResponse?
    ensures e.status == statusCode.GetOr(StatusInternalServerError)
    ensures Get(e.response.fields, "success") == Bool(false)
    ensures Get(e.response.fields, "statusCode") == Num(e.status)
    ensures Get(e.response.fields, "message") == Str(message.GetOr("Error"))
    ensures Get(e.response.fields, "metadata") == metadata
  {
    var status := statusCode.GetOr(StatusInternalServerError);
    var fields := [
      ("success", Bool(false)),
      ("statusCode", Num(status)),
      ("message", Str(message.GetOr("Error"))),
      ("metadata", metadata)];
    GetAt(fields, 2, "message");
    GetAt(fields, 3, "metadata");
    HttpException(status, ObjectResponse(fields))
  }

  /** The `ErrorResponse` subclasses. */
  datatype ErrorKind = BadRequest | Unauthorized | Forbidden | NotFound | Conflict | InternalServer

  function StatusOf(kind: ErrorKind): int {
    match kind
    case BadRequest => StatusBadRequest
    case Unauthorized => StatusUnauthorized
    case Forbidden => StatusForbidden
    case NotFound => StatusNotFound
    case Conflict => StatusConflict
    case InternalServer => StatusInternalServerError
  }

  function DefaultMessage(kind: ErrorKind): string {
    match kind
    case BadRequest => "Bad Request"
    case Unauthorized => "Unauthorized"
    case Forbidden => "Forbidden"
    case NotFound => "Not Found"
    case Conflict => "Conflict"
    case InternalServer => "Internal Server Error"
  }

  /** `new UnauthorizedError(message?, metadata?)` and its siblings. */
  function AppError(kind: ErrorKind, message: Option<string>, metadata: JsValue): Thrown {
    ErrorResponse(Some(message.GetOr(DefaultMessage(kind))), Some(StatusOf(kind)), metadata)
  }

  /** An application error with a message and no metadata, the form the services throw. */
  function Raise(kind: ErrorKind, message: string): Thrown {
    AppError(kind, Some(message), Undefined)
  }

  /**
   * Nest's `new UnauthorizedException(message)`. Nest builds the body
   * `{message, error: 'Unauthorized', statusCode}`, except that a falsy
   * message gives `{message: 'Unauthorized', statusCode}` instead.
   */
  function UnauthorizedException(message: string): Thrown {
    HttpException(StatusUnauthorized, ObjectResponse(
      if message == "" then [("message", Str("Unauthorized")), ("statusCode", Num(StatusUnauthorized))]
      else [("message", Str(message)), ("error", Str("Unauthorized")), ("statusCode", Num(StatusUnauthorized))]))
  }
}

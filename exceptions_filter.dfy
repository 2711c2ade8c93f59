/**
 * The global exception filter: every thrown value becomes an HTTP status and a
 * JSON body. Bodies in the application's own error shape pass through as they
 * are; everything else is rebuilt as `{success: false, statusCode, message}`
 * with `metadata` added only when it is truthy.
 */
module ExceptionsFilter {
  import opened Wrappers
  import opened Errors

  const DefaultErrorMessage: string := "Internal Server Error"

  /** The body the filter builds itself. */
  function ErrorBody(statusCode: int, message: JsValue, metadata: JsValue): JsValue {
    Obj([("success", Bool(false)), ("statusCode", Num(statusCode)), ("message", message)] +
        (if Truthy(metadata) then [("metadata", metadata)] else []))
  }

  /** The body the filter builds always reads as a failure and repeats the status. */
  lemma ErrorBodyShape(statusCode: int, message: JsValue, metadata: JsValue)
    ensures var b := ErrorBody(statusCode, message, metadata);
      && Get(b.fields, "success") == Bool(false)
      && Get(b.fields, "statusCode") == Num(statusCode)
      && Get(b.fields, "message") == message
      && Get(b.fields, "metadata") == (if Truthy(metadata) then metadata else Undefined)
  {
    var fields := ErrorBody(statusCode, message, metadata).fields;
    GetAt(fields, 2, "message");
    if Truthy(metadata) {
      GetAt(fields, 3, "metadata");
    } else {
      GetAbsent(fields, "metadata");
    }
  }

  /** Whether an object body already has the application's error shape (`res.success === false`). */
  predicate PassesThrough(fields: seq<(string, JsValue)>) {
    Get(fields, "success") == Bool(false)
  }

  /**
   * The status and body written for a thrown value: an HTTP exception keeps
   * its status, anything else is a 500; every body says `success: false`.
   */
  function Respond(exception: Thrown): (r: (int, JsValue))
    ensures r.1.Obj? && Get(r.1.fields, "success") == Bool(false)
    ensures r.0 == if exception.HttpException? then exception.status else StatusInternalServerError
  {
    match exception
    case HttpException(status, TextResponse(text)) =>
      (status, ErrorBody(status, Str(text), Undefined))
    case HttpException(status, ObjectResponse(res)) =>
      if PassesThrough(res) then (status, Obj(res))
      else
        var message := if Truthy(Get(res, "message")) then Get(res, "message") else Str(DefaultErrorMessage);
        (status, ErrorBody(status, message, Get(res, "metadata")))
    case PlainError(message) =>
      (StatusInternalServerError, ErrorBody(StatusInternalServerError, Str(message), Undefined))
    case NonError =>
      (StatusInternalServerError, ErrorBody(StatusInternalServerError, Str(DefaultErrorMessage), Undefined))
  }

  /** `catch(exception, host)`: the status and body it writes to the response. */
  method Catch(exception: Thrown) returns (status: int, body: JsValue)
    ensures (status, body) == Respond(exception)
  {
    var statusCode := StatusInternalServerError;
    var message := Str(DefaultErrorMessage);
    var metadata := Undefined;

    if exception.HttpException? {
      statusCode := exception.status;
      var exceptionResponse := exception.response;
      if exceptionResponse.TextResponse? {
        message := Str(exceptionResponse.text);
      } else {
        var res := exceptionResponse.fields;
        if PassesThrough(res) {
          return statusCode, Obj(res);
        }
        if Truthy(Get(res, "message")) {
          message := Get(res, "message");
        }
        metadata := Get(res, "metadata");
      }
    } else if exception.PlainError? {
      message := Str(exception.message);
    }

    return statusCode, ErrorBody(statusCode, message, metadata);
  }

  /** A value that is neither an HTTP exception nor an `Error` is a bare 500. */
  lemma NonErrorIsInternal()
    ensures Respond(NonError) == (500, Obj([("success", Bool(false)), ("statusCode", Num(500)), ("message", Str("Internal Server Error"))]))
  {
    var fields := [("success", Bool(false)), ("statusCode", Num(500)), ("message", Str("Internal Server Error"))];
    assert fields + [] == fields;
  }

  /** Every `ErrorResponse` is passed through verbatim, with its own status, which its body repeats. */
  lemma ErrorResponsePassesThrough(message: Option<string>, statusCode: Option<int>, metadata: JsValue)
    ensures var e := ErrorResponse(message, statusCode, metadata);
      && Respond(e) == (e.status, Obj(e.response.fields))
      && Get(Respond(e).1.fields, "statusCode") == Num(Respond(e).0)
      && Get(Respond(e).1.fields, "message") == Str(message.GetOr("Error"))
  {
  }

  /**
   * Nest's `UnauthorizedException(message)` becomes a 401 whose body carries
   * the message; for an empty message Nest has already put its description
   * 'Unauthorized' in its place.
   */
  lemma UnauthorizedExceptionResponse(message: string)
    ensures Respond(UnauthorizedException(message)) ==
      (401, Obj([("success", Bool(false)), ("statusCode", Num(401)),
                 ("message", Str(if message != "" then message else "Unauthorized"))]))
  {
    var fields := UnauthorizedException(message).response.fields;
    GetAbsent(fields, "success");
    GetAt(fields, 0, "message");
    GetAbsent(fields, "metadata");
    var body := [("success", Bool(false)), ("statusCode", Num(401)),
                 ("message", Str(if message != "" then message else "Unauthorized"))];
    assert body + [] == body;
  }

  /** A string response becomes the message itself, even an empty one, with no metadata. */
  lemma TextResponseMessage(status: int, text: string)
    ensures Respond(HttpException(status, TextResponse(text))) ==
      (status, Obj([("success", Bool(false)), ("statusCode", Num(status)), ("message", Str(text))]))
  {
    var body := [("success", Bool(false)), ("statusCode", Num(status)), ("message", Str(text))];
    assert body + [] == body;
  }

  /** An object body without the application shape: its truthy message is used, else the default. */
  lemma ObjectResponseMessage(status: int, res: seq<(string, JsValue)>)
    requires !PassesThrough(res)
    ensures var b := Respond(HttpException(status, ObjectResponse(res))).1;
      && Get(b.fields, "statusCode") == Num(status)
      && Get(b.fields, "message") == (if Truthy(Get(res, "message")) then Get(res, "message") else Str(DefaultErrorMessage))
      && (Truthy(Get(res, "metadata")) <==> Get(b.fields, "metadata") != Undefined)
  {
    var message := if Truthy(Get(res, "message")) then Get(res, "message") else Str(DefaultErrorMessage);
    ErrorBodyShape(status, message, Get(res, "metadata"));
  }

  /** A plain `Error` becomes a 500 carrying its message. */
  lemma PlainErrorIsInternal(message: string)
    ensures var r := Respond(PlainError(message));
      r.0 == 500 && Get(r.1.fields, "message") == Str(message) && Get(r.1.fields, "metadata") == Undefined
  {
    ErrorBodyShape(500, Str(message), Undefined);
  }

  /**
   * An application error of any kind reaches the client with its kind's
   * status, repeated in the body, and its message or the kind's default.
   */
  lemma AppErrorResponse(kind: ErrorKind, message: Option<string>, metadata: JsValue)
    ensures var r := Respond(AppError(kind, message, metadata));
      && r.0 == StatusOf(kind)
      && Get(r.1.fields, "statusCode") == Num(StatusOf(kind))
      && Get(r.1.fields, "message") == Str(message.GetOr(DefaultMessage(kind)))
      && Get(r.1.fields, "metadata") == metadata
  {
    ErrorResponsePassesThrough(Some(message.GetOr(DefaultMessage(kind))), Some(StatusOf(kind)), metadata);
  }
}

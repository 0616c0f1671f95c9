/**
 * The error map both exception handlers build (a `HashMap<String, Object>`
 * whose values are Strings or an Integer status) and the part of the
 * exchange they read.
 */
module ErrorRecords {
  import opened Wrappers
  import opened Exceptions

  /** A value stored in the error map. */
  datatype Value = Str(s: string) | Int(i: int)

  /**
   * The request as the handlers see it. `correlationId` is the id the request
   * filter stores in the exchange attribute "requestId" and also sends back as
   * the X-Request-ID response header (None when the filter did not run);
   * `requestIdHeader` lists the values of the X-Request-ID header the client
   * itself sent, in order.
   */
  datatype Exchange = Exchange(
    path: string,
    httpMethod: string,
    correlationId: Option<string>,
    requestIdHeader: seq<string>)

  /** The keys an error map can hold. */
  datatype Key =
    | TimestampKey | PathKey | MethodKey | StatusKey | ErrorKey | MessageKey | ExceptionKey | RequestIdKey

  /** The key as the map spells it. */
  function KeyName(k: Key): string {
    match k
    case TimestampKey => "timestamp"
    case PathKey => "path"
    case MethodKey => "method"
    case StatusKey => "status"
    case ErrorKey => "error"
    case MessageKey => "message"
    case ExceptionKey => "exception"
    case RequestIdKey => "requestId"
  }

  /** The keys every error map holds; "requestId" is added when an id is known. */
  const BaseKeys: set<Key> := {TimestampKey, PathKey, MethodKey, StatusKey, ErrorKey, MessageKey, ExceptionKey}

  /** The keys of an error map built with or without a request id. */
  function ErrorKeys(withRequestId: bool): set<Key> {
    if withRequestId then BaseKeys + {RequestIdKey} else BaseKeys
  }

  /** The map a handler fills: `fallback` replaces a null message, and the
      request id, when given, goes under "requestId". */
  function ErrorMap(timestamp: string, exchange: Exchange, status: int, error: string,
                    ex: Throwable, fallback: string, requestId: Option<string>): (m: map<Key, Value>)
    ensures m.Keys == ErrorKeys(requestId.Some?)
    ensures m[TimestampKey] == Str(timestamp)
    ensures m[PathKey] == Str(exchange.path) && m[MethodKey] == Str(exchange.httpMethod)
    ensures m[StatusKey] == Int(status) && m[ErrorKey] == Str(error)
    ensures m[MessageKey] == Str(ex.message.GetOr(fallback))
    ensures m[ExceptionKey] == Str(SimpleName(ex.cls))
    ensures requestId.Some? ==> m[RequestIdKey] == Str(requestId.value)
  {
    var base := map[
      TimestampKey := Str(timestamp),
      PathKey := Str(exchange.path),
      MethodKey := Str(exchange.httpMethod),
      StatusKey := Int(status),
      ErrorKey := Str(error),
      MessageKey := Str(ex.message.GetOr(fallback)),
      ExceptionKey := Str(SimpleName(ex.cls))];
    match requestId
    case None => base
    case Some(id) => base[RequestIdKey := Str(id)]
  }
}

/**
 * The controller-level exception handler: three handler methods, each
 * declared for one exception class, of which the one declared for the
 * nearest superclass of the thrown exception answers; the answer is a
 * status code and the error map.
 */
module CustomExceptionHandler {
  import opened Wrappers
  import opened Exceptions
  import opened ErrorRecords

  /** One handler method: the class it is declared for, and the status and
      error text it answers with. */
  datatype Handler = Handler(catches: ExceptionClass, status: int, error: string)

  /** The handler methods in declaration order. */
  const Handlers: seq<Handler> := [
    Handler(RuntimeException, 500, "Internal Server Error"),
    Handler(IllegalArgumentException, 400, "Bad Request"),
    Handler(Exception, 500, "Internal Server Error")]

  /** Message used when the exception carries none. */
  const NullMessageFallback: string := "An error occurred"

  /** The handler declared for exactly class `a`, if there is one. */
  function DeclaredFor(hs: seq<Handler>, a: ExceptionClass): (h: Option<Handler>)
    ensures h.Some? ==> h.value in hs && h.value.catches == a
    ensures h.None? ==> forall x :: x in hs ==> x.catches != a
  {
    if |hs| == 0 then None
    else if hs[0].catches == a then Some(hs[0])
    else DeclaredFor(hs[1..], a)
  }

  /** Walks a class chain nearest first; the first class with a declared
      handler decides. */
  function NearestHandler(hs: seq<Handler>, chain: seq<ExceptionClass>): (r: Option<Handler>)
    ensures r.Some? ==>
      && r.value in hs
      && r.value.catches in chain
      && forall j :: 0 <= j < Strings.FirstIndex(chain, r.value.catches) ==> DeclaredFor(hs, chain[j]).None?
    ensures r.None? ==> forall j :: 0 <= j < |chain| ==> DeclaredFor(hs, chain[j]).None?
  {
    if |chain| == 0 then None
    else match DeclaredFor(hs, chain[0])
      case Some(h) => Some(h)
      case None =>
        var r := NearestHandler(hs, chain[1..]);
        assert r.Some? ==> Strings.FirstIndex(chain, r.value.catches) == 1 + Strings.FirstIndex(chain[1..], r.value.catches);
        r
  }

  /** The handler of `hs` that answers an exception of class `c`: one
      declared for a superclass of `c` (or `c` itself), with no handler
      declared for any class nearer to `c` on its superclass chain. A table
      with a handler for Exception answers every exception. */
  function Resolve(hs: seq<Handler>, c: ExceptionClass): (h: Handler)
    requires DeclaredFor(hs, Exception).Some?
    ensures h in hs && IsA(c, h.catches)
    ensures forall j :: 0 <= j < Distance(c, h.catches) ==> DeclaredFor(hs, Ancestors(c)[j]).None?
  {
    var chain := Ancestors(c);
    assert DeclaredFor(hs, chain[|chain| - 1]).Some?;
    NearestHandler(hs, chain).value
  }

  /** Of all handlers that apply to `c`, the answering one is declared for the
      nearest class. */
  lemma ResolveNearest(hs: seq<Handler>, c: ExceptionClass, x: Handler)
    requires DeclaredFor(hs, Exception).Some?
    requires x in hs && IsA(c, x.catches)
    ensures Distance(c, Resolve(hs, c).catches) <= Distance(c, x.catches)
  {
    var i := Distance(c, x.catches);
    assert Ancestors(c)[i] == x.catches;
    assert DeclaredFor(hs, Ancestors(c)[i]).Some?;
  }

  /** The answering handler is the one declared for the first class on the
      superclass chain that has a handler at all. */
  lemma ResolvedAt(hs: seq<Handler>, c: ExceptionClass, k: nat)
    requires DeclaredFor(hs, Exception).Some?
    requires k < |Ancestors(c)| && DeclaredFor(hs, Ancestors(c)[k]).Some?
    requires forall j :: 0 <= j < k ==> DeclaredFor(hs, Ancestors(c)[j]).None?
    ensures Resolve(hs, c).catches == Ancestors(c)[k]
  {
    var h := Resolve(hs, c);
    var d := Distance(c, h.catches);
    assert Ancestors(c)[d] == h.catches;
    assert DeclaredFor(hs, Ancestors(c)[d]).Some?;
    assert d == k;
  }

  /** Which classes the controller's handler methods are declared for. */
  lemma DeclaredTable()
    ensures DeclaredFor(Handlers, RuntimeException) == Some(Handlers[0])
    ensures DeclaredFor(Handlers, IllegalArgumentException) == Some(Handlers[1])
    ensures DeclaredFor(Handlers, Exception) == Some(Handlers[2])
    ensures DeclaredFor(Handlers, ResponseStatusException).None?
    ensures DeclaredFor(Handlers, TimeoutException).None?
  {
  }

  /** The class whose handler answers `c`: IllegalArgumentException for itself,
      RuntimeException for its other subclasses, Exception for the rest. */
  lemma ResolvedClass(c: ExceptionClass)
    ensures DeclaredFor(Handlers, Exception).Some?
    ensures Resolve(Handlers, c).catches ==
      if IsA(c, IllegalArgumentException) then IllegalArgumentException
      else if IsA(c, RuntimeException) then RuntimeException
      else Exception
  {
    DeclaredTable();
    var k := if c == ResponseStatusException || c == TimeoutException then 1 else 0;
    ResolvedAt(Handlers, c, k);
  }

  /** Classification: an IllegalArgumentException is a 400 "Bad Request";
      every other exception is a 500 "Internal Server Error". In particular an
      IllegalArgumentException is never answered with 500 although the
      RuntimeException handler also applies to it. */
  lemma ResolveClassifies(c: ExceptionClass)
    ensures DeclaredFor(Handlers, Exception).Some?
    ensures Resolve(Handlers, c).status == (if IsA(c, IllegalArgumentException) then 400 else 500)
    ensures Resolve(Handlers, c).error == (if IsA(c, IllegalArgumentException) then "Bad Request" else "Internal Server Error")
  {
    ResolvedClass(c);
    var h := Resolve(Handlers, c);
    if h.catches == IllegalArgumentException {
      assert h == Handlers[1];
    } else if h.catches == RuntimeException {
      assert h == Handlers[0];
    } else {
      assert h == Handlers[2];
    }
  }

  /** The handler's answer: the HTTP status and the JSON body. */
  datatype Response = Response(status: int, body: map<Key, Value>)

  /** `createErrorResponse`: the request id comes from the exchange attribute. */
  function CreateErrorResponse(exchange: Exchange, timestamp: string, ex: Throwable,
                               status: int, error: string): (m: map<Key, Value>)
    ensures m.Keys == ErrorKeys(exchange.correlationId.Some?)
    ensures m[StatusKey] == Int(status) && m[ErrorKey] == Str(error)
    ensures m[MessageKey] == Str(if ex.message.Some? then ex.message.value else "An error occurred")
    ensures m[ExceptionKey] == Str(SimpleName(ex.cls))
    ensures m[PathKey] == Str(exchange.path) && m[MethodKey] == Str(exchange.httpMethod)
    ensures m[TimestampKey] == Str(timestamp)
    ensures exchange.correlationId.Some? ==> m[RequestIdKey] == Str(exchange.correlationId.value)
  {
    ErrorMap(timestamp, exchange, status, error, ex, NullMessageFallback, exchange.correlationId)
  }

  /** An exception thrown by a controller, answered by the nearest handler. */
  function Handle(exchange: Exchange, timestamp: string, ex: Throwable): (r: Response)
    ensures r.status == (if IsA(ex.cls, IllegalArgumentException) then 400 else 500)
    ensures r.body.Keys == ErrorKeys(exchange.correlationId.Some?)
    ensures r.body[StatusKey] == Int(r.status)
    ensures r.body[ErrorKey] == Str(if r.status == 400 then "Bad Request" else "Internal Server Error")
    ensures r.body[MessageKey] == Str(if ex.message.Some? then ex.message.value else "An error occurred")
    ensures r.body[ExceptionKey] == Str(SimpleName(ex.cls))
    ensures r.body[PathKey] == Str(exchange.path) && r.body[MethodKey] == Str(exchange.httpMethod)
    ensures r.body[TimestampKey] == Str(timestamp)
    ensures exchange.correlationId.Some? ==> r.body[RequestIdKey] == Str(exchange.correlationId.value)
  {
    ResolveClassifies(ex.cls);
    var h := Resolve(Handlers, ex.cls);
    Response(h.status, CreateErrorResponse(exchange, timestamp, ex, h.status, h.error))
  }
}

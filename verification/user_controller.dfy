/**
 * The `/api/users` endpoints: a fixed three-user table, a stream of it with a
 * per-element delay, lookup by id, a delayed echo, a delete that does
 * nothing, two endpoints that throw on purpose, and three export endpoints
 * that hand over to the export service. Time is an explicit millisecond
 * clock: `now` is when the request arrives.
 */
module UserController {
  import opened Wrappers
  import opened Strings
  import opened Users
  import opened Exceptions
  import opened ErrorRecords
  import DataExportService
  import CustomExceptionHandler
  import GlobalExceptionHandler

  /** The controller's user table. */
  const UserTable: seq<User> := [
    User(1, "Alice", "alice@example.com"),
    User(2, "Bob", "bob@example.com"),
    User(3, "Charlie", "charlie@example.com")]

  /** `Flux.delayElements`: delay between emissions of the stream. */
  const StreamDelayMillis: nat := 100

  /** `Mono.delayElement` of `createUser`. */
  const EchoDelayMillis: nat := 200

  lemma UserTableShape()
    ensures |UserTable| == 3 && DistinctIds(UserTable)
    ensures forall i :: 0 <= i < |UserTable| ==> UserTable[i].id == i + 1
  {
  }

  // Timed streams

  /** A value and the instant it is emitted. */
  datatype Timed<T> = Timed(at: nat, value: T)

  /** A finite stream: its emissions in order, and when it completes. */
  datatype Stream<T> = Stream(emissions: seq<Timed<T>>, completesAt: nat)

  /** `delayElements(delay)` on a source whose elements are all available at
      `start`: each element waits `delay` after the previous emission. */
  function DelayElements<T>(xs: seq<T>, start: nat, delay: nat): (r: seq<Timed<T>>)
    ensures |r| == |xs|
    ensures forall k :: 0 <= k < |xs| ==> r[k] == Timed(start + (k + 1) * delay, xs[k])
    decreases |xs|
  {
    if |xs| == 0 then []
    else [Timed(start + delay, xs[0])] + DelayElements(xs[1..], start + delay, delay)
  }

  /** `getAllUsers`: the table, one user per delay, completing with the last. */
  function GetAllUsers(now: nat): (r: Stream<User>)
    ensures |r.emissions| == |UserTable|
    ensures forall k :: 0 <= k < |UserTable| ==> r.emissions[k].value == UserTable[k]
    ensures forall k :: 0 <= k < |UserTable| ==> r.emissions[k].at >= now + (k + 1) * StreamDelayMillis
    ensures forall j, k :: 0 <= j < k < |UserTable| ==> r.emissions[j].at < r.emissions[k].at
    ensures forall k :: 0 <= k < |UserTable| ==> r.emissions[k].at <= r.completesAt
    ensures r.completesAt >= now + 300
  {
    var es := DelayElements(UserTable, now, StreamDelayMillis);
    Stream(es, es[|es| - 1].at)
  }

  // Lookup

  /** `users.stream().filter(id matches).findFirst()` over any table. */
  function FindById(table: seq<User>, id: int): (r: Option<User>)
    ensures r.Some? ==> exists i :: 0 <= i < |table| && table[i] == r.value
    ensures r.Some? ==> r.value.id == id
    ensures r.None? <==> forall i :: 0 <= i < |table| ==> table[i].id != id
    decreases |table|
  {
    if |table| == 0 then None
    else if table[0].id == id then Some(table[0])
    else
      var r := FindById(table[1..], id);
      assert r.Some? ==> exists i :: 0 <= i < |table| - 1 && table[1..][i] == r.value;
      r
  }

  /** The first user of the table with the id is the one found. */
  lemma {:induction false} FindByIdFirst(table: seq<User>, id: int, i: nat)
    requires i < |table| && table[i].id == id
    requires forall j :: 0 <= j < i ==> table[j].id != id
    ensures FindById(table, id) == Some(table[i])
    decreases i
  {
    if i > 0 {
      FindByIdFirst(table[1..], id, i - 1);
    }
  }

  /** `getUserById`: a table user with that id, or nothing exactly when the
      table has none. */
  function GetUserById(id: Long): (r: Option<User>)
    ensures r.Some? ==> r.value in UserTable && r.value.id == id
    ensures r.None? <==> forall u :: u in UserTable ==> u.id != id
  {
    FindById(UserTable, id)
  }

  /** Ids 1 and 2 give Alice and Bob; an id outside 1..3, such as 999, gives
      nothing. */
  lemma GetUserByIdExamples()
    ensures GetUserById(1) == Some(User(1, "Alice", "alice@example.com"))
    ensures GetUserById(2) == Some(User(2, "Bob", "bob@example.com"))
    ensures GetUserById(999).None?
  {
    FindByIdFirst(UserTable, 1, 0);
    FindByIdFirst(UserTable, 2, 1);
  }

  /** Exactly the ids 1, 2 and 3 are found, each as the table's entry. */
  lemma GetUserByIdFound(id: Long)
    ensures GetUserById(id).Some? <==> 1 <= id <= 3
    ensures GetUserById(id).Some? ==> GetUserById(id).value == UserTable[id - 1]
  {
    UserTableShape();
    if 1 <= id <= 3 {
      FindByIdFirst(UserTable, id, id - 1);
    }
  }

  // Echo and delete

  /** `createUser`: the body itself, emitted after the echo delay. */
  function CreateUser(user: User, now: nat): (r: Timed<User>)
    ensures r.value == user
    ensures r.at >= now + 200
  {
    Timed(now + EchoDelayMillis, user)
  }

  /** `deleteUser`: completes empty, whatever the id; the table is a constant
      the endpoint never touches. */
  function DeleteUser(id: Long): (emitted: seq<User>)
    ensures emitted == []
  {
    []
  }

  // The throwing endpoints

  /** `testError`. */
  function TestError(): Throwable {
    Throwable(RuntimeException, Some("This is a test error for demonstration"))
  }

  /** `testBadRequest`. */
  function TestBadRequest(): Throwable {
    Throwable(IllegalArgumentException, Some("Invalid parameter provided"))
  }

  /** Through the controller-level handler, `testError` is a 500 naming a
      RuntimeException and `testBadRequest` a 400 naming an
      IllegalArgumentException, both carrying the thrown message. */
  lemma TestEndpointsAnswered(exchange: Exchange, timestamp: string)
    ensures var r := CustomExceptionHandler.Handle(exchange, timestamp, TestError());
      && r.status == 500
      && r.body[ErrorKey] == Str("Internal Server Error")
      && r.body[ExceptionKey] == Str("RuntimeException")
      && r.body[MessageKey] == Str("This is a test error for demonstration")
    ensures var r := CustomExceptionHandler.Handle(exchange, timestamp, TestBadRequest());
      && r.status == 400
      && r.body[ErrorKey] == Str("Bad Request")
      && r.body[ExceptionKey] == Str("IllegalArgumentException")
      && r.body[MessageKey] == Str("Invalid parameter provided")
  {
    assert IsA(IllegalArgumentException, IllegalArgumentException);
    assert !IsA(RuntimeException, IllegalArgumentException);
  }

  // Export endpoints

  /** The three `/export…/{requestId}` endpoints. */
  datatype ExportEndpoint = ExportUsers | ExportUsersReactive | ExportUsersBatch

  /** The service strategy each endpoint delegates to. */
  function StrategyOf(e: ExportEndpoint): DataExportService.Strategy {
    match e
    case ExportUsers => DataExportService.Blocking
    case ExportUsersReactive => DataExportService.Reactive
    case ExportUsersBatch => DataExportService.Batch
  }

  /** The endpoint's reply: the service's run, untouched. A successful reply
      is the result of the strategy the endpoint names, a failure is one of
      the service's own errors, and the reply is silent exactly when the
      client went away before the strategy signalled. */
  function ExportEndpointRun(e: ExportEndpoint, requestId: Long, env: DataExportService.Environment): (r: DataExportService.Run)
    ensures r == DataExportService.Export(StrategyOf(e), requestId, env)
    ensures r.outcome.Success? ==>
      r.outcome.result == DataExportService.Completed(StrategyOf(e), requestId, env)
    ensures r.outcome.Failure? ==>
      r.outcome.error.cls in {RuntimeException, TimeoutException} && r.outcome.error.message.Some?
    ensures r.outcome.Cancelled? <==>
      DataExportService.CancelledBefore(env, DataExportService.Signal(StrategyOf(e), requestId, env).elapsedMillis)
  {
    DataExportService.Export(StrategyOf(e), requestId, env)
  }

  /** Each endpoint delegates to its own strategy: no two endpoints share one. */
  lemma EndpointsDistinct(e1: ExportEndpoint, e2: ExportEndpoint)
    ensures StrategyOf(e1) == StrategyOf(e2) <==> e1 == e2
  {
  }

  /** A failed export reaching the controller-level handler is answered with
      500 "Internal Server Error" and the failure's own message: no export
      failure is ever classified as a bad request. */
  lemma ExportFailuresAnswered(e: ExportEndpoint, requestId: Long, env: DataExportService.Environment,
                               exchange: Exchange, timestamp: string)
    requires ExportEndpointRun(e, requestId, env).outcome.Failure?
    ensures var ex := ExportEndpointRun(e, requestId, env).outcome.error;
      var r := CustomExceptionHandler.Handle(exchange, timestamp, ex);
      && r.status == 500
      && r.body[ErrorKey] == Str("Internal Server Error")
      && ex.message.Some?
      && r.body[MessageKey] == Str(ex.message.value)
  {
    FailureAnswered(exchange, timestamp, ExportEndpointRun(e, requestId, env).outcome.error);
  }

  /** A RuntimeException or TimeoutException with a message is answered with
      500 and that message. */
  lemma FailureAnswered(exchange: Exchange, timestamp: string, ex: Throwable)
    requires ex.cls in {RuntimeException, TimeoutException} && ex.message.Some?
    ensures var r := CustomExceptionHandler.Handle(exchange, timestamp, ex);
      && r.status == 500
      && r.body[ErrorKey] == Str("Internal Server Error")
      && r.body[MessageKey] == Str(ex.message.value)
  {
    assert !IsA(ex.cls, IllegalArgumentException);
  }

  // The two handlers side by side

  /** The controller-level handler takes the request id from the exchange
      attribute the request filter sets, the last-resort handler from the
      client's own X-Request-ID header: an exchange with the attribute set and
      no header gets a "requestId" from the first and none from the second. */
  lemma RequestIdSources(exchange: Exchange, timestamp: string, ex: Throwable)
    ensures RequestIdKey in CustomExceptionHandler.Handle(exchange, timestamp, ex).body <==> exchange.correlationId.Some?
    ensures RequestIdKey in GlobalExceptionHandler.CreateErrorResponse(exchange, timestamp, ex) <==> |exchange.requestIdHeader| > 0
  {
    var keys := CustomExceptionHandler.Handle(exchange, timestamp, ex).body.Keys;
    RequestIdKeyPresence(exchange.correlationId.Some?, keys);
  }

  /** "requestId" is among the error keys exactly when a request id is given. */
  lemma RequestIdKeyPresence(withRequestId: bool, keys: set<Key>)
    requires keys == ErrorKeys(withRequestId)
    ensures RequestIdKey in keys <==> withRequestId
  {
  }

  /** The two handlers disagree on bad requests: 400 against 500. */
  lemma BadRequestStatuses(exchange: Exchange, timestamp: string, ex: Throwable)
    requires IsA(ex.cls, IllegalArgumentException)
    ensures CustomExceptionHandler.Handle(exchange, timestamp, ex).status == 400
    ensures GlobalExceptionHandler.CreateErrorResponse(exchange, timestamp, ex)[StatusKey] == Int(500)
  {
  }
}

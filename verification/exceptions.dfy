/**
 * The exception classes that reach the error handlers, with Java's subclass
 * edges: Exception ⊇ RuntimeException ⊇ {IllegalArgumentException,
 * ResponseStatusException}, and Exception ⊇ TimeoutException (the checked
 * exception Reactor's `timeout` signals).
 */
module Exceptions {
  import opened Wrappers
  import Strings

  datatype ExceptionClass =
    | Exception
    | RuntimeException
    | IllegalArgumentException
    | ResponseStatusException
    | TimeoutException

  /** A thrown exception: its class and its possibly-null message. */
  datatype Throwable = Throwable(cls: ExceptionClass, message: Option<string>)

  function Superclass(c: ExceptionClass): Option<ExceptionClass> {
    match c
    case Exception => None
    case RuntimeException => Some(Exception)
    case IllegalArgumentException => Some(RuntimeException)
    case ResponseStatusException => Some(RuntimeException)
    case TimeoutException => Some(Exception)
  }

  /** Number of superclass steps from `c` up to Exception. */
  function Depth(c: ExceptionClass): nat {
    match c
    case Exception => 0
    case RuntimeException => 1
    case IllegalArgumentException => 2
    case ResponseStatusException => 2
    case TimeoutException => 1
  }

  /** `c` followed by its superclasses, nearest first, ending at Exception. */
  function Ancestors(c: ExceptionClass): (chain: seq<ExceptionClass>)
    ensures |chain| == Depth(c) + 1
    ensures chain[0] == c && chain[|chain| - 1] == Exception
    ensures forall i :: 0 <= i < |chain| - 1 ==> Superclass(chain[i]) == Some(chain[i + 1])
  {
    match c
    case Exception => [Exception]
    case RuntimeException => [RuntimeException, Exception]
    case IllegalArgumentException => [IllegalArgumentException, RuntimeException, Exception]
    case ResponseStatusException => [ResponseStatusException, RuntimeException, Exception]
    case TimeoutException => [TimeoutException, Exception]
  }

  /** `c` is `a` or a subclass of it (Java's `a.isAssignableFrom(c)`). */
  predicate IsA(c: ExceptionClass, a: ExceptionClass) {
    a in Ancestors(c)
  }

  /** Java's `getClass().getSimpleName()`. */
  function SimpleName(c: ExceptionClass): string {
    match c
    case Exception => "Exception"
    case RuntimeException => "RuntimeException"
    case IllegalArgumentException => "IllegalArgumentException"
    case ResponseStatusException => "ResponseStatusException"
    case TimeoutException => "TimeoutException"
  }

  /** Java's `"..." + ex.getMessage()`: a null message concatenates as "null". */
  function MessageText(t: Throwable): string {
    t.message.GetOr("null")
  }

  /** Superclass steps from `c` up to its ancestor `a`. */
  function Distance(c: ExceptionClass, a: ExceptionClass): nat
    requires IsA(c, a)
  {
    Strings.FirstIndex(Ancestors(c), a)
  }
}

/**
 * The long-running export service: three strategies that walk a fixed stage
 * schedule and then build an `ExportResult` for the 10-row user table.
 *
 * Everything the source reads from its surroundings is an input here: the
 * millisecond clock read when the file is named, the random draw in [0,100),
 * the text of `LocalDateTime.now()`, the instant the worker thread is
 * interrupted, the instant the subscriber cancels, the time the worker
 * spends at each step before its sleep, and the message of the timeout
 * error Reactor raises.
 */
module DataExportService {
  import opened Wrappers
  import opened Strings
  import opened Users
  import opened Exceptions
  import opened ExportResults

  /** The simulated user database the export reads. */
  const UserDatabase: seq<User> := [
    User(1, "Alice Johnson", "alice.johnson@example.com"),
    User(2, "Bob Smith", "bob.smith@example.com"),
    User(3, "Charlie Brown", "charlie.brown@example.com"),
    User(4, "Diana Prince", "diana.prince@example.com"),
    User(5, "Edward Wilson", "edward.wilson@example.com"),
    User(6, "Fiona Davis", "fiona.davis@example.com"),
    User(7, "George Miller", "george.miller@example.com"),
    User(8, "Helen Taylor", "helen.taylor@example.com"),
    User(9, "Ivan Rodriguez", "ivan.rodriguez@example.com"),
    User(10, "Julia Anderson", "julia.anderson@example.com")]

  /** `exportAsync`, `exportAsyncReactive` and `exportWithProgress`. */
  datatype Strategy = Blocking | Reactive | Batch

  /** A value of `nextInt(100)`. */
  type Draw = d: int | 0 <= d < 100

  /** The batch strategy's `timeout(Duration.ofMinutes(2))`, in milliseconds. */
  const BatchTimeoutMillis: nat := 120000

  /** Prefix of the message `exportAsync` wraps every failure in. */
  const FailurePrefix: string := "Export operation failed: "

  const DownloadPrefix: string := "/api/downloads/"

  /**
   * What the service reads from its surroundings during one run. Instants
   * are milliseconds after subscription.
   * `interruptedAt` is the instant the worker thread is interrupted by
   * something other than the subscriber, such as the pool shutting down.
   * `cancelledAt` is the instant the subscriber cancels, as a client that
   * disconnects does.
   * `overrunMillis[i]` is the time the worker spends on stage i + 1 before its
   * sleep (or delay) begins: waiting for a thread, logging. The entry after
   * the last stage is the time spent building the result. Missing entries
   * are zero.
   */
  datatype Environment = Environment(
    clockMillis: nat,
    draw: Draw,
    completedAt: string,
    interruptedAt: Option<nat>,
    cancelledAt: Option<nat>,
    overrunMillis: seq<nat>,
    timeoutMessage: string)

  /** How a run ends: a result, an error signal, or no signal at all because
      the subscriber went away. */
  datatype Outcome = Success(result: ExportResult) | Failure(error: Throwable) | Cancelled

  /** A run: its outcome, the 1-based stages that ran to completion in the
      order they completed, and the time from subscription to the outcome. */
  datatype Run = Run(outcome: Outcome, completedStages: seq<nat>, elapsedMillis: nat)

  /** The sleeps (or delays) each strategy goes through before its result. */
  function Schedule(s: Strategy): (d: seq<nat>)
    ensures |d| > 0
    ensures forall i :: 0 <= i < |d| ==> d[i] >= 1000
  {
    match s
    case Blocking => [2000, 3000, 2000]
    case Reactive => [2000, 3000, 2000]
    case Batch => [1000, 1000, 1000, 1000, 1000]
  }

  function Sum(xs: seq<nat>): nat {
    if |xs| == 0 then 0 else xs[0] + Sum(xs[1..])
  }

  lemma {:induction false} SumSnoc(xs: seq<nat>, x: nat)
    ensures Sum(xs + [x]) == Sum(xs) + x
    decreases |xs|
  {
    if |xs| > 0 {
      assert (xs + [x])[1..] == xs[1..] + [x];
      SumSnoc(xs[1..], x);
    }
  }

  // The timeline of a run

  /** The worker's time beyond its sleeps at step `i`. */
  function Overrun(env: Environment, i: nat): nat {
    if i < |env.overrunMillis| then env.overrunMillis[i] else 0
  }

  /** The instant the first `k` stages of schedule `d` are done: never before
      their sleeps add up. */
  function StageEnd(d: seq<nat>, env: Environment, k: nat): (t: nat)
    requires k <= |d|
    ensures t >= Sum(d[..k])
  {
    if k == 0 then 0
    else
      assert d[..k] == d[..k - 1] + [d[k - 1]];
      SumSnoc(d[..k - 1], d[k - 1]);
      StageEnd(d, env, k - 1) + Overrun(env, k - 1) + d[k - 1]
  }

  /** Stages end in order. */
  lemma {:induction false} StageEndMonotone(d: seq<nat>, env: Environment, j: nat, k: nat)
    requires j <= k <= |d|
    ensures StageEnd(d, env, j) <= StageEnd(d, env, k)
    decreases k - j
  {
    if j < k {
      StageEndMonotone(d, env, j, k - 1);
    }
  }

  /** The instant stage `k`'s sleep begins: the previous stage is over and the
      worker has spent its time before the sleep; the sleep then takes the
      stage's full time. */
  function SleepStart(d: seq<nat>, env: Environment, k: nat): (t: nat)
    requires 1 <= k <= |d|
    ensures StageEnd(d, env, k - 1) <= t
    ensures t + d[k - 1] == StageEnd(d, env, k)
  {
    StageEnd(d, env, k - 1) + Overrun(env, k - 1)
  }

  /** The instant the result is built, after every stage. */
  function Finish(d: seq<nat>, env: Environment): (t: nat)
    ensures t >= StageEnd(d, env, |d|) && t >= Sum(d)
  {
    assert d[..|d|] == d;
    StageEnd(d, env, |d|) + Overrun(env, |d|)
  }

  /** The first stage from `k` on that is still running at instant `t`. */
  function RunningFrom(d: seq<nat>, env: Environment, t: nat, k: nat): (r: Option<nat>)
    requires 1 <= k <= |d| + 1
    ensures r.Some? ==> k <= r.value <= |d| && t < StageEnd(d, env, r.value)
    ensures r.Some? ==> forall j :: k <= j < r.value ==> StageEnd(d, env, j) <= t
    ensures r.None? <==> forall j :: k <= j <= |d| ==> StageEnd(d, env, j) <= t
    decreases |d| + 1 - k
  {
    if k > |d| then None
    else if t < StageEnd(d, env, k) then Some(k)
    else RunningFrom(d, env, t, k + 1)
  }

  /** How many stages are done by instant `t`. */
  function DoneBy(d: seq<nat>, env: Environment, t: nat): (n: nat)
    ensures n <= |d| && StageEnd(d, env, n) <= t
    ensures n < |d| ==> t < StageEnd(d, env, n + 1)
  {
    match RunningFrom(d, env, t, 1)
    case Some(k) => k - 1
    case None => |d|
  }

  /** An instant in the window of stage `k` comes after fewer than `k`
      stages are done. */
  lemma DoneByBelow(d: seq<nat>, env: Environment, t: nat, k: nat)
    requires 1 <= k <= |d| && t < StageEnd(d, env, k)
    ensures DoneBy(d, env, t) < k
  {
    var n := DoneBy(d, env, t);
    if n >= k {
      StageEndMonotone(d, env, k, n);
    }
  }

  /** Stages that are done stay done: a later instant never has fewer. */
  lemma DoneByMonotone(d: seq<nat>, env: Environment, a: nat, b: nat)
    requires a <= b
    ensures DoneBy(d, env, a) <= DoneBy(d, env, b)
  {
    var m := DoneBy(d, env, b);
    if m < |d| {
      DoneByBelow(d, env, a, m + 1);
    }
  }

  /** The stage numbers 1..n in order. */
  function Stages(n: nat): (r: seq<nat>)
    ensures |r| == n
    ensures forall i :: 0 <= i < n ==> r[i] == i + 1
  {
    seq(n, i requires 0 <= i < n => i + 1)
  }

  function FilePrefix(s: Strategy): string {
    match s
    case Blocking => "user_export_"
    case Reactive => "user_export_reactive_"
    case Batch => "batch_export_"
  }

  /** The `%d_%d.csv` file name each strategy formats. */
  function FileName(s: Strategy, requestId: Long, clockMillis: nat): string {
    FilePrefix(s) + IntToDecimal(requestId) + "_" + IntToDecimal(clockMillis) + ".csv"
  }

  /** `String.format("/api/downloads/%s", fileName)`. */
  function DownloadUrl(fileName: string): string {
    DownloadPrefix + fileName
  }

  /** Simulated bytes per exported record. */
  function RecordBytes(s: Strategy): nat {
    if s == Batch then 75 else 50
  }

  /** The result every strategy builds once its stages are done. */
  function Completed(s: Strategy, requestId: Long, env: Environment): ExportResult {
    var name := FileName(s, requestId, env.clockMillis);
    ExportResult(
      Some(requestId),
      Some(name),
      Some(DownloadUrl(name)),
      Some(|UserDatabase|),
      Some("COMPLETED"),
      Some(env.completedAt),
      Some(|UserDatabase| * RecordBytes(s)))
  }

  /** The stage whose sleep the interruption ends: the one running at its
      instant, whose sleep is under way or still to come (`ThrownAt` says
      when it throws). An interruption after the last stage, or none, ends
      no sleep. */
  function InterruptedStage(s: Strategy, env: Environment): (r: Option<nat>)
    ensures r.Some? ==>
      && env.interruptedAt.Some?
      && 1 <= r.value <= |Schedule(s)|
      && StageEnd(Schedule(s), env, r.value - 1) <= env.interruptedAt.value < StageEnd(Schedule(s), env, r.value)
    ensures r.None? ==>
      env.interruptedAt.Some? ==> StageEnd(Schedule(s), env, |Schedule(s)|) <= env.interruptedAt.value
  {
    match env.interruptedAt
    case Some(t) => RunningFrom(Schedule(s), env, t, 1)
    case None => None
  }

  /** The injected failure of `exportAsync`. */
  predicate InjectedFailure(draw: int) {
    draw < 10
  }

  /** `onErrorMap` of `exportAsync`: a RuntimeException whose message is the
      prefix and the cause's message ("null" when the cause has none). */
  function Rewrap(t: Throwable): Throwable {
    Throwable(RuntimeException, Some(FailurePrefix + MessageText(t)))
  }

  /** The instant the interrupted sleep of stage `k` throws. An interrupt that
      lands during the sleep ends it at once; one that lands in the worker's
      time before the sleep only sets the thread's flag, and the sleep throws
      as soon as it is entered. Either way the sleep throws before it would
      have ended. */
  function ThrownAt(s: Strategy, env: Environment, k: nat): (t: nat)
    requires InterruptedStage(s, env) == Some(k)
    ensures env.interruptedAt.value <= t < StageEnd(Schedule(s), env, k)
    ensures SleepStart(Schedule(s), env, k) <= t
    ensures env.interruptedAt.value < SleepStart(Schedule(s), env, k) ==> t == SleepStart(Schedule(s), env, k)
    ensures SleepStart(Schedule(s), env, k) <= env.interruptedAt.value ==> t == env.interruptedAt.value
  {
    var start := SleepStart(Schedule(s), env, k);
    if env.interruptedAt.value < start then start else env.interruptedAt.value
  }

  /** `exportAsync` as a subscriber that stays sees it: three blocking sleeps
      on a worker thread, a 10% injected failure, then the result; every
      error leaves rewrapped. */
  function ExportBlocking(requestId: Long, env: Environment): (r: Run)
    ensures !r.outcome.Cancelled?
    ensures r.outcome.Failure? ==>
      && r.outcome.error.cls == RuntimeException
      && r.outcome.error.message.Some? && FailurePrefix <= r.outcome.error.message.value
    ensures |r.completedStages| <= 3 && r.completedStages == Stages(|r.completedStages|)
    ensures r.outcome.Success? ==> r.elapsedMillis >= 7000
    ensures InterruptedStage(Blocking, env).Some? ==>
      && r.outcome.Failure?
      && r.elapsedMillis == ThrownAt(Blocking, env, InterruptedStage(Blocking, env).value)
      && |r.completedStages| == InterruptedStage(Blocking, env).value - 1
  {
    var d := Schedule(Blocking);
    match InterruptedStage(Blocking, env)
    case Some(k) =>
      Run(Failure(Rewrap(Throwable(RuntimeException, Some("Export interrupted")))),
          Stages(k - 1), ThrownAt(Blocking, env, k))
    case None =>
      if InjectedFailure(env.draw) then
        Run(Failure(Rewrap(Throwable(RuntimeException, Some("Export failed due to system error")))),
            Stages(|d|), Finish(d, env))
      else
        Run(Success(Completed(Blocking, requestId, env)), Stages(|d|), Finish(d, env))
  }

  /** `exportAsyncReactive` as a subscriber that stays sees it: three
      non-blocking delays, then the result. No thread sleeps, so nothing can
      be interrupted, and there is no failure branch. */
  function ExportReactive(requestId: Long, env: Environment): (r: Run)
    ensures r.outcome == Success(Completed(Reactive, requestId, env))
    ensures r.completedStages == [1, 2, 3]
    ensures r.elapsedMillis >= StageEnd(Schedule(Reactive), env, 3) && r.elapsedMillis >= 7000
  {
    var d := Schedule(Reactive);
    assert Stages(3) == [1, 2, 3];
    ThreeStageSum(Reactive);
    Run(Success(Completed(Reactive, requestId, env)), Stages(|d|), Finish(d, env))
  }

  /** `exportWithProgress` as a subscriber that stays sees it: five one-second
      batches on a worker thread under a two-minute timeout. Whichever comes
      first ends the run: an interrupted sleep fails with its own message,
      unwrapped; a run still going at the ceiling fails there with Reactor's
      TimeoutException, having done the batches that ended by then. */
  function ExportBatch(requestId: Long, env: Environment): (r: Run)
    ensures !r.outcome.Cancelled?
    ensures r.elapsedMillis <= BatchTimeoutMillis
    ensures r.outcome.Failure? ==> r.outcome.error.cls in {RuntimeException, TimeoutException}
    ensures r.outcome.Failure? ==> r.outcome.error.message.Some?
    ensures |r.completedStages| <= 5 && r.completedStages == Stages(|r.completedStages|)
  {
    var d := Schedule(Batch);
    var timedOut := Run(Failure(Throwable(TimeoutException, Some(env.timeoutMessage))),
                        Stages(DoneBy(d, env, BatchTimeoutMillis)), BatchTimeoutMillis);
    match InterruptedStage(Batch, env)
    case Some(k) =>
      if ThrownAt(Batch, env, k) < BatchTimeoutMillis then
        Run(Failure(Throwable(RuntimeException, Some("Batch processing interrupted"))),
            Stages(k - 1), ThrownAt(Batch, env, k))
      else timedOut
    case None =>
      if Finish(d, env) > BatchTimeoutMillis then timedOut
      else Run(Success(Completed(Batch, requestId, env)), Stages(|d|), Finish(d, env))
  }

  /** What the strategy signals to a subscriber that does not cancel. */
  function Signal(s: Strategy, requestId: Long, env: Environment): (r: Run)
    ensures !r.outcome.Cancelled?
    ensures r.outcome.Success? ==> r.completedStages == Stages(|Schedule(s)|)
    ensures r.outcome.Success? ==> r.elapsedMillis >= Sum(Schedule(s))
    ensures r.outcome.Success? ==> r.outcome.result == Completed(s, requestId, env)
    ensures r.outcome.Failure? ==> r.outcome.error.cls in {RuntimeException, TimeoutException}
    ensures r.outcome.Failure? ==> r.outcome.error.message.Some?
  {
    match s
    case Blocking => ExportBlocking(requestId, env)
    case Reactive => ExportReactive(requestId, env)
    case Batch => ExportBatch(requestId, env)
  }

  /** The subscriber has cancelled before instant `t`. */
  predicate CancelledBefore(env: Environment, t: nat) {
    env.cancelledAt.Some? && env.cancelledAt.value < t
  }

  /** The run the subscriber sees. The endpoints hand the strategy's Mono
      over as it is, so a subscriber that cancels before the strategy signals
      gets no signal at all: the cancellation interrupts the worker, and
      Reactor drops the error the interrupted sleep throws, or it disposes the
      pending delay. The stages done by then are all that ran. A cancellation
      at the very instant of the signal comes too late. */
  function Export(s: Strategy, requestId: Long, env: Environment): (r: Run)
    ensures r.outcome.Success? ==> r.completedStages == Stages(|Schedule(s)|)
    ensures r.outcome.Success? ==> r.elapsedMillis >= Sum(Schedule(s))
    ensures r.outcome.Success? ==> r.outcome.result == Completed(s, requestId, env)
    ensures r.outcome.Failure? ==> r.outcome.error.cls in {RuntimeException, TimeoutException}
    ensures r.outcome.Failure? ==> r.outcome.error.message.Some?
    ensures r.outcome.Cancelled? <==> CancelledBefore(env, Signal(s, requestId, env).elapsedMillis)
    ensures !r.outcome.Cancelled? ==> r == Signal(s, requestId, env)
    ensures r.outcome.Cancelled? ==>
      && r.elapsedMillis == env.cancelledAt.value
      && r.completedStages == Stages(DoneBy(Schedule(s), env, r.elapsedMillis))
  {
    var u := Signal(s, requestId, env);
    if CancelledBefore(env, u.elapsedMillis) then
      Run(Cancelled, Stages(DoneBy(Schedule(s), env, env.cancelledAt.value)), env.cancelledAt.value)
    else u
  }

  /** The first n stage numbers are a prefix of the first m. */
  lemma StagesPrefix(n: nat, m: nat)
    requires n <= m
    ensures Stages(n) == Stages(m)[..n]
  {
  }

  /** A cancelled run stops early: it ends before a subscriber that stayed
      would have had its signal, and the stages it did are a prefix of the
      ones that subscriber would have seen done. */
  lemma CancellationStops(s: Strategy, requestId: Long, env: Environment)
    requires Export(s, requestId, env).outcome.Cancelled?
    ensures var r, u := Export(s, requestId, env), Signal(s, requestId, env);
      && r.elapsedMillis < u.elapsedMillis
      && |r.completedStages| <= |u.completedStages|
      && r.completedStages == u.completedStages[..|r.completedStages|]
  {
    var r, u := Export(s, requestId, env), Signal(s, requestId, env);
    var c := env.cancelledAt.value;
    match s {
      case Blocking => BlockingDoneBy(requestId, env, c);
      case Reactive =>
      case Batch => BatchDoneBy(requestId, env, c);
    }
    StagesPrefix(|r.completedStages|, |u.completedStages|);
  }

  /** Before `exportAsync` signals, no more stages are done than it reports. */
  lemma BlockingDoneBy(requestId: Long, env: Environment, c: nat)
    requires c < ExportBlocking(requestId, env).elapsedMillis
    ensures DoneBy(Schedule(Blocking), env, c) <= |ExportBlocking(requestId, env).completedStages|
  {
    match InterruptedStage(Blocking, env)
    case Some(k) => DoneByBelow(Schedule(Blocking), env, c, k);
    case None =>
  }

  /** Before `exportWithProgress` signals, no more batches are done than it
      reports. */
  lemma BatchDoneBy(requestId: Long, env: Environment, c: nat)
    requires c < ExportBatch(requestId, env).elapsedMillis
    ensures DoneBy(Schedule(Batch), env, c) <= |ExportBatch(requestId, env).completedStages|
  {
    var d := Schedule(Batch);
    match InterruptedStage(Batch, env) {
      case Some(k) =>
        if ThrownAt(Batch, env, k) < BatchTimeoutMillis {
          DoneByBelow(d, env, c, k);
        } else {
          DoneByMonotone(d, env, c, BatchTimeoutMillis);
        }
      case None =>
        if Finish(d, env) > BatchTimeoutMillis {
          DoneByMonotone(d, env, c, BatchTimeoutMillis);
        }
    }
  }

  // Properties of a run

  /** On success every strategy reports the request id, the table size, the
      status "COMPLETED", the strategy's file name for the request id and the
      clock, the download URL of that file, and 50 bytes per record (75 for
      the batch strategy). */
  lemma SuccessShape(s: Strategy, requestId: Long, env: Environment)
    requires Export(s, requestId, env).outcome.Success?
    ensures var e := Export(s, requestId, env).outcome.result;
      && e.taskId == Some(requestId)
      && e.status == Some("COMPLETED")
      && e.totalRecords == Some(10) && |UserDatabase| == 10
      && e.completedAt == Some(env.completedAt)
      && e.fileName == Some(FileName(s, requestId, env.clockMillis))
      && e.downloadUrl == Some(DownloadUrl(e.fileName.value))
      && e.fileSizeBytes == Some(if s == Batch then 750 else 500)
  {
  }

  /** The download URL is exactly the file name behind "/api/downloads/". */
  lemma DownloadUrlRoundTrip(fileName: string)
    ensures DownloadPrefix <= DownloadUrl(fileName)
    ensures DownloadUrl(fileName)[|DownloadPrefix|..] == fileName
  {
    assert DownloadUrl(fileName)[|DownloadPrefix|..] == fileName;
  }

  /** The "Export operation failed: " message of a cause with message `m`. */
  lemma RewrapMessage(m: string)
    ensures Rewrap(Throwable(RuntimeException, Some(m))).message.value == FailurePrefix + m
    ensures FailurePrefix <= Rewrap(Throwable(RuntimeException, Some(m))).message.value
    ensures Rewrap(Throwable(RuntimeException, Some(m))).message.value[|FailurePrefix|..] == m
  {
    assert (FailurePrefix + m)[|FailurePrefix|..] == m;
  }

  /** Absent an interruption, `exportAsync` fails exactly when the draw is
      below 10 and the subscriber is still there after the third sleep, and
      then with the rewrapped system-error message; it succeeds exactly when
      the draw is 10 or more and the subscriber is still there. */
  lemma BlockingFailsIff(requestId: Long, env: Environment)
    requires InterruptedStage(Blocking, env).None?
    ensures var stays := !CancelledBefore(env, Finish(Schedule(Blocking), env));
      Export(Blocking, requestId, env).outcome.Failure? <==> env.draw < 10 && stays
    ensures Export(Blocking, requestId, env).outcome.Failure? ==>
      Export(Blocking, requestId, env).outcome.error ==
        Throwable(RuntimeException, Some(FailurePrefix + "Export failed due to system error"))
    ensures var stays := !CancelledBefore(env, Finish(Schedule(Blocking), env));
      Export(Blocking, requestId, env).outcome.Success? <==> env.draw >= 10 && stays
  {
    assert Signal(Blocking, requestId, env) == ExportBlocking(requestId, env);
    RewrapMessage("Export failed due to system error");
  }

  /** Number of draws below `n` that inject a failure. */
  function FailingDrawsBelow(n: nat): nat {
    if n == 0 then 0 else FailingDrawsBelow(n - 1) + (if InjectedFailure(n - 1) then 1 else 0)
  }

  lemma {:induction false} FailingDrawsCount(n: nat)
    ensures FailingDrawsBelow(n) == if n < 10 then n else 10
    decreases n
  {
    if n > 0 {
      FailingDrawsCount(n - 1);
    }
  }

  /** Exactly 10 of the 100 possible draws inject a failure: the 10% rate. */
  lemma FailingDraws()
    ensures FailingDrawsBelow(100) == 10
    ensures forall d: Draw :: InjectedFailure(d) <==> d < 10
  {
    FailingDrawsCount(100);
  }

  /** `exportAsync` wraps every failure, the interruption included: the error
      is a RuntimeException whose message is "Export operation failed: "
      followed by the original message. The other two strategies pass their
      errors on unchanged: the batch strategy's are its own interruption
      error and Reactor's timeout error, and the reactive one has none. */
  lemma ErrorPropagation(requestId: Long, env: Environment)
    ensures var o := Export(Blocking, requestId, env).outcome;
      o.Failure? ==>
        && o.error.cls == RuntimeException
        && o.error.message.Some?
        && FailurePrefix <= o.error.message.value
        && o.error.message.value[|FailurePrefix|..] in ["Export interrupted", "Export failed due to system error"]
    ensures var o := Export(Blocking, requestId, env).outcome;
      o.Failure? && InterruptedStage(Blocking, env).Some? ==>
        o.error.message == Some(FailurePrefix + "Export interrupted")
    ensures var o := Export(Batch, requestId, env).outcome;
      o.Failure? ==>
        || o.error == Throwable(RuntimeException, Some("Batch processing interrupted"))
        || o.error == Throwable(TimeoutException, Some(env.timeoutMessage))
    ensures !Export(Reactive, requestId, env).outcome.Failure?
  {
    assert Signal(Blocking, requestId, env) == ExportBlocking(requestId, env);
    assert Signal(Batch, requestId, env) == ExportBatch(requestId, env);
    BlockingErrors(requestId, env);
    BatchErrors(requestId, env);
  }

  /** The two errors `exportWithProgress` can end with, neither rewrapped. */
  lemma BatchErrors(requestId: Long, env: Environment)
    ensures var o := ExportBatch(requestId, env).outcome;
      o.Failure? ==>
        || o.error == Throwable(RuntimeException, Some("Batch processing interrupted"))
        || o.error == Throwable(TimeoutException, Some(env.timeoutMessage))
  {
  }

  /** The two errors `exportAsync` can end with, both rewrapped. */
  lemma BlockingErrors(requestId: Long, env: Environment)
    ensures var o := ExportBlocking(requestId, env).outcome;
      o.Failure? ==>
        && o.error.cls == RuntimeException
        && o.error.message.Some?
        && FailurePrefix <= o.error.message.value
        && o.error.message.value[|FailurePrefix|..] in ["Export interrupted", "Export failed due to system error"]
    ensures var o := ExportBlocking(requestId, env).outcome;
      o.Failure? && InterruptedStage(Blocking, env).Some? ==>
        o.error.message == Some(FailurePrefix + "Export interrupted")
  {
    if InterruptedStage(Blocking, env).Some? {
      RewrapMessage("Export interrupted");
    } else {
      RewrapMessage("Export failed due to system error");
    }
  }

  /** `exportAsyncReactive` never fails. It is cancelled exactly when the
      subscriber cancels before the result is built, and otherwise completes
      all three delays, taking at least 2+3+2 seconds. A cancellation after
      the third delay but before the result is built still gets nothing,
      with all three delays done. */
  lemma ReactiveRun(requestId: Long, env: Environment)
    ensures !Export(Reactive, requestId, env).outcome.Failure?
    ensures Export(Reactive, requestId, env).outcome.Cancelled? <==>
      CancelledBefore(env, Finish(Schedule(Reactive), env))
    ensures Export(Reactive, requestId, env).outcome.Success? ==>
      && Export(Reactive, requestId, env).completedStages == [1, 2, 3]
      && Export(Reactive, requestId, env).elapsedMillis >= 7000
    ensures var r := Export(Reactive, requestId, env);
      r.outcome.Cancelled? ==>
        (|r.completedStages| == 3 <==> StageEnd(Schedule(Reactive), env, 3) <= r.elapsedMillis)
  {
    var d := Schedule(Reactive);
    var r := Export(Reactive, requestId, env);
    assert Signal(Reactive, requestId, env) == ExportReactive(requestId, env);
    if r.outcome.Cancelled? && r.elapsedMillis < StageEnd(d, env, 3) {
      DoneByBelow(d, env, r.elapsedMillis, 3);
    }
  }

  /** The three stages of the blocking and reactive strategies add up to 7 seconds. */
  lemma ThreeStageSum(s: Strategy)
    requires s != Batch
    ensures Sum(Schedule(s)) == 7000
  {
    var d := Schedule(s);
    assert d[1..] == [3000, 2000];
    assert d[1..][1..] == [2000];
    assert Sum([2000]) == 2000 + Sum([]);
  }

  /** A schedule of equal stages takes that stage's time once per stage. */
  lemma {:induction false} SumConstant(xs: seq<nat>, c: nat)
    requires forall i :: 0 <= i < |xs| ==> xs[i] == c
    ensures Sum(xs) == c * |xs|
    decreases |xs|
  {
    if |xs| > 0 {
      SumConstant(xs[1..], c);
    }
  }

  /** The first k batches take k seconds. */
  lemma BatchPrefixSum(k: nat)
    requires k <= 5
    ensures Sum(Schedule(Batch)[..k]) == 1000 * k
  {
    SumConstant(Schedule(Batch)[..k], 1000);
  }

  /** To a subscriber that stays, `exportWithProgress` runs the batches 1..5
      in order and never reports past the two-minute ceiling. It succeeds
      exactly when no batch is interrupted and the work is done by the
      ceiling. It fails with its own interruption error exactly when an
      interrupted sleep throws before the ceiling, and with Reactor's timeout
      error, at the ceiling, exactly when the work would outlast the ceiling
      and no interrupted sleep threw first. */
  lemma BatchRun(requestId: Long, env: Environment)
    ensures var r := ExportBatch(requestId, env);
      && r.completedStages == Stages(|r.completedStages|)
      && |r.completedStages| <= 5
      && r.elapsedMillis <= BatchTimeoutMillis
    ensures var r := ExportBatch(requestId, env);
      r.outcome.Success? <==>
        InterruptedStage(Batch, env).None? && Finish(Schedule(Batch), env) <= BatchTimeoutMillis
    ensures var r := ExportBatch(requestId, env);
      r.outcome.Success? ==> r.completedStages == [1, 2, 3, 4, 5]
    ensures var r, i := ExportBatch(requestId, env), InterruptedStage(Batch, env);
      r.outcome == Failure(Throwable(RuntimeException, Some("Batch processing interrupted"))) <==>
        i.Some? && ThrownAt(Batch, env, i.value) < BatchTimeoutMillis
    ensures var r, i := ExportBatch(requestId, env), InterruptedStage(Batch, env);
      r.outcome == Failure(Throwable(TimeoutException, Some(env.timeoutMessage))) <==>
        && Finish(Schedule(Batch), env) > BatchTimeoutMillis
        && (i.None? || ThrownAt(Batch, env, i.value) >= BatchTimeoutMillis)
    ensures var r := ExportBatch(requestId, env);
      r.outcome.Failure? && r.outcome.error.cls == TimeoutException ==>
        && r.elapsedMillis == BatchTimeoutMillis
        && StageEnd(Schedule(Batch), env, |r.completedStages|) <= BatchTimeoutMillis
        && (|r.completedStages| < 5 ==> StageEnd(Schedule(Batch), env, |r.completedStages| + 1) > BatchTimeoutMillis)
    ensures var r, i := ExportBatch(requestId, env), InterruptedStage(Batch, env);
      r.outcome.Failure? && r.outcome.error.cls == RuntimeException ==>
        && i.Some?
        && r.elapsedMillis == ThrownAt(Batch, env, i.value)
        && r.elapsedMillis >= 1000 * |r.completedStages|
  {
    var d := Schedule(Batch);
    assert Stages(5) == [1, 2, 3, 4, 5];
    match InterruptedStage(Batch, env)
    case Some(k) =>
      StageEndMonotone(d, env, k, 5);
      BatchPrefixSum(k - 1);
    case None =>
  }

  /** An interrupt that lands while the worker is late for the fifth batch's
      sleep only sets the thread's flag. That sleep would begin after the
      ceiling, so the timeout error arrives first, with four batches done. */
  lemma BatchInterruptBeforeLateSleep(requestId: Long, env: Environment)
    requires env.interruptedAt == Some(5000)
    requires env.overrunMillis == [0, 0, 0, 0, 200000]
    ensures ExportBatch(requestId, env) ==
      Run(Failure(Throwable(TimeoutException, Some(env.timeoutMessage))), [1, 2, 3, 4], BatchTimeoutMillis)
  {
    var d := Schedule(Batch);
    assert StageEnd(d, env, 1) == 1000;
    assert StageEnd(d, env, 2) == 2000;
    assert StageEnd(d, env, 3) == 3000;
    assert StageEnd(d, env, 4) == 4000;
    assert StageEnd(d, env, 5) == 205000;
    assert InterruptedStage(Batch, env) == Some(5);
    assert ThrownAt(Batch, env, 5) == 204000;
    assert DoneBy(d, env, BatchTimeoutMillis) == 4;
    assert Stages(4) == [1, 2, 3, 4];
  }

  // File names

  /** Reads the request id and the clock back out of a file name the
      strategy `s` produced; None for any other text. */
  function ParseFileName(s: Strategy, name: string): Option<(int, int)> {
    var p := FilePrefix(s);
    if |name| < |p| + 4 || name[..|p|] != p || name[|name| - 4..] != ".csv" then None
    else
      var parts := Split(name[|p|..|name| - 4], '_');
      if |parts| != 2 then None
      else match (ParseDecimal(parts[0]), ParseDecimal(parts[1]))
        case (Some(id), Some(ms)) => Some((id, ms))
        case _ => None
  }

  /** Decimal text never contains the '_' that separates the two numbers. */
  lemma NoUnderscore(x: int)
    ensures '_' !in IntToDecimal(x)
  {
  }

  /** The pieces a file name is made of, where `ParseFileName` looks for them. */
  lemma FileNameParts(s: Strategy, requestId: Long, clockMillis: nat)
    ensures var name, p := FileName(s, requestId, clockMillis), FilePrefix(s);
      && |name| >= |p| + 4
      && name[..|p|] == p
      && name[|name| - 4..] == ".csv"
      && name[|p|..|name| - 4] == Join([IntToDecimal(requestId), IntToDecimal(clockMillis)], "_")
  {
    var a, b := IntToDecimal(requestId), IntToDecimal(clockMillis);
    var p := FilePrefix(s);
    var mid := a + "_" + b;
    var name := FileName(s, requestId, clockMillis);
    assert name == p + mid + ".csv";
    assert name[|p|..|name| - 4] == mid;
    assert Join([a, b], "_") == a + "_" + Join([b], "_");
  }

  /** A file name gives back the request id and clock it was made from, so
      two runs of one strategy share a file name only when they share both. */
  lemma FileNameRoundTrip(s: Strategy, requestId: Long, clockMillis: nat)
    ensures ParseFileName(s, FileName(s, requestId, clockMillis)) == Some((requestId as int, clockMillis as int))
  {
    var a, b := IntToDecimal(requestId), IntToDecimal(clockMillis);
    FileNameParts(s, requestId, clockMillis);
    NoUnderscore(requestId);
    NoUnderscore(clockMillis);
    JoinThenSplit([a, b], '_');
    IntRoundTrip(requestId);
    IntRoundTrip(clockMillis);
  }

  /** The character at index 12 of a file name tells the strategies apart:
      'r' of "reactive", the '_' closing "batch_export_", or the first
      character of the request id. */
  function StrategyMark(c: char): Strategy {
    if c == 'r' then Reactive else if c == '_' then Batch else Blocking
  }

  lemma FileNameMark(s: Strategy, requestId: Long, clockMillis: nat)
    ensures |FileName(s, requestId, clockMillis)| > 12
    ensures StrategyMark(FileName(s, requestId, clockMillis)[12]) == s
  {
    var n := FileName(s, requestId, clockMillis);
    var d := IntToDecimal(requestId);
    assert n == FilePrefix(s) + d + "_" + IntToDecimal(clockMillis) + ".csv";
    if s == Blocking {
      assert n[12] == d[0];
    }
  }

  /** No two runs share a file name unless they have the same strategy, request
      id and clock. */
  lemma FileNameInjective(s1: Strategy, id1: Long, ms1: nat, s2: Strategy, id2: Long, ms2: nat)
    requires FileName(s1, id1, ms1) == FileName(s2, id2, ms2)
    ensures s1 == s2 && id1 == id2 && ms1 == ms2
  {
    FileNameMark(s1, id1, ms1);
    FileNameMark(s2, id2, ms2);
    FileNameRoundTrip(s1, id1, ms1);
    FileNameRoundTrip(s2, id2, ms2);
  }
}

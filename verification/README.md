# webflux-demo core, modelled in Dafny

A model of the logic at the heart of a Spring WebFlux demonstration service,
with proofs of what that logic promises. Four pieces are modelled.

- **The export pipeline** (`DataExportService` and its `ExportResult`
  record). It has three strategies:
  - blocking sleeps on a worker pool, with a 10% injected failure;
  - non-blocking delays;
  - five one-second batches under a two-minute timeout.

  Each strategy walks a stage schedule and then builds a result whose file
  name encodes the request id and the clock.
- **Error answering.** There are two handlers:
  - the controller-level `CustomExceptionHandler`, where the handler
    declared for the nearest superclass of the thrown exception answers;
  - the last-resort `GlobalExceptionHandler`, which always answers 500 and
    writes the error map with a hand-written JSON writer.
- **The user endpoints** (`UserController`):
  - a three-user table streamed with a per-element delay;
  - lookup by id, a delayed echo and a delete that does nothing;
  - two endpoints that throw on purpose;
  - three export endpoints that hand over to the service.
- **The access decision** (`SecurityConfig`). A feature flag controls it.
  Behind the flag:
  - an ordered table of path rules, of which the first matching one decides;
  - a default that only asks for authentication;
  - the in-memory accounts and their roles.

Everything the code reads from its surroundings is an explicit input, so
each operation is a pure function:
- the millisecond clock;
- the random draw in [0,100);
- the text of `LocalDateTime.now()`;
- the instant a worker is interrupted, and the instant a subscriber cancels;
- the time a worker spends at each stage before its sleep, and while
  building the result;
- the message of Reactor's timeout error;
- the exchange's request-id attribute and headers;
- the iteration order of a `HashMap`.

Time is a natural number of milliseconds after subscription. A run is a
timeline: stage k ends once the sleeps and the extra time of stages 1..k
have passed, and each stage's extra time comes before its sleep. An
interruption hits the stage running at its instant. If it lands during the
sleep, the sleep throws at once. If it lands before the sleep, it only sets
the thread's flag, and the sleep throws as soon as it is entered. A
subscriber that cancels gets no signal from any strategy. Java's `null` is `None`. A Java
`Long` request id is the subset type `Strings.Long`, which may be negative.
`%d` formatting is a real decimal renderer with its inverse.

Files, one module each:
- `wrappers.dfy`: `Option`.
- `strings.dfy`: decimal rendering and parsing, split and join.
- `users.dfy`: the `User` record.
- `exceptions.dfy`: the exception classes, their superclass chain, and a thrown exception.
- `error_records.dfy`: the error map both handlers build.
- `export_result.dfy`: the `ExportResult` record.
- `custom_exception_handler.dfy`: the controller-level handler.
- `global_exception_handler.dfy`: the last-resort handler.
- `data_export_service.dfy`: the export service.
- `user_controller.dfy`: the user endpoints.
- `security_config.dfy`: the access decision.

Source paths below are relative to the repository root.

Three behaviours of the code are easy to misread:
- **Error message.** The message is never null but may be empty. An
  exception whose message is the empty string is reported with an empty
  message; only a null message is replaced by the fallback.
- **`requestId` in the global handler's body.** It is the client's own
  `X-Request-ID` request header. It is not the id the request filter
  generated and put in the response header. The two differ whenever the
  client sends no header or a different one
  (`UserController.RequestIdSources`).
- **Wrapping errors.** Only `exportAsync` wraps its failures. The reactive
  and batch strategies pass their errors on unchanged
  (`DataExportService.ErrorPropagation`).

## Model

| member | source | states |
|---|---|---|
| Strings.IntToDecimal | src/main/java/io/will/webfluxdemo/service/DataExportService.java:83-84 | `%d` text of a long: canonical decimal digits with no superfluous leading zero, led by '-' exactly when the number is negative |
| Strings.IntRoundTrip | src/main/java/io/will/webfluxdemo/service/DataExportService.java:83-84 | reading the `%d` text of any integer back gives that integer, so the rendering loses nothing |
| Strings.DecimalCharacterisation | src/main/java/io/will/webfluxdemo/service/DataExportService.java:83-84 | a string is the `%d` text of x exactly when it is canonical decimal text that reads back as x (both directions) |
| Exceptions.Ancestors | src/main/java/io/will/webfluxdemo/exception/CustomExceptionHandler.java:21-58 | the class chain starts at the thrown class and ends at Exception, each class followed by its nearest superclass among the modelled classes |
| ErrorRecords.ErrorMap | src/main/java/io/will/webfluxdemo/exception/CustomExceptionHandler.java:74-90 | the error map holds timestamp, path, method, status, error, message and exception, plus requestId exactly when an id is known; the message is the exception's, or the fallback when it is null |
| CustomExceptionHandler.NearestHandler | src/main/java/io/will/webfluxdemo/exception/CustomExceptionHandler.java:21-58 | walking the class chain nearest first, the handler found is declared for a class on the chain, and no earlier class on the chain has a declared handler; none is found only when no class on the chain has one |
| CustomExceptionHandler.Resolve | src/main/java/io/will/webfluxdemo/exception/CustomExceptionHandler.java:21-58 | for any table that handles Exception, the answering handler applies to the thrown class, and no class nearer to it has a handler |
| CustomExceptionHandler.ResolveNearest | src/main/java/io/will/webfluxdemo/exception/CustomExceptionHandler.java:21-58 | of all handlers that apply to a class, the answering one is declared for the nearest superclass |
| CustomExceptionHandler.ResolvedAt | src/main/java/io/will/webfluxdemo/exception/CustomExceptionHandler.java:21-58 | the answering handler is the one declared for the first class on the chain that has any handler |
| CustomExceptionHandler.DeclaredTable | src/main/java/io/will/webfluxdemo/exception/CustomExceptionHandler.java:21-48 | the three handler methods are declared for RuntimeException, IllegalArgumentException and Exception; ResponseStatusException and TimeoutException have none of their own |
| CustomExceptionHandler.ResolvedClass | src/main/java/io/will/webfluxdemo/exception/CustomExceptionHandler.java:21-58 | IllegalArgumentException is answered by its own handler, other RuntimeExceptions by the RuntimeException handler, everything else by the Exception handler |
| CustomExceptionHandler.ResolveClassifies | src/main/java/io/will/webfluxdemo/exception/CustomExceptionHandler.java:34-45 | an IllegalArgumentException gets 400 "Bad Request", although the RuntimeException handler also applies to it; every other exception gets 500 "Internal Server Error" |
| CustomExceptionHandler.CreateErrorResponse | src/main/java/io/will/webfluxdemo/exception/CustomExceptionHandler.java:74-90 | the map holds exactly the base keys, plus requestId when the exchange attribute is set; status and error are the handler's; the message is the exception's or "An error occurred" when it is null; the simple class name, path, method and timestamp are copied in, and requestId is the attribute |
| CustomExceptionHandler.Handle | src/main/java/io/will/webfluxdemo/exception/CustomExceptionHandler.java:74-90 | the HTTP status is 400 for IllegalArgumentException and 500 otherwise, and the body's status equals it; the body carries the message (or "An error occurred"), the simple class name, path, method and timestamp; requestId is present exactly when the exchange attribute is set, and then equals it |
| GlobalExceptionHandler.CreateErrorResponse | src/main/java/io/will/webfluxdemo/exception/GlobalExceptionHandler.java:64-81 | status 500 and "Internal Server Error" whatever the exception; the timestamp, the request path and the method name; the message, or "An unexpected error occurred" when it is null; the simple class name; requestId present exactly when the request has an X-Request-ID header, and then equal to its first value |
| GlobalExceptionHandler.ConvertToJson | src/main/java/io/will/webfluxdemo/exception/GlobalExceptionHandler.java:83-101 | the builder loop with its first-entry flag writes "{", the rendered entries joined by ",", and "}" |
| GlobalExceptionHandler.JsonShape | src/main/java/io/will/webfluxdemo/exception/GlobalExceptionHandler.java:85-100 | the output is braced; it is "{}" exactly when there are no entries; otherwise it opens with the first entry's quote and has no comma before the closing brace |
| GlobalExceptionHandler.RenderEntry | src/main/java/io/will/webfluxdemo/exception/GlobalExceptionHandler.java:91-96 | an entry opens with the quoted key and a colon; after them a String value sits verbatim, unescaped, between two double quotes, and any other value is decimal text that reads back as the number |
| GlobalExceptionHandler.PieceEnds | src/main/java/io/will/webfluxdemo/exception/GlobalExceptionHandler.java:91-96 | every rendered entry opens with a double quote and closes with a double quote or a digit, so a comma written between entries is never next to a brace |
| GlobalExceptionHandler.Entries | src/main/java/io/will/webfluxdemo/exception/GlobalExceptionHandler.java:87 | visiting the map in a given key order yields each listed key paired with its value in the map |
| GlobalExceptionHandler.EnumerationsPermuted | src/main/java/io/will/webfluxdemo/exception/GlobalExceptionHandler.java:87 | two iteration orders of the same key set are permutations of each other and as long as the key set |
| GlobalExceptionHandler.PermutedPieces | src/main/java/io/will/webfluxdemo/exception/GlobalExceptionHandler.java:87-98 | permuting the iteration order permutes the rendered entries and changes nothing else |
| GlobalExceptionHandler.JsonEntriesOnce | src/main/java/io/will/webfluxdemo/exception/GlobalExceptionHandler.java:87-98 | whatever the iteration order, there are as many rendered entries as map entries and every entry is rendered; two orders render the same entries |
| GlobalExceptionHandler.Handle | src/main/java/io/will/webfluxdemo/exception/GlobalExceptionHandler.java:27-44 | the response status is 500 and the body is the error map written as JSON in the iteration order |
| DataExportService.Export | src/main/java/io/will/webfluxdemo/service/DataExportService.java:42-188 | the run the subscriber sees. On success every stage of the schedule is done, in order, at least the schedule's total time has passed, and the completed result is built. Failures are RuntimeExceptions or TimeoutExceptions with a message. The run is silent exactly when the subscriber cancels before the strategy would signal; it then ends at the cancellation with the stages done by then. Otherwise it is what a subscriber that stays sees |
| DataExportService.ExportBlocking | src/main/java/io/will/webfluxdemo/service/DataExportService.java:42-103 | what a subscriber that stays sees of `exportAsync`: it fails only with a RuntimeException whose message starts "Export operation failed: "; an interrupted sleep fails the run when that sleep throws, with the earlier stages done; the stages it completes are 1..k in order, at most 3; success takes at least 7 seconds |
| DataExportService.ExportReactive | src/main/java/io/will/webfluxdemo/service/DataExportService.java:110-147 | what a subscriber that stays sees of `exportAsyncReactive`: always the completed result, after all three delays and at least 7 seconds; nothing in it can be interrupted or fail |
| DataExportService.ExportBatch | src/main/java/io/will/webfluxdemo/service/DataExportService.java:154-188 | what a subscriber that stays sees of `exportWithProgress`: never past 120000 ms; its failures are RuntimeExceptions or TimeoutExceptions, each with a message; the batches it completes are 1..k in order, at most 5 |
| DataExportService.StageEnd | src/main/java/io/will/webfluxdemo/service/DataExportService.java:51-71 | the first k stages of a run end no earlier than their sleeps add up |
| DataExportService.InterruptedStage | src/main/java/io/will/webfluxdemo/service/DataExportService.java:50-75 | an interruption hits the stage running at its instant, after the previous stage ended and before this one would; an interruption after the last stage, or none, ends no sleep |
| DataExportService.ThrownAt | src/main/java/io/will/webfluxdemo/service/DataExportService.java:160-168 | the interrupted sleep throws when the interrupt lands during it, or, when the interrupt only set the thread's flag in the worker's time before the sleep, as soon as the sleep is entered; either way before the sleep would have ended |
| DataExportService.DoneByMonotone | src/main/java/io/will/webfluxdemo/service/DataExportService.java:160-169 | stages that are done stay done: a later instant never has fewer done |
| DataExportService.CancellationStops | src/main/java/io/will/webfluxdemo/controller/UserController.java:72-93 | a cancelled run ends before a subscriber that stayed would have had its signal, and the stages it did are a prefix of that subscriber's |
| DataExportService.BatchInterruptBeforeLateSleep | src/main/java/io/will/webfluxdemo/service/DataExportService.java:160-168 | an interrupt at 5 s, with the worker 200 s late for the fifth batch's sleep, yields the timeout error at 120 s with four batches done, not the interruption error |
| DataExportService.SuccessShape | src/main/java/io/will/webfluxdemo/service/DataExportService.java:82-98 | on success: the task id is the request id, the status is "COMPLETED", there are 10 records, and completedAt is the clock text; the file name is the strategy's name for the request id and clock; the download URL is the file name's; the size is 500 bytes, or 750 for batch |
| DataExportService.DownloadUrlRoundTrip | src/main/java/io/will/webfluxdemo/service/DataExportService.java:85 | the download URL is "/api/downloads/" followed by exactly the file name, which can be read back from it |
| DataExportService.RewrapMessage | src/main/java/io/will/webfluxdemo/service/DataExportService.java:102 | a rewrapped error's message is "Export operation failed: " followed by exactly the cause's message |
| DataExportService.BlockingFailsIff | src/main/java/io/will/webfluxdemo/service/DataExportService.java:77-80 | absent an interruption, `exportAsync` fails exactly when the draw is below 10 and the subscriber has not cancelled before the result, with "Export operation failed: Export failed due to system error"; it succeeds exactly when the draw is 10 or more and the subscriber has not cancelled |
| DataExportService.FailingDrawsCount | src/main/java/io/will/webfluxdemo/service/DataExportService.java:78 | of the draws below n, min(n, 10) inject a failure |
| DataExportService.FailingDraws | src/main/java/io/will/webfluxdemo/service/DataExportService.java:78 | exactly 10 of the 100 possible draws inject a failure: a draw fails exactly when it is below 10 |
| DataExportService.ErrorPropagation | src/main/java/io/will/webfluxdemo/service/DataExportService.java:42-188 | `exportAsync` fails only with a RuntimeException whose message is the prefix and "Export interrupted" or the system-error text; batch failures are its own interruption error or the timeout error, unwrapped; the reactive strategy never fails |
| DataExportService.ReactiveRun | src/main/java/io/will/webfluxdemo/service/DataExportService.java:110-147 | the reactive strategy never fails; it is cancelled exactly when the subscriber cancels before the result is built, including after the third delay while the result is being built; a cancelled run has all three delays done exactly when the cancellation came after the third; on success it has completed stages 1, 2, 3 and taken at least 7 seconds |
| DataExportService.ThreeStageSum | src/main/java/io/will/webfluxdemo/service/DataExportService.java:117-125 | the blocking and reactive schedules add up to 2+3+2 = 7 seconds |
| DataExportService.SumConstant | src/main/java/io/will/webfluxdemo/service/DataExportService.java:160-164 | a schedule of equal stages takes the stage time once per stage |
| DataExportService.BatchPrefixSum | src/main/java/io/will/webfluxdemo/service/DataExportService.java:160-164 | the first k batches take k seconds |
| DataExportService.BatchRun | src/main/java/io/will/webfluxdemo/service/DataExportService.java:154-188 | to a subscriber that stays, the batch strategy runs batches 1..5 in order and never reports past the two-minute ceiling. It succeeds exactly when no batch is interrupted and the work ends by the ceiling. It fails with "Batch processing interrupted" exactly when the interrupted sleep throws before the ceiling, and then at that instant. It fails with the timeout error exactly when the work would outlast the ceiling and no interrupted sleep threw first; it then reports at the ceiling, with the batches done by then |
| DataExportService.FileNameParts | src/main/java/io/will/webfluxdemo/service/DataExportService.java:83-84 | a file name is the strategy's prefix, the request id and the clock joined by "_", and ".csv" |
| DataExportService.FileNameRoundTrip | src/main/java/io/will/webfluxdemo/service/DataExportService.java:83-84 | the request id and clock can be read back out of a file name, negative ids included |
| DataExportService.FileNameMark | src/main/java/io/will/webfluxdemo/service/DataExportService.java:83-172 | the character at index 12 of a file name tells which strategy made it |
| DataExportService.FileNameInjective | src/main/java/io/will/webfluxdemo/service/DataExportService.java:83-172 | two runs share a file name only when they share strategy, request id and clock |
| ExportResults.Unset | src/main/java/io/will/webfluxdemo/model/ExportResult.java:14 | the no-argument constructor leaves all seven fields null |
| ExportResults.SetTaskId | src/main/java/io/will/webfluxdemo/model/ExportResult.java:33-35 | the setter changes taskId to the argument and no other field |
| ExportResults.SetFileName | src/main/java/io/will/webfluxdemo/model/ExportResult.java:41-43 | the setter changes fileName to the argument and no other field |
| ExportResults.SetDownloadUrl | src/main/java/io/will/webfluxdemo/model/ExportResult.java:49-51 | the setter changes downloadUrl to the argument and no other field |
| ExportResults.SetTotalRecords | src/main/java/io/will/webfluxdemo/model/ExportResult.java:57-59 | the setter changes totalRecords to the argument and no other field |
| ExportResults.SetStatus | src/main/java/io/will/webfluxdemo/model/ExportResult.java:65-67 | the setter changes status to the argument and no other field |
| ExportResults.SetCompletedAt | src/main/java/io/will/webfluxdemo/model/ExportResult.java:73-75 | the setter changes completedAt to the argument and no other field |
| ExportResults.SetFileSizeBytes | src/main/java/io/will/webfluxdemo/model/ExportResult.java:81-83 | the setter changes fileSizeBytes to the argument and no other field |
| ExportResults.SettersBuildRecord | src/main/java/io/will/webfluxdemo/model/ExportResult.java:14-83 | setting every field of an empty record gives the record the 7-argument constructor makes, whose getters return its arguments |
| ExportResults.ToString | src/main/java/io/will/webfluxdemo/model/ExportResult.java:85-96 | the text opens with "ExportResult{" and closes with "}" |
| ExportResults.ToStringIsFieldTable | src/main/java/io/will/webfluxdemo/model/ExportResult.java:85-96 | `toString` is the seven `name=value` items in declaration order, separated by ", " inside "ExportResult{" and "}"; exactly fileName, downloadUrl and status are single-quoted; null prints as "null" |
| UserController.UserTableShape | src/main/java/io/will/webfluxdemo/controller/UserController.java:23-27 | the table holds three users with distinct ids 1, 2, 3 in that order |
| UserController.DelayElements | src/main/java/io/will/webfluxdemo/controller/UserController.java:32 | with every element available at the start, the k-th element (from 0) is emitted (k+1) delays after the start, in source order |
| UserController.GetAllUsers | src/main/java/io/will/webfluxdemo/controller/UserController.java:29-34 | the stream emits exactly the table's users in table order, the k-th no earlier than (k+1)×100 ms, at strictly increasing times, and completes no earlier than 300 ms |
| UserController.FindById | src/main/java/io/will/webfluxdemo/controller/UserController.java:38-40 | lookup finds a table user with that id, and finds nothing exactly when no user has it |
| UserController.FindByIdFirst | src/main/java/io/will/webfluxdemo/controller/UserController.java:38-40 | lookup returns the first user in table order with the id |
| UserController.GetUserById | src/main/java/io/will/webfluxdemo/controller/UserController.java:36-41 | a user is found only when it is in the table with that id, and nothing is found exactly when no table user has it |
| UserController.GetUserByIdExamples | src/main/java/io/will/webfluxdemo/controller/UserController.java:36-41 | id 1 gives Alice, 2 gives Bob, 999 gives nothing |
| UserController.GetUserByIdFound | src/main/java/io/will/webfluxdemo/controller/UserController.java:36-41 | a user is found exactly for ids 1..3, and it is the table's entry for that id |
| UserController.CreateUser | src/main/java/io/will/webfluxdemo/controller/UserController.java:43-47 | the echo is the body itself, no earlier than 200 ms after the call |
| UserController.DeleteUser | src/main/java/io/will/webfluxdemo/controller/UserController.java:49-52 | delete completes without emitting anything, whatever the id |
| UserController.TestEndpointsAnswered | src/main/java/io/will/webfluxdemo/controller/UserController.java:54-62 | `testError` is answered 500 naming RuntimeException and `testBadRequest` 400 naming IllegalArgumentException, each with its thrown message |
| UserController.ExportEndpointRun | src/main/java/io/will/webfluxdemo/controller/UserController.java:72-93 | each export endpoint replies with its strategy's run, untouched: on success the completed result of the strategy it names, on failure one of the service's errors with a message, and nothing exactly when the client cancels before the strategy signals |
| UserController.EndpointsDistinct | src/main/java/io/will/webfluxdemo/controller/UserController.java:72-93 | each export endpoint delegates to its own strategy; no two endpoints share one |
| UserController.ExportFailuresAnswered | src/main/java/io/will/webfluxdemo/controller/UserController.java:72-93 | a failed export is answered with 500 "Internal Server Error" and the failure's own message, never as a bad request |
| UserController.RequestIdSources | src/main/java/io/will/webfluxdemo/exception/GlobalExceptionHandler.java:75-78 | the controller-level handler reports a requestId exactly when the exchange attribute is set; the last-resort handler reports one exactly when the request carries an X-Request-ID header |
| UserController.BadRequestStatuses | src/main/java/io/will/webfluxdemo/exception/GlobalExceptionHandler.java:34 | an IllegalArgumentException is a 400 at the controller-level handler but a 500 at the last-resort handler |
| SecurityConfig.RejectionStatus | src/main/java/io/will/webfluxdemo/config/SecurityConfig.java:40-52 | a permitted exchange has no rejection status; an unauthenticated one gets 401 and a forbidden one 403 (both directions) |
| SecurityConfig.SecurityEnabled | src/main/java/io/will/webfluxdemo/config/SecurityConfig.java:22-23 | security is on unless the flag is explicitly false |
| SecurityConfig.FirstMatch | src/main/java/io/will/webfluxdemo/config/SecurityConfig.java:40-52 | the rule found matches and no earlier rule does; none is found exactly when no rule matches |
| SecurityConfig.Check | src/main/java/io/will/webfluxdemo/config/SecurityConfig.java:42-52 | a caller is unauthorized exactly when anonymous on a non-public rule, and forbidden exactly when authenticated without the role the rule asks for |
| SecurityConfig.Decide | src/main/java/io/will/webfluxdemo/config/SecurityConfig.java:27-52 | with the flag off nothing is refused; with it on, an anonymous caller is refused (401) exactly where the deciding rule is not open, and an authenticated caller (403) exactly where it lacks the role the deciding rule asks for |
| SecurityConfig.Accounts | src/main/java/io/will/webfluxdemo/config/SecurityConfig.java:61-87 | with security on the store holds "user" with USER and "admin" with USER and ADMIN; with it off, only "dummy" with USER |
| SecurityConfig.DisabledPermitsAll | src/main/java/io/will/webfluxdemo/config/SecurityConfig.java:27-35 | with the flag set to false, every exchange is permitted, whoever calls |
| SecurityConfig.SegmentsOfJoin | src/main/java/io/will/webfluxdemo/config/SecurityConfig.java:42-50 | a path written as '/'-joined segments is matched against exactly as many segments, each compared without its path parameters |
| SecurityConfig.ParametersIgnored | src/main/java/io/will/webfluxdemo/config/SecurityConfig.java:42-50 | the `;` path parameters of a segment are not compared: "users;v=1" matches where "users" does |
| SecurityConfig.UsersPathWithParameters | src/main/java/io/will/webfluxdemo/config/SecurityConfig.java:44 | "/api/users;<parameters>" is decided by the "/api/users" rule, so a caller holding ADMIN but not USER is refused with 403 |
| SecurityConfig.PublicPathPermitted | src/main/java/io/will/webfluxdemo/config/SecurityConfig.java:42 | "/api/auth/public" is permitted for every caller, the anonymous one included |
| SecurityConfig.OnlyFirstRuleOpen | src/main/java/io/will/webfluxdemo/config/SecurityConfig.java:42-50 | only the first rule permits all; every other listed rule asks for a role |
| SecurityConfig.AnonymousDecision | src/main/java/io/will/webfluxdemo/config/SecurityConfig.java:40-52 | an anonymous caller is admitted exactly on paths the public pattern matches, and gets 401 everywhere else |
| SecurityConfig.AuthenticatedDecision | src/main/java/io/will/webfluxdemo/config/SecurityConfig.java:44-52 | an authenticated caller never gets 401; it gets 403 exactly when the deciding rule asks for a role it lacks |
| SecurityConfig.UnlistedPathAuthenticated | src/main/java/io/will/webfluxdemo/config/SecurityConfig.java:52 | a path no pattern matches only needs authentication |
| SecurityConfig.UserSubpathDecidedByIdRule | src/main/java/io/will/webfluxdemo/config/SecurityConfig.java:45 | every "/api/users/<segment>" path with a non-empty segment is decided by the "/api/users/{id}" rule, which asks for USER |
| SecurityConfig.TestPathsDecidedByIdRule | src/main/java/io/will/webfluxdemo/config/SecurityConfig.java:45-47 | "/api/users/test-error" and "/api/users/test-bad-request" are decided by the "{id}" rule, so a USER-only caller is admitted to both |
| SecurityConfig.AdminTestRulesShadowed | src/main/java/io/will/webfluxdemo/config/SecurityConfig.java:45-47 | the two ADMIN rules for the test paths never decide any path |
| SecurityConfig.ExportPathAuthenticated | src/main/java/io/will/webfluxdemo/config/SecurityConfig.java:52 | "/api/users/export/{requestId}" matches no listed pattern and only needs authentication |
| SecurityConfig.RolesMonotone | src/main/java/io/will/webfluxdemo/config/SecurityConfig.java:44-50 | a caller holding a superset of another caller's roles is admitted wherever the other is |
| SecurityConfig.AccountsOrdered | src/main/java/io/will/webfluxdemo/config/SecurityConfig.java:63-86 | with security on, "admin" is admitted wherever "user" is; with it off, the only account is "dummy", holding USER |

## Left out

- Logging: every logger call and `System.out` line has no effect on results.
- `WebFluxConfig`: it copies a generated UUID into the exchange attribute
  and the response header. The model takes that id as the optional input
  `Exchange.correlationId`.
- `AuthController` is not part of this model. It reads Spring's security
  context, and its other endpoints return constant strings.
- `User.java` is not part of this model. The record is modelled from its
  uses: an id, a name and an email.
- Reactor scheduling, threads and the bounded elastic pool are left out.
  - A thread interruption by anything other than the subscriber, such as
    the pool shutting down, is modelled as an input: the instant it lands.
  - A subscriber cancellation is a second input, the instant the client
    goes away. It applies to all three strategies alike.
  - Concurrency between requests is not modelled.
- `DataExportService.ExportBatch`: after the timeout, Reactor cancels the
  worker. Whatever the worker does after that is not observed by the
  subscriber and is not modelled.
- `System.currentTimeMillis`, `ThreadLocalRandom` and `LocalDateTime.now()`
  are inputs. `LocalDateTime` values are carried as their text.
- The message of Reactor's `TimeoutException` is an input. Its wording is
  Reactor's and is not visible here.
- Spring's conversion of the path variable into a `Long` is not modelled. A
  path segment that is not a number never reaches the export endpoints.
- The 7-argument constructor and the getters are the datatype's constructor
  and field selectors; `ExportResults.SettersBuildRecord` relates them to
  the setters.
- Spring Security machinery is left out because it is library code: CSRF,
  httpBasic, formLogin, BCrypt password encoding and the user-details
  lookup.
- Path matching covers the patterns this configuration uses: literal
  segments and single-segment `{name}` variables, with each request segment
  compared without its `;` path parameters. Trailing-slash variants,
  wildcards and URL decoding are not modelled.
- Strings.IntToDecimal: `String.format` formats `%d` in the default format
  locale, whose digits may not be ASCII. The model fixes the locale to one
  with ASCII digits '0'..'9' and a '-' sign. `DataExportService.FileNameRoundTrip`
  rests on the same assumption.
- Exceptions.Ancestors: in Spring 6 `ResponseStatusException` reaches
  `RuntimeException` through `ErrorResponseException` and
  `NestedRuntimeException`. Those intermediate classes are collapsed because
  no handler is declared for them, so which handler answers does not change.
- UserController.DeleteUser: the endpoint is a no-op. The user table is a
  constant that it never touches, so there is no state for a partner lemma
  to relate.
- Writing the JSON into a `DataBuffer`, content negotiation, and
  `@Order`-based handler registration are framework calls and are left out.
- HTTP routing, which decides which handler an exception reaches, is not
  modelled. Both handlers are modelled as functions of the exception.

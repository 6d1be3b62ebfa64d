# ShellOrchestra backend: a verified model

The Go backend of ShellOrchestra keeps a number of small state machines: a decoder for remote
result streams, a guarded jump-server graph, a hash-chained audit log, two schedulers, a rate
limiter, one-time stream tickets, cancellable transfer jobs, a cache with background refreshers,
a bounded output capture, import labels and desktop windows. This project models each of them in
Dafny and proves what it promises over all inputs, interleavings and runs.

Where the Go code changes a value in place, a class with the same fields has methods with the same
branches, and each method's contract ties the new state to a step function. The step functions are
then run: over sequences of chunks, requests, ticks, or over interleavings of several goroutines;
the main lemmas are about those runs. SQLite tables are maps and sequences, clocks and random
values are parameters, and the standard formats are abstract functions.

`dafny verify dfyconfig.toml` checks everything.

| module | subject | main results |
|---|---|---|
| `JsonResultStream` | incremental decoding of a result stream | `ChunkingIsInvisible`, `EventStreamsAreTheirLines`, `CutsAgreeExactlyWhen` |
| `StreamPipeline` | the reading loop in front of the decoder | `PipeIsExpected`, `CutoffSendsTheCompleteLines`, `ReadsAgreeExactlyWhen` |
| `JumpChains` | the jump-server graph | `ValidateJumpChain`, `EveryRunFromEmptyIsAcyclic`, `ManyStoresStayAcyclicExactlyWhen` |
| `ConnectAll` | connecting servers after their jump servers | `Connector.ConnectAllServers`, `OrderOfAttempts` |
| `AuditLog` | append and verify | `ProducedLogsVerify`, `Verify`, `HeadHashBindsTheLog` |
| `RateLimiter` | fixed windows with eviction | `EvictionIsInvisible`, `SlidingWindowBound`, `BoundIsReached` |
| `StreamTickets` | one-time tickets of concurrent requests | `StoredTicketsAreBoundedFromTheStart`, `TokensAreSingleUseFromTheStart`, `LiveTicketsAreHonoured` |
| `BatchSchedule` | interval schedules | `StartsAreAnIntervalApart`, `SpanHoldsFewStarts`, `SpanBoundIsReached`, `BriskTicksMissNothing` |
| `Calendar`, `BackupSchedule` | daily, weekly and monthly schedules | `ScheduledInstantIsConstant`, `AtMostOneStartPerPeriod`, `AtMostOneRunIsActive` |
| `SendToJob` | a transfer worker against operator cancels | `EveryInterleavingIsSound`, `TerminalIsAbsorbing`, `LogAgreesExactlyWhen` |
| `Monitor` | one refresher per cached key | `RefreshingMeansOneLoop`, `CacheIsTheLastGoodResult` |
| `OutputCapture` | the bounded capture | `CaptureIsAPrefix`, `Capture.Finish` |
| `ImportLabels` | unique labels | `NormalizedKeysSeparate`, `ChosenLabelIsFresh`, `AssignLabels` |
| `Text`, `DisplayText`, `DesktopWindows` | sanitizers, window normal form, z-order | `OnceIsFixedExactlyWhen`, `TwiceIsFixed`, `RaisedIsActiveExactlyWhen`, `LastRaisedIsOnTop` |
| `ByteStrings`, `Clock`, `Arithmetic` | definitions that several modules share | |

## Where the code does less than one might expect

Each of these is proved, with the exact condition or a concrete witness.

- How the reader cuts a stream into pieces can matter once the stream is longer than the limit: the
  pipeline refuses the piece that would cross it, so up to a buffer's worth of bytes before the limit
  may or may not have reached the processor. It matters exactly if something is sent or fails in those
  bytes (`StreamPipeline.ReadsAgreeExactlyWhen`). For the processor on its own, handed any chunks,
  the condition is that the bytes that fit in its buffer already decide that the stream is events
  (`JsonResultStream.CutsAgreeExactlyWhen`); the backend never hands it such chunks.
- A finished stream that is the JSON literal `null` decodes without an error into a nil map, which
  `OnFinish` then writes to: exactly if the stream was not taken for events and parses as `null`
  (`JsonResultStream.NilMapIsWrittenExactlyWhen`, `JsonResultStream.NullStreamWritesToNilMap`). The
  model gives this its own outcome.
- Requests that are validated before any of them is stored can close a cycle: exactly if some of them
  form a ring in which each new chain leads first, through the old inventory, to the next
  (`JumpChains.ManyStoresStayAcyclicExactlyWhen`). For two requests: if they are for different servers
  whose new chains lead to each other (`JumpChains.RacingStoresStayAcyclicExactlyWhen`,
  `JumpChains.RacingUpdatesCanCloseACycle`).
- The tables keep whole seconds, so `NextRunAt` is rounded down and two scheduled starts of a batch
  script can be up to a second closer than the interval; a full interval is kept exactly by starts on
  a whole second (`BatchSchedule.FullIntervalExactlyOnWholeSeconds`, `BatchSchedule.IntervalCanFallShort`).
- A span of T seconds can hold one scheduled start more than T / I + 1, for the same reason: exactly if T
  falls short of a multiple of the interval by less than a second less a nanosecond
  (`BatchSchedule.SpanHoldsFewStarts`, `BatchSchedule.OneMoreExactlyWhen`, `BatchSchedule.SpanBoundIsReached`).
- A request reads the clock before it takes the limiter's mutex, so one that is overtaken can find its
  window in the future, and then opens a new one. Within one window's length the limiter admits
  `2 * limit - 1` calls for each such early opening and as many once more, and no fewer can be promised
  (`RateLimiter.SlidingWindowBound`, `RateLimiter.BoundIsReached`); with enough of them no limit holds
  (`RateLimiter.OvertakenCallsPassAnyLimit`). Only late calls open windows early, so `2 * limit - 1` holds
  without them. Eviction changes an answer only for a call more than a window and a nanosecond late
  (`RateLimiter.EvictionIsInvisible`, `RateLimiter.EvictionShowsBeyond`).
- Concurrent ticket requests can together exceed the cap, by one less than their number
  (`StreamTickets.StoredTicketsAreBounded`, `StreamTickets.BoundIsReached`).
- A cancelled Send To job is logged as cancelled exactly if the worker found it cancelled after a
  broken transfer (`SendToJob.LogAgreesExactlyWhen`). It looks at no other time: a cancel while the
  source is being opened can be logged as a failure, and one after a confirmed upload as a completion
  (`SendToJob.CancelledButLoggedFailed`, `SendToJob.CancelledButLoggedCompleted`).
- An empty write to a capture that holds exactly its limit marks it truncated although nothing is
  missing (`OutputCapture.CaptureIsAPrefix` has the exact condition).
- A window is in its final form after one normalization exactly unless cleaning its names produced one
  of the retired names (`DesktopWindows.OnceIsFixedExactlyWhen`).
- A raise wraps around when some z-index is the largest integer; the raised window then becomes active
  exactly if no other window is shown (`DesktopWindows.RaisedIsActiveExactlyWhen`).
- A refresh that fails with an empty error text is stored exactly as a success that returned the old
  result (`Monitor.TextlessFailurePassesForSuccess`, `Monitor.TextlessFirstFailure`). The calls behind
  a refresh guard against it: the worker client falls back to the HTTP status
  (backend/internal/worker/worker.go:1331-1343) and the collector adds its own words
  (backend/internal/streampipeline/json_collect.go:58-66), so only an error value from outside the
  repository, such as one of a reader, could have no text.

## Assumptions

- `AuditLog`: what is signed verifies, marshalled metadata is a JSON object, formatted times parse back
  (`RoundTrips`); for the binding results, the hash and the canonical encoding are injective and no
  hash is empty (`Binding`).
- `StreamTickets`: a random token never repeats; a walk over the map visits every entry that is there
  throughout, and each at most once.
- `JumpChains`: validating and storing a profile is one step, except where requests race; stored identifiers are not blank.
- `BatchSchedule` and `BackupSchedule`: runs are listed newest first and state writes succeed; for
  `AtMostOneStartPerPeriod` a run is stored no earlier than the tick that started it
  (`StoredAfterTick`).
- `BatchSchedule.BriskTicksMissNothing`: until a schedule is first evaluated, manual runs are stored no
  earlier than the latest tick and the latest run is not pruned (`Orderly`).
- `RateLimiter`: the clock has left the zero time (`Positive`), and the bounds take one limit for a key.
- `ImportLabels` and `DesktopWindows`: lower-casing works rune by rune; the facts about the Unicode
  tables that are used are spelled out (`KeepsDigits`, `Sane`, `LowersAscii`).

## Model

| member | source | states |
|---|---|---|
| `JsonResultStream.FirstNewlineIsFirst` | backend/internal/httpapi/json_stream_collect.go:158-166 | the scan finds the first newline: no earlier byte is one |
| `JsonResultStream.LinesJoinBack` | backend/internal/httpapi/json_stream_collect.go:150-169 | the lines of the reference contain no newline and joined by newlines give back the stream |
| `JsonResultStream.LinesStep` | backend/internal/httpapi/json_stream_collect.go:171-204 | reading a line in front of others is sending its event, if it names one the sink takes, and then reading the others |
| `JsonResultStream.DeliveryMeansLines` | backend/internal/httpapi/json_stream_collect.go:120-169 | for every sink, delivering and finishing sends the events the lines name up to the first bad line or the first refusal, and ends with what went wrong there |
| `JsonResultStream.EventStreamsAreTheirLines` | backend/internal/httpapi/json_stream_collect.go:120-204 | a stream detected as events has exactly that result; with a willing sink it sends all events named before the first bad line, and succeeds exactly if there is none |
| `JsonResultStream.DecodedLineDropsTheEnvelope` | backend/internal/httpapi/json_stream_collect.go:171-204 | which lines name an event, and exactly which keys end up in its data: those of the payload object, or all outside the envelope, and `transport` if it is an object |
| `JsonResultStream.DecodedLineSays` | backend/internal/httpapi/json_stream_collect.go:171-204 | each field of a decoded event comes from the line's field of that name and type, and data without a payload keeps the values of the line |
| `JsonResultStream.LinesAreDecodedByName` | backend/internal/httpapi/json_stream_collect.go:171-239 | a line with a text event names an event exactly for the five allowed names, and any other name is refused as itself |
| `JsonResultStream.WorkerDefaults` | backend/internal/httpapi/json_stream_collect.go:61-74 | the limit is the given one or 32 MiB, and the result event has the given name or `result` |
| `JsonResultStream.FirstLineOfExtension` | backend/internal/httpapi/json_stream_collect.go:206-230 | the first line of a stream, and what follows it, are the same after more bytes have arrived |
| `JsonResultStream.DetectionIsStable` | backend/internal/httpapi/json_stream_collect.go:206-230 | once detection has a verdict on a buffer, every extension of the buffer gets the same verdict |
| `JsonResultStream.FirstSolidLineDecides` | backend/internal/httpapi/json_stream_collect.go:206-230 | the verdict is that of the first complete line that is not blank, in each of its four kinds |
| `JsonResultStream.DeliverySplits` | backend/internal/httpapi/json_stream_collect.go:150-169 | delivering in two parts with the unfinished line carried over equals delivering at once, and a failure in the first part is final |
| `JsonResultStream.PendingIsTheUnfinishedLine` | backend/internal/httpapi/json_stream_collect.go:150-169 | `pendingLine` is exactly the part of the stream after its last newline |
| `JsonResultStream.FeedExtends` | backend/internal/httpapi/json_stream_collect.go:87-118 | whatever the chunk, `OnChunk` keeps the state a function of the bytes received, not of the cuts |
| `JsonResultStream.FailureIsFinal` | backend/internal/httpapi/json_stream_collect.go:87-118 | an error reached on a prefix, and the events sent before it, are those of every longer stream |
| `JsonResultStream.RunFromIsOneShot` | backend/internal/httpapi/json_stream_collect.go:87-148 | from any reachable point on, chunks that stay within the limit lead to the one-shot result of the whole stream |
| `JsonResultStream.ChunkingIsInvisible` | backend/internal/httpapi/json_stream_collect.go:87-230 | every cutting of a stream within `maxDecodedBytes` gives the events and the error of reading it at once |
| `JsonResultStream.ResultEventKeepsThePayload` | backend/internal/httpapi/json_stream_collect.go:137-146 | the result event carries the application, the transport facts and every key of the payload with its value |
| `JsonResultStream.ObjectStreamsSendTheirObject` | backend/internal/httpapi/json_stream_collect.go:124-147 | however cut, a fitting stream not taken for events sends its object whole as the one event, or fails because it is no object or the sink refuses |
| `JsonResultStream.NilMapIsWrittenExactlyWhen` | backend/internal/httpapi/json_stream_collect.go:124-146 | the write to a nil map happens exactly if the stream was not taken for events and parses as `null` |
| `JsonResultStream.NullStreamWritesToNilMap` | backend/internal/httpapi/json_stream_collect.go:124-146 | the four bytes `null`, however cut, lead to it and send nothing |
| `JsonResultStream.StillBuffering` | backend/internal/httpapi/json_stream_collect.go:94-117 | a stream whose fitting part is undecided or one object is being buffered as long as it fits |
| `JsonResultStream.OverfullBufferFails` | backend/internal/httpapi/json_stream_collect.go:94-99 | such a stream, if longer than the limit, fails with the buffer limit and no event, however it is cut |
| `JsonResultStream.DetectedEventsAreSent` | backend/internal/httpapi/json_stream_collect.go:108-117 | switching to event mode sends at least one event, unless the sink refuses it |
| `JsonResultStream.EarlyDecisionSplitsTheCuts` | backend/internal/httpapi/json_stream_collect.go:87-118 | handed to the processor directly, an over-long stream decided as events within the limit has two cuts with different results |
| `JsonResultStream.CutsAgreeExactlyWhen` | backend/internal/httpapi/json_stream_collect.go:87-148 | for the processor on its own, all cuts of a stream agree if and only if it fits or its fitting part is undecided or one object |
| `JsonResultStream.LineLimitExactlyWhen` | backend/internal/httpapi/json_stream_collect.go:150-157 | a forwarding processor fails for a line's length exactly if the unfinished line and the chunk exceed the limit, and then sends nothing of the chunk |
| `JsonResultStream.DetectRemoteEventStream` | backend/internal/httpapi/json_stream_collect.go:206-230 | the loop returns the verdict of the first complete non-blank line |
| `JsonResultStream.Processor.constructor` | backend/internal/httpapi/json_stream_collect.go:61-74 | a new processor is in unknown mode with empty buffers and nothing sent |
| `JsonResultStream.Processor.EmitRemoteEventLine` | backend/internal/httpapi/json_stream_collect.go:171-204 | events sent and error are those of the line on top of the events sent before |
| `JsonResultStream.Processor.SinkEmit` | backend/internal/httpapi/json_stream_collect.go:197-203 | a refused event becomes an error and is not recorded as sent |
| `JsonResultStream.Processor.ProcessEventChunk` | backend/internal/httpapi/json_stream_collect.go:150-169 | the loop delivers every complete line of pending bytes plus chunk, stops at the first error and keeps the rest |
| `JsonResultStream.Processor.OnChunk` | backend/internal/httpapi/json_stream_collect.go:87-118 | mode, buffer, pending bytes, events and error after a chunk, over all modes and limits |
| `JsonResultStream.Processor.OnFinish` | backend/internal/httpapi/json_stream_collect.go:120-148 | the events and the error at the end of input, in either mode; what an object sends is stated by `ObjectStreamsSendTheirObject` |
| `JsonResultStream.Process` | backend/internal/httpapi/json_stream_collect.go:87-148 | a whole run over any chunks, and that it equals the one-shot result when the stream fits |
| `StreamPipeline.FittingIsPrefix` | backend/internal/streampipeline/pipeline.go:180-189 | what reaches the processor is a prefix of the stream that fits the limit, and of an over-long stream leaves less than one buffer of room |
| `StreamPipeline.PipeFromIsExpected` | backend/internal/streampipeline/pipeline.go:172-218 | from any reachable point on, a run ends as the bytes read and fed demand |
| `StreamPipeline.PipeIsExpected` | backend/internal/streampipeline/pipeline.go:142-222 | a run within the limit ends with the one-shot result (on a read error, after the complete lines); beyond it, after the complete lines of the fed prefix |
| `StreamPipeline.CutoffSendsTheCompleteLines` | backend/internal/streampipeline/pipeline.go:185-189 | a stop has sent exactly the events of the complete lines so far if the stream is events, and nothing otherwise; a failure of the processor comes first |
| `StreamPipeline.BlankLinesSendNothing` | backend/internal/httpapi/json_stream_collect.go:150-169 | more bytes send nothing and fail nothing exactly if they complete blank lines only |
| `StreamPipeline.SettledMeansSame` | backend/internal/streampipeline/pipeline.go:185-189 | stopping before or after some bytes comes to the same exactly if they are settled: failed before, only blank lines completed, or still buffering |
| `StreamPipeline.StopsAfter` | backend/internal/streampipeline/pipeline.go:173-189 | every prefix that leaves less than one buffer of room is what some reads feed to the processor |
| `StreamPipeline.UnsettledReadsDiffer` | backend/internal/streampipeline/pipeline.go:172-218 | an over-long stream that is not settled can be read in two ways with different outcomes |
| `StreamPipeline.ReadsAgreeExactlyWhen` | backend/internal/streampipeline/pipeline.go:142-222 | all ways of reading a stream agree if and only if it fits or its last buffer before the limit is settled |
| `StreamPipeline.RunPipeline` | backend/internal/streampipeline/pipeline.go:172-222 | the loop: empty reads skipped, bytes counted before they are handed on, the first error final, the finish only at the end of the stream |
| `JumpChains.ValidateJumpChain` | backend/internal/httpapi/app.go:5197-5217 | returns on every inventory, with each of the four verdicts exactly if that is what becomes of the walk: it ends at a direct server or a blank name, meets `currentID`, meets a missing server, or goes on for ever |
| `JumpChains.OneFate` | backend/internal/httpapi/app.go:5197-5217 | the four fates of a walk exclude each other |
| `JumpChains.AcceptsExactlyWhen` | backend/internal/httpapi/app.go:5197-5217 | the guard accepts exactly the walks that end at a direct server or a blank name |
| `JumpChains.FatesThroughFollow` | backend/internal/httpapi/app.go:5199-5215 | the four verdicts in terms of the servers on the walk: it arrives at `currentID`, at a name nobody has, at a blank name or direct server, or never ends |
| `JumpChains.ComesBack` | backend/internal/httpapi/app.go:5200-5202 | a walk that returns to a visited server goes on for ever without meeting `currentID`, so reporting a cycle is right |
| `JumpChains.WalkJumpChain` | backend/internal/httpapi/app.go:5197-5217 | the loop with its visited set returns what becomes of the walk |
| `JumpChains.AcceptedWalkAvoids` | backend/internal/httpapi/app.go:5197-5217 | an accepted walk is finite, stays on existing servers and never meets `currentID` |
| `JumpChains.AcceptedWalkIsSimple` | backend/internal/httpapi/app.go:5197-5217 | an accepted walk repeats no server |
| `JumpChains.RewriteKeepsAcyclic` | backend/internal/store/sqlite.go:2330-2360 | rewriting one profile keeps the graph acyclic if the new chain does not lead back to it |
| `JumpChains.StepKeepsAcyclic` | backend/internal/httpapi/app.go:5143-5152 | each accepted create or update, and each delete, keeps every chain acyclic |
| `JumpChains.EveryRunStaysAcyclic` | backend/internal/httpapi/app.go:5496-5527 | any sequence of creates, updates and deletes keeps an acyclic inventory acyclic |
| `JumpChains.EveryRunFromEmptyIsAcyclic` | backend/internal/httpapi/app.go:4926-4960 | any sequence of requests from an empty inventory leaves no server reachable from itself |
| `JumpChains.ValidatedChainAvoids` | backend/internal/httpapi/app.go:5143-5152 | a chain the guard accepts, for a create or an update, never leads to the server it is checked for |
| `JumpChains.GuardPassesExactlyWhen` | backend/internal/httpapi/app.go:5143-5152 | direct profiles pass, and chained ones exactly if their walk ends without coming back |
| `JumpChains.RequestsSay` | backend/internal/httpapi/app.go:4934-4956 | what a request does to each server: a passed create adds, a passed update replaces, a delete removes, anything else changes nothing |
| `JumpChains.StoreKeepsAcyclicExactlyWhen` | backend/internal/store/sqlite.go:2330-2360 | storing a profile keeps the graph acyclic if and only if its chain does not lead back to it |
| `JumpChains.BothLeadAcross` | backend/internal/httpapi/app.go:5502-5510 | after one of two validated profiles is stored, the chain of the other leads back to it exactly if both led to each other |
| `JumpChains.RacingStoresStayAcyclicExactlyWhen` | backend/internal/httpapi/app.go:5502-5514 | two requests validated against one inventory and both stored keep it acyclic if and only if they are not for different servers whose new chains lead to each other |
| `JumpChains.RacingUpdatesCanCloseACycle` | backend/internal/httpapi/app.go:5502-5514 | two direct servers, each updated to jump through the other, both validated first: a cycle |
| `JumpChains.StoreAllIsMerge` | backend/internal/store/sqlite.go:2330-2360 | after several stores the last profile of each server counts |
| `JumpChains.SameFirstHit` | backend/internal/httpapi/app.go:5197-5217 | up to the first stored server a walk is the same before and after the stores |
| `JumpChains.ShortcutsAreWalks` | backend/internal/httpapi/app.go:5502-5514 | hops between stored servers are walks in the new inventory |
| `JumpChains.WalkIsShortcuts` | backend/internal/httpapi/app.go:5502-5514 | walks between stored servers in the new inventory are such hops |
| `JumpChains.ManyStoresStayAcyclicExactlyWhen` | backend/internal/httpapi/app.go:5502-5514 | any number of requests past the guard at once, stored in any order, keep the graph acyclic if and only if their profiles form no ring of first meetings in the old inventory |
| `JumpChains.ValidatedAloneMakesNoRing` | backend/internal/httpapi/app.go:5143-5152 | one validated request alone forms no such ring |
| `JumpChains.ServerStore.ReferencesValid` | backend/internal/httpapi/app.go:5143-5152 | exactly which jump references pass the guard |
| `JumpChains.ServerStore.HandleCreate` | backend/internal/httpapi/app.go:4934-4956 | the whole new inventory: the profile added only if guard and checks pass and its identifier is new |
| `JumpChains.ServerStore.HandleUpdate` | backend/internal/httpapi/app.go:5496-5519 | the whole new inventory: the profile replaced only if guard and checks pass and it exists |
| `JumpChains.ServerStore.HandleDelete` | backend/internal/httpapi/app.go:5520-5525 | the profile goes without a check, so other profiles may dangle |
| `ConnectAll.ConnectableIsLeastClosed` | backend/internal/httpapi/app.go:7355-7375 | the servers connectable along some finite chain are the least set closed under connecting after the jump server |
| `ConnectAll.ConnectableStep` | backend/internal/httpapi/app.go:7387-7402 | a server is connectable exactly if it can be dialled and is direct or has a connectable jump server |
| `ConnectAll.WaitingForItselfFails` | backend/internal/httpapi/app.go:7381-7385 | a server that waits for itself is connectable along no chain, so failing it is right |
| `ConnectAll.RoundNeverEnds` | backend/internal/httpapi/app.go:7381-7385 | a chain that leads back to its start never ends |
| `ConnectAll.NeverEndingIsCyclic` | backend/internal/httpapi/app.go:7387-7396 | a chain that never ends runs into a cycle |
| `ConnectAll.SucceededEnds` | backend/internal/httpapi/app.go:7377-7423 | only servers whose chain ends get connected |
| `ConnectAll.OrderOfAttempts` | backend/internal/httpapi/app.go:7377-7423 | a chained server is dialled only after its jump server connected, and no server connects twice |
| `ConnectAll.Connector.constructor` | backend/internal/httpapi/app.go:7367-7371 | the search starts with nothing connected, visited, tried or recorded |
| `ConnectAll.Connector.GiveUp` | backend/internal/httpapi/app.go:7389-7400 | a failure found without dialling is written to the status table and nothing else changes |
| `ConnectAll.Connector.Connect` | backend/internal/httpapi/app.go:7403-7422 | one attempt is appended and its status written; the connected set grows exactly if it succeeded |
| `ConnectAll.Connector.Dial` | backend/internal/httpapi/app.go:7403-7422 | a visit that ends with an attempt: the server is no longer being visited, its chain ends, and with steady connections it connects exactly if it can be dialled |
| `ConnectAll.Connector.Leave` | backend/internal/httpapi/app.go:7389-7400 | a visit that ends without an attempt: the failure is recorded and the server is no longer being visited |
| `ConnectAll.Connector.MeetAgain` | backend/internal/httpapi/app.go:7381-7385 | a server met again while being visited fails, rightly: it waits for itself and its chain never ends |
| `ConnectAll.Connector.ConnectWithDependencies` | backend/internal/httpapi/app.go:7377-7423 | returns on every inventory, leaves `visiting` as found, keeps the order of attempts, records the status with the reason the code gives (cycle met, jump server missing, jump server down with its status, dialling failed), blames a cycle exactly if the chain never ends, and with steady connections connects exactly the connectable |
| `ConnectAll.Connector.ConnectAllServers` | backend/internal/httpapi/app.go:7355-7375 | at the end every server has a status that blames a cycle if and only if its chain never ends, and with steady connections the connected set is the least closed set |
| `AuditLog.Verify` | backend/internal/auditlog/store.go:258-324 | OK exactly for a valid log; otherwise `Events` is the length of the longest valid prefix and `HeadHash` its head; an error exactly when the first invalid row has an unreadable time |
| `AuditLog.PrefixesOfValid` | backend/internal/auditlog/store.go:258-318 | every prefix of a log that verifies verifies |
| `AuditLog.FirstInvalidRow` | backend/internal/auditlog/store.go:320-324 | the rows before the first invalid one are the longest prefix that verifies |
| `AuditLog.AppendKeepsValid` | backend/internal/auditlog/store.go:169-220 | a row built by `Append` on the head of a valid log is valid in its place |
| `AuditLog.AppendRecordsTheEvent` | backend/internal/auditlog/store.go:169-220 | an accepted event becomes the last row with its own details, metadata and time; a refused one leaves the log alone |
| `AuditLog.ProducedLogsRecordTheEvents` | backend/internal/auditlog/store.go:169-220 | over any appends the new rows record the accepted inputs, one each and in order |
| `AuditLog.ProducedLogsAreIdentified` | backend/internal/auditlog/store.go:169-220 | no two rows of a produced log share an identifier, and each has a type |
| `AuditLog.ValidRowsAreSealed` | backend/internal/auditlog/store.go:258-318 | a log verifies if and only if every row has its place, chain, metadata, time, hash and signature |
| `AuditLog.ProducedLogsVerify` | backend/internal/auditlog/store.go:169-220 | a log built by any appends is valid, has a row for each success and only ever grows at the end |
| `AuditLog.EqualHashesBind` | backend/internal/auditlog/store.go:326-331 | two valid rows with one hash have the same position, the same hashed fields and the same predecessor hash |
| `AuditLog.HashBindsHistory` | backend/internal/auditlog/store.go:258-318 | one hash fixes every earlier row, by induction along `prev_hash` |
| `AuditLog.HeadHashBindsTheLog` | backend/internal/auditlog/store.go:258-331 | two logs that verify with the same head hash have the same length and agree in every hashed field of every row |
| `AuditLog.RememberedHeadVouches` | backend/internal/auditlog/store.go:239-256 | an old head found in a log that verifies stands at its old position and vouches for everything up to it |
| `AuditLog.Store.constructor` | backend/internal/auditlog/store.go:103-130 | a new log has no rows |
| `AuditLog.Store.AppendEvent` | backend/internal/auditlog/store.go:169-220 | one row is added, chained to the head and recording the input as given, exactly if the type is present and the identifier new; otherwise nothing changes |
| `AuditLog.Store.CurrentHead` | backend/internal/auditlog/store.go:239-256 | the head's hash is the last row's, and in a valid log its sequence is the number of rows and its signature verifies |
| `AuditLog.AppendThenVerify` | backend/internal/auditlog/store.go:169-324 | after any appends `Verify` is OK, `Events` counts the successful ones and `HeadHash` is what `Head` reports |
| `RateLimiter.TablesAgree` | backend/internal/gateway/gateway.go:424-453 | after any trace of calls at most a window and a nanosecond late, the evicting table is the never-evicting one without entries over two windows behind the latest clock read |
| `RateLimiter.EvictionIsInvisible` | backend/internal/gateway/gateway.go:437-441 | over every trace of such calls and interleaved keys the evicting limiter answers like one that never deletes |
| `RateLimiter.EvictionShowsBeyond` | backend/internal/gateway/gateway.go:437-445 | a call one nanosecond later than that can be admitted because its full window was deleted |
| `RateLimiter.TableLinks` | backend/internal/gateway/gateway.go:437-452 | over every trace the table holds the last window of a key, or it was deleted more than two windows behind the latest clock read |
| `RateLimiter.ReopeningIsTheFutureBranch` | backend/internal/gateway/gateway.go:443 | without eviction a window opens early exactly for a call that finds its window in the future |
| `RateLimiter.OnlyLateCallsReopen` | backend/internal/gateway/gateway.go:406-443 | over every trace, early openings of a key are at most its calls that took the mutex after a later clock read |
| `RateLimiter.OnlyOvertakenCallsReopen` | backend/internal/gateway/gateway.go:406-443 | for calls not too late for eviction, they are at most its calls overtaken by another call for the key |
| `RateLimiter.CallStep` | backend/internal/gateway/gateway.go:442-452 | one call keeps the count of admissions within what the windows since the interval began allow; an early opening starts the count anew |
| `RateLimiter.AccountedAlways` | backend/internal/gateway/gateway.go:442-452 | every trace splits at its early openings into stretches that each stay within the bound |
| `RateLimiter.SlidingWindowBound` | backend/internal/gateway/gateway.go:406-453 | over every trace, in any mutex order, an interval of length T admits at most limit * (ceil(T / window) + 1) - 1 calls of a key, 2 * limit - 1 for T = window, for each early opening and once more; without late calls there is none |
| `RateLimiter.BoundIsReached` | backend/internal/gateway/gateway.go:442-452 | for every limit and every number of early openings some trace reaches that bound within one window's length |
| `RateLimiter.OvertakenCallsPassAnyLimit` | backend/internal/gateway/gateway.go:442-445 | k calls in one window, each overtaken by the one before it, are all admitted with a limit of one |
| `RateLimiter.Limiter.constructor` | backend/internal/gateway/gateway.go:420-422 | a new limiter has an empty table |
| `RateLimiter.Limiter.Purge` | backend/internal/gateway/gateway.go:437-441 | the loop removes exactly the entries more than two windows old |
| `RateLimiter.Limiter.Hit` | backend/internal/gateway/gateway.go:437-453 | the answer and the whole new table of one call under the mutex |
| `RateLimiter.Limiter.Allow` | backend/internal/gateway/gateway.go:424-453 | a limit of zero admits without a trace; otherwise the call is counted under the trimmed key, or `unknown` for a blank one, every other key keeps its entry or loses it for its age, and the default window applies |
| `RateLimiter.TwoClients` | backend/internal/gateway/gateway.go:428-453 | two clients with different addresses are both admitted on an empty table, whatever the limit |
| `RateLimiter.OneClient` | backend/internal/gateway/gateway.go:428-453 | one client, whatever the white space around its address, is refused the second time with a limit of one |
| `StreamTickets.StepKeepsGuard` | backend/internal/httpapi/app.go:6801-6841 | each step keeps the most that a successful count has found, and one last ticket per request, above all stored tickets |
| `StreamTickets.CountClears` | backend/internal/httpapi/app.go:6834-6841 | a count that takes no snapshot and ends below the cap still bounds every ticket that is not some request's last one |
| `StreamTickets.GuardMeansCap` | backend/internal/httpapi/app.go:6811-6819 | stored tickets plus requests past the count are then within cap - 1 plus the number of requests |
| `StreamTickets.StoredTicketsAreBounded` | backend/internal/httpapi/app.go:6801-6841 | over any interleaving, with purges and counts that other requests disturb, stored tickets plus requests past the count stay within cap - 1 plus the number of requests |
| `StreamTickets.StoredTicketsAreBoundedFromTheStart` | backend/internal/httpapi/app.go:6801-6841 | from the empty map with k requests, that sum is at most cap - 1 + k |
| `StreamTickets.SerialIssuersKeepTheCap` | backend/internal/httpapi/app.go:112 | one request at a time never stores more than 4096 tickets |
| `StreamTickets.TokensAreSingleUse` | backend/internal/httpapi/app.go:6843-6859 | over any interleaving a token is let in at most once, only for its session and only before it expires |
| `StreamTickets.TokensAreSingleUseFromTheStart` | backend/internal/httpapi/app.go:6801-6859 | the same from the empty map |
| `StreamTickets.LiveTicketsAreHonoured` | backend/internal/httpapi/app.go:6823-6859 | a consumer is let in exactly if its token was stored, is untried, is for that session and has not expired: purges lose nothing |
| `StreamTickets.BoundIsReached` | backend/internal/httpapi/app.go:6811-6819 | for every cap and k some interleaving stores exactly cap - 1 + k tickets |
| `StreamTickets.TicketMap.PurgeExpired` | backend/internal/httpapi/app.go:6823-6832 | exactly the tickets past their expiry go, and the others stay as they are |
| `StreamTickets.TicketMap.ActiveCount` | backend/internal/httpapi/app.go:6834-6841 | the early-stopping count reaches the cap exactly if that many tickets are stored |
| `StreamTickets.TicketMap.Put` | backend/internal/httpapi/app.go:6815-6819 | the ticket is stored under its token with trimmed names |
| `StreamTickets.TicketMap.Consume` | backend/internal/httpapi/app.go:6843-6859 | the token is removed whatever the answer, and the answer is whether it admits |
| `StreamTickets.IssueThenConsume` | backend/internal/httpapi/app.go:6810-6859 | a ticket put for a session admits that session for sixty seconds, no other, and once |
| `StreamTickets.BeginDrawsForSixtySeconds` | backend/internal/httpapi/app.go:6806-6810 | drawing a token gives its ticket sixty seconds |
| `BatchSchedule.NextFollowsEvaluation` | backend/internal/httpapi/batch_script_scheduler.go:200-219 | over any history every stored `NextRunAt` is `LastEvaluatedAt` plus the interval |
| `BatchSchedule.EvaluationSays` | backend/internal/httpapi/batch_script_scheduler.go:50-219 | exactly when an evaluation starts a run, counts one more missed, notes a failure or does nothing, and what the row says afterwards; a template without a row waits an interval after its latest run |
| `BatchSchedule.StartsStaySpaced` | backend/internal/httpapi/batch_script_scheduler.go:147-176 | over any history the stored seconds of starts are an interval apart and the row lies an interval past the last |
| `BatchSchedule.StartsAreAnIntervalApart` | backend/internal/httpapi/batch_script_scheduler.go:50-139 | any two scheduled starts are at least an interval apart in stored seconds and more than the interval less one second in real time |
| `BatchSchedule.FullIntervalExactlyOnWholeSeconds` | backend/internal/store/sqlite.go:5270 | no later start can come before a full interval if and only if the start was on a whole second |
| `BatchSchedule.IntervalCanFallShort` | backend/internal/store/sqlite.go:5270 | two starts 59.2 seconds apart on a 60-second schedule |
| `BatchSchedule.SpanHoldsFewStarts` | backend/internal/httpapi/batch_script_scheduler.go:50-139 | a span of any length T holds at most (T + 1 s - 2 ns) / I + 1 starts |
| `BatchSchedule.OneMoreExactlyWhen` | backend/internal/httpapi/batch_script_scheduler.go:50-139 | that is T / I + 1, and one more if and only if T falls short of a multiple of I by less than a second less a nanosecond |
| `BatchSchedule.SpanBoundIsReached` | backend/internal/httpapi/batch_script_scheduler.go:50-139 | for every configured template and every length some history has exactly that many starts |
| `BatchSchedule.OutageCausesOneCatchUp` | backend/internal/httpapi/batch_script_scheduler.go:192-198 | however long the outage, a catch-up start is followed by no further start for an interval, whatever happens |
| `BatchSchedule.AtMostOneRunIsActive` | backend/internal/httpapi/batch_script_scheduler.go:162-167 | without manual runs at most one run of a template is active over any history |
| `BatchSchedule.SkippingStartsPunctually` | backend/internal/httpapi/batch_script_scheduler.go:55-78 | under `skip_missed` every start lies within an interval after its `NextRunAt`, and the missed count never falls |
| `BatchSchedule.BriskTicksMissNothing` | backend/internal/httpapi/batch_script_scheduler.go:147-198 | ticks closer than the interval that find no active run miss nothing, from any template, evaluated before or not, that is not already overdue by the interval less the gap |
| `BatchSchedule.NewTemplatesMissNothing` | backend/internal/httpapi/batch_script_scheduler.go:168-175 | a template without a schedule row misses nothing as long as such ticks keep coming |
| `BatchSchedule.Scheduler.EvaluateTemplate` | backend/internal/httpapi/batch_script_scheduler.go:50-139 | the whole new state of a template after it was skipped, missed, failed, found without targets or started |
| `BatchSchedule.Scheduler.RunScheduleTick` | backend/internal/httpapi/batch_script_scheduler.go:40-141 | one tick evaluates each listed template exactly once and touches nothing else |
| `Calendar.MonthStartsIncrease` | backend/internal/httpapi/backup_scheduler.go:106-118 | months follow each other without overlap |
| `Calendar.YearLength` | backend/internal/httpapi/backup_scheduler.go:106-118 | twelve months make a year of 365 or 366 days |
| `Calendar.YearStart` | backend/internal/httpapi/backup_scheduler.go:106-118 | the first of each year is the day the closed Gregorian count gives, before and after 1970 |
| `Calendar.MonthLengths` | backend/internal/httpapi/backup_scheduler.go:106-118 | the twelve months have their Gregorian lengths |
| `Calendar.WeekdaysFollow` | backend/internal/httpapi/backup_scheduler.go:106-118 | weekdays follow each other from Thursday, 1970-01-01 |
| `Calendar.MonthIsUnique` | backend/internal/httpapi/backup_scheduler.go:106-118 | each day lies in exactly one month |
| `BackupSchedule.ScheduledOnFirstDay` | backend/internal/httpapi/backup_scheduler.go:90-118 | the scheduled instant lies on the first day of the day, week or month that `now` lies in, at the clock time that `ScheduledClockTime` states |
| `BackupSchedule.ScheduledClockTime` | backend/internal/httpapi/backup_scheduler.go:90-104 | its hour and minute are those of the schedule, or the nearest that exist |
| `BackupSchedule.PeriodOf` | backend/internal/httpapi/backup_scheduler.go:106-118 | every instant lies in a period of each kind |
| `BackupSchedule.ScheduledInstantIsConstant` | backend/internal/httpapi/backup_scheduler.go:106-118 | the scheduled instant is the same for all instants of a period and lies inside it |
| `BackupSchedule.ScheduledInstantIsMonotone` | backend/internal/httpapi/backup_scheduler.go:90-118 | a later instant never has an earlier scheduled instant |
| `BackupSchedule.DueExactlyWhen` | backend/internal/httpapi/backup_scheduler.go:69-88 | with the newest run first, a task is due exactly if the instant has come, no run is from it or later and the latest is over |
| `BackupSchedule.DueTickStarts` | backend/internal/httpapi/backup_scheduler.go:38-63 | a due tick whose start succeeds adds one active run to the stored ones and one start, and no other tick changes anything |
| `BackupSchedule.StepKeepsCovered` | backend/internal/httpapi/backup_scheduler.go:69-88 | every step keeps the scheduled instant of each past start covered by the newest run |
| `BackupSchedule.HistoryKeepsDistinct` | backend/internal/httpapi/backup_scheduler.go:69-88 | over any history no two starts share a scheduled instant |
| `BackupSchedule.AtMostOneStartPerPeriod` | backend/internal/httpapi/backup_scheduler.go:38-88 | over any history a task is started by its schedule at most once per UTC day, Monday-based week or month |
| `BackupSchedule.StepKeepsOneActive` | backend/internal/httpapi/backup_scheduler.go:74-79 | every step without a manual run keeps only the newest run active |
| `BackupSchedule.AtMostOneRunIsActive` | backend/internal/httpapi/backup_scheduler.go:69-88 | over any history without manual runs no start happens while a run is active: only the newest ever is |
| `BackupSchedule.Scheduler.TaskDue` | backend/internal/httpapi/backup_scheduler.go:69-88 | due exactly if the latest run is not active, the instant has come and no run covers it |
| `BackupSchedule.Scheduler.RunScheduleTick` | backend/internal/httpapi/backup_scheduler.go:38-63 | one tick starts exactly the enabled, due tasks whose start succeeds and touches nothing else |
| `SendToJob.FileManagerSendToJob.MarkJobRunning` | backend/internal/httpapi/file_manager_send_to.go:434-443 | running, unless cancelled |
| `SendToJob.FileManagerSendToJob.AddJobBytes` | backend/internal/httpapi/file_manager_send_to.go:445-450 | the byte count grows and nothing else changes |
| `SendToJob.FileManagerSendToJob.MarkJobFailed` | backend/internal/httpapi/file_manager_send_to.go:452-463 | failed and finished, unless cancelled |
| `SendToJob.FileManagerSendToJob.MarkJobCompleted` | backend/internal/httpapi/file_manager_send_to.go:465-477 | completed and finished with the audit event, unless cancelled |
| `SendToJob.FileManagerSendToJob.Cancel` | backend/internal/httpapi/file_manager_send_to.go:485-500 | cancelled and finished, unless already terminal |
| `SendToJob.StepKeepsInv` | backend/internal/httpapi/file_manager_send_to.go:213-300 | each worker, pipeline or operator step keeps status, finishing time, audit attempts and byte count consistent |
| `SendToJob.TransferSays` | backend/internal/httpapi/file_manager_send_to.go:222-292 | a failed open or an unconfirmed upload fails the job, a confirmed one is logged as completed, and only a broken transfer makes the worker look for a cancel |
| `SendToJob.EndingSays` | backend/internal/httpapi/file_manager_send_to.go:452-500 | a job ends by completing, failing or a cancel, and its finishing time is the instant of that step |
| `SendToJob.CancelAndBeginSay` | backend/internal/httpapi/file_manager_send_to.go:434-500 | a cancel ends every job that has not ended, and beginning runs a job unless it was cancelled |
| `SendToJob.EveryInterleavingIsSound` | backend/internal/httpapi/file_manager_send_to.go:213-383 | over any interleaving `FinishedAt` is set exactly in terminal states, and a completed job points at its one recorded completion event |
| `SendToJob.DoneMeansAuditedOnce` | backend/internal/httpapi/file_manager_send_to.go:213-383 | a finished worker leaves a terminal job and exactly one audit attempt, over exactly the bytes written |
| `SendToJob.TerminalIsAbsorbing` | backend/internal/httpapi/file_manager_send_to.go:434-500 | completed, failed and cancelled are final under every interleaving, with finishing time and audit event |
| `SendToJob.OnlyCancelsAreMisreported` | backend/internal/httpapi/file_manager_send_to.go:260-300 | at the end log and job agree, unless the job is cancelled |
| `SendToJob.StepTracksPath` | backend/internal/httpapi/file_manager_send_to.go:213-300 | every step keeps the cancellation event tied to the worker having found the job cancelled |
| `SendToJob.LogAgreesExactlyWhen` | backend/internal/httpapi/file_manager_send_to.go:213-300 | for every interleaving that ends, log and job agree if and only if the job is not cancelled or the worker found it cancelled after a broken transfer |
| `SendToJob.TimelyCancelIsReported` | backend/internal/httpapi/file_manager_send_to.go:265-282 | a job cancelled by the time a broken transfer is judged is always logged as cancelled |
| `SendToJob.LateCancelIsMisreported` | backend/internal/httpapi/file_manager_send_to.go:265-300 | a job found cancelled in a state past that look is never logged as cancelled, whatever follows |
| `SendToJob.CancelledButLoggedCompleted` | backend/internal/httpapi/file_manager_send_to.go:293-300 | an interleaving whose job is cancelled and whose log says completed |
| `SendToJob.CancelledButLoggedFailed` | backend/internal/httpapi/file_manager_send_to.go:222-228 | an interleaving whose job is cancelled while its source is being opened and whose log says failed |
| `SendToJob.CancelledAndLoggedCancelled` | backend/internal/httpapi/file_manager_send_to.go:265-269 | an interleaving whose job is cancelled and whose log says so |
| `ImportLabels.DecimalIsInjective` | backend/internal/httpapi/app.go:7053 | different indices print differently |
| `ImportLabels.DecimalReadsBack` | backend/internal/httpapi/app.go:7053 | a printed index reads back as the number and has no leading zero |
| `ImportLabels.WordsOfSpaced` | backend/internal/httpapi/app.go:5193-5195 | a digit word after a blank is the last word of the normalised label |
| `ImportLabels.WordsSplitAtSpace` | backend/internal/httpapi/app.go:5193-5195 | white space keeps the words of two texts apart and is no part of them |
| `ImportLabels.GluedLength` | backend/internal/httpapi/app.go:5193-5195 | glueing two solid texts adds up the lengths of their normal forms |
| `ImportLabels.IndexedKey` | backend/internal/httpapi/app.go:7053-7055 | the key of an indexed label is the key of its stem, a blank and the digits |
| `ImportLabels.CandidatesDiffer` | backend/internal/httpapi/app.go:7040-7059 | any two candidates of one base and user have different keys |
| `ImportLabels.CandidatesSay` | backend/internal/httpapi/app.go:7045-7054 | the labels tried are the base, `user@base`, and that with a blank and an index from 2 on |
| `ImportLabels.NormalizedKeysSeparate` | backend/internal/httpapi/app.go:5193-5195 | `normalizeServerLabelKey` keeps apart all candidates of every base and user |
| `Arithmetic.Pigeonhole` | backend/internal/httpapi/app.go:7052-7057 | n different keys do not fit in a smaller set |
| `ImportLabels.ChosenLabelIsFresh` | backend/internal/httpapi/app.go:7040-7059 | with fewer than 10000 used keys the chosen label's key is unused |
| `ImportLabels.ChosenLabelsAreFresh` | backend/internal/httpapi/app.go:5332-5342 | labels chosen one after another are fresh and use up their keys |
| `ImportLabels.Choose` | backend/internal/httpapi/app.go:7045-7058 | the first free candidate, or the time-stamped label only if all are taken |
| `ImportLabels.UniqueImportedServerLabel` | backend/internal/httpapi/app.go:7040-7059 | blank exactly for a blank base; otherwise the chosen candidate, fresh while fewer than 10000 keys are used |
| `ImportLabels.AssignLabels` | backend/internal/httpapi/app.go:5332-5342 | each profile gets the label chosen for it given the labels before it; they have pairwise different keys, none of them in use before |
| `OutputCapture.NormalizeMaxBytes` | backend/internal/batchoutput/batchoutput.go:105-116 | the default for nothing, a value in the allowed range as it is, and otherwise the nearer bound |
| `OutputCapture.CaptureIsAPrefix` | backend/internal/batchoutput/batchoutput.go:118-143 | after any writes the file is the first min(limit, total) bytes and the preview the first min(PreviewBytes, total); `truncated` exactly if something was cut off or an empty write came at the limit |
| `OutputCapture.ChunkingIsInvisible` | backend/internal/batchoutput/batchoutput.go:118-143 | without empty writes the capture depends only on the bytes, and `truncated` means total > limit |
| `OutputCapture.ExactFitCanCountAsTruncated` | backend/internal/batchoutput/batchoutput.go:124-130 | a complete capture flagged as truncated after an empty write |
| `OutputCapture.Capture.constructor` | backend/internal/batchoutput/batchoutput.go:64-103 | a new capture is open and empty with the normalised limit |
| `OutputCapture.Capture.Write` | backend/internal/batchoutput/batchoutput.go:118-143 | the whole new state, also on a short write; full length reported on success; nothing changes on a closed capture |
| `OutputCapture.Capture.Finish` | backend/internal/batchoutput/batchoutput.go:145-167 | a non-empty reference only if the captured bytes were moved to the final path; a closed capture is left alone |
| `OutputCapture.Capture.Abort` | backend/internal/batchoutput/batchoutput.go:169-178 | the temporary file goes and the capture is closed |
| `OutputCapture.CaptureAll` | backend/internal/batchoutput/batchoutput.go:64-178 | a whole capture whose writes succeed ends with the prefix at the final path |
| `Monitor.StepKeepsOneLoop` | backend/internal/desktopapps/service.go:545-580 | every step keeps `refreshing` equal to having exactly one live loop |
| `Monitor.LoopEndsOnlyWhenStale` | backend/internal/desktopapps/service.go:564-571 | over every trace a loop ends only at a tick when the key was last asked for longer ago than the time to live |
| `Monitor.AccessIsTheLastRequest` | backend/internal/desktopapps/service.go:516-526 | over every trace a key has an entry exactly if it was asked for, and `lastAccess` is the instant of the last request |
| `Monitor.TickEndsExactlyWhenStale` | backend/internal/desktopapps/service.go:564-577 | a tick ends a waiting loop if and only if the key was last asked for longer ago; otherwise the loop refreshes |
| `Monitor.EnsureLeavesALoop` | backend/internal/desktopapps/service.go:545-558 | a request that reaches its end leaves a live loop for its key |
| `Monitor.StepKeepsServing` | backend/internal/desktopapps/service.go:528-543 | every step keeps each entry equal to its last good result and last error |
| `Monitor.TraceKeeps` | backend/internal/desktopapps/service.go:481-580 | both hold after every interleaving of requests, ticks and refreshes |
| `Monitor.RefreshingMeansOneLoop` | backend/internal/desktopapps/service.go:545-580 | over all interleavings `refreshing` holds exactly if one loop is live for the key, and there are never two |
| `Monitor.CacheIsTheLastGoodResult` | backend/internal/desktopapps/service.go:528-543 | over all interleavings the cache holds the last good result and the error text of the last store |
| `Monitor.LoadsExactlyWhen` | backend/internal/desktopapps/service.go:486-500 | a request loads by itself exactly if there is no good result last and no error on record |
| `Monitor.LoadSays` | backend/internal/desktopapps/service.go:495-506 | a request whose own load fails ends and starts no loop; one whose load succeeds goes on to ensure one |
| `Monitor.ErrorTextTellsTheOutcome` | backend/internal/desktopapps/service.go:537-542 | after a store the error text is empty exactly if it succeeded or failed with an empty text |
| `Monitor.TextlessFailurePassesForSuccess` | backend/internal/desktopapps/service.go:528-543 | a stored failure equals a stored success with the old result if and only if its text is empty |
| `Monitor.TextlessFirstFailure` | backend/internal/desktopapps/service.go:486-500 | a first load that fails without a text leaves an entry that is loaded again as if new |
| `Monitor.Service.MonitoredEntry` | backend/internal/desktopapps/service.go:516-526 | the entry exists, its access time is the given instant and nothing else changes |
| `Monitor.Service.StoreResult` | backend/internal/desktopapps/service.go:528-543 | a failure changes the error text and keeps the result; a success replaces both |
| `Monitor.Service.EnsureMonitor` | backend/internal/desktopapps/service.go:545-558 | the caller starts a loop exactly if none was marked, and then the key is marked |
| `Monitor.Service.Tick` | backend/internal/desktopapps/service.go:560-571 | the loop ends exactly if its key is stale, and then unmarks it |
| `Text.BlankMeansNothingLeft` | backend/internal/httpapi/app.go:5199 | a trim is empty exactly for white space |
| `Text.TrimSpaceTrims` | backend/internal/domain/desktop.go:243 | a trimmed text has no white space at its ends and is left alone by trimming |
| `Text.TrimSpaceTakesTheEndsOff` | backend/internal/domain/desktop.go:243 | trimming takes white space off both ends and nothing else |
| `DisplayText.CutFits` | backend/internal/domain/desktop.go:235-237 | the byte limit keeps a prefix in which only the last rune may cross the limit, and keeps all of a text that fits |
| `DisplayText.CutReachesTheLimit` | backend/internal/domain/desktop.go:235-237 | nothing is cut off before the byte limit is reached |
| `DisplayText.TokenIsFixed` | backend/internal/domain/desktop.go:229-240 | a sanitized token holds token runes only and fits; such tokens are left alone |
| `DisplayText.TokenOfOneRune` | backend/internal/domain/desktop.go:232-234 | exactly hyphens, underscores, letters and digits are kept |
| `DisplayText.TokenRunesSplit` | backend/internal/domain/desktop.go:231-238 | rune by rune, in order |
| `DisplayText.PrintableOfOneRune` | backend/internal/domain/desktop.go:293-298 | line breaks and tabs become blanks, other control characters go, the rest stays |
| `DisplayText.PrintableSplit` | backend/internal/domain/desktop.go:292-303 | rune by rune, in order |
| `DisplayText.MetadataValueIsFixed` | backend/internal/domain/desktop.go:289-305 | a sanitized value is trimmed, free of control characters and fits; such values are left alone |
| `DisplayText.SqueezeLeavesSingleSpaces` | backend/internal/domain/desktop.go:253-263 | after squeezing no two white-space runes are adjacent and every one is a blank |
| `DisplayText.SqueezeOfOneRune` | backend/internal/domain/desktop.go:253-263 | the first white space after a visible rune becomes a blank, further ones go |
| `DisplayText.SqueezeSplit` | backend/internal/domain/desktop.go:246-263 | rune by rune, in order |
| `DisplayText.LabelIsClean` | backend/internal/domain/desktop.go:242-268 | a sanitized label is trimmed, single-spaced, free of control characters and fits |
| `DisplayText.CleanLabelIsFixed` | backend/internal/domain/desktop.go:242-268 | such labels are left alone |
| `DisplayText.SanitizeToken` | backend/internal/domain/desktop.go:229-240 | the loop with its early exit computes the token |
| `DisplayText.WriteLabel` | backend/internal/domain/desktop.go:244-266 | the loop with its flag and early exit writes the squeezed printable text up to the limit |
| `DisplayText.SanitizeLabel` | backend/internal/domain/desktop.go:242-268 | the loop's text, trimmed, is the label |
| `DisplayText.WritePrintable` | backend/internal/domain/desktop.go:291-303 | the loop writes the printable text up to the limit |
| `DisplayText.SanitizeMetadataValue` | backend/internal/domain/desktop.go:289-305 | the loop's text, trimmed, is the value |
| `DesktopWindows.SanitizeMetadata` | backend/internal/domain/desktop.go:270-287 | in whatever order the map is walked: every entry comes from a raw one by cleaning, and every usable key is there |
| `DesktopWindows.Tidy` | backend/internal/domain/desktop.go:75-110 | every field after sanitizing, defaults and bounds |
| `DesktopWindows.NormalizeWindow` | backend/internal/domain/desktop.go:73-111 | migration, then every field sanitized, defaulted and bounded |
| `DesktopWindows.CleanMapStays` | backend/internal/domain/desktop.go:270-287 | cleaning clean metadata changes nothing, in whatever order the map is walked |
| `DesktopWindows.NormalFormIsClean` | backend/internal/domain/desktop.go:73-111 | every result is in normal form: size, position and z-index bounds, and text fields their sanitizers leave alone |
| `DesktopWindows.BoundsSay` | backend/internal/domain/desktop.go:91-105 | sizes, positions and depth in bounds are kept, others become the bound, and a missing depth is the place in the list |
| `DesktopWindows.NamesSay` | backend/internal/domain/desktop.go:75-90 | names that survive sanitizing are kept, and empty ones get their defaults |
| `DesktopWindows.KindTitlesSay` | backend/internal/domain/desktop.go:183-212 | each known kind has its title, and every other kind the title Window |
| `DesktopWindows.CleanStays` | backend/internal/domain/desktop.go:73-111 | a window in normal form that is not a retired one is left alone |
| `DesktopWindows.MigratedIsNotLegacy` | backend/internal/domain/desktop.go:113-132 | a migrated window is a containers window and not a retired one |
| `DesktopWindows.MigratedWindowSays` | backend/internal/domain/desktop.go:125-131 | its kind and module are containers, its plugin builtin, and it has no session |
| `DesktopWindows.MigrationRefreshes` | backend/internal/domain/desktop.go:119-131 | the migration sets a refresh interval of 5 seconds and keeps every other entry, the identifier and the place |
| `DesktopWindows.RetiredNamesAreLegacy` | backend/internal/domain/desktop.go:114-118 | the app id `docker_ps` and the title Docker Watch mark a retired window |
| `DesktopWindows.LegacyResult` | backend/internal/domain/desktop.go:113-132 | a result is a retired window exactly if cleaning the names of one that was not produced a retired name |
| `DesktopWindows.OnceIsFixedExactlyWhen` | backend/internal/domain/desktop.go:73-132 | one normalization reaches the fixed point if and only if cleaning did not produce a retired name |
| `DesktopWindows.TwiceIsFixed` | backend/internal/domain/desktop.go:73-132 | a third normalization never changes anything |
| `DesktopWindows.OnceCanFallShort` | backend/internal/domain/desktop.go:113-117 | a window whose first normal form is migrated by the second |
| `DesktopWindows.ActiveWindowID` | backend/internal/domain/desktop.go:165-181 | the id of the first topmost window not minimized, and a window is active exactly if some is not minimized |
| `DesktopWindows.ActiveSays` | backend/internal/domain/desktop.go:165-181 | the active window is shown, none shown lies above it, and of equally high ones it is the first |
| `DesktopWindows.BringToFront` | backend/internal/domain/desktop.go:147-163 | windows with the trimmed id get a z-index one above all, wrapping at the largest integer; the others are unchanged and in place |
| `DesktopWindows.RaisedIsActive` | backend/internal/domain/desktop.go:147-181 | after a raise of a shown window below the largest integer the active id is the raised one; a raise that shows nothing leaves it as it was |
| `DesktopWindows.RaisedIsActiveExactlyWhen` | backend/internal/domain/desktop.go:147-181 | on machine integers a raised shown window is active if and only if no z-index is the largest integer or no other window is shown |
| `DesktopWindows.RaisesTakeRoom` | backend/internal/domain/desktop.go:147-163 | n raises of windows n below the largest integer never reach it |
| `DesktopWindows.RunKeepsIds` | backend/internal/domain/desktop.go:147-163 | any run of raises changes nothing but z-indices, and nothing of windows never raised |
| `DesktopWindows.LastRaisedIsOnTop` | backend/internal/domain/desktop.go:147-163 | after any run of raises with room for them, windows are ordered by when they were last raised, above those never raised |

## Left out

- HTTP handlers, cookies, proxying, compression, the frontend and the desktop clients: input and output only.
- SQLite, SSH, time and JSON formatting, hashing and signing: abstract parameters with the properties listed under "Assumptions".
- `collectJSONFromRemoteStream`, decompression, context cancellation and the closing statistics event of the pipeline; `Stats` enter as the constant transport facts. The processor asks for a stop only together with an error, so the pipeline's stop without one does not arise.
- JsonResultStream.Processor.OnFinish: after a failed write to the nil map the Go code panics; the model records an error and ends the run.
- Integer width: `int64` counters and `time.Duration` are unbounded here, so their overflow is not modelled.
- Strings are sequences of runes: invalid UTF-8, which the sanitizers replace, is not modelled.
- JumpChains.ServerStore.HandleUpdate: key and label checks enter as one boolean; runs take validate-then-store as one step; requests taken apart are all validated before the first is stored.
- ConnectAll.Connector.Connect: fact detection and telemetry after a successful connection are left out, and so are failed status writes.
- AuditLog.Store.AppendEvent: `normalizeEventInput` and the safe-text filter of metadata act before the model begins; transactions that fail to commit are not modelled.
- RateLimiter.Limiter.Allow: the bounds over traces assume one limit per key; each call is one step under the mutex, with the clock read earlier.
- StreamTickets.TicketMap.PurgeExpired: the methods of the map run undisturbed; the steps of concurrent purges and counts are in the state machine.
- StreamTickets.TicketMap.Put: drawing the token and the principal's check come before; tokens with surrounding blanks are not modelled.
- BatchSchedule.Scheduler.EvaluateTemplate: failed reads and failed state writes, which skip or repeat an evaluation, and audit events of the scheduler are left out; `startBatchScriptRun` is an outcome parameter; two runs stored in the same second have the listing order of their insertion.
- BackupSchedule.Scheduler.RunScheduleTick: bucket selection decides whether `startBackupTaskRun` succeeds, and is an outcome parameter; `backupBucketCanAcceptTask` is one conjunction.
- BackupSchedule.AtMostOneStartPerPeriod: pruning of stored runs is not modelled.
- SendToJob.StepKeepsInv: the runner's own timeout counts as a broken transfer, a context cancelled by anything but the operator is not modelled, and neither are message and error texts or job clean-up.
- Monitor.Service.Tick: stored results are values, so sharing of nested maps between copies is not modelled; the ticker's period is any sequence of ticks.
- OutputCapture.Capture.Write: nil receivers, and a temporary file that cannot be removed, are left out; the prefix results are about runs of successful writes.
- ImportLabels.AssignLabels: profiles skipped before a label is asked for are not in its list; a failed insert leaves its label used, as here.
- DesktopWindows.NormalizeWindow: the generated identifier is a parameter; normalizing a list is this, window by window.
- `casigner`, `devicesig`, WebAuthn, `fileversion`, `feedback`, `config`, `appplan` and the action registry: mostly field checks and storage.

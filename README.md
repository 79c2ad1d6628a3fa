# sse.js — a verified model of the Server-Sent Events service

sse.js serves Server-Sent Events from Node's `http` server. It has two generations of the service:

- The lib service (`lib/sse-service.js`, with the private methods bound to it in `lib/sse-service-private-methods.js`):
  - It keeps the active connections in a map from `SSEID` to response.
  - It registers new connections through a middleware lifecycle:
    - `beforeRegister` hooks run in order, as a waterfall;
    - the response is then set up;
    - `afterRegister` hooks run in reverse order;
    - `transformSend` and `transformResponseHeaders` are synchronous transforms.
  - It writes messages, ID resets and heartbeats to the connections a target selects.
  - `unregister` and `close` end those connections.
- The package service (`packages/sse/lib/sse-service.js` with `packages/sse/lib/sse-id.js`):
  - It has the same registry and targets.
  - It has no middlewares.
  - It writes a truthy-field message encoding.
  - It links each response back to its ID through a non-configurable `res.locals.sse`.

The model also covers:

- the older one-connection client object `lib/sseclient.js`;
- the EventSource polyfill middleware;
- the small utilities: `composeDownstream`, `wrapError`, `maybeFn`, the WeakMap-backed `internal` and the request validation;
- the named-lock helper the tests use (`test/sse/utils/lock.js`).

## How the model is built

- **Objects whose fields change** are Dafny classes, and their methods carry `modifies` clauses. These are:
  - the services, with fields `conns`, `order`, `middlewares`, `blockIncomingConnections`, `heartbeat`;
  - requests, responses and `res.locals`;
  - Error objects;
  - the WeakMap records;
  - the lock table;
  - the legacy client.
- **Map order.** A `Map`'s insertion order is kept as `order: seq<SSEID>` beside `conns`. It is tied to the map by each service's `Valid()` invariant, which also requires that every active response links back to its own ID.
- **Asynchronous steps run to completion in order.** This covers `process.nextTick`, `res.write`/`res.end` callbacks, `async.parallel` and `async.waterfall`.
- **The event log.** Everything a service emits, and every call it makes to a caller's callback, is appended to `log`.
- **Hooks and targets are data.**
  - A JavaScript function is a `Fn`: an identity, which is what `===` compares, plus its truthiness on a metadata bag.
  - What a service does to a response is an `Action`: `WriteChunk(msg)` or `EndAndRemove`.
  - An `afterRegister` hook either calls `next(err)` or sends a payload with `next` as the callback.
- **Node's `http` objects** are reduced to a `Wire`: status, headers, the finished, destroyed and failing flags, and every chunk written.
- **The reference partner.** Every encoder is checked against the event-stream interpreter of section 9.2.6 ("Interpreting an event stream") of the WHATWG HTML Living Standard, in the module `EventStream`. The round-trip lemmas say what a browser's `EventSource` makes of the bytes the services write.
- **JSON.** `JSON.stringify` is modelled after section 25.5.2 of ECMA-262 on a small JSON datatype (module `Json`).

Where the code and its documentation disagree, the model follows the code:

- **Data encoding.** Structured `data` is always passed through `JSON.stringify`, so it is a single `data:` line even when it is a string holding line breaks.
- **Refused connections in lib.** While the lib service refuses connections, it only calls `res.end()`, so the client sees the default status 200, not 204.

## Model

| member | source | states |
|---|---|---|
| Utils.ComposeEmpty | lib/utils/index.js:6 | composing no hooks hands the argument back unchanged (the `x => x` seed) |
| Utils.ComposeAppend | lib/utils/index.js:6 | composing `a ++ b` runs all of `a`, then all of `b` on its result; a throw in `a` skips `b` |
| Utils.ComposeLeftmostFirst | lib/utils/index.js:6 | the first hook of the list is applied first, and its throw propagates past all the others |
| Utils.ComposeNonThrowing | lib/utils/index.js:6 | for hooks that never throw, the composition is `fn(…f2(f1(x)))`, left to right |
| Utils.Wrapped | lib/utils/index.js:15-19 | the wrapped error takes the given name (default `SSEServiceError`) and its message ends with the original message after `msg + ": "` |
| Utils.WrapError | lib/utils/index.js:15-19 | renames the error object in place, prefixes its message with `msg + ": "` and returns the same object |
| Maybe.MaybeFn | packages/sse/lib/utils/maybe.js:7-10 | a function argument is returned as is; anything else gives the default, or `() => null` when none is passed |
| LibSseId.LastEventIdHeader | lib/sse-id.js:28-31 | the recorded last event ID is the `last-event-id` header exactly when the request has one, else null |
| LibSseId.SSEIDClass.constructor | lib/sse-id.js:11-12 | a class made by `createSSEIDClass` closes over the secret it was given |
| LibSseId.SSEIDClass.Admit | lib/sse-id.js:20-23 | the constructor's guard passes exactly for the class's own secret and otherwise fails with the forged-ID message |
| LibSseId.SSEIDClass.New | lib/sse-id.js:18-32 | `new SSEID(secret, req, res)` yields a fresh ID of this class for `res`, recording the request's `last-event-id`, exactly when the secret matches; otherwise the assertion error |
| LibSseId.SSEID.constructor | lib/sse-id.js:27-31 | the ID stores its response and the last event ID read from the request headers |
| WeakMap.Record.constructor | lib/utils/weak-map.js:27 | a new record is the empty object `{}` |
| WeakMap.Internal.constructor | lib/utils/weak-map.js:24-25 | each `getInternal()` starts from its own empty table |
| WeakMap.Internal.Get | lib/utils/weak-map.js:26-29 | the first lookup of an object stores and returns a fresh empty record; later lookups return that same record and leave the table alone |
| WeakMap.RepeatedLookupsAgree | lib/utils/weak-map.js:26-29 | two lookups of the same object return the identical record, now stored under it |
| Targets.Normalise | lib/sse-service-private-methods.js:44-49 | the target survives as one ID exactly when it is an ID of this service, and as a predicate exactly when it is a function other than the chosen callback; everything else means every connection |
| Targets.CallbackChoice | lib/sse-service-private-methods.js:44 | `maybeFn(cb \|\| target)`: a function `cb` wins; with a falsy `cb` a function target becomes the callback; otherwise `() => null` |
| Targets.LonePredicateIsCallback | lib/sse-service-private-methods.js:44-49 | a predicate passed with no callback becomes the callback, and the target becomes every connection |
| Targets.PredicateWithCallback | lib/sse-service-private-methods.js:44-49 | a predicate together with a distinct function callback selects connections, and that callback is called |
| Targets.OnlyOwnIdsAndPredicatesSurvive | lib/sse-service-private-methods.js:45-74 | arrays, IDs of another service and non-functions all become `null`, so the array branch is unreachable |
| SseRequest.ValidateRequestForSSE | packages/sse/lib/utils/index.js:10-25 | no rejection exactly when the headers are not sent and the request accepts `text/event-stream`; sent headers give 500 first, otherwise 400 with the Accept message |
| SseRequest.RejectionBody | packages/sse/lib/sse-service.js:65 | a refusal body is the JSON object `{"error": message}` |
| Lifecycle.SyncStepOf | lib/sse-service-private-methods.js:89-101 | only `transformResponseHeaders` and `transformSend` are accepted; any other name throws `Unsupported synchronous lifecycle step …` |
| Lifecycle.AsyncStepOf | lib/sse-service-private-methods.js:110-125 | only `beforeRegister` and `afterRegister` are accepted; any other name throws `Unsupported asynchronous lifecycle step …` |
| Lifecycle.Select | lib/sse-service-private-methods.js:103-105 | the hooks of a step are at most one per middleware |
| Lifecycle.SelectAppend | lib/sse-service-private-methods.js:103-105 | the hooks picked from two groups of middlewares keep registration order |
| Lifecycle.SelectSkipsMissing | lib/sse-service-private-methods.js:103-105 | middlewares without the hook contribute nothing |
| Lifecycle.LaterTransformRunsLast | lib/sse-service-private-methods.js:97-108 | a transform added by a later `use` runs on what the earlier ones returned, and not at all if one of them threw |
| Lifecycle.NoTransformIsIdentity | lib/sse-service-private-methods.js:97-108 | without `transformSend` hooks the payload comes back untouched |
| Lifecycle.BeforeWaterfallAppend | lib/sse-service-private-methods.js:126-134 | the `beforeRegister` waterfall over two chains is the first chain, then the second on the headers it left, unless the first failed |
| Lifecycle.LaterBeforeHookWins | lib/sse-service-private-methods.js:126-134 | when two hooks set the same header, the later one's value is what remains |
| Lifecycle.LastAddedIsOutermost | lib/sse-service-private-methods.js:126-134 | the most recently added middleware's `afterRegister` runs first, with the others after it in their previous order, and its `beforeRegister` runs last |
| Records.TruthyFields | packages/sse/lib/sse-service.js:159-166 | a field is kept exactly when JavaScript considers its value truthy |
| Records.EncodeTruthyFiltersFalsy | packages/sse/lib/sse-service.js:159-166 | the package's record is the lib record of the truthy fields only |
| Records.EncodeIsLines | lib/sse-service.js:130-137 | a record is its field lines, each ended by LF, followed by an empty line |
| Records.StepId | lib/sse-service.js:132 | reading the `id:` line sets the client's last-event-ID buffer, unless the value holds NUL |
| Records.StepEvent | lib/sse-service.js:133 | reading the `event:` line sets the event type |
| Records.StepData | lib/sse-service.js:134 | reading the `data:` line appends the JSON text and an LF to the data buffer |
| Records.StepRetry | lib/sse-service.js:135 | reading the `retry:` line sets the reconnection time to a non-negative value and ignores a negative one |
| Records.StepComment | lib/sse-service.js:136 | the comment line changes nothing |
| Records.ParseRecordLines | lib/sse-service.js:130-137 | interpreting an encoded record is dispatching after reading all of its fields |
| Records.ReceiveRecord | lib/sse-service.js:130-137 | the client dispatches exactly one event when `data` is set: its data is the JSON text, its type is `event` ("message" when absent or empty) and its ID comes from `id`. A non-negative `retry` becomes the reconnection time, and no partial record is left in the client's buffers |
| Records.RecordWithoutDataDispatchesNothing | lib/sse-service.js:134 | a record without `data` dispatches no event |
| Records.ReceiveTruthyRecord | packages/sse/lib/sse-service.js:159-166 | a package record dispatches only when `data` is truthy, and only a positive `retry` sets the reconnection time |
| Records.ReceiveReset | lib/sse-service.js:147-153 | `id\n\n` empties the client's last event ID and dispatches nothing |
| Records.ReceiveComment | lib/sse-service.js:136 | a comment record dispatches nothing and only re-confirms the last event ID |
| Records.HeartbeatRecords | lib/sse-service.js:27-29 | the lib heartbeat `{comment: ''}` encodes as the flushing comment `:\n\n`, and the package heartbeat as `:heartbeat\n\n` |
| Records.HelloWorldJson | test/sse-service.test.js:177-179 | `{hello: 'world'}` stringifies to `{"hello":"world"}` |
| Records.FullExampleData | test/sse-service.test.js:179 | the test payload's data line is `data:{"hello":"world"}` |
| Records.FullExampleRetry | test/sse-service.test.js:179 | the test payload's retry line is `retry:100` |
| Records.FullRecordExample | test/sse-service.test.js:176-179 | the record for the full test payload is exactly the expected `id`, `event`, `data`, `retry`, comment, blank-line text |
| Json.NatToString | lib/sse-service.js:135 | the decimal text of a natural is non-empty, all digits and without a leading zero |
| Json.IntToString | lib/sse-service.js:135 | `String(n)` is non-empty and all digits exactly when `n` is non-negative |
| Json.DecimalRoundTrip | lib/sse-service.js:135 | reading the digits of `n` back gives `n` |
| Json.EscapeChar | lib/sse-service.js:134 | an escaped code unit never contains CR or LF |
| Json.EscapeAll | lib/sse-service.js:134 | an escaped string never contains CR or LF |
| Json.StringifyNoLineBreak | lib/sse-service.js:134 | JSON text never contains a line break, so `data:` followed by JSON is one line |
| Json.StringifyStart | lib/sse-service.js:134 | JSON text is never empty and never starts with a space, so the client strips nothing from it |
| Json.StringifySingleMember | lib/sse-service-private-methods.js:187-191 | an object with one member stringifies as `{"key":value}` |
| EventSourcePolyfill.JoinEmptySpaces | lib/middlewares/event-source-polyfill.js:2 | joining `n` empty slots with a space gives `n - 1` spaces |
| EventSourcePolyfill.PaddingIsSpaces | lib/middlewares/event-source-polyfill.js:2 | the padding is exactly 2048 spaces |
| EventSourcePolyfill.QueryLastEventId | lib/middlewares/event-source-polyfill.js:7-10 | the query parameter is used exactly when `lastEventId` is present with a single string value |
| EventSourcePolyfill.CopyLastEventIdEffect | lib/middlewares/event-source-polyfill.js:8-11 | the header is added exactly when it is missing and the query has a string; existing headers are never overwritten and no other header changes |
| EventSourcePolyfill.PolyfilledLastEventId | lib/middlewares/event-source-polyfill.js:8-11 | the ID then records the client's header if sent, else the query value, else nothing |
| EventSourcePolyfill.BeforeRegister | lib/middlewares/event-source-polyfill.js:6-13 | the hook never fails and leaves the copied headers |
| EventSourcePolyfill.CopyIntoRequest | lib/middlewares/event-source-polyfill.js:6-13 | rewriting `req.headers` in place gives the same headers and no error |
| EventSourcePolyfill.AfterRegister | lib/middlewares/event-source-polyfill.js:14-16 | after registration the hook sends the `{comment: padding}` payload with `next` as the callback |
| EventSourcePolyfill.PaddingRecord | lib/middlewares/event-source-polyfill.js:15 | the padding goes out as one comment line and a blank line |
| EventSourcePolyfill.PaddingIsIgnored | lib/middlewares/event-source-polyfill.js:15 | a client reading the padding dispatches nothing and keeps its buffers |
| EventSourcePolyfill.PolyfillRunsLastBeforeFirstAfter | lib/middlewares/event-source-polyfill.js:6-16 | added last, its `beforeRegister` runs after all others and only if none failed; its `afterRegister` runs before all others |
| EventSourcePolyfill.PolyfillAlone | lib/middlewares/event-source-polyfill.js:6-16 | on its own it copies the header, then writes the padding message; the chain fails only when that write does |
| EventSourcePolyfill.PolyfillFirstBreaksChainAsWritten | lib/middlewares/event-source-polyfill.js:14-16 | as written, the polyfill added after a middleware with an `afterRegister` hook makes that hook's `next` the number `1`, so the chain throws or stalls |
| TestLock.AcquireEffect | test/sse/utils/lock.js:8-20 | acquiring leaves the lock taken; a free lock schedules the callback, a taken one queues it without scheduling; waiters only exist on a taken lock |
| TestLock.ReleaseEffect | test/sse/utils/lock.js:22-35 | releasing a free lock does nothing; a taken lock with no waiters becomes free; otherwise the first waiter is scheduled and the lock stays taken |
| TestLock.AcquireAllQueues | test/sse/utils/lock.js:14-15 | on a taken lock every acquirer queues behind the existing waiters and nothing is scheduled |
| TestLock.ReleaseHandsOff | test/sse/utils/lock.js:28-34 | each release hands the lock to the next waiter in queue order |
| TestLock.FifoHandOff | test/sse/utils/lock.js:8-35 | first come, first served: the holder is scheduled at once, later callers once each per release in request order, and the release after the last of them frees the lock |
| TestLock.LockTable.constructor | test/sse/utils/lock.js:1 | the table starts empty with nothing scheduled |
| TestLock.LockTable.Exec | test/sse/utils/lock.js:8-20 | `_execWithLockOnResource` creates the lock on first use and applies the acquire step to it, scheduling what that step schedules |
| TestLock.LockTable.Release | test/sse/utils/lock.js:22-35 | `_releaseLock` ignores an unknown ID and otherwise applies the release step |
| LibSseClient.OrUndefined | lib/sseclient.js:31-33 | `v \|\| undefined` keeps truthy values and turns falsy ones into `undefined` |
| LibSseClient.LoneValueIsData | lib/sseclient.js:44-47 | a single non-object argument is the data, even when falsy, and there is no event |
| LibSseClient.PositionalArguments | lib/sseclient.js:30-35 | positional arguments give event, data and id with falsy ones dropped, and never a retry |
| LibSseClient.ObjectArgument | lib/sseclient.js:37-42 | an object first argument supplies all four fields, falsy ones dropped, whatever else is passed |
| LibSseClient.LfIndex | lib/sseclient.js:54 | finds the first LF, with no LF before it |
| LibSseClient.SplitLf | lib/sseclient.js:54 | `split(/\n/)` always yields at least one piece |
| LibSseClient.DataChunks | lib/sseclient.js:56-60 | one `data: ` chunk per line, the last one ending the record with a blank line |
| LibSseClient.WriteAllOutput | lib/sseclient.js:49-60 | on a writable response every chunk goes out in order and the response stays writable |
| LibSseClient.SSEClient.constructor | lib/sseclient.js:6-8 | the client holds its request and response and has emitted nothing |
| LibSseClient.SSEClient.OnResponseClose | lib/sseclient.js:10-12 | the response's `close` is re-emitted by the client |
| LibSseClient.SSEClient.Initialize | lib/sseclient.js:17-25 | status 200 with the three event-stream headers, then `:ok\n\n`; `writeHead` throws once headers are sent, and nothing is written then |
| LibSseClient.SSEClient.Close | lib/sseclient.js:63-65 | the response is ended |
| LibSseClient.SSEClient.Put | lib/sseclient.js:49-51 | one `res.write`; a failed write is not reported |
| LibSseClient.SSEClient.PutDataLines | lib/sseclient.js:56-60 | the loop writes exactly the data chunks, in order |
| LibSseClient.ReadArgs | lib/sseclient.js:30-47 | the argument handling yields exactly the fields the argument rules give: positional, from an object, a lone value as data, or the `null` read error |
| LibSseClient.SSEClient.PutHeaders | lib/sseclient.js:49-51 | writes exactly the `event`, `retry`, `id` lines of the truthy fields, in that order |
| LibSseClient.SSEClient.Send | lib/sseclient.js:27-61 | writes exactly the chunks the argument rules and the data normalisation call for, and throws what they throw, keeping the header lines already written |
| LibSseClient.NoArgumentsNoOutput | lib/sseclient.js:28 | `send()` with no arguments writes and throws nothing |
| LibSseClient.NormalisedHasNoCr | lib/sseclient.js:53 | after normalisation no CR remains |
| LibSseClient.NormaliseKeepsLfText | lib/sseclient.js:53 | text without CR is left as it is |
| LibSseClient.NormaliseIdempotent | lib/sseclient.js:53 | normalising twice is normalising once |
| LibSseClient.SplitLfJoin | lib/sseclient.js:54 | the pieces, each followed by LF, rebuild the text plus one LF |
| LibSseClient.SplitLfCount | lib/sseclient.js:54 | there is one more piece than the text has LFs |
| LibSseClient.SplitLfChars | lib/sseclient.js:54 | no piece contains LF, and pieces contain only characters of the text |
| LibSseClient.DataLinesOfText | lib/sseclient.js:53-54 | the normalised data yields one line per LF plus one, none holding a line break, and together they rebuild the text |
| LibSseClient.HeaderChunksAreLines | lib/sseclient.js:49-51 | the header chunks spell the `event`, `retry`, `id` lines of the truthy fields |
| LibSseClient.DataChunksAreLines | lib/sseclient.js:56-60 | the data chunks spell the `data: ` lines followed by the blank line |
| LibSseClient.RecordOnWire | lib/sseclient.js:49-60 | what `send` writes is exactly one record: header lines, data lines, blank line |
| LibSseClient.ParseDataLines | lib/sseclient.js:56-60 | reading the `data: ` lines appends each piece and an LF to the client's data buffer |
| LibSseClient.HeaderEvent | lib/sseclient.js:49 | the `event: ` line sets the event type to the field's text |
| LibSseClient.HeaderRetry | lib/sseclient.js:50 | the `retry: ` line changes only the reconnection time, which a positive number sets |
| LibSseClient.HeaderId | lib/sseclient.js:51 | the `id: ` line sets the last-event-ID buffer unless it holds NUL |
| LibSseClient.ParseHeaders | lib/sseclient.js:49-51 | after the header lines the type and ID buffers are set, nothing is dispatched and no data is buffered |
| LibSseClient.ParseRecord | lib/sseclient.js:49-60 | the record's lines are read as headers, then data, then the dispatching blank line |
| LibSseClient.ReceiveText | lib/sseclient.js:49-60 | header lines plus the data lines of a CR-free text dispatch exactly one event carrying that text |
| LibSseClient.ReceiveSend | lib/sseclient.js:27-61 | a client receiving one `send` dispatches exactly one event. Its data is the text with line breaks normalised, its type is `event` ("message" without one) and its last event ID comes from `id`. A positive numeric `retry` sets the reconnection time |
| FanOut.ActionError | lib/sse-service-private-methods.js:144-156 | a write fails exactly on a response that is not writable; unregistering fails only when `end` fails on a response neither finished nor destroyed |
| FanOut.Expected | lib/sse-service-private-methods.js:83-86 | the callback gets the first error in map order, else the number of connections targeted |
| FanOut.Perform | lib/sse-service-private-methods.js:144-156 | a write or unregistration of one response reports that action's error and leaves the response in the action's resulting state, its locals and back-link untouched; a finished or destroyed response is not ended again |
| FanOut.PerformAll | lib/sse-service-private-methods.js:77-86 | `async.parallel` starts every task in order, each response gets the action's effect, and the first error is reported |
| LibService.FilterMembers | lib/sse-service-private-methods.js:77-82 | the selection holds exactly the active IDs the target accepts |
| LibService.FilterDistinct | lib/sse-service-private-methods.js:77-82 | the selection never lists a connection twice |
| LibService.FilterOne | lib/sse-service-private-methods.js:53-63 | a single ID selects itself if it is active and nothing otherwise |
| LibService.FilterEveryone | lib/sse-service-private-methods.js:79 | `null` selects every connection, in map order |
| LibService.Report | lib/sse-service-private-methods.js:83-86 | the caller's callback is called once with the error or the count; calling the default `() => null` is not recorded |
| LibService.Outgoing | lib/sse-service.js:120-138 | the message is the transformed payload's; when a transform throws, it is the untransformed payload's |
| LibService.TransformFailure | lib/sse-service.js:121-125 | a throwing transform leads to one early `cb(e)`, and only when `cb` is a function |
| LibService.SendWithoutTransforms | lib/sse-service.js:121-128 | without `transformSend` hooks the message is the payload's own and no early call happens |
| LibService.SendAppliesLaterTransformLast | lib/sse-service.js:121-122 | a later middleware's transform decides the message from what the earlier ones left |
| LibService.SetupOnFreshResponse | lib/sse-service-private-methods.js:211-250 | on a fresh response, setup sends status 200 with the transformed headers and exactly one flushing comment, with no error |
| LibService.SetupSendsSseHeaders | lib/sse-service-private-methods.js:213-218 | without header transforms the SSE headers themselves are sent |
| LibService.SetupFailureEnds | lib/sse-service-private-methods.js:219-233 | a failed setup is named `setupHTTPResponseError`. A throwing header transform on a response whose headers are not out ends the response. When the headers are already out the response is left as it was and the throw of the second `writeHead(500)` escapes; nothing escapes otherwise |
| LibService.AfterWaterfallSends | lib/sse-service-private-methods.js:121-135 | on a writable response, `afterRegister` hooks that do not fail run to the end, and the connection receives exactly their messages in order |
| LibService.AfterWaterfallStops | lib/sse-service-private-methods.js:131-134 | a hook that passes an error stops the chain with nothing more written |
| LibService.Announce | lib/sse-service.js:86-89 | `connection` is emitted for the new ID exactly when the `afterRegister` chain succeeded, else the wrapped error |
| LibService.AfterWaterfallAsWrittenAgrees | lib/sse-service-private-methods.js:121-135 | when no sending hook is followed by another hook, the `afterRegister` waterfall as written ends exactly as the corrected one |
| LibService.SendFollowedByHookCrashes | lib/sse-service-private-methods.js:127-129 | a sending hook followed by a hook calling `next()`: the corrected chain completes, the one as written throws a TypeError once the first message is out |
| LibService.TwoSendsStall | lib/sse-service-private-methods.js:58-61 | two sending hooks: the corrected chain writes both messages and completes; as written both go out and the chain never calls back |
| LibService.BeforeDone | lib/sse-service.js:94-97 | the `beforeRegister` callback goes on exactly when there is no error, else it emits the error wrapped as a `beforeRegister` failure; it never throws |
| LibService.NoSetupAsWritten | lib/sse-service.js:5 | as written the `beforeRegister` callback never goes on: where the corrected one proceeds, it throws a TypeError, and it agrees on errors |
| LibService.ResponseReady | lib/sse-service.js:83-85 | the setup callback goes on exactly when there is no error, else it emits the error wrapped as a registration failure; it never throws |
| LibService.SetupErrorLostAsWritten | lib/sse-service.js:84 | as written a setup error is never emitted: the callback throws a ReferenceError instead, and it agrees when there is no error |
| LibService.ForeignIdRejected | lib/sse-service.js:20-21 | an ID minted by a service is foreign to any service with another secret: `isConnectionActive` throws the assertion error for it, and as a target it selects every connection rather than itself |
| LibService.SSEService.constructor | lib/sse-service.js:16-37 | a new service owns an ID class with its secret, has no connections or middlewares, accepts connections and runs the 15-second heartbeat |
| LibService.SSEService.GetSSEIdFromResponse | lib/sse-service-private-methods.js:163-167 | the back-link is returned exactly when it is an ID of this service, else null |
| LibService.SSEService.BackLink | lib/sse-service-private-methods.js:276-277 | an active connection's response leads back to its own ID and belongs to no other active ID |
| LibService.SSEService.Delete | lib/sse-service-private-methods.js:147 | the ID leaves the map and its insertion order; nothing else changes |
| LibService.SSEService.Finish | lib/sse-service-private-methods.js:145-149 | the `finish` callback deletes exactly the ID whose response ended |
| LibService.SSEService.Forget | lib/sse-service-private-methods.js:145-149 | the `finish` callbacks of a selection remove exactly those IDs |
| LibService.SSEService.Collect | lib/sse-service-private-methods.js:77-82 | the loop collects, in map order, exactly the connections the target selects |
| LibService.SSEService.DistinctResponses | lib/sse-service-private-methods.js:276-277 | distinct active IDs have distinct responses, so acting on a selection touches no other connection |
| LibService.SSEService.ApplyToActive | lib/sse-service-private-methods.js:58-61 | `fn` on an active ID's response has the action's effect and error, and unregistration removes the ID |
| LibService.SSEService.ApplyToOne | lib/sse-service-private-methods.js:53-63 | an inactive ID answers `cb(null, 0)` and changes nothing; an active one is acted on and answers its error or 1 |
| LibService.SSEService.Broadcast | lib/sse-service-private-methods.js:83-86 | every selected response gets the action, others are untouched, and the first error is reported |
| LibService.SSEService.BroadcastSelected | lib/sse-service-private-methods.js:77-86 | collects the selection, then acts on it |
| LibService.SSEService.WriteToSelection | lib/sse-service-private-methods.js:76-86 | a write to the selected connections gives the first error or their number |
| LibService.SSEService.EndSelection | lib/sse-service-private-methods.js:76-86 | ends the selected connections and removes them from the map, answering the first error or their number |
| LibService.SSEService.ApplyResolved | lib/sse-service-private-methods.js:53-86 | for every normalised target: the answer and the new state of the fan-out |
| LibService.SSEService.Resolve | lib/sse-service-private-methods.js:44-49 | one of this service's IDs survives as itself, a distinct predicate as a predicate, anything else as every connection |
| LibService.SSEService.ApplyForTarget | lib/sse-service-private-methods.js:42-87 | the action runs on exactly the connections the target selects; calls already queued run first, then the callback gets the first error or the count |
| LibService.SSEService.Unregister | lib/sse-service.js:101-103 | every selected connection is ended and leaves the map; an own ID is inactive afterwards |
| LibService.SSEService.UnregisterAll | lib/sse-service.js:112 | `unregister(null, cb)` ends every response and empties the map |
| LibService.SSEService.Close | lib/sse-service.js:108-113 | refuses new connections, stops the heartbeat, ends every connection and empties the map |
| LibService.SSEService.SendAsWritten | lib/sse-service.js:120-128 | as written `send` throws the TypeError of the missing `assert.isObjectOrString` after the transforms; only the early callback of a throwing transform is recorded, and no connection or other state changes |
| LibService.SSEService.Send | lib/sse-service.js:120-141 | the transformed payload's message (the original one if a transform threw) is written to exactly the selected connections, with the early error call before the callback |
| LibService.SSEService.ResetEventId | lib/sse-service.js:147-153 | `id\n\n` is written to exactly the selected connections |
| LibService.SSEService.HeartbeatTick | lib/sse-service.js:27-29 | each tick sends the `{comment: ''}` message to every connection, with no callback recorded |
| LibService.SSEService.IsConnectionActive | lib/sse-service.js:53-56 | throws for anything but an ID of this service, else tells whether it is in the map |
| LibService.SSEService.NumActiveConnections | lib/sse-service.js:45-47 | the number of active connections is the map's size |
| LibService.SSEService.NumActiveIsOrderLength | lib/sse-service.js:45-47 | that number is also the length of the insertion order: one entry per connection |
| LibService.SSEService.Use | lib/sse-service.js:62-66 | appends the middlewares in order, returns the service and changes nothing else |
| LibService.SSEService.OnResponseClose | lib/sse-service-private-methods.js:270-272 | a closed response unregisters its ID, which is then inactive, and `clientClose` is emitted |
| LibService.SSEService.OnResponseFinish | lib/sse-service-private-methods.js:273 | a finished response unregisters its ID with no callback |
| LibService.SSEService.VerifyRequest | lib/sse-service-private-methods.js:177-204 | throws exactly when headers are sent; answers 400 with the JSON error unless the client accepts an event stream; only ends the response while connections are refused; otherwise admits it exactly when it is not registered yet |
| LibService.SSEService.RunBeforeRegister | lib/sse-service.js:94-95 | the loop leaves the headers and error of the `beforeRegister` waterfall |
| LibService.SSEService.SetupHTTPResponse | lib/sse-service-private-methods.js:211-250 | leaves the response, the callback's error and the escaping throw that the setup description gives |
| LibService.SSEService.UnlinkedIsInactive | lib/sse-service-private-methods.js:202-203 | a response that does not link back to an ID of this service belongs to no active connection |
| LibService.SSEService.SetupSSE | lib/sse-service-private-methods.js:259-280 | gives the response `locals` if missing, mints a fresh ID for it with its last event ID, and records it in the map and on the response |
| LibService.SSEService.RunAfterStep | lib/sse-service-private-methods.js:127-129 | a hook calling `next(err)` passes `err` and writes nothing; a sending hook writes the message `send` would write and passes the transform's error, else the write's |
| LibService.SSEService.RunAfterRegister | lib/sse-service.js:86-87 | the loop leaves the response and error of the `afterRegister` waterfall |
| LibService.SSEService.Establish | lib/sse-service.js:85-89 | the new connection is recorded, the `afterRegister` chain runs on it, and its error or `connection` is emitted |
| LibService.SSEService.Connect | lib/sse-service.js:83-90 | a failed setup emits the wrapped error and registers nothing; otherwise the connection is established. What the setup throws is passed on |
| LibService.SSEService.Admit | lib/sse-service.js:93-98 | a `beforeRegister` error is emitted and nothing is registered; otherwise the response is set up and connected. The setup's `writeHead` throw escapes exactly when the `beforeRegister` chain succeeded on a response whose headers were already out |
| LibService.SSEService.Register | lib/sse-service.js:72-99 | throws exactly when headers are sent; a turned-away request gets its answer and nothing else changes; an admitted one is registered as described |
| PackageService.Answered | packages/sse/lib/sse-service.js:202-215 | an inactive ID gets no answer; an active one gets its error; `async.parallel` gives the first error or the number of results |
| PackageService.Report | packages/sse/lib/sse-service.js:193 | the callback is called once with the answer, unless it is the default or no answer comes |
| PackageService.LocalsLastEventId | packages/sse/lib/sse-service.js:248-249 | `sse.lastEventId` is set exactly when the header is present and non-empty |
| PackageService.InitialHeartbeatIsHeartbeatRecord | packages/sse/lib/sse-service.js:100 | the flushing comment is the heartbeat record, and a client reads it as no event |
| PackageService.WriteSSELocals | packages/sse/lib/sse-service.js:244-262 | gives the response `locals` if missing, then defines `locals.sse` with the ID and last event ID; throws exactly when `sse` is already defined |
| PackageService.Filter | packages/sse/lib/sse-service.js:209-214 | only active connections are selected |
| PackageService.FilterMembers | packages/sse/lib/sse-service.js:209-214 | the selection holds exactly the active IDs the target accepts |
| PackageService.FilterDistinct | packages/sse/lib/sse-service.js:209-214 | the selection never lists a connection twice |
| PackageService.FilterOne | packages/sse/lib/sse-service.js:202-206 | one ID selects itself if it is active and nothing otherwise |
| PackageService.FilterEveryone | packages/sse/lib/sse-service.js:211 | `null` selects every connection, in map order |
| PackageService.SSEID.constructor | packages/sse/lib/sse-id.js:5-11 | an ID built with the service's secret belongs to that service |
| PackageService.SSEService.constructor | packages/sse/lib/sse-service.js:22-37 | a new service has no connections, accepts connections and runs the 15-second heartbeat |
| PackageService.SSEService.Mint | packages/sse/lib/sse-id.js:5-11 | only the service's own secret yields an ID, which is fresh and not active; another secret gives the assertion error |
| PackageService.SSEService.GetSSEIdFromResponse | packages/sse/lib/sse-service.js:270-275 | `res.locals.sse.sseId` is returned exactly when it is an ID of this service |
| PackageService.SSEService.BackLink | packages/sse/lib/sse-service.js:270-275 | an active connection's response leads back to its own ID and belongs to no other active ID |
| PackageService.SSEService.UnlinkedIsInactive | packages/sse/lib/sse-service.js:71-74 | a response not linked to an ID of this service belongs to no active connection and shares its locals with none |
| PackageService.SSEService.ActiveIffListed | packages/sse/lib/sse-id.js:20-22 | the `isConnectionActive` getter holds exactly for IDs in the map's insertion order |
| PackageService.SSEService.NumActiveConnections | packages/sse/lib/sse-service.js:43-45 | the number of active connections is the map's size |
| PackageService.SSEService.EveryResponseListed | packages/sse/lib/sse-service.js:210-211 | `null` selects every connection, and every active response is among them |
| PackageService.SSEService.NumActiveIsOrderLength | packages/sse/lib/sse-service.js:43-45 | that number is also the length of the insertion order |
| PackageService.SSEService.Delete | packages/sse/lib/sse-service.js:119 | the ID leaves the map and its order; nothing else changes |
| PackageService.SSEService.Finish | packages/sse/lib/sse-service.js:117-121 | the `finish` callback deletes exactly the ID the ended response links to |
| PackageService.SSEService.Forget | packages/sse/lib/sse-service.js:117-121 | the `finish` callbacks of a selection remove exactly those IDs |
| PackageService.SSEService.DistinctResponses | packages/sse/lib/sse-service.js:250-261 | distinct active IDs have distinct responses, so acting on a selection touches no other connection |
| PackageService.SSEService.ApplyToActive | packages/sse/lib/sse-service.js:204 | `fn` on an active ID's response has the action's effect and error, and unregistration removes the ID |
| PackageService.SSEService.ApplyToOne | packages/sse/lib/sse-service.js:202-206 | an inactive ID is ignored with no callback at all; an active one is acted on and its error passed on |
| PackageService.SSEService.Broadcast | packages/sse/lib/sse-service.js:215 | every selected response gets the action, the others are untouched, and the first error is reported |
| PackageService.SSEService.BroadcastSelected | packages/sse/lib/sse-service.js:208-215 | the loop selects exactly the target's connections in map order, then acts on them |
| PackageService.SSEService.WriteToSelection | packages/sse/lib/sse-service.js:208-215 | a write to the selection gives the `async.parallel` answer |
| PackageService.SSEService.EndSelection | packages/sse/lib/sse-service.js:208-215 | ends the selected connections and removes them from the map |
| PackageService.SSEService.ApplyResolved | packages/sse/lib/sse-service.js:200-216 | for every normalised target: the answer and the new state of the fan-out |
| PackageService.SSEService.Resolve | packages/sse/lib/sse-service.js:193-198 | an ID of this service survives as itself, a distinct predicate as a predicate, anything else as every connection |
| PackageService.SSEService.ApplyForTarget | packages/sse/lib/sse-service.js:191-216 | the action runs on exactly the selected connections, then the callback hears the answer, unless the target is an inactive ID |
| PackageService.SSEService.Unregister | packages/sse/lib/sse-service.js:113-131 | every selected connection is ended and leaves the map |
| PackageService.SSEService.UnregisterAll | packages/sse/lib/sse-service.js:140 | every response is ended and the map emptied |
| PackageService.SSEService.Close | packages/sse/lib/sse-service.js:136-141 | refuses new connections, stops the heartbeat, ends every connection and empties the map |
| PackageService.SSEService.Send | packages/sse/lib/sse-service.js:153-174 | a non-object throws and changes nothing; an object's truthy fields go out as one record to exactly the selected connections |
| PackageService.SSEService.ResetEventId | packages/sse/lib/sse-service.js:180-186 | `id\n\n` is written to exactly the selected connections |
| PackageService.SSEService.HeartbeatTick | packages/sse/lib/sse-service.js:31-33 | each tick writes `:heartbeat\n\n` to every connection and changes nothing else |
| PackageService.SSEService.OnResponseClose | packages/sse/lib/sse-service.js:82-86 | a closed response unregisters its ID; `clientClose` with the locals is emitted only if the ID was still active |
| PackageService.SSEService.OnResponseFinish | packages/sse/lib/sse-service.js:87 | a finished response unregisters its ID with no callback |
| PackageService.SSEService.Establish | packages/sse/lib/sse-service.js:100-110 | the flushing heartbeat is written; only when that succeeds is the connection added and `connection` emitted, otherwise the wrapped write error is emitted |
| PackageService.SSEService.FailRegistration | packages/sse/lib/sse-service.js:88-96 | the `catch` emits the wrapped error and answers 500 |
| PackageService.SSEService.Admit | packages/sse/lib/sse-service.js:76-110 | an already defined `locals.sse` makes registration fail with a 500. Otherwise the response gets a fresh own ID in `locals.sse`, status 200 with the SSE headers and the heartbeat, and becomes active exactly when that write succeeds |
| PackageService.SSEService.Register | packages/sse/lib/sse-service.js:51-111 | refused connections get 204 and invalid requests their status with a JSON body. A response already registered is left alone, and any other is admitted. `writeHead` throws out of `register` exactly when headers are already sent |

## Specification functions

These functions only compute, so what they mean is stated by the members that use them. Each entry gives the function, the source it describes, and the rows above that characterise it.

- `Utils.ComposeDownstream` (lib/utils/index.js:6): `Utils.ComposeAppend`, `Utils.ComposeLeftmostFirst`, `Utils.ComposeNonThrowing`. `Utils.ApplyInOrder` is the plain left-to-right application that `ComposeNonThrowing` compares it with.
- `Records.Encode` and `Records.Message` (lib/sse-service.js:129-138): `Records.EncodeIsLines`, `Records.ParseRecordLines`, `Records.ReceiveRecord`, `LibService.Outgoing`.
- `Records.EncodeTruthy` (packages/sse/lib/sse-service.js:159-166): `Records.EncodeTruthyFiltersFalsy`, `Records.ReceiveTruthyRecord`, `PackageService.SSEService.Send`.
- `Lifecycle.TransformHeaders` and `Lifecycle.TransformPayload` (lib/sse-service-private-methods.js:97-108): `Lifecycle.LaterTransformRunsLast`, `Lifecycle.NoTransformIsIdentity`, `LibService.SetupFailureEnds`, `LibService.TransformFailure`.
- `Lifecycle.BeforeWaterfall` and `Lifecycle.AfterChain` (lib/sse-service-private-methods.js:121-135): `Lifecycle.BeforeWaterfallAppend`, `Lifecycle.LaterBeforeHookWins`, `Lifecycle.LastAddedIsOutermost`, `LibService.SSEService.RunBeforeRegister`.
- `LibService.SetupResponse` (lib/sse-service-private-methods.js:211-250): `LibService.SetupOnFreshResponse`, `LibService.SetupSendsSseHeaders`, `LibService.SetupFailureEnds`, `LibService.SSEService.SetupHTTPResponse`.
- `LibService.AfterStepOn` and `LibService.AfterWaterfall` (lib/sse-service-private-methods.js:121-135, corrected as under "## Findings"): `LibService.AfterWaterfallSends`, `LibService.AfterWaterfallStops`, `LibService.SSEService.RunAfterRegister`.
- `LibService.AfterWaterfallAsWritten` (lib/sse-service-private-methods.js:121-135 as written): `LibService.AfterWaterfallAsWrittenAgrees`, `LibService.SendFollowedByHookCrashes`, `LibService.TwoSendsStall`, `EventSourcePolyfill.PolyfillFirstBreaksChainAsWritten`.
- `LibService.BeforeDoneAsWritten` (lib/sse-service.js:94-97) and `LibService.ResponseReadyAsWritten` (lib/sse-service.js:83-85): `LibService.NoSetupAsWritten`, `LibService.SetupErrorLostAsWritten`.
- `LibService.Filter`, `LibService.Selects` and `LibService.SSEService.Selected` (lib/sse-service-private-methods.js:77-82): `LibService.FilterMembers`, `LibService.FilterDistinct`, `LibService.FilterOne`, `LibService.FilterEveryone`, `LibService.SSEService.Collect`.
- `PackageService.Selects` and `PackageService.SSEService.Selected` (packages/sse/lib/sse-service.js:209-214): `PackageService.Filter`, `PackageService.FilterMembers`, `PackageService.FilterOne`, `PackageService.FilterEveryone`, `PackageService.SSEService.BroadcastSelected`.
- `LibService.SSEService.Registered` (lib/sse-service.js:72-99): the state a registration leads to, promised by `LibService.SSEService.Admit` and `LibService.SSEService.Register`.
- `FanOut.FirstError` (lib/sse-service-private-methods.js:83-86): `FanOut.Expected`, `FanOut.PerformAll`, the `Broadcast` rows of both services.
- `LibSseClient.Prepare`, `LibSseClient.HeaderChunks`, `LibSseClient.DataText`, `LibSseClient.NormaliseBreaks` and `LibSseClient.Writes` (lib/sseclient.js:27-61): `LibSseClient.PositionalArguments`, `LibSseClient.ObjectArgument`, `LibSseClient.HeaderChunksAreLines`, `LibSseClient.NormaliseIdempotent`, `LibSseClient.NormalisedHasNoCr`, `LibSseClient.NoArgumentsNoOutput`, `LibSseClient.ReceiveSend`, `LibSseClient.SSEClient.Send`.
- The `Http` module is Node's response reduced to its `Wire` state, and the `EventStream` module is an independent reference: the event-stream parser of the WHATWG HTML standard (section 9.2.6, "Interpreting an event stream"), against which the `Receive…` rows state what a client makes of what the services write. Neither has a source row of its own.

## Left out

**Runtime facilities**

- Node's `http` module is reduced to the `Wire` state: socket buffering, header validation and `setNoDelay` (lib/sseclient.js:18) are absent.
- `EventEmitter` is reduced to the append-only `log`:
  - a listener that re-enters the service while an event is emitted is not modelled;
  - the `error` event with no listener attached, which Node throws, is not modelled.
- `uuidv4()` becomes a constructor parameter.
- `setInterval`/`clearInterval` become the `heartbeat` marker; one tick is the `HeartbeatTick` method.
- Time is not modelled.
- The WeakMap's collection of unreachable keys is not modelled; only its lookup semantics are.
- `assert.instanceOf` on requests, responses and IDs is enforced by Dafny's types, so its failure paths do not exist in the model.
- The wording of property-read errors follows V8 and is not checked against any source.
- Assertion messages use chai's form only roughly.
- Concurrency beyond sequential completion of each asynchronous step is not modelled:
  - partial results that `async.parallel` hands over together with an error;
  - interleavings of several requests.

**Constants and the code as written**

- `HEARTBEAT_INTERVAL` and `SSE_HTTP_RESPONSE_HEADERS` of the lib service come from lib/utils/constants.js, which is not part of this model. The values of packages/sse/lib/sse-service.js:12-19 are used.
- `isSet` comes from lib/utils/maybe.js, which is not part of this model. It is read as "present and not null".
- Four places crash or stall as written; they are listed under "## Findings". The members named below follow the corrected behaviour there:
  - LibService.SSEService.Register, LibService.SSEService.Admit: the `beforeRegister` callback calls `_setupHTTPResponse`, not the missing import of lib/sse-service.js:5.
  - LibService.SSEService.Connect: a failed setup emits the `err` it received, not the unbound `e` of lib/sse-service.js:84.
  - LibService.SSEService.Send, LibService.SSEService.HeartbeatTick: `send` accepts exactly the strings and objects a `SendPayload` can hold, without the missing `assert.isObjectOrString` of lib/sse-service.js:126.
  - LibService.SSEService.Establish, LibService.SSEService.RunAfterRegister, LibService.AfterWaterfallSends: an `afterRegister` hook's `next` is always the waterfall's continuation, not the `1` that a preceding send's `cb(null, 1)` hands on (lib/sse-service-private-methods.js:58-61 and 127-129).
- LibService.SSEService.Send: when a `transformSend` hook throws, the source calls `cb(e)` on the next tick without leaving `send`. The model writes the untransformed payload's message and then also calls the callback with the fan-out result, as the code does. A non-function `cb` would throw a TypeError on that tick; the model records no call for it.
- LibService.SSEService.RunAfterRegister: a hook that sends, whose `transformSend` throws, has `next` called twice: once with the error on the next tick and once with the write's result. `async` reports the second call as an error of its own; the model stops at the first.

**Payloads and arguments**

- LibService.SSEService.RunAfterRegister: an `afterRegister` hook is one of two shapes:
  - calling `next(err)`;
  - sending one payload to the new connection with `next` as the callback.

  Hooks that do other work, or call `next` twice, are not modelled.
- LibService.SSEService.RunBeforeRegister: a `beforeRegister` hook only rewrites the request headers and then calls `next` with or without an error. A hook that writes to or ends `res`, sends the headers, or never calls `next` is not modelled, so the setup is assumed to find the response as `_verifyRequest` left it.
- Records.Fields: JSON data is limited to null, booleans, integers, strings, arrays and objects. Floating-point numbers, `undefined` members and `toJSON` are left out. Object members are serialised in the order they are listed: the engine's placing of integer-like keys first, duplicate keys, and the exponent form of integers of 21 digits or more are not modelled.
- LibSseClient.Value: numbers are integers. A string `retry` that looks like a non-negative integer also sets the reconnection time in a browser; `HeaderRetry` only states the positive-number case.
- Records.ReceiveRecord and LibSseClient.ReceiveSend assume field values that stay on one line (the `Sendable` and `OneLine` conditions); `Sendable` also excludes an `id` or `event` that starts with a space, which a client would strip. Such values are written as the code writes them, but what a client makes of them is not stated.
- The array-target branch of lib/sse-service-private-methods.js:65-74 is unreachable, because the normalisation at 45-49 turns arrays into `null` (proved by `Targets.OnlyOwnIdsAndPredicatesSurvive`). It has no separate model.

**Package service specifics**

- PackageService.SSEService.Register: the 500 answer for sent headers in packages/sse/lib/sse-service.js:62-66 never reaches the wire, because `writeHead` throws first. The model returns that throw.
- The package SSEID's `sseService` getter (packages/sse/lib/sse-id.js:13-15) is its `service` field.
- The package's `emit('error', …)` for a failed registration, scheduled with `process.nextTick`, is appended to the log right away.

**Source files not part of this model**

- lib/sse.js, the example servers and the test suite other than the lock helper are not part of this model.

## Findings

| source | as written | input that shows it | evidently intended | confidence | as-written member | corrected member |
|---|---|---|---|---|---|---|
| lib/sse-service.js:5 | calls `setupHTTPResponse` imported from lib/utils/index.js, which does not export it, so the `beforeRegister` callback at line 96 throws a TypeError | any admitted request whose `beforeRegister` hooks all succeed, e.g. one with no middlewares | set up the response with the bound `_setupHTTPResponse` | not executed | LibService.NoSetupAsWritten | LibService.SSEService.Admit |
| lib/sse-service.js:84 | the setup callback passes the unbound `e` to `emitErr`, which throws a ReferenceError | a request on which `_setupHTTPResponse` fails, e.g. a `transformResponseHeaders` hook that throws | emit the `err` the callback received, wrapped as a registration failure | not executed | LibService.SetupErrorLostAsWritten | LibService.SSEService.Connect |
| lib/sse-service.js:126 | `send` calls `assert.isObjectOrString`, which lib/utils/assert.js does not define, so every `send`, the heartbeat's included, throws a TypeError and writes nothing | `send('hello')` with one active connection | accept a string or an object payload and write its message | not executed | LibService.SSEService.SendAsWritten | LibService.SSEService.Send |
| lib/sse-service-private-methods.js:127-129 | the waterfall hands a task's results to the next task ahead of its continuation, and the wrapper binds the first argument as `_cb`; a hook that sends with `next` ends in `cb(null, 1)` (lines 58-61), so the following hook gets `1` as its `next` | two middlewares, the later one a sender such as the EventSource polyfill and the earlier one calling `next()` in `afterRegister` | every hook receives the waterfall's continuation, so the chain completes and `connection` is emitted | not executed | LibService.SendFollowedByHookCrashes | LibService.AfterWaterfallSends |

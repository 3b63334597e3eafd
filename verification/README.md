# react-server-dev-tools, modelled in Dafny

This project models the core of react-server-dev-tools, a development aid for React server runtimes. It has two halves.

The **instrumentation** half runs inside the server process. It has three capture sources:

- a console interceptor;
- a `fetch` interceptor;
- an `http`/`https` request interceptor.

All three feed a `DataCollector`. The collector keeps two bounded histories (console entries and network requests) and two pause flags, and it emits a notification for every change. A WebSocket broadcast hub relays those notifications to connected observers, greets each new observer with a handshake, and accepts `clear` and `control` messages back. A runtime capture policy decides whether bodies are captured, how long they may be and which headers are redacted. A single-slot session registry starts and stops the whole thing.

The **observer UI** half holds a store that dispatches server messages into its lists, filters those lists for display (collapsing runs of duplicate log lines), and reconnects with capped exponential backoff.

Everything is modelled as immutable datatypes and pure functions. Each stateful component is a state record. Each transition returns the new state together with the notifications or messages it emits. Clocks, identifiers, stack traces and the outcome of network calls are parameters.

Files, one module each:

| file | module | models |
|---|---|---|
| common.dfy | `Common` | `Option`, `Last`, suffixes, `Filter`, `Map`, `Flatten` |
| text.dfy | `Text` | UTF-8 byte length, UTF-16 units, ASCII case mapping, trimming, joining, radix digits |
| types.dfy | `Types` | entries, requests, HTTP methods, the runtime policy, JSON values, protocol messages |
| circular_buffer.dfy | `CircularBuffer` | the bounded history |
| data_collector.dfy | `DataCollector` | the collector and its notifications |
| utils.dfy | `Utils` | `safeStringify`, `messageHash`, `truncate`, `normalizeMethod`, `redactRecord` |
| capture_policy.dfy | `CapturePolicy` | the runtime policy patch applied on a `control` message |
| console_interceptor.dfy | `ConsoleInterceptor` | console capture |
| fetch_interceptor.dfy | `FetchInterceptor` | `fetch` capture |
| http_interceptor.dfy | `HttpInterceptor` | `http.request`/`https.request` capture, as a stream of request and response events |
| websocket_server.dfy | `BroadcastHub` | clients, relays, handshake, inbound messages, close |
| session.dfy | `Session` | defaults, `initServerDevTools`, `shutdown` |
| store.dfy | `Store` | the UI store's reducers, `filterLogs`, `countCollapsed`, `filterNetwork` |
| use_websocket.dfy | `SocketClient` | the UI's message dispatch and reconnect backoff |
| agreement.dfy | `Agreement` | end to end: a live observer's store agrees with the collector |

Where the code and its documented behaviour disagree, the model follows the code:

- The truncation marker is `"... [truncated]"`, with a space after the dots.
- The marker is appended after a prefix that already fits the limit, so a truncated body can be longer than the limit. `Utils.TruncateCanExceedLimit` exhibits an instance.

## Model

| member | source | states |
|---|---|---|
| CircularBuffer.New | packages/instrumentation/src/circular-buffer.ts:5-8 | a new buffer is empty and its capacity is max(1, requested), so a capacity of 0 or less still holds one element |
| CircularBuffer.Push | packages/instrumentation/src/circular-buffer.ts:10-15 | below capacity the element is appended; at capacity exactly the oldest element is dropped first; the count never exceeds capacity; the contents are the last `maxSize` elements of old contents plus the new one |
| CircularBuffer.PushAllWindow | packages/instrumentation/src/circular-buffer.ts:10-15 | pushing a sequence keeps the buffer valid and leaves the last `maxSize` elements of old contents followed by the sequence |
| CircularBuffer.PushAllFromEmpty | packages/instrumentation/src/circular-buffer.ts:10-15 | pushing s into a fresh buffer of capacity n leaves the last min(\|s\|, max(1, n)) elements of s, in order |
| CircularBuffer.DropsOldestWhenFull | packages/instrumentation/test/circular-buffer.test.ts:7-14 | capacity 3 after pushing 1, 2, 3, 4 holds [2, 3, 4] |
| CircularBuffer.Clear | packages/instrumentation/src/circular-buffer.ts:17-19 | clearing leaves size 0 and the same capacity |
| CircularBuffer.ToArray | packages/instrumentation/src/circular-buffer.ts:21-23 | the snapshot of a valid buffer never holds more than the capacity |
| CircularBuffer.Size | packages/instrumentation/src/circular-buffer.ts:25-27 | the size is the length of the snapshot |
| DataCollector.New | packages/instrumentation/src/data-collector.ts:17-21 | a new collector has empty histories with the clamped capacities and neither channel paused |
| DataCollector.GetLogs | packages/instrumentation/src/data-collector.ts:53-55 | the log snapshot of a valid collector never exceeds the log capacity |
| DataCollector.GetRequests | packages/instrumentation/src/data-collector.ts:57-59 | the request snapshot of a valid collector never exceeds the request capacity |
| DataCollector.GetStatus | packages/instrumentation/src/data-collector.ts:71-76 | the status reports both pause flags as they stand |
| DataCollector.AddLog | packages/instrumentation/src/data-collector.ts:23-30 | paused: no change and no notification; otherwise exactly one `log` notification, the log window advances by the entry, and requests and flags are untouched |
| DataCollector.AddNetwork | packages/instrumentation/src/data-collector.ts:32-39 | the same as `addLog`, on the request history and the network flag |
| DataCollector.Clear | packages/instrumentation/src/data-collector.ts:41-51 | `logs` empties only logs, `network` only requests, `all` both, any other target neither; always one `clear` notification naming the target; flags unchanged |
| DataCollector.SetPaused | packages/instrumentation/src/data-collector.ts:61-69 | only the named flag changes and one `status` notification carries both current flags |
| DataCollector.Apply | packages/instrumentation/src/data-collector.ts:23-69 | every collector operation preserves the buffer invariant |
| DataCollector.PauseThenResume | packages/instrumentation/test/websocket-flow.test.ts:95-124 | an entry added while paused never reaches history or listeners; one added after resuming does |
| DataCollector.ClearIndependence | packages/instrumentation/src/data-collector.ts:41-51 | clearing one channel leaves the other channel's history alone |
| Utils.SafeStringify | packages/instrumentation/src/utils.ts:1-11 | a string argument is kept verbatim; any other value gives its `JSON.stringify` text or, when that throws, its `String` fallback; `undefined` stays undefined; the call throws only when the fallback throws too |
| Utils.RenderMessage | packages/instrumentation/src/console-interceptor.ts:15 | the message is absent exactly when some argument's stringification throws; otherwise it is every argument's text, `undefined` as the empty string, joined by single spaces |
| Utils.RenderMessageSnoc | packages/instrumentation/src/console-interceptor.ts:15 | one more non-throwing argument extends the message by a space and its text (or is the whole message when it is the first) |
| Utils.RenderThrowsAnywhere | packages/instrumentation/src/console-interceptor.ts:14-27 | one throwing argument anywhere in the list means no message, so no entry |
| Utils.HashStep | packages/instrumentation/src/utils.ts:16 | one step of the hash stays an unsigned 32-bit value |
| Utils.ToInt32 | packages/instrumentation/src/utils.ts:16 | JavaScript's conversion to a signed 32-bit value lands in [-2^31, 2^31) and keeps values already in [0, 2^31) |
| Utils.JsHashStep | packages/instrumentation/src/utils.ts:16 | one step of `(hash * 33) ^ code` on a signed 32-bit hash stays a signed 32-bit value |
| Utils.JsHashStepAgrees | packages/instrumentation/src/utils.ts:16-18 | read unsigned (`>>> 0`), the signed step equals the unsigned step on the unsigned reading of the hash |
| Utils.HashUnits | packages/instrumentation/src/utils.ts:13-17 | the hash of any UTF-16 unit sequence is below 2^32 |
| Utils.MessageHash | packages/instrumentation/src/utils.ts:13-19 | the result is the canonical base-36 numeral (no leading zero) whose value is the 32-bit hash of the input's UTF-16 units |
| Utils.MessageHashLoop | packages/instrumentation/src/utils.ts:13-19 | the loop as JavaScript runs it, with the hash kept as a signed 32-bit value by `^` and made unsigned by `>>> 0` only at the end, returns the same string as the unsigned definition |
| Utils.FitPrefix | packages/instrumentation/src/utils.ts:26-33 | the kept prefix fits the byte limit and no longer code-point prefix does |
| Utils.FitPrefixUnique | packages/instrumentation/src/utils.ts:26-33 | any prefix with those two properties is the one the loop keeps |
| Utils.Truncate | packages/instrumentation/src/utils.ts:21-36 | input within the limit is returned unchanged; otherwise the result is the longest fitting code-point prefix followed by the marker |
| Utils.TruncateCanExceedLimit | packages/instrumentation/src/utils.ts:35 | "abcd" truncated to 2 bytes is longer than 2 bytes, so there is no total bound |
| Utils.TruncateWithinLimit | packages/instrumentation/src/utils.ts:22-24 | truncating within the limit is idempotent |
| Utils.TruncateOfCutOff | packages/instrumentation/src/utils.ts:21-36 | truncating a prefix that stops only once it exceeds the limit gives the same result as truncating the whole string |
| Utils.NormalizeMethod | packages/instrumentation/src/utils.ts:46-73 | undefined or empty maps to GET; otherwise the result is a known method exactly when the upper-cased input is one of the seven, and it then names that method |
| Utils.MethodNameRoundTrip | packages/instrumentation/src/utils.ts:59-70 | normalising a method's own name gives the method back |
| Utils.NormalizeMethodIdempotent | packages/instrumentation/src/utils.ts:46-73 | normalising a normalised method changes nothing |
| Utils.NormalizeMethodIgnoresCase | packages/instrumentation/src/utils.ts:59 | lower-casing the input does not change the result |
| Utils.RedactRecord | packages/instrumentation/src/utils.ts:75-91 | an empty blocked list returns the record itself; otherwise the keys are the same, blocked keys (compared lower-cased) map to "[REDACTED]" and every other value is unchanged |
| Utils.RedactIdempotent | packages/instrumentation/src/utils.ts:75-91 | redacting twice equals redacting once |
| Utils.RedactIsCaseInsensitive | packages/instrumentation/src/utils.ts:83-87 | a header blocked under its upper- or lower-case spelling is redacted whatever its spelling in the record |
| CapturePolicy.NormalizeRedactList | packages/instrumentation/src/index.ts:67-71 | the result is exactly the normalised entries with blanks dropped, in the patch's order; it holds only trimmed, lower-cased, non-empty names, is no longer than the input, and contains the normalised form of every non-blank input entry |
| CapturePolicy.NormalizedNameFixed | packages/instrumentation/src/index.ts:69 | an already normalised name is unchanged by normalisation |
| CapturePolicy.NormalizeHeaderNameShape | packages/instrumentation/src/index.ts:69 | a non-empty normalised name is trimmed and lower-case |
| CapturePolicy.NormalizeRedactListFixed | packages/instrumentation/src/index.ts:67-71 | a list that is already normalised is returned unchanged |
| CapturePolicy.NormalizeRedactListIdempotent | packages/instrumentation/src/index.ts:67-71 | header-list normalisation is idempotent |
| CapturePolicy.Strings | packages/instrumentation/src/index.ts:68-69 | an array is read as strings exactly when every element is a string, and then element by element |
| CapturePolicy.ApplyPatch | packages/instrumentation/src/index.ts:57-72 | body flags change only for boolean patch values; a finite number becomes max(1000, floor(v)); a non-finite number is ignored; a header array of strings replaces the list with exactly its normalised form; an array with a non-string element throws after the earlier fields were applied and keeps the list |
| CapturePolicy.EmptyPatchKeepsPolicy | packages/instrumentation/src/index.ts:57-72 | a patch with no policy field leaves the policy unchanged and does not throw |
| CapturePolicy.PatchedLimitStaysAboveFloor | packages/instrumentation/src/index.ts:64-66 | once at least 1000, the body limit stays at least 1000 under any patch |
| CapturePolicy.ApplyPatchIdempotent | packages/instrumentation/src/index.ts:57-72 | applying the same patch twice equals applying it once |
| ConsoleInterceptor.WrappedLevel | packages/instrumentation/src/console-interceptor.ts:5 | a console method name is intercepted exactly when it is one of the five level names |
| ConsoleInterceptor.Install | packages/instrumentation/src/console-interceptor.ts:10-31 | installation wraps every level in the level list |
| ConsoleInterceptor.InstallWrapsEveryLevel | packages/instrumentation/src/console-interceptor.ts:10-31 | every log level is wrapped after installation |
| ConsoleInterceptor.Restore | packages/instrumentation/src/console-interceptor.ts:33-40 | after restore no level is wrapped |
| ConsoleInterceptor.Call | packages/instrumentation/src/console-interceptor.ts:13-30 | the original is always called with the original arguments; an entry is captured exactly when the level is wrapped and rendering succeeds; it carries the id, time, level, arguments and rendered message, a stack only for `error`, and the hash of "level:message" |
| ConsoleInterceptor.InfoCallIsCaptured | packages/instrumentation/test/console-interceptor.test.ts:8-18 | `info("hello", {...})` yields one entry at level info whose message contains "hello" and whose arguments serialise |
| ConsoleInterceptor.RenderStringThenValue | packages/instrumentation/src/console-interceptor.ts:15 | a string followed by a non-throwing value renders as the string, a space, and the value's text |
| ConsoleInterceptor.StringThenValueCaptured | packages/instrumentation/src/console-interceptor.ts:13-24 | a wrapped call with a string and a JSON-serialisable value captures one entry at that level with exactly that message, and the entry serialises |
| ConsoleInterceptor.RestoredCallsPassThrough | packages/instrumentation/src/console-interceptor.ts:33-40 | after restore a call captures nothing and forwards its arguments |
| FetchInterceptor.Install | packages/instrumentation/src/fetch-interceptor.ts:13-17 | `fetch` is patched exactly when a global `fetch` exists |
| FetchInterceptor.Restore | packages/instrumentation/src/fetch-interceptor.ts:108-110 | after restore `fetch` is no longer patched |
| FetchInterceptor.RecordedUrl | packages/instrumentation/src/fetch-interceptor.ts:26-31 | the URL is the string input, the URL's text, or the Request's url |
| FetchInterceptor.MethodText | packages/instrumentation/src/fetch-interceptor.ts:32-34 | the init method wins over the Request's method, which wins over nothing |
| FetchInterceptor.HeaderSource | packages/instrumentation/src/fetch-interceptor.ts:36-39 | the init headers win over the Request's headers; with neither, the map is empty |
| FetchInterceptor.RequestBody | packages/instrumentation/src/fetch-interceptor.ts:46-49 | a request body is recorded exactly when capture is on and `init.body` is defined, and it is truncated |
| FetchInterceptor.ResponseBody | packages/instrumentation/src/fetch-interceptor.ts:60-67 | a response body is recorded exactly when response capture is on as the response settles: the text truncated under the limit read after `text()` resolves, or "[Unable to read response body]" if reading fails |
| FetchInterceptor.Call | packages/instrumentation/src/fetch-interceptor.ts:19-106 | the request side is the same on both paths and uses the policy read on entry; success records status, statusText, headers redacted under the policy read after the fetch settled, and the body, and returns the response; failure records status 0, "Failed", empty headers and the message, and rethrows the same error |
| FetchInterceptor.BlockedHeadersNeverRecorded | packages/instrumentation/src/fetch-interceptor.ts:41-58 | a header blocked by the policy in force when its side was recorded appears only as "[REDACTED]", in request and response alike |
| FetchInterceptor.RequestSideIndependentOfOutcome | packages/instrumentation/src/fetch-interceptor.ts:20-49 | the request side of the record depends only on the policy read on entry, not on how the call ends or on later policy changes |
| FetchInterceptor.MethodPrecedence | packages/instrumentation/src/fetch-interceptor.ts:32-34 | init method over Request method; a bare string input defaults to GET |
| FetchInterceptor.SmallBodyRecordedVerbatim | packages/instrumentation/src/fetch-interceptor.ts:46-49 | a body within the limit is recorded as is |
| FetchInterceptor.CaptureOffRecordsNoBodies | packages/instrumentation/src/fetch-interceptor.ts:46-67 | with request capture off on entry and response capture off when the response settles, neither body is recorded |
| FetchInterceptor.PatchDuringAwaitDecidesResponse | packages/instrumentation/src/fetch-interceptor.ts:51-67 | a policy patch that lands while the fetch is awaited decides whether the response body is recorded, whatever the policy was on entry |
| HttpInterceptor.BuildUrl | packages/instrumentation/src/http-interceptor.ts:15-37 | an http(s) string is kept, any other string is prefixed with the protocol, a URL gives its text, options give protocol://(hostname or host or 127.0.0.1)(path or "/"), and anything else gives protocol://unknown |
| HttpInterceptor.StringUrlHasScheme | packages/instrumentation/src/http-interceptor.ts:17-23 | a URL built from a string always has an http or https scheme |
| HttpInterceptor.BuildUrlIdempotent | packages/instrumentation/src/http-interceptor.ts:17-23 | building again from a built URL changes nothing |
| HttpInterceptor.EmptyOptionsUrl | packages/instrumentation/src/http-interceptor.ts:29-34 | empty options give http://127.0.0.1/; host plus path are concatenated |
| HttpInterceptor.Accumulated | packages/instrumentation/src/http-interceptor.ts:89-96 | the accumulated response body is a prefix of all chunks joined, and is all of them while it stays within the limit |
| HttpInterceptor.AccumulateLoop | packages/instrumentation/src/http-interceptor.ts:89-96 | the chunk-by-chunk loop computes the accumulated body |
| HttpInterceptor.RecordedBodyIsTruncatedWhole | packages/instrumentation/src/http-interceptor.ts:89-115 | the recorded response body equals the truncation of the whole joined body |
| HttpInterceptor.Begin | packages/instrumentation/src/http-interceptor.ts:47-62 | the call keeps the protocol, id and start time, records the built URL and the normalised method, and keeps every request header key, blocked ones as "[REDACTED]" and the rest unchanged |
| HttpInterceptor.RecordedRequestBody | packages/instrumentation/src/http-interceptor.ts:109-111 | the request body is recorded exactly when capture is on, truncated |
| HttpInterceptor.Step | packages/instrumentation/src/http-interceptor.ts:65-141 | each event reads the policy as it stands then; a write/end adds exactly its defined chunk when request capture is on; a response starts an empty body with status `statusCode ?? 0`, text `statusMessage ?? ""` and redacted headers, and listens for data only if response capture is on at that moment; data is appended only while listening, under the limit read per chunk; a response end records success with both bodies decided at that moment; an error records status 0, "Failed", empty headers and the message; every record carries the request side and the protocol as source |
| HttpInterceptor.Run | packages/instrumentation/src/http-interceptor.ts:47-141 | a call emits at most one record per event, each event under its own policy |
| HttpInterceptor.ReplyAccumulates | packages/instrumentation/src/http-interceptor.ts:81-96 | after a response head and data chunks the pending body is the accumulated body and nothing is recorded yet |
| HttpInterceptor.ResponseRecordedBody | packages/instrumentation/src/http-interceptor.ts:98-119 | head, chunks and end give exactly one record whose body is the truncated concatenation of the chunks |
| HttpInterceptor.CaptureTurnedOnLate | packages/instrumentation/src/http-interceptor.ts:81-119 | response capture switched on after the response head arrived records an empty body, not the data that followed |
| HttpInterceptor.RequestBodyAccumulates | packages/instrumentation/src/http-interceptor.ts:65-79 | the request body is the concatenation of the defined write chunks when capture is on and empty otherwise |
| HttpInterceptor.WritesRecordNothing | packages/instrumentation/src/http-interceptor.ts:65-79 | writes alone emit no record |
| HttpInterceptor.FailureBeforeResponse | packages/instrumentation/src/http-interceptor.ts:122-141 | an error after writes gives exactly one "Failed" record with the message and the protocol as source |
| HttpInterceptor.Install | packages/instrumentation/src/http-interceptor.ts:151-157 | both `http.request` and `https.request` are patched |
| HttpInterceptor.Restore | packages/instrumentation/src/http-interceptor.ts:158-161 | both are restored |
| BroadcastHub.SendSafe | packages/instrumentation/src/websocket-server.ts:17-27 | only an open client whose send does not throw receives the message, and only when the message serialises; nothing else changes |
| BroadcastHub.Broadcast | packages/instrumentation/src/websocket-server.ts:38-60 | every client is sent the message independently of the others |
| BroadcastHub.Sendable | packages/instrumentation/src/websocket-server.ts:22-26 | when every message serialises, every message is sent |
| BroadcastHub.BroadcastAll | packages/instrumentation/src/websocket-server.ts:38-60 | each live client's outbox grows by exactly the serialisable messages, in order; other clients are untouched |
| BroadcastHub.MessageOf | packages/instrumentation/src/websocket-server.ts:38-60 | each notification kind maps to the matching message kind and back, with the same payload |
| BroadcastHub.Messages | packages/instrumentation/src/websocket-server.ts:38-60 | notifications are relayed one for one, in order |
| BroadcastHub.Start | packages/instrumentation/src/websocket-server.ts:29-65 | a new hub has no clients and its relays attached |
| BroadcastHub.Relay | packages/instrumentation/src/websocket-server.ts:38-65 | while attached, a transition's notifications reach every client; once detached, none do |
| BroadcastHub.RunOp | packages/instrumentation/src/websocket-server.ts:38-65 | a collector operation keeps the collector valid and the client list, policy and attachment unchanged; while attached each live client receives exactly the serialisable messages of its notifications, and no one else receives anything |
| BroadcastHub.Handshake | packages/instrumentation/src/websocket-server.ts:67-76 | the handshake is batch (current logs and requests), then status, then config |
| BroadcastHub.Connect | packages/instrumentation/src/websocket-server.ts:67-76 | a new client is appended with what survives of the handshake as its whole outbox: all of it when the buffered entries serialise, status and config only otherwise; existing clients and the collector are unchanged |
| BroadcastHub.HandshakeSendable | packages/instrumentation/src/websocket-server.ts:67-76 | the batch serialises exactly when every buffered entry does; the status and config always do |
| BroadcastHub.Disconnect | packages/instrumentation/src/websocket-server.ts:18-20 | a disconnected client stops being open and keeps what it received |
| BroadcastHub.BoolField | packages/instrumentation/src/websocket-server.ts:86-90 | a field is read as a boolean exactly when it is present and boolean |
| BroadcastHub.PatchOf | packages/instrumentation/src/websocket-server.ts:86-97 | each patch field is present exactly when the message carries it with the type the handler checks, and then holds the value sent; a non-object `data` has no fields |
| BroadcastHub.Decode | packages/instrumentation/src/websocket-server.ts:78-85 | unparseable or non-object frames are ignored; a `clear` type gives a clear of its target; a `control` type with a non-null `data` gives that data's patch, and with no or null `data` is ignored; nothing else is recognised |
| BroadcastHub.EncodePatch | packages/instrumentation/src/types.ts:56-65 | a control patch is sent as an object |
| BroadcastHub.PatchRoundTrip | packages/instrumentation/src/websocket-server.ts:86-97 | the handler reads back exactly the patch a client encoded |
| BroadcastHub.DecodeControlRoundTrip | packages/instrumentation/src/websocket-server.ts:78-97 | a `control` frame carrying an encoded patch decodes to that patch |
| BroadcastHub.HasConfigUpdate | packages/instrumentation/src/websocket-server.ts:93-97 | a patch counts as a policy update exactly when some field other than the two pause flags is present |
| BroadcastHub.NoConfigUpdateKeepsPolicy | packages/instrumentation/src/websocket-server.ts:93-100 | skipping the policy callback for a patch without policy fields loses nothing: the callback would change nothing and not throw |
| BroadcastHub.PauseStage | packages/instrumentation/src/websocket-server.ts:86-91 | a present pause field sets only that channel and, while attached, sends each live client one status with both current flags |
| BroadcastHub.ConfigStage | packages/instrumentation/src/websocket-server.ts:93-105 | with a policy field the policy is patched and, unless the patch threw, each live client is sent the new policy once; the collector is untouched |
| BroadcastHub.HandleControl | packages/instrumentation/src/websocket-server.ts:85-105 | each boolean pause field is applied; the policy is patched only when some policy field is present; histories are untouched; each live client receives exactly a status per pause field (while attached), then the new policy when a policy field is present and the patch did not throw |
| BroadcastHub.HandleInbound | packages/instrumentation/src/websocket-server.ts:78-110 | a decoded `clear` runs the collector's clear of that target, a decoded `control` runs the control steps, and an ignored frame changes nothing; no frame removes clients or detaches relays |
| BroadcastHub.Close | packages/instrumentation/src/websocket-server.ts:113-118 | closing detaches the relays and changes nothing else |
| BroadcastHub.Step | packages/instrumentation/src/websocket-server.ts:38-118 | every hub event keeps the collector valid and never removes clients |
| BroadcastHub.Run | packages/instrumentation/src/websocket-server.ts:38-118 | the same over any sequence of events |
| BroadcastHub.BroadcastExtends | packages/instrumentation/src/websocket-server.ts:17-27 | a broadcast only appends to outboxes |
| BroadcastHub.RunOpExtends | packages/instrumentation/src/websocket-server.ts:38-65 | relaying only appends to outboxes |
| BroadcastHub.HandleControlExtends | packages/instrumentation/src/websocket-server.ts:85-105 | control handling only appends to outboxes |
| BroadcastHub.StepExtends | packages/instrumentation/src/websocket-server.ts:38-118 | any event only appends to outboxes and only adds clients |
| BroadcastHub.RunExtends | packages/instrumentation/src/websocket-server.ts:38-118 | the same over any sequence of events |
| BroadcastHub.HandshakeStaysFirst | packages/instrumentation/src/websocket-server.ts:67-76 | when the buffered entries serialise, whatever happens afterwards, a client's outbox begins with its handshake |
| BroadcastHub.HandshakeLosesBatch | packages/instrumentation/src/websocket-server.ts:67-76 | when some buffered entry does not serialise, a new client receives only the status and the config |
| BroadcastHub.RelayReachesLiveClients | packages/instrumentation/src/websocket-server.ts:38-60 | an attached hub relays every serialisable notification to every live client, in order, and to no one else |
| BroadcastHub.UnserialisableLogReachesNoOne | packages/instrumentation/src/websocket-server.ts:38-42 | a log entry that does not serialise is still recorded by the collector but reaches no client |
| BroadcastHub.ClosedHubRelaysNothing | packages/instrumentation/src/websocket-server.ts:113-118 | after close, collector operations reach no client |
| BroadcastHub.InboundClearEchoes | packages/instrumentation/src/websocket-server.ts:81-83 | an inbound clear clears the collector and echoes `clear` to every live client, the sender included |
| BroadcastHub.PauseOnlyControl | packages/instrumentation/src/websocket-server.ts:85-91 | a pause-only control sends two status messages, logs first, and no config message |
| BroadcastHub.PolicyControlBroadcastsConfig | packages/instrumentation/src/websocket-server.ts:93-105 | a policy control sends exactly one config message carrying the new policy |
| BroadcastHub.MalformedIgnored | packages/instrumentation/src/websocket-server.ts:79-109 | malformed JSON, a control without data, and other types change nothing |
| Session.Merge | packages/instrumentation/src/index.ts:8-17 | each option the caller gives wins; each omitted one takes its default (3001, 127.0.0.1, 10000, 5000, 1000000, true, true, authorization/cookie/set-cookie) |
| Session.MergeNothingIsDefaults | packages/instrumentation/src/index.ts:32 | no options give exactly the defaults |
| Session.InitialRuntime | packages/instrumentation/src/index.ts:38-43 | the initial policy copies the merged options field by field |
| Session.InitialLimitNotClamped | packages/instrumentation/src/index.ts:38-43 | an initial body limit below 1000 is kept as given |
| Session.StartInstance | packages/instrumentation/src/index.ts:32-73 | a started instance has empty histories, an attached hub with no clients, the merged policy, and all interceptors installed |
| Session.Init | packages/instrumentation/src/index.ts:21-30 | an active session wins; in production nothing starts and a no-op handle is returned; otherwise a fresh instance fills the slot |
| Session.Stop | packages/instrumentation/src/index.ts:79-84 | stopping restores every interceptor and closes the hub, keeping its data |
| Session.ShutdownAsWritten | packages/instrumentation/src/index.ts:79-85 | any live handle's shutdown empties the slot, even a stale one |
| Session.Shutdown | packages/instrumentation/src/index.ts:79-88 | a shutdown stops its own instance and empties the slot only when that instance is the active one |
| Session.SecondInitReturnsSameHandle | packages/instrumentation/src/index.ts:21-24 | a second init while active returns the same handle and changes nothing |
| Session.ProductionStartsNothing | packages/instrumentation/src/index.ts:26-30 | in production the slot stays empty and the handle is a no-op |
| Session.ShutdownThenInitIsFresh | packages/instrumentation/src/index.ts:79-88 | after shutdown the old hub is closed and a later init builds a different, empty session |
| Session.StaleShutdownEmptiesSlot | packages/instrumentation/src/index.ts:84 | as written, an old handle's shutdown empties the slot while a newer session is still running, so the next init starts a third one |
| Session.StaleShutdownKeepsNewerSession | packages/instrumentation/src/index.ts:79-88 | with the corrected shutdown, an old handle leaves the newer session in the slot |
| Session.ShutdownIdempotent | packages/instrumentation/src/index.ts:79-88 | shutting down twice with one handle equals shutting down once |
| Store.SetBatch | packages/ui/lib/store.ts:96 | both lists are replaced wholesale, regardless of pause; nothing else changes |
| Store.SetConnected | packages/ui/lib/store.ts:95 | the connection flag is set and nothing else changes |
| Store.AddLog | packages/ui/lib/store.ts:97-100 | no change while logs are paused; otherwise the entry is appended at the end and nothing else changes |
| Store.AddRequest | packages/ui/lib/store.ts:101-104 | the same for requests and the network flag |
| Store.ClearLogs | packages/ui/lib/store.ts:105 | logs are emptied and the log selection is dropped; nothing else changes |
| Store.ClearNetwork | packages/ui/lib/store.ts:106 | requests are emptied and the request selection is dropped; nothing else changes |
| Store.SetStatus | packages/ui/lib/store.ts:109-113 | both pause flags are copied from the status; nothing else changes |
| Store.ApplyRuntimeConfig | packages/ui/lib/store.ts:119-128 | the four capture settings are set, the header list comma-joined; the socket URL, theme and everything outside settings are unchanged |
| Store.ApplyRuntimeConfigIdempotent | packages/ui/lib/store.ts:119-128 | applying the same policy twice equals applying it once |
| Store.PausedAppendDropped | packages/ui/lib/store.ts:97-113 | an entry appended while paused is lost; one appended after resuming lands at the end |
| Store.MinTimestamp | packages/ui/lib/store.ts:143-151 | 0 for all time; now minus 5, 15 or 60 minutes otherwise |
| Store.CountCollapsed | packages/ui/lib/store.ts:183-190 | any count other than 1 comes from a message ending in ")" |
| Store.TrailingDigits | packages/ui/lib/store.ts:184 | the maximal run of decimal digits at the end of a string |
| Store.CountCollapsedOfSuffix | packages/ui/lib/store.ts:175-190 | reading back a " (xN)" suffix gives N |
| Store.CollapseInto | packages/ui/lib/store.ts:172-178 | an entry whose hash matches the last kept entry replaces that entry's message with its own plus the incremented count; otherwise it is appended |
| Store.Collapse | packages/ui/lib/store.ts:171-180 | no two adjacent results share a hash, the result is never longer, it is empty only for empty input, and it ends with the input's last hash |
| Store.CollapseIdentity | packages/ui/lib/store.ts:171-180 | a list without adjacent duplicates is left as it is |
| Store.CollapseRun | packages/ui/lib/store.ts:171-180 | a run of k >= 2 equal-hash entries becomes one entry with the last message plus " (xk)", provided the first message has no count suffix |
| Store.FilterLogs | packages/ui/lib/store.ts:142-181 | the result is the order-preserving selection of entries passing the level, time and query tests, collapsed when collapsing is on |
| Store.FilterLogsExact | packages/ui/lib/store.ts:153-165 | with collapse off, every kept entry passes the tests and every passing entry is kept |
| Store.FilterLogsAppend | packages/ui/lib/store.ts:154-165 | with collapse off, filtering distributes over concatenation (order is preserved) |
| Store.DefaultLogFilterKeepsAll | packages/ui/lib/store.ts:142-169 | the default filters with collapse off keep every entry |
| Store.FailedOnlyUnderAll | packages/ui/lib/store.ts:208-215 | status 0 passes only the "all" bucket |
| Store.BucketsDisjoint | packages/ui/lib/store.ts:212-215 | no status falls into two specific buckets |
| Store.FilterNetwork | packages/ui/lib/store.ts:192-217 | every kept request passes the method, query, latency and bucket tests, and every passing request is kept |
| Store.FilterNetworkAppend | packages/ui/lib/store.ts:198-216 | filtering distributes over concatenation (order is preserved) |
| Store.ServerErrorBucket | packages/ui/lib/store.ts:215 | the 5xx bucket has no upper bound |
| SocketClient.Dispatch | packages/ui/lib/use-websocket.ts:41-71 | batch replaces, log and network go through the pause-aware appends, clear empties the named lists and drops their selections and changes nothing else, status and config go to their reducers, and unparseable or other frames change nothing |
| SocketClient.ReplayAppend | packages/ui/lib/use-websocket.ts:41-71 | replaying a stream in two parts equals replaying it whole |
| SocketClient.ClearAllEmptiesBoth | packages/ui/lib/use-websocket.ts:54-61 | clearing "all" empties both lists and both selections |
| SocketClient.BatchOverrides | packages/ui/lib/use-websocket.ts:45-47 | after a batch, the lists are exactly the batch's, whatever came before |
| SocketClient.OnOpen | packages/ui/lib/use-websocket.ts:36-38 | opening resets the delay to 2000 |
| SocketClient.OnClose | packages/ui/lib/use-websocket.ts:74-84 | while mounted, a close schedules a reconnect after the current delay and doubles the delay up to 30000; once unmounted, it schedules nothing |
| SocketClient.OnTimer | packages/ui/lib/use-websocket.ts:28-31 | a fired timer is no longer pending |
| SocketClient.Teardown | packages/ui/lib/use-websocket.ts:93-99 | teardown deactivates the effect and cancels the pending timer |
| SocketClient.BackoffAfterCloses | packages/ui/lib/use-websocket.ts:82-83 | after k closes from a fresh mount the delay is min(2000 * 2^k, 30000) |
| SocketClient.NoReconnectAfterTeardown | packages/ui/lib/use-websocket.ts:79-81 | after teardown no number of closes schedules a reconnect |
| SocketClient.BackoffStaysBounded | packages/ui/lib/use-websocket.ts:74-84 | under any sequence of opens, closes, timer firings and teardowns, the delay and any scheduled delay stay within [2000, 30000] |
| Agreement.OpAgrees | packages/instrumentation/src/websocket-server.ts:38-60 | a collector operation, relayed and dispatched, keeps a store that agreed with the collector in agreement |
| Agreement.HandshakeAgrees | packages/instrumentation/src/websocket-server.ts:67-76 | the handshake alone brings any store into agreement with the collector |
| Agreement.OpMessagesSendable | packages/instrumentation/src/websocket-server.ts:38-60 | an operation adding no unserialisable entry has all its messages delivered |
| Agreement.ApplyKeepsBufferSerialises | packages/instrumentation/src/data-collector.ts:23-69 | an operation adding no unserialisable entry keeps every buffered entry serialisable |
| Agreement.StepKeepsSync | packages/instrumentation/src/websocket-server.ts:38-110 | every hub event except close that adds no unserialisable entry keeps every live observer in agreement and the buffer serialisable |
| Agreement.RunKeepsSync | packages/instrumentation/src/websocket-server.ts:38-118 | the same over any such sequence of events that leaves the relays attached |
| Agreement.ObserversAgree | packages/ui/lib/use-websocket.ts:41-71 | from server start with a serialisable buffer, through events that add no unserialisable entry, each live observer's store shows the collector's histories as a suffix of its lists and exactly its pause flags |

## Left out

- Interception itself: reassigning `console.*`, `globalThis.fetch`, `http.request` and `https.request` is reduced to installed/restored flags per instance. A restore that clobbers a later patch is not modelled. This includes a stale shutdown putting back the originals under a newer instance's wrappers.
- The `ws` library: listening, bind errors, the server `error` listener, and socket state beyond open and throws-on-send.
- EventEmitter dispatch is reduced to the ordered list of notifications each operation returns.
- `crypto.randomUUID`, `Date.now`, `new Error().stack`, `setTimeout`/`clearTimeout` and the outcome of network calls are parameters.
- `JSON.stringify` is abstracted. Each non-string console argument carries its rendered text and whether that text came from `JSON.stringify` or from the `String` fallback. A fallback means `JSON.stringify` rejected the value, so the argument does not serialise.
- A log message serialises exactly when all its arguments do, and a batch exactly when all its entries do. Every other message is taken to serialise. The JSON text of a whole message is not modelled.
- Agreement.ObserversAgree: assumes the buffer at start and every added entry serialise. Without that, a dropped `log` or `batch` message leaves an observer behind the collector, as BroadcastHub.UnserialisableLogReachesNoOne and BroadcastHub.HandshakeLosesBatch show.
- `JSON.parse` is an abstract parsed value or a parse failure.
- `Buffer` decoding of binary chunks is left out. Chunks are modelled as already-decoded strings.
- `toHeaderRecord` and `Headers` normalisation of names are left out. Header maps are taken as given.
- Object key order of header records is left out; records are maps.
- Case mapping is ASCII-only, while JavaScript's `toLowerCase`/`toUpperCase` cover all of Unicode. Trimming uses JavaScript's full whitespace set.
- Strings are sequences of Unicode scalar values, so lone surrogates, which a JavaScript string may hold, cannot occur.
- Numbers in protocol messages are reals or non-finite. `Math.floor` on a real is modelled; floating-point rounding is not.
- `Number.parseInt` of a very long count string is modelled as exact.
- An option key passed explicitly as `undefined` overrides its default in the source. The model treats it as omitted.
- Session.Merge: numeric options are integers. A NaN, infinite or fractional `maxLogs`, `maxRequests` or `truncateBodyBytes`, which JavaScript accepts, is not modelled. A NaN initial `truncateBodyBytes` makes `truncate` return the whole body plus the marker.
- CircularBuffer.New: the capacity is an integer. In the source `Math.max(1, NaN)` is NaN, and a NaN or infinite capacity never evicts; a fractional capacity behaves as its floor. None of this is modelled.
- Store.CountCollapsed: parses the count from a trailing "(x" followed by digits and ")". Its contract states only the shape it requires. Reading back a suffix is stated by Store.CountCollapsedOfSuffix.
- SocketClient.Dispatch: frames are modelled already decoded into messages. A frame of a known type with missing fields, which the source passes on as `undefined`, is not represented.
- The socket client's `send`, `setConnected` on open and close, and `wsRef` bookkeeping are left out; `Store.SetConnected` is the reducer they call.
- UI glue reducers that only copy their argument are left out: `setPauseLogs`, `setPauseNetwork`, `setActiveTab`, `selectRequest`, `selectLog`, `setFilters`, `setSettings`. So is the store's persistence to local storage.
- React rendering, the CLI, `register.ts`, the example app and the scripts are not part of this model.

## Findings

| source | as written | input that shows it | evidently intended | confidence | as-written member | corrected member |
|---|---|---|---|---|---|---|
| packages/instrumentation/src/index.ts:79-88 | every handle's `shutdown` sets the module-level `active` to null | init (handle A), A.shutdown, init (handle B), A.shutdown again: A's restore functions put back the originals A saved, removing B's wrappers, while B's server and relays keep running; the slot is emptied, so the next init starts another server next to B's | a stale handle stops only its own session and leaves a newer active session in the slot | not executed | Session.ShutdownAsWritten, Session.StaleShutdownEmptiesSlot | Session.Shutdown, Session.StaleShutdownKeepsNewerSession |

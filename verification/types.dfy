/** The records that flow through the capture layer: log entries, network
    records, the runtime capture policy, collector notifications and the wire
    protocol between the instrumented process and its observers. JSON values
    appear where the hub reads untyped data from a client. */
module Types {
  import opened Common

  // ---- log entries ----------------------------------------------------------

  datatype LogLevel = Log | Info | Warn | Error | Debug

  function LevelName(l: LogLevel): string {
    match l
    case Log => "log"
    case Info => "info"
    case Warn => "warn"
    case Error => "error"
    case Debug => "debug"
  }

  /** How a non-string console argument renders: the text produced, with
      `json` telling whether `JSON.stringify` produced it (`false`: it threw,
      as on a circular object or a BigInt, and the `String` fallback did);
      `undefined` (functions, `undefined` itself); or both renderers throwing. */
  datatype Rendering = Rendered(text: string, json: bool) | RenderedUndefined | RenderThrows

  /** One argument passed to a console method. */
  datatype Arg = StrArg(s: string) | ValueArg(rendering: Rendering)

  /** Whether `JSON.stringify` accepts the argument inside a larger value: a
      string does, a value it renders as `undefined` becomes `null`, and a
      value it rejected on its own is rejected again. */
  predicate ArgSerialises(a: Arg) {
    match a
    case StrArg(_) => true
    case ValueArg(Rendered(_, json)) => json
    case ValueArg(RenderedUndefined) => true
    case ValueArg(RenderThrows) => false
  }

  /** The entry keeps the raw arguments, so it serialises exactly when they all do. */
  predicate EntrySerialises(e: LogEntry) {
    forall k :: 0 <= k < |e.args| ==> ArgSerialises(e.args[k])
  }

  datatype LogEntry = LogEntry(
    id: string,
    timestamp: int,
    level: LogLevel,
    message: string,
    args: seq<Arg>,
    stack: Option<string>,
    hash: string)

  // ---- network records ------------------------------------------------------

  datatype HttpMethod = GET | POST | PUT | DELETE | PATCH | HEAD | OPTIONS | UNKNOWN

  function MethodName(m: HttpMethod): string {
    match m
    case GET => "GET"
    case POST => "POST"
    case PUT => "PUT"
    case DELETE => "DELETE"
    case PATCH => "PATCH"
    case HEAD => "HEAD"
    case OPTIONS => "OPTIONS"
    case UNKNOWN => "UNKNOWN"
  }

  /** Header name to value, as `Record<string, string>`. */
  type Headers = map<string, string>

  datatype Source = FetchSource | HttpSource | HttpsSource

  datatype Timing = Timing(start: int, end: int)

  datatype NetworkRequest = NetworkRequest(
    id: string,
    timestamp: int,
    requestMethod: HttpMethod,
    url: string,
    status: int,
    statusText: string,
    duration: int,
    requestHeaders: Headers,
    requestBody: Option<string>,
    responseHeaders: Headers,
    responseBody: Option<string>,
    timing: Timing,
    error: Option<string>,
    source: Source)

  // ---- capture policy ---------------------------------------------------------

  datatype RuntimeCaptureConfig = RuntimeCaptureConfig(
    truncateBodyBytes: int,
    captureRequestBodies: bool,
    captureResponseBodies: bool,
    redactHeaders: seq<string>)

  // ---- untyped JSON -----------------------------------------------------------

  /** A JSON number after `JSON.parse`: finite, or an infinity from an
      out-of-range literal such as `1e999`. */
  datatype Number = Finite(value: real) | NonFinite

  datatype Json =
    | JNull
    | JBool(b: bool)
    | JNum(n: Number)
    | JStr(s: string)
    | JArr(items: seq<Json>)
    | JObj(fields: map<string, Json>)

  /** The fields of a `control` message that the hub looks at, each present
      only when it has the type the hub tests for (`typeof ... === "boolean"`,
      `=== "number"`, `Array.isArray`); the array elements stay untyped. */
  datatype ControlPatch = ControlPatch(
    pauseLogs: Option<bool>,
    pauseNetwork: Option<bool>,
    truncateBodyBytes: Option<Number>,
    captureRequestBodies: Option<bool>,
    captureResponseBodies: Option<bool>,
    redactHeaders: Option<seq<Json>>)

  // ---- collector notifications and the wire protocol ---------------------------

  /** Target of a clear. The type names three targets, but the server passes
      whatever a client sent; any other value is `OtherTarget`. */
  datatype ClearTarget = LogsTarget | NetworkTarget | AllTarget | OtherTarget

  datatype Channel = LogsChannel | NetworkChannel

  datatype Status = Status(pausedLogs: bool, pausedNetwork: bool)

  /** What the collector emits to its listeners. */
  datatype Note =
    | LogAdded(entry: LogEntry)
    | NetworkAdded(request: NetworkRequest)
    | Cleared(target: ClearTarget)
    | StatusChanged(status: Status)

  datatype WSMessage =
    | LogMsg(entry: LogEntry)
    | NetworkMsg(request: NetworkRequest)
    | BatchMsg(logs: seq<LogEntry>, requests: seq<NetworkRequest>)
    | ClearMsg(target: ClearTarget)
    | StatusMsg(status: Status)
    | ControlMsg(patch: ControlPatch)
    | ConfigMsg(config: RuntimeCaptureConfig)

  /** Whether `JSON.stringify(message)` returns. Only log entries hold raw
      values; every other field is a string, a number (a non-finite one
      becomes `null`), a boolean or a record of these. */
  predicate Serialises(m: WSMessage) {
    match m
    case LogMsg(e) => EntrySerialises(e)
    case BatchMsg(logs, _) => forall k :: 0 <= k < |logs| ==> EntrySerialises(logs[k])
    case _ => true
  }
}

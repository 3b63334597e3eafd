/** The `fetch` capture source: how one call's record is derived from the
    call's arguments, the capture policy, and the outcome of the underlying
    fetch; and what the wrapper hands back to its caller. The policy is one
    shared object that a `control` message can patch while the call awaits,
    so it is given as read at each point the wrapper reads it. Clock
    readings, the request id and the outcome are parameters. */
module FetchInterceptor {
  import opened Common
  import opened Text
  import opened Types
  import opened Utils

  // ---- installation -------------------------------------------------------------

  /** Whether a global `fetch` exists, and whether the wrapper currently replaces it. */
  datatype Hook = Hook(present: bool, patched: bool)

  /** Without a global `fetch` there is nothing to wrap and the restore does nothing. */
  function Install(fetchPresent: bool): (h: Hook)
    ensures h.present == fetchPresent
    ensures h.patched <==> fetchPresent
  {
    Hook(fetchPresent, fetchPresent)
  }

  /** The returned restore puts the original `fetch` back. */
  function Restore(h: Hook): (r: Hook)
    ensures r.present == h.present && !r.patched
  {
    h.(patched := false)
  }

  // ---- the call's inputs ----------------------------------------------------------

  /** The first argument: a URL string, a `URL` object (by its `toString()`),
      or a `Request` (with its url, method and headers). */
  datatype FetchInput =
    | StringInput(s: string)
    | UrlInput(href: string)
    | RequestInput(url: string, requestMethod: string, headers: Headers)

  /** The fields of the second argument that the wrapper reads; `None` where
      the field is `undefined`. The body is given by its `String(...)` rendering. */
  datatype FetchInit = FetchInit(requestMethod: Option<string>, headers: Option<Headers>, body: Option<string>)

  function RecordedUrl(input: FetchInput): (r: string)
    ensures input.StringInput? ==> r == input.s
    ensures input.UrlInput? ==> r == input.href
    ensures input.RequestInput? ==> r == input.url
  {
    match input
    case StringInput(s) => s
    case UrlInput(href) => href
    case RequestInput(url, _, _) => url
  }

  /** `init.method ?? request.method`: the method text the wrapper normalises. */
  function MethodText(input: FetchInput, init: Option<FetchInit>): (r: Option<string>)
    ensures init.Some? && init.value.requestMethod.Some? ==> r == init.value.requestMethod
    ensures (init.None? || init.value.requestMethod.None?) ==>
      r == (if input.RequestInput? then Some(input.requestMethod) else None)
  {
    if init.Some? && init.value.requestMethod.Some? then init.value.requestMethod
    else if input.RequestInput? then Some(input.requestMethod)
    else None
  }

  /** `init.headers ?? request.headers`, or no headers at all. */
  function HeaderSource(input: FetchInput, init: Option<FetchInit>): (r: Headers)
    ensures init.Some? && init.value.headers.Some? ==> r == init.value.headers.value
    ensures (init.None? || init.value.headers.None?) && input.RequestInput? ==> r == input.headers
    ensures (init.None? || init.value.headers.None?) && !input.RequestInput? ==> r == map[]
  {
    if init.Some? && init.value.headers.Some? then init.value.headers.value
    else if input.RequestInput? then input.headers
    else map[]
  }

  /** The request body is kept only when request capture is on and `init.body` is defined. */
  function RequestBody(runtime: RuntimeCaptureConfig, init: Option<FetchInit>): (r: Option<string>)
    ensures r.Some? <==> runtime.captureRequestBodies && init.Some? && init.value.body.Some?
    ensures r.Some? ==> r.value == Truncate(init.value.body.value, runtime.truncateBodyBytes)
  {
    if runtime.captureRequestBodies && init.Some? && init.value.body.Some? then
      Some(Truncate(init.value.body.value, runtime.truncateBodyBytes))
    else None
  }

  // ---- the outcome ----------------------------------------------------------------

  /** A response: status line, headers, and its text, `None` when reading the text fails. */
  datatype Response = Response(status: int, statusText: string, headers: Headers, bodyText: Option<string>)

  /** A rejection: an `Error` with its message, or any other thrown value by its `String(...)`. */
  datatype ErrorValue = ErrorObject(message: string) | ThrownValue(rendered: string)

  datatype Outcome = Responded(response: Response) | Rejected(error: ErrorValue)

  /** What the wrapper's promise settles with. */
  datatype Completion = ReturnResponse(response: Response) | Rethrow(error: ErrorValue)

  const UnreadableBody := "[Unable to read response body]"

  function ErrorMessage(e: ErrorValue): string {
    match e
    case ErrorObject(m) => m
    case ThrownValue(t) => t
  }

  /** The response body: whether to capture is read right after the fetch
      settles (`atResponse`), the limit only once the text has been read
      (`atText`). */
  function ResponseBody(atResponse: RuntimeCaptureConfig, atText: RuntimeCaptureConfig, res: Response): (r: Option<string>)
    ensures r.Some? <==> atResponse.captureResponseBodies
    ensures r.Some? && res.bodyText.Some? ==> r.value == Truncate(res.bodyText.value, atText.truncateBodyBytes)
    ensures r.Some? && res.bodyText.None? ==> r.value == UnreadableBody
  {
    if !atResponse.captureResponseBodies then None
    else if res.bodyText.Some? then Some(Truncate(res.bodyText.value, atText.truncateBodyBytes))
    else Some(UnreadableBody)
  }

  /** One call: the record handed to `collector.addNetwork`, and how the call settles. */
  datatype CallEffect = CallEffect(record: NetworkRequest, completion: Completion)

  /** The policy as the wrapper reads it at its three points: on entry
      (`atStart`), after `await originalFetch` (`atResponse`) and after
      `await response.clone().text()` (`atText`). */
  datatype Reads = Reads(atStart: RuntimeCaptureConfig, atResponse: RuntimeCaptureConfig, atText: RuntimeCaptureConfig)

  function Call(policy: Reads, input: FetchInput, init: Option<FetchInit>,
                id: string, startedAt: int, endedAt: int, outcome: Outcome): (r: CallEffect)
    // the request side, identical on both paths, under the policy read on entry
    ensures r.record.id == id && r.record.timestamp == startedAt
    ensures r.record.requestMethod == NormalizeMethod(MethodText(input, init))
    ensures r.record.url == RecordedUrl(input)
    ensures r.record.requestHeaders == RedactRecord(HeaderSource(input, init), policy.atStart.redactHeaders)
    ensures r.record.requestBody == RequestBody(policy.atStart, init)
    ensures r.record.timing == Timing(startedAt, endedAt)
    ensures r.record.duration == endedAt - startedAt
    ensures r.record.source == FetchSource
    // success: the response's status line, headers redacted under the policy
    // read after the fetch settled, and the caller gets the response itself
    ensures outcome.Responded? ==>
      && r.completion == ReturnResponse(outcome.response)
      && r.record.status == outcome.response.status
      && r.record.statusText == outcome.response.statusText
      && r.record.responseHeaders == RedactRecord(outcome.response.headers, policy.atResponse.redactHeaders)
      && r.record.responseBody == ResponseBody(policy.atResponse, policy.atText, outcome.response)
      && r.record.error == None
    // failure: a "Failed" record with the message, and the same error rethrown
    ensures outcome.Rejected? ==>
      && r.completion == Rethrow(outcome.error)
      && r.record.status == 0
      && r.record.statusText == "Failed"
      && r.record.responseHeaders == map[]
      && r.record.responseBody == None
      && r.record.error == Some(ErrorMessage(outcome.error))
  {
    var verb := NormalizeMethod(MethodText(input, init));
    var url := RecordedUrl(input);
    var requestHeaders := RedactRecord(HeaderSource(input, init), policy.atStart.redactHeaders);
    var requestBody := RequestBody(policy.atStart, init);
    match outcome
    case Responded(res) =>
      CallEffect(
        NetworkRequest(id, startedAt, verb, url, res.status, res.statusText, endedAt - startedAt,
                       requestHeaders, requestBody, RedactRecord(res.headers, policy.atResponse.redactHeaders),
                       ResponseBody(policy.atResponse, policy.atText, res), Timing(startedAt, endedAt), None, FetchSource),
        ReturnResponse(res))
    case Rejected(e) =>
      CallEffect(
        NetworkRequest(id, startedAt, verb, url, 0, "Failed", endedAt - startedAt,
                       requestHeaders, requestBody, map[], None, Timing(startedAt, endedAt),
                       Some(ErrorMessage(e)), FetchSource),
        Rethrow(e))
  }

  // ---- properties --------------------------------------------------------------------

  /** Every header blocked by the policy in force when its side is recorded
      appears as the redaction sentinel: request headers under the policy on
      entry, response headers under the policy once the fetch settled. */
  lemma BlockedHeadersNeverRecorded(policy: Reads, input: FetchInput, init: Option<FetchInit>,
                                     id: string, startedAt: int, endedAt: int, outcome: Outcome, k: string)
    ensures var rec := Call(policy, input, init, id, startedAt, endedAt, outcome).record;
      && (IsBlocked(k, policy.atStart.redactHeaders) && k in rec.requestHeaders ==>
            rec.requestHeaders[k] == RedactedValue)
      && (IsBlocked(k, policy.atResponse.redactHeaders) && k in rec.responseHeaders ==>
            rec.responseHeaders[k] == RedactedValue)
  {
  }

  /** Neither the outcome nor a patch landing during the await changes what
      is recorded about the request. */
  lemma RequestSideIndependentOfOutcome(p1: Reads, p2: Reads, input: FetchInput, init: Option<FetchInit>,
                                         id: string, startedAt: int, endedAt: int, o1: Outcome, o2: Outcome)
    requires p1.atStart == p2.atStart
    ensures
      var a := Call(p1, input, init, id, startedAt, endedAt, o1).record;
      var b := Call(p2, input, init, id, startedAt, endedAt, o2).record;
      && a.requestMethod == b.requestMethod && a.url == b.url
      && a.requestHeaders == b.requestHeaders && a.requestBody == b.requestBody
      && a.timing == b.timing && a.duration == b.duration
  {
  }

  /** A method given in `init` wins over the Request's own; with none given a
      plain URL call is a GET. */
  lemma MethodPrecedence(url: string, reqMethod: string, headers: Headers, m: string)
    ensures NormalizeMethod(MethodText(RequestInput(url, reqMethod, headers), Some(FetchInit(Some(m), None, None))))
         == NormalizeMethod(Some(m))
    ensures NormalizeMethod(MethodText(RequestInput(url, reqMethod, headers), None)) == NormalizeMethod(Some(reqMethod))
    ensures NormalizeMethod(MethodText(StringInput(url), None)) == GET
  {
  }

  /** A body within the limit is recorded verbatim when request capture is on. */
  lemma SmallBodyRecordedVerbatim(runtime: RuntimeCaptureConfig, body: string)
    requires runtime.captureRequestBodies
    requires ByteLength(body) <= runtime.truncateBodyBytes
    ensures RequestBody(runtime, Some(FetchInit(None, None, Some(body)))) == Some(body)
  {
  }

  /** With request capture off on entry and response capture off once the
      fetch settled, no body is recorded, whatever the call did. */
  lemma CaptureOffRecordsNoBodies(policy: Reads, input: FetchInput, init: Option<FetchInit>,
                                   id: string, startedAt: int, endedAt: int, outcome: Outcome)
    requires !policy.atStart.captureRequestBodies && !policy.atResponse.captureResponseBodies
    ensures var rec := Call(policy, input, init, id, startedAt, endedAt, outcome).record;
      rec.requestBody == None && rec.responseBody == None
  {
  }

  /** A patch that lands while the fetch is pending decides the response
      side: turning response capture on records the body although it was off
      when the call started, and turning it off records none. */
  lemma PatchDuringAwaitDecidesResponse(runtime: RuntimeCaptureConfig, input: FetchInput, init: Option<FetchInit>,
                                         id: string, startedAt: int, endedAt: int, res: Response)
    ensures
      var on := runtime.(captureResponseBodies := true);
      var off := runtime.(captureResponseBodies := false);
      && Call(Reads(off, on, on), input, init, id, startedAt, endedAt, Responded(res)).record.responseBody.Some?
      && Call(Reads(on, off, off), input, init, id, startedAt, endedAt, Responded(res)).record.responseBody.None?
  {
  }
}

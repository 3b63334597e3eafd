/** The `http.request` / `https.request` capture source: the URL derived
    from the request's first argument, how request and response bodies are
    accumulated from the events of one request, and the record emitted when
    the response ends or the request fails. */
module HttpInterceptor {
  import opened Common
  import opened Text
  import opened Types
  import opened Utils

  datatype Protocol = Http | Https

  function ProtocolName(p: Protocol): string {
    match p
    case Http => "http"
    case Https => "https"
  }

  /** The record's `source` is the protocol of the patched module. */
  function SourceOf(p: Protocol): Source {
    match p
    case Http => HttpSource
    case Https => HttpsSource
  }

  // ---- buildUrlFromArgs ----------------------------------------------------------

  /** The first argument of a request call: a string, a `URL` (by its
      `toString()`), an options object, or anything else (including nothing
      or `null`). */
  datatype RequestArg =
    | StringArg(s: string)
    | UrlArg(href: string)
    | OptionsArg(hostname: Option<string>, host: Option<string>, path: Option<string>)
    | OtherArg

  const DefaultHost := "127.0.0.1"
  const DefaultPath := "/"

  predicate HasHttpScheme(s: string) {
    "http://" <= s || "https://" <= s
  }

  function BuildUrl(protocol: Protocol, first: RequestArg): (r: string)
    ensures first.StringArg? && HasHttpScheme(first.s) ==> r == first.s
    ensures first.StringArg? && !HasHttpScheme(first.s) ==> r == ProtocolName(protocol) + "://" + first.s
    ensures first.UrlArg? ==> r == first.href
    ensures first.OptionsArg? ==>
      r == ProtocolName(protocol) + "://"
           + (if first.hostname.Some? then first.hostname.value
              else if first.host.Some? then first.host.value
              else DefaultHost)
           + (if first.path.Some? then first.path.value else DefaultPath)
    ensures first.OtherArg? ==> r == ProtocolName(protocol) + "://unknown"
  {
    var scheme := ProtocolName(protocol) + "://";
    match first
    case StringArg(s) => if HasHttpScheme(s) then s else scheme + s
    case UrlArg(href) => href
    case OptionsArg(hostname, host, path) =>
      var h := if hostname.Some? then hostname.value else if host.Some? then host.value else DefaultHost;
      var p := if path.Some? then path.value else DefaultPath;
      scheme + h + p
    case OtherArg => scheme + "unknown"
  }

  /** A string argument always yields an http or https URL. */
  lemma StringUrlHasScheme(protocol: Protocol, s: string)
    ensures HasHttpScheme(BuildUrl(protocol, StringArg(s)))
  {
    if !HasHttpScheme(s) {
      var r := BuildUrl(protocol, StringArg(s));
      match protocol
      case Http => assert r[..7] == "http://";
      case Https => assert r[..8] == "https://";
    }
  }

  /** Feeding a derived URL back in as a string argument gives the same URL. */
  lemma BuildUrlIdempotent(protocol: Protocol, s: string)
    ensures BuildUrl(protocol, StringArg(BuildUrl(protocol, StringArg(s)))) == BuildUrl(protocol, StringArg(s))
  {
    StringUrlHasScheme(protocol, s);
  }

  /** An empty options object means the loopback host and the root path. */
  lemma EmptyOptionsUrl()
    ensures BuildUrl(Http, OptionsArg(None, None, None)) == "http://127.0.0.1/"
    ensures BuildUrl(Https, OptionsArg(None, Some("example.com"), Some("/api"))) == "https://example.com/api"
  {
  }

  // ---- response body accumulation --------------------------------------------------

  /** The `data` handler: append the chunk only while the text so far is
      within the limit. */
  function AppendCapped(body: string, chunk: string, limit: int): string {
    if ByteLength(body) <= limit then body + chunk else body
  }

  /** The response text after a sequence of `data` chunks. Accumulation stops
      at the first chunk that takes it past the limit, so the text is a prefix
      of all the chunks; and as long as it is within the limit, nothing has
      been dropped. */
  function Accumulated(chunks: seq<string>, limit: int): (r: string)
    ensures r <= Flatten(chunks)
    ensures ByteLength(r) <= limit ==> r == Flatten(chunks)
  {
    if |chunks| == 0 then ""
    else
      var init := chunks[..|chunks| - 1];
      var chunk := chunks[|chunks| - 1];
      var a := Accumulated(init, limit);
      ByteLengthAppend(a, chunk);
      AppendCapped(a, chunk, limit)
  }

  /** The `data` handler applied chunk by chunk, as the event loop runs it. */
  method AccumulateLoop(chunks: seq<string>, limit: int) returns (body: string)
    ensures body == Accumulated(chunks, limit)
  {
    body := "";
    var i := 0;
    while i < |chunks|
      invariant 0 <= i <= |chunks|
      invariant body == Accumulated(chunks[..i], limit)
    {
      assert chunks[..i + 1][..i] == chunks[..i];
      body := AppendCapped(body, chunks[i], limit);
      i := i + 1;
    }
    assert chunks[..i] == chunks;
  }

  /** Stopping early is invisible in the record: the truncated accumulation is
      the truncation of everything the server sent. */
  lemma RecordedBodyIsTruncatedWhole(chunks: seq<string>, limit: int)
    ensures Truncate(Accumulated(chunks, limit), limit) == Truncate(Flatten(chunks), limit)
  {
    TruncateOfCutOff(Accumulated(chunks, limit), Flatten(chunks), limit);
  }

  // ---- one request's lifecycle --------------------------------------------------------

  /** What the wrapper fixes when the request is created: the protocol, the
      id, the start time, the URL, the normalised method and the request
      headers, redacted under the policy read at creation. Everything else
      reads the shared policy again when its event arrives. */
  datatype Call = Call(protocol: Protocol, id: string, startedAt: int,
                       url: string, verb: HttpMethod, requestHeaders: Headers)

  function Begin(protocol: Protocol, runtime: RuntimeCaptureConfig, first: RequestArg, id: string,
                 startedAt: int, requestMethod: Option<string>, headers: Headers): (c: Call)
    ensures c.protocol == protocol && c.id == id && c.startedAt == startedAt
    ensures c.url == BuildUrl(protocol, first)
    ensures c.verb == NormalizeMethod(requestMethod)
    ensures c.requestHeaders.Keys == headers.Keys
    ensures forall k :: k in headers && !IsBlocked(k, runtime.redactHeaders) ==> c.requestHeaders[k] == headers[k]
    ensures forall k :: k in headers && IsBlocked(k, runtime.redactHeaders) ==> c.requestHeaders[k] == RedactedValue
  {
    Call(protocol, id, startedAt, BuildUrl(protocol, first), NormalizeMethod(requestMethod),
         RedactRecord(headers, runtime.redactHeaders))
  }

  /** The response as the handlers see it: status line, redacted headers, the
      text so far, and whether a `data` handler was attached (response capture
      was on when the response arrived). */
  datatype Reply = Reply(status: int, statusText: string, headers: Headers, body: string, listening: bool)

  /** What the wrapper holds between events. */
  datatype Pending = Pending(requestBody: string, reply: Option<Reply>)

  const Fresh := Pending("", None)

  /** The events of one request. A chunk argument is `None` when it is `undefined`. */
  datatype Event =
    | Write(chunk: Option<string>)
    | End(chunk: Option<string>)
    | ResponseHead(statusCode: Option<int>, statusMessage: Option<string>, headers: Headers)
    | Data(piece: string)
    | ResponseEnd(endedAt: int)
    | Failure(message: string, endedAt: int)

  datatype StepResult = StepResult(pending: Pending, record: Option<NetworkRequest>)

  /** The request body as recorded: truncated when request capture is on, absent otherwise. */
  function RecordedRequestBody(rt: RuntimeCaptureConfig, p: Pending): (r: Option<string>)
    ensures r.Some? <==> rt.captureRequestBodies
    ensures r.Some? ==> r.value == Truncate(p.requestBody, rt.truncateBodyBytes)
  {
    if rt.captureRequestBodies then Some(Truncate(p.requestBody, rt.truncateBodyBytes)) else None
  }

  /** One event, handled under `rt`, the policy as it stands when the event arrives. */
  function Step(c: Call, p: Pending, e: Event, rt: RuntimeCaptureConfig): (r: StepResult)
    // writes: the body grows by exactly the defined chunk, and only while capture is on
    ensures (e.Write? || e.End?) ==>
      && r.record.None? && r.pending.reply == p.reply
      && r.pending.requestBody ==
           (if rt.captureRequestBodies && e.chunk.Some? then p.requestBody + e.chunk.value else p.requestBody)
    // a response starts with an empty body and the redacted headers; data is
    // listened for only if response capture is on at this moment
    ensures e.ResponseHead? ==>
      && r.record.None? && r.pending.requestBody == p.requestBody
      && r.pending.reply == Some(Reply(if e.statusCode.Some? then e.statusCode.value else 0,
                                       if e.statusMessage.Some? then e.statusMessage.value else "",
                                       RedactRecord(e.headers, rt.redactHeaders), "",
                                       rt.captureResponseBodies))
    // data only matters once a handler is listening; the limit is read per chunk
    ensures e.Data? ==>
      && r.record.None? && r.pending.requestBody == p.requestBody
      && (p.reply.None? || !p.reply.value.listening ==> r.pending == p)
      && (p.reply.Some? && p.reply.value.listening ==>
            r.pending.reply == Some(p.reply.value.(body := AppendCapped(p.reply.value.body, e.piece, rt.truncateBodyBytes))))
    // the end of a response emits the success record, with both bodies decided now
    ensures e.ResponseEnd? ==>
      && r.pending == p
      && (r.record.Some? <==> p.reply.Some?)
      && (r.record.Some? ==>
            var rec := r.record.value;
            && rec.status == p.reply.value.status && rec.statusText == p.reply.value.statusText
            && rec.responseHeaders == p.reply.value.headers
            && rec.responseBody ==
                 (if rt.captureResponseBodies
                  then Some(Truncate(p.reply.value.body, rt.truncateBodyBytes)) else None)
            && rec.error.None?)
    // a failure emits the error record
    ensures e.Failure? ==>
      && r.pending == p && r.record.Some?
      && var rec := r.record.value;
         && rec.status == 0 && rec.statusText == "Failed" && rec.responseHeaders == map[]
         && rec.responseBody.None? && rec.error == Some(e.message)
    // every record carries the call's request side and the protocol as source
    ensures r.record.Some? ==>
      var rec := r.record.value;
      && (e.ResponseEnd? || e.Failure?)
      && rec.id == c.id && rec.timestamp == c.startedAt && rec.requestMethod == c.verb && rec.url == c.url
      && rec.requestHeaders == c.requestHeaders
      && rec.requestBody == RecordedRequestBody(rt, p)
      && rec.timing == Timing(c.startedAt, e.endedAt) && rec.duration == e.endedAt - c.startedAt
      && rec.source == SourceOf(c.protocol)
  {
    match e
    case Write(chunk) =>
      StepResult(p.(requestBody := if rt.captureRequestBodies && chunk.Some? then p.requestBody + chunk.value
                                   else p.requestBody), None)
    case End(chunk) =>
      StepResult(p.(requestBody := if rt.captureRequestBodies && chunk.Some? then p.requestBody + chunk.value
                                   else p.requestBody), None)
    case ResponseHead(code, message, headers) =>
      var reply := Reply(if code.Some? then code.value else 0, if message.Some? then message.value else "",
                         RedactRecord(headers, rt.redactHeaders), "", rt.captureResponseBodies);
      StepResult(p.(reply := Some(reply)), None)
    case Data(chunk) =>
      if p.reply.Some? && p.reply.value.listening then
        var reply := p.reply.value;
        StepResult(p.(reply := Some(reply.(body := AppendCapped(reply.body, chunk, rt.truncateBodyBytes)))), None)
      else StepResult(p, None)
    case ResponseEnd(endedAt) =>
      if p.reply.None? then StepResult(p, None)
      else
        var reply := p.reply.value;
        var rec := NetworkRequest(
          c.id, c.startedAt, c.verb, c.url, reply.status, reply.statusText, endedAt - c.startedAt,
          c.requestHeaders, RecordedRequestBody(rt, p), reply.headers,
          if rt.captureResponseBodies then Some(Truncate(reply.body, rt.truncateBodyBytes)) else None,
          Timing(c.startedAt, endedAt), None, SourceOf(c.protocol));
        StepResult(p, Some(rec))
    case Failure(message, endedAt) =>
      var rec := NetworkRequest(
        c.id, c.startedAt, c.verb, c.url, 0, "Failed", endedAt - c.startedAt,
        c.requestHeaders, RecordedRequestBody(rt, p), map[], None,
        Timing(c.startedAt, endedAt), Some(message), SourceOf(c.protocol));
      StepResult(p, Some(rec))
  }

  /** An event together with the policy in force when it arrives. */
  datatype Tick = Tick(event: Event, policy: RuntimeCaptureConfig)

  /** A whole event sequence: the final pending state and every record emitted, in order. */
  datatype RunResult = RunResult(pending: Pending, records: seq<NetworkRequest>)

  function Run(c: Call, ticks: seq<Tick>): (r: RunResult)
    ensures |r.records| <= |ticks|
  {
    if |ticks| == 0 then RunResult(Fresh, [])
    else
      var prev := Run(c, ticks[..|ticks| - 1]);
      var t := ticks[|ticks| - 1];
      var s := Step(c, prev.pending, t.event, t.policy);
      RunResult(s.pending, prev.records + (if s.record.Some? then [s.record.value] else []))
  }

  lemma RunSnoc(c: Call, ticks: seq<Tick>, t: Tick)
    ensures
      var pre := Run(c, ticks);
      var s := Step(c, pre.pending, t.event, t.policy);
      Run(c, ticks + [t]) == RunResult(s.pending, pre.records + (if s.record.Some? then [s.record.value] else []))
  {
    assert (ticks + [t])[..|ticks|] == ticks;
  }

  /** Response data arriving under policy `rt`. */
  function DataEvents(chunks: seq<string>, rt: RuntimeCaptureConfig): (r: seq<Tick>)
    ensures |r| == |chunks|
    ensures forall i :: 0 <= i < |chunks| ==> r[i] == Tick(Data(chunks[i]), rt)
  {
    seq(|chunks|, i requires 0 <= i < |chunks| => Tick(Data(chunks[i]), rt))
  }

  /** After a response head and some data under one policy with response
      capture on, the reply holds the capped accumulation. */
  lemma {:induction false} ReplyAccumulates(c: Call, head: Event, chunks: seq<string>, rt: RuntimeCaptureConfig)
    requires head.ResponseHead? && rt.captureResponseBodies
    ensures var p := Run(c, [Tick(head, rt)] + DataEvents(chunks, rt)).pending;
      && p.reply.Some? && p.reply.value.body == Accumulated(chunks, rt.truncateBodyBytes)
      && p.reply.value.status == (if head.statusCode.Some? then head.statusCode.value else 0)
      && p.reply.value.listening
      && p.requestBody == ""
    ensures Run(c, [Tick(head, rt)] + DataEvents(chunks, rt)).records == []
  {
    if |chunks| == 0 {
      assert [Tick(head, rt)] + DataEvents(chunks, rt) == [Tick(head, rt)];
      assert [Tick(head, rt)][..0] == [];
    } else {
      var init := chunks[..|chunks| - 1];
      ReplyAccumulates(c, head, init, rt);
      var ticks := [Tick(head, rt)] + DataEvents(chunks, rt);
      assert ticks[..|ticks| - 1] == [Tick(head, rt)] + DataEvents(init, rt);
      assert ticks[|ticks| - 1] == Tick(Data(chunks[|chunks| - 1]), rt);
    }
  }

  /** A response received in full under one policy with response capture on:
      the recorded body is the truncation of everything the server sent,
      whatever the limit cut off on the way. */
  lemma ResponseRecordedBody(c: Call, code: Option<int>, message: Option<string>, headers: Headers,
                             chunks: seq<string>, endedAt: int, rt: RuntimeCaptureConfig)
    requires rt.captureResponseBodies
    ensures
      var r := Run(c, [Tick(ResponseHead(code, message, headers), rt)] + DataEvents(chunks, rt)
                      + [Tick(ResponseEnd(endedAt), rt)]);
      && |r.records| == 1
      && r.records[0].responseBody == Some(Truncate(Flatten(chunks), rt.truncateBodyBytes))
      && r.records[0].status == (if code.Some? then code.value else 0)
  {
    var head := ResponseHead(code, message, headers);
    var prefix := [Tick(head, rt)] + DataEvents(chunks, rt);
    var pre := Run(c, prefix);
    ReplyAccumulates(c, head, chunks, rt);
    var last := Step(c, pre.pending, ResponseEnd(endedAt), rt);
    RunSnoc(c, prefix, Tick(ResponseEnd(endedAt), rt));
    assert last.record.value.responseBody == Some(Truncate(Accumulated(chunks, rt.truncateBodyBytes), rt.truncateBodyBytes));
    RecordedBodyIsTruncatedWhole(chunks, rt.truncateBodyBytes);
  }

  /** Response capture switched on only after the response arrived: no data
      handler was attached, so the record carries an empty body, not the
      server's text. */
  lemma CaptureTurnedOnLate(c: Call, code: Option<int>, message: Option<string>, headers: Headers,
                            piece: string, endedAt: int, off: RuntimeCaptureConfig, on: RuntimeCaptureConfig)
    requires !off.captureResponseBodies && on.captureResponseBodies
    ensures
      var r := Run(c, [Tick(ResponseHead(code, message, headers), off), Tick(Data(piece), on),
                       Tick(ResponseEnd(endedAt), on)]);
      |r.records| == 1 && r.records[0].responseBody == Some(Truncate("", on.truncateBodyBytes))
  {
    var ticks := [Tick(ResponseHead(code, message, headers), off), Tick(Data(piece), on),
                  Tick(ResponseEnd(endedAt), on)];
    assert ticks[..2][..1] == [ticks[0]];
    assert [ticks[0]][..0] == [];
    assert ticks[..2] == [ticks[0]] + [ticks[1]];
    RunSnoc(c, [], ticks[0]);
    assert [] + [ticks[0]] == [ticks[0]];
    RunSnoc(c, [ticks[0]], ticks[1]);
    RunSnoc(c, ticks[..2], ticks[2]);
    assert ticks[..2] + [ticks[2]] == ticks;
  }

  /** Writes to the request under policy `rt`. */
  function WriteEvents(chunks: seq<Option<string>>, rt: RuntimeCaptureConfig): (r: seq<Tick>)
    ensures |r| == |chunks|
    ensures forall i :: 0 <= i < |chunks| ==> r[i] == Tick(Write(chunks[i]), rt)
  {
    seq(|chunks|, i requires 0 <= i < |chunks| => Tick(Write(chunks[i]), rt))
  }

  /** The defined chunks, in order. */
  function Defined(chunks: seq<Option<string>>): seq<string> {
    if |chunks| == 0 then []
    else
      var init := Defined(chunks[..|chunks| - 1]);
      var last := chunks[|chunks| - 1];
      if last.Some? then init + [last.value] else init
  }

  /** With request capture on, the request body is every defined chunk written,
      in order; with it off, it stays empty. */
  lemma {:induction false} RequestBodyAccumulates(c: Call, chunks: seq<Option<string>>, rt: RuntimeCaptureConfig)
    ensures var p := Run(c, WriteEvents(chunks, rt)).pending;
      && p.requestBody == (if rt.captureRequestBodies then Flatten(Defined(chunks)) else "")
      && p.reply.None?
  {
    if |chunks| > 0 {
      var init := chunks[..|chunks| - 1];
      RequestBodyAccumulates(c, init, rt);
      var ticks := WriteEvents(chunks, rt);
      assert ticks[..|ticks| - 1] == WriteEvents(init, rt);
      var d := Defined(init);
      if chunks[|chunks| - 1].Some? {
        var withLast := d + [chunks[|chunks| - 1].value];
        assert withLast[..|withLast| - 1] == d;
      }
    }
  }

  lemma {:induction false} WritesRecordNothing(c: Call, chunks: seq<Option<string>>, rt: RuntimeCaptureConfig)
    ensures Run(c, WriteEvents(chunks, rt)).records == []
  {
    if |chunks| > 0 {
      var init := chunks[..|chunks| - 1];
      WritesRecordNothing(c, init, rt);
      var ticks := WriteEvents(chunks, rt);
      assert ticks[..|ticks| - 1] == WriteEvents(init, rt);
    }
  }

  /** A request that fails before any response is recorded as failed, with
      status 0, no response headers and the error's message. */
  lemma FailureBeforeResponse(c: Call, chunks: seq<Option<string>>, message: string, endedAt: int,
                              rt: RuntimeCaptureConfig, atFailure: RuntimeCaptureConfig)
    ensures
      var r := Run(c, WriteEvents(chunks, rt) + [Tick(Failure(message, endedAt), atFailure)]);
      && |r.records| == 1
      && r.records[0].status == 0 && r.records[0].statusText == "Failed"
      && r.records[0].responseHeaders == map[] && r.records[0].error == Some(message)
      && r.records[0].source == SourceOf(c.protocol)
  {
    var ticks := WriteEvents(chunks, rt) + [Tick(Failure(message, endedAt), atFailure)];
    assert ticks[..|ticks| - 1] == WriteEvents(chunks, rt);
    assert ticks[|ticks| - 1] == Tick(Failure(message, endedAt), atFailure);
    var pre := Run(c, WriteEvents(chunks, rt));
    WritesRecordNothing(c, chunks, rt);
    var last := Step(c, pre.pending, Failure(message, endedAt), atFailure);
    assert Run(c, ticks) == RunResult(last.pending, pre.records + [last.record.value]);
  }

  // ---- installation ---------------------------------------------------------------------

  /** Whether `http.request` and `https.request` currently run the wrapper. */
  datatype Hooks = Hooks(httpPatched: bool, httpsPatched: bool)

  function Install(): (h: Hooks)
    ensures h.httpPatched && h.httpsPatched
  {
    Hooks(true, true)
  }

  /** The returned restore puts back both original request functions. */
  function Restore(h: Hooks): (r: Hooks)
    ensures !r.httpPatched && !r.httpsPatched
  {
    Hooks(false, false)
  }
}

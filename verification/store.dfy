/** The observer UI's store: its reducers (pause-aware appends, clears,
    status and policy application) and the two pure list filters, including
    the rule that collapses consecutive duplicate log entries. The clock is
    a parameter. */
module Store {
  import opened Common
  import opened Text
  import opened Types

  // ---- state -----------------------------------------------------------------------

  datatype TimeRange = AllTime | Last5m | Last15m | Last1h

  datatype StatusRange = AnyStatus | Status2xx | Status3xx | Status4xx | Status5xx

  datatype Filters = Filters(
    logQuery: string,
    logLevels: seq<LogLevel>,
    logTimeRange: TimeRange,
    collapseLogs: bool,
    networkQuery: string,
    networkMethods: seq<string>,
    networkStatus: StatusRange,
    networkMinLatency: int)

  datatype Theme = Dark | Light | System

  datatype Settings = Settings(
    wsUrl: string,
    theme: Theme,
    captureRequestBodies: bool,
    captureResponseBodies: bool,
    truncateBodyBytes: int,
    redactHeaders: string)

  datatype Tab = ConsoleTab | NetworkTab | SettingsTab

  datatype AppState = AppState(
    connected: bool,
    logs: seq<LogEntry>,
    requests: seq<NetworkRequest>,
    pauseLogs: bool,
    pauseNetwork: bool,
    selectedRequestId: Option<string>,
    selectedLogId: Option<string>,
    activeTab: Tab,
    filters: Filters,
    settings: Settings)

  const DefaultFilters := Filters("", [Log, Info, Warn, Error, Debug], AllTime, true, "",
                                  ["GET", "POST", "PUT", "DELETE", "PATCH", "HEAD", "OPTIONS", "UNKNOWN"],
                                  AnyStatus, 0)

  const DefaultSettings := Settings("ws://127.0.0.1:3001", Dark, true, true, 1000000,
                                    "authorization,cookie,set-cookie")

  const Initial := AppState(false, [], [], false, false, None, None, ConsoleTab, DefaultFilters, DefaultSettings)

  // ---- reducers ----------------------------------------------------------------------

  function SetConnected(s: AppState, connected: bool): (r: AppState)
    ensures r.connected == connected
    ensures r.(connected := s.connected) == s
  {
    s.(connected := connected)
  }

  /** Replace both lists wholesale; pause flags do not apply. */
  function SetBatch(s: AppState, logs: seq<LogEntry>, requests: seq<NetworkRequest>): (r: AppState)
    ensures r.logs == logs && r.requests == requests
    ensures r.(logs := s.logs, requests := s.requests) == s
  {
    s.(logs := logs, requests := requests)
  }

  /** Append at the end, unless logs are paused. */
  function AddLog(s: AppState, e: LogEntry): (r: AppState)
    ensures s.pauseLogs ==> r == s
    ensures !s.pauseLogs ==> r.logs == s.logs + [e] && r.(logs := s.logs) == s
  {
    if s.pauseLogs then s else s.(logs := s.logs + [e])
  }

  function AddRequest(s: AppState, q: NetworkRequest): (r: AppState)
    ensures s.pauseNetwork ==> r == s
    ensures !s.pauseNetwork ==> r.requests == s.requests + [q] && r.(requests := s.requests) == s
  {
    if s.pauseNetwork then s else s.(requests := s.requests + [q])
  }

  /** Empty the logs and drop the log selection; nothing else changes. */
  function ClearLogs(s: AppState): (r: AppState)
    ensures r.logs == [] && r.selectedLogId.None?
    ensures r.(logs := s.logs, selectedLogId := s.selectedLogId) == s
  {
    s.(logs := [], selectedLogId := None)
  }

  function ClearNetwork(s: AppState): (r: AppState)
    ensures r.requests == [] && r.selectedRequestId.None?
    ensures r.(requests := s.requests, selectedRequestId := s.selectedRequestId) == s
  {
    s.(requests := [], selectedRequestId := None)
  }

  function SetStatus(s: AppState, st: Status): (r: AppState)
    ensures r.pauseLogs == st.pausedLogs && r.pauseNetwork == st.pausedNetwork
    ensures r.(pauseLogs := s.pauseLogs, pauseNetwork := s.pauseNetwork) == s
  {
    s.(pauseLogs := st.pausedLogs, pauseNetwork := st.pausedNetwork)
  }

  /** Copy the four capture settings; the header list is stored comma-joined.
      The socket URL and theme are untouched. */
  function ApplyRuntimeConfig(s: AppState, c: RuntimeCaptureConfig): (r: AppState)
    ensures r.settings.captureRequestBodies == c.captureRequestBodies
    ensures r.settings.captureResponseBodies == c.captureResponseBodies
    ensures r.settings.truncateBodyBytes == c.truncateBodyBytes
    ensures r.settings.redactHeaders == Join(c.redactHeaders, ",")
    ensures r.settings.wsUrl == s.settings.wsUrl && r.settings.theme == s.settings.theme
    ensures r.(settings := s.settings) == s
  {
    s.(settings := s.settings.(captureRequestBodies := c.captureRequestBodies,
                               captureResponseBodies := c.captureResponseBodies,
                               truncateBodyBytes := c.truncateBodyBytes,
                               redactHeaders := Join(c.redactHeaders, ",")))
  }

  /** Re-applying the same runtime policy changes nothing further. */
  lemma ApplyRuntimeConfigIdempotent(s: AppState, c: RuntimeCaptureConfig)
    ensures ApplyRuntimeConfig(ApplyRuntimeConfig(s, c), c) == ApplyRuntimeConfig(s, c)
  {
  }

  /** Paused appends are dropped; appends after resuming land at the end. */
  lemma PausedAppendDropped(s: AppState, dropped: LogEntry, kept: LogEntry)
    ensures
      var paused := SetStatus(s, Status(true, s.pauseNetwork));
      var resumed := SetStatus(AddLog(paused, dropped), Status(false, s.pauseNetwork));
      AddLog(resumed, kept).logs == s.logs + [kept]
  {
  }

  // ---- filterLogs --------------------------------------------------------------------

  /** The earliest timestamp a time range admits. */
  function MinTimestamp(range: TimeRange, now: int): (m: int)
    ensures range == AllTime ==> m == 0
    ensures range == Last5m ==> now - m == 5 * 60000
    ensures range == Last15m ==> now - m == 15 * 60000
    ensures range == Last1h ==> now - m == 60 * 60000
  {
    match range
    case AllTime => 0
    case Last5m => now - 5 * 60000
    case Last15m => now - 15 * 60000
    case Last1h => now - 60 * 60000
  }

  /** The query as matched: lower-cased, then trimmed. */
  function NormalizeQuery(q: string): string {
    Trim(ToLower(q))
  }

  /** An empty query matches everything; otherwise the lower-cased text must contain it. */
  predicate Matches(text: string, query: string) {
    query == "" || Contains(ToLower(text), query)
  }

  predicate KeepLog(f: Filters, now: int, e: LogEntry) {
    && e.level in f.logLevels
    && e.timestamp >= MinTimestamp(f.logTimeRange, now)
    && Matches(e.message, NormalizeQuery(f.logQuery))
  }

  /** `countCollapsed`: the N of a trailing "(xN)", or 1 when there is none. */
  function CountCollapsed(message: string): (n: nat)
    ensures n != 1 ==> |message| >= 4 && message[|message| - 1] == ')'
  {
    if |message| >= 1 && message[|message| - 1] == ')' then
      var body := message[..|message| - 1];
      var d := TrailingDigits(body);
      var pre := body[..|body| - |d|];
      if |d| >= 1 && |pre| >= 2 && pre[|pre| - 2..] == "(x" then FromDigits(d, 10) else 1
    else 1
  }

  /** The longest run of decimal digits at the end of `s`. */
  function TrailingDigits(s: string): (d: string)
    ensures |d| <= |s| && d == s[|s| - |d|..]
    ensures forall k :: 0 <= k < |d| ==> IsDecimalDigit(d[k])
    ensures |d| < |s| ==> !IsDecimalDigit(s[|s| - |d| - 1])
  {
    if |s| == 0 || !IsDecimalDigit(s[|s| - 1]) then ""
    else TrailingDigits(s[..|s| - 1]) + [s[|s| - 1]]
  }

  /** The suffix the collapse rule writes after a message. */
  function CountSuffix(n: nat): string {
    " (x" + Decimal(n) + ")"
  }

  /** Reading back a written count gives the count. */
  lemma CountCollapsedOfSuffix(m: string, n: nat)
    ensures CountCollapsed(m + CountSuffix(n)) == n
  {
    var digits := Decimal(n);
    var pre := m + " (x";
    assert m + CountSuffix(n) == pre + digits + ")";
    CountCollapsedReads(pre, digits);
    DigitsRoundTrip(n, 10);
  }

  /** A message ending in "(x" + digits + ")" counts as the digits' value. */
  lemma CountCollapsedReads(pre: string, digits: string)
    requires |pre| >= 2 && pre[|pre| - 2..] == "(x"
    requires |digits| >= 1 && forall k :: 0 <= k < |digits| ==> IsDecimalDigit(digits[k])
    ensures CountCollapsed(pre + digits + ")") == FromDigits(digits, 10)
  {
    var body := pre + digits;
    var message := body + ")";
    assert message[..|message| - 1] == body;
    assert pre[|pre| - 1] == 'x';
    TrailingDigitsOfTail(pre, digits);
    assert body[..|body| - |digits|] == pre;
  }

  lemma TrailingDigitsOfTail(pre: string, digits: string)
    requires |pre| >= 1 && !IsDecimalDigit(pre[|pre| - 1])
    requires forall k :: 0 <= k < |digits| ==> IsDecimalDigit(digits[k])
    ensures TrailingDigits(pre + digits) == digits
    decreases |digits|
  {
    if |digits| == 0 {
      assert pre + digits == pre;
    } else {
      var init := digits[..|digits| - 1];
      TrailingDigitsOfTail(pre, init);
      assert (pre + digits)[..|pre + digits| - 1] == pre + init;
    }
  }

  /** One step of the collapse loop: an entry whose hash equals the previous
      result's folds into it, rewriting the previous message as this entry's
      message plus the incremented count; any other entry is appended as a copy. */
  function CollapseInto(acc: seq<LogEntry>, e: LogEntry): (r: seq<LogEntry>)
    ensures |acc| > 0 && acc[|acc| - 1].hash == e.hash ==>
      && |r| == |acc| && r[..|acc| - 1] == acc[..|acc| - 1]
      && r[|acc| - 1] == acc[|acc| - 1].(message := e.message + CountSuffix(CountCollapsed(acc[|acc| - 1].message) + 1))
    ensures !(|acc| > 0 && acc[|acc| - 1].hash == e.hash) ==> r == acc + [e]
  {
    if |acc| > 0 && acc[|acc| - 1].hash == e.hash then
      var prev := acc[|acc| - 1];
      acc[..|acc| - 1] + [prev.(message := e.message + CountSuffix(CountCollapsed(prev.message) + 1))]
    else acc + [e]
  }

  predicate NoAdjacentDuplicates(s: seq<LogEntry>) {
    forall i :: 0 <= i < |s| - 1 ==> s[i].hash != s[i + 1].hash
  }

  /** The collapsed list: no two neighbours share a hash, it is never longer
      than the input, and the last entry keeps the hash of the input's last. */
  function Collapse(s: seq<LogEntry>): (r: seq<LogEntry>)
    ensures NoAdjacentDuplicates(r)
    ensures |r| <= |s|
    ensures |s| > 0 <==> |r| > 0
    ensures |s| > 0 ==> r[|r| - 1].hash == s[|s| - 1].hash
  {
    if |s| == 0 then []
    else CollapseInto(Collapse(s[..|s| - 1]), s[|s| - 1])
  }

  /** A list with no neighbouring duplicates is left exactly as it is. */
  lemma {:induction false} CollapseIdentity(s: seq<LogEntry>)
    requires NoAdjacentDuplicates(s)
    ensures Collapse(s) == s
  {
    if |s| > 0 {
      var init := s[..|s| - 1];
      assert NoAdjacentDuplicates(init);
      CollapseIdentity(init);
      assert s == init + [s[|s| - 1]];
    }
  }

  predicate SameHash(run: seq<LogEntry>) {
    forall i :: 0 <= i < |run| ==> run[i].hash == run[0].hash
  }

  /** A run of k >= 2 entries sharing a hash becomes one entry: the first
      entry's copy with the last entry's message and " (xk)", provided the
      first message carries no count of its own. */
  lemma {:induction false} CollapseRun(run: seq<LogEntry>)
    requires |run| >= 1 && SameHash(run)
    requires CountCollapsed(run[0].message) == 1
    ensures Collapse(run) == [run[0].(message := if |run| == 1 then run[0].message
                                                  else run[|run| - 1].message + CountSuffix(|run|))]
  {
    if |run| == 1 {
      assert run[..0] == [];
    } else {
      var init := run[..|run| - 1];
      assert SameHash(init);
      CollapseRun(init);
      var m0 := if |init| == 1 then run[0].message else run[|run| - 2].message + CountSuffix(|init|);
      if |init| > 1 {
        CountCollapsedOfSuffix(run[|run| - 2].message, |init|);
      }
      CollapseRunStep(run, m0);
    }
  }

  lemma CollapseRunStep(run: seq<LogEntry>, m0: string)
    requires |run| >= 2 && run[0].hash == run[|run| - 1].hash
    requires Collapse(run[..|run| - 1]) == [run[0].(message := m0)]
    requires CountCollapsed(m0) == |run| - 1
    ensures Collapse(run) == [run[0].(message := run[|run| - 1].message + CountSuffix(|run|))]
  {
    var acc := Collapse(run[..|run| - 1]);
    var last := run[|run| - 1];
    assert Collapse(run) == CollapseInto(acc, last);
    assert acc[|acc| - 1].message == m0;
  }

  /** `filterLogs`: the entries passing the level, time and text filters, in
      order, then collapsed when collapsing is on. */
  function FilterLogs(logs: seq<LogEntry>, f: Filters, now: int): (r: seq<LogEntry>)
    ensures !f.collapseLogs ==> r == Filter(logs, e => KeepLog(f, now, e))
    ensures f.collapseLogs ==> r == Collapse(Filter(logs, e => KeepLog(f, now, e)))
  {
    var filtered := Filter(logs, e => KeepLog(f, now, e));
    if f.collapseLogs then Collapse(filtered) else filtered
  }

  /** With collapsing off, the result is exactly the entries that pass, in input order. */
  lemma FilterLogsExact(logs: seq<LogEntry>, f: Filters, now: int)
    requires !f.collapseLogs
    ensures forall i :: 0 <= i < |FilterLogs(logs, f, now)| ==>
      FilterLogs(logs, f, now)[i] in logs && KeepLog(f, now, FilterLogs(logs, f, now)[i])
    ensures forall i :: 0 <= i < |logs| && KeepLog(f, now, logs[i]) ==> logs[i] in FilterLogs(logs, f, now)
  {
  }

  /** Order is preserved: filtering a concatenation filters each part in turn. */
  lemma FilterLogsAppend(a: seq<LogEntry>, b: seq<LogEntry>, f: Filters, now: int)
    requires !f.collapseLogs
    ensures FilterLogs(a + b, f, now) == FilterLogs(a, f, now) + FilterLogs(b, f, now)
  {
    FilterAppend(a, b, e => KeepLog(f, now, e));
  }

  /** With every level selected, the full time range and an empty query,
      nothing is filtered out. */
  lemma DefaultLogFilterKeepsAll(logs: seq<LogEntry>, now: int)
    requires forall i :: 0 <= i < |logs| ==> logs[i].timestamp >= 0
    ensures FilterLogs(logs, DefaultFilters.(collapseLogs := false), now) == logs
  {
    var f := DefaultFilters.(collapseLogs := false);
    assert NormalizeQuery(f.logQuery) == "";
    forall i | 0 <= i < |logs| ensures KeepLog(f, now, logs[i]) {
      var l := logs[i].level;
      assert l in f.logLevels by {
        match l
        case Log => assert f.logLevels[0] == l;
        case Info => assert f.logLevels[1] == l;
        case Warn => assert f.logLevels[2] == l;
        case Error => assert f.logLevels[3] == l;
        case Debug => assert f.logLevels[4] == l;
      }
    }
    FilterAll(logs, e => KeepLog(f, now, e));
  }

  // ---- filterNetwork -------------------------------------------------------------------

  /** The status buckets; 5xx is every status from 500 up. */
  predicate InBucket(status: int, range: StatusRange) {
    match range
    case AnyStatus => true
    case Status2xx => 200 <= status < 300
    case Status3xx => 300 <= status < 400
    case Status4xx => 400 <= status < 500
    case Status5xx => status >= 500
  }

  /** A failed request (status 0) shows only under "all". */
  lemma FailedOnlyUnderAll(range: StatusRange)
    ensures InBucket(0, range) <==> range == AnyStatus
  {
  }

  /** Each status belongs to at most one specific bucket. */
  lemma BucketsDisjoint(status: int, a: StatusRange, b: StatusRange)
    requires a != AnyStatus && b != AnyStatus && a != b
    ensures !(InBucket(status, a) && InBucket(status, b))
  {
  }

  predicate KeepRequest(f: Filters, q: NetworkRequest) {
    && MethodName(q.requestMethod) in f.networkMethods
    && Matches(q.url, NormalizeQuery(f.networkQuery))
    && q.duration >= f.networkMinLatency
    && InBucket(q.status, f.networkStatus)
  }

  /** `filterNetwork`: the requests passing all four filters, in order. */
  function FilterNetwork(requests: seq<NetworkRequest>, f: Filters): (r: seq<NetworkRequest>)
    ensures |r| <= |requests|
    ensures forall i :: 0 <= i < |r| ==> r[i] in requests && KeepRequest(f, r[i])
    ensures forall i :: 0 <= i < |requests| && KeepRequest(f, requests[i]) ==> requests[i] in r
  {
    Filter(requests, q => KeepRequest(f, q))
  }

  /** Order is preserved: filtering a concatenation filters each part in turn. */
  lemma FilterNetworkAppend(a: seq<NetworkRequest>, b: seq<NetworkRequest>, f: Filters)
    ensures FilterNetwork(a + b, f) == FilterNetwork(a, f) + FilterNetwork(b, f)
  {
    FilterAppend(a, b, q => KeepRequest(f, q));
  }

  /** Narrowing the status filter to 5xx keeps a 503 and a 599 but drops a 404. */
  lemma ServerErrorBucket()
    ensures InBucket(503, Status5xx) && InBucket(599, Status5xx) && InBucket(700, Status5xx)
    ensures !InBucket(404, Status5xx)
  {
  }
}

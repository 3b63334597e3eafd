/** The observer's socket hook: how each server message is dispatched to the
    store, and the reconnect schedule with its capped exponential backoff.
    Timers are reduced to the delay they were scheduled with. */
module SocketClient {
  import opened Common
  import opened Types
  import opened Store

  // ---- onmessage ----------------------------------------------------------------------

  /** Apply one frame; `None` is a frame that does not parse. A `clear` with an
      unrecognised target and a `control` frame change nothing. */
  function Dispatch(app: AppState, msg: Option<WSMessage>): (r: AppState)
    ensures msg.None? ==> r == app
    ensures msg.Some? && msg.value.BatchMsg? ==> r == SetBatch(app, msg.value.logs, msg.value.requests)
    ensures msg.Some? && msg.value.LogMsg? ==> r == AddLog(app, msg.value.entry)
    ensures msg.Some? && msg.value.NetworkMsg? ==> r == AddRequest(app, msg.value.request)
    ensures msg.Some? && msg.value.ClearMsg? ==>
      && r.logs == (if msg.value.target in {LogsTarget, AllTarget} then [] else app.logs)
      && r.requests == (if msg.value.target in {NetworkTarget, AllTarget} then [] else app.requests)
      && r.selectedLogId == (if msg.value.target in {LogsTarget, AllTarget} then None else app.selectedLogId)
      && r.selectedRequestId == (if msg.value.target in {NetworkTarget, AllTarget} then None else app.selectedRequestId)
      && r.(logs := app.logs, requests := app.requests,
            selectedLogId := app.selectedLogId, selectedRequestId := app.selectedRequestId) == app
    ensures msg.Some? && msg.value.StatusMsg? ==> r == SetStatus(app, msg.value.status)
    ensures msg.Some? && msg.value.ConfigMsg? ==> r == ApplyRuntimeConfig(app, msg.value.config)
    ensures msg.Some? && msg.value.ControlMsg? ==> r == app
  {
    match msg
    case None => app
    case Some(m) =>
      match m
      case BatchMsg(logs, requests) => SetBatch(app, logs, requests)
      case LogMsg(e) => AddLog(app, e)
      case NetworkMsg(q) => AddRequest(app, q)
      case ClearMsg(target) =>
        var a1 := if target == LogsTarget || target == AllTarget then ClearLogs(app) else app;
        if target == NetworkTarget || target == AllTarget then ClearNetwork(a1) else a1
      case StatusMsg(st) => SetStatus(app, st)
      case ConfigMsg(c) => ApplyRuntimeConfig(app, c)
      case ControlMsg(_) => app
  }

  /** A stream of frames, applied in arrival order. */
  function Replay(app: AppState, msgs: seq<WSMessage>): AppState
    decreases |msgs|
  {
    if |msgs| == 0 then app else Replay(Dispatch(app, Some(msgs[0])), msgs[1..])
  }

  /** Replaying a stream in two parts is replaying it whole. */
  lemma {:induction false} ReplayAppend(app: AppState, a: seq<WSMessage>, b: seq<WSMessage>)
    ensures Replay(app, a + b) == Replay(Replay(app, a), b)
    decreases |a|
  {
    if |a| == 0 {
      assert a + b == b;
    } else {
      assert (a + b)[1..] == a[1..] + b;
      ReplayAppend(Dispatch(app, Some(a[0])), a[1..], b);
    }
  }

  /** A `clear` naming all targets empties both lists, whatever they held. */
  lemma ClearAllEmptiesBoth(app: AppState)
    ensures var r := Dispatch(app, Some(ClearMsg(AllTarget)));
      r.logs == [] && r.requests == [] && r.selectedLogId.None? && r.selectedRequestId.None?
  {
  }

  /** A batch after anything else leaves exactly the batch's lists. */
  lemma BatchOverrides(app: AppState, before: seq<WSMessage>, logs: seq<LogEntry>, requests: seq<NetworkRequest>)
    ensures var r := Replay(app, before + [BatchMsg(logs, requests)]);
      r.logs == logs && r.requests == requests
  {
    ReplayAppend(app, before, [BatchMsg(logs, requests)]);
  }

  // ---- reconnect backoff -------------------------------------------------------------------

  const InitialRetryMs := 2000
  const MaxBackoffMs := 30000

  /** The effect's local state: the next reconnect delay, whether the effect is
      still mounted, and the delay of the reconnect timer pending, if any. */
  datatype Backoff = Backoff(retryMs: int, active: bool, pending: Option<int>)
  {
    ghost predicate Valid() {
      && InitialRetryMs <= retryMs <= MaxBackoffMs
      && (pending.Some? ==> InitialRetryMs <= pending.value <= MaxBackoffMs)
    }
  }

  const Mounted := Backoff(InitialRetryMs, true, None)

  /** The socket opened: the delay resets. */
  function OnOpen(b: Backoff): (r: Backoff)
    ensures r.retryMs == InitialRetryMs && r.active == b.active && r.pending == b.pending
    ensures b.Valid() ==> r.Valid()
  {
    b.(retryMs := InitialRetryMs)
  }

  /** The socket closed: while mounted, a reconnect is scheduled after the
      current delay and the delay doubles up to the cap; once unmounted,
      nothing is scheduled. */
  function OnClose(b: Backoff): (r: Backoff)
    ensures !b.active ==> r == b
    ensures b.active ==> r.pending == Some(b.retryMs) && r.retryMs == Min(2 * b.retryMs, MaxBackoffMs)
    ensures r.active == b.active
    ensures b.Valid() ==> r.Valid()
  {
    if !b.active then b
    else b.(pending := Some(b.retryMs), retryMs := Min(b.retryMs * 2, MaxBackoffMs))
  }

  /** The reconnect timer fired. */
  function OnTimer(b: Backoff): (r: Backoff)
    ensures r.pending.None? && r.retryMs == b.retryMs && r.active == b.active
  {
    b.(pending := None)
  }

  /** The effect's cleanup: unmount and cancel the pending timer. */
  function Teardown(b: Backoff): (r: Backoff)
    ensures !r.active && r.pending.None? && r.retryMs == b.retryMs
  {
    b.(active := false, pending := None)
  }

  function Pow2(k: nat): (p: nat)
    ensures p >= 1
  {
    if k == 0 then 1 else 2 * Pow2(k - 1)
  }

  /** k closes in a row, with no open between them. */
  function Closes(b: Backoff, k: nat): Backoff {
    if k == 0 then b else OnClose(Closes(b, k - 1))
  }

  /** From a fresh mount, the delay after k failed attempts is 2000 * 2^k, capped at 30000. */
  lemma {:induction false} BackoffAfterCloses(k: nat)
    ensures Closes(Mounted, k).retryMs == Min(InitialRetryMs * Pow2(k), MaxBackoffMs)
    ensures Closes(Mounted, k).active
  {
    if k > 0 {
      BackoffAfterCloses(k - 1);
    }
  }

  /** After teardown no close schedules a reconnect. */
  lemma {:induction false} NoReconnectAfterTeardown(b: Backoff, k: nat)
    ensures Closes(Teardown(b), k) == Teardown(b)
  {
    if k > 0 {
      NoReconnectAfterTeardown(b, k - 1);
    }
  }

  /** What happens to the effect over time. */
  datatype SocketEvent = Opened | Closed | TimerFired | Unmounted

  function OnEvent(b: Backoff, e: SocketEvent): Backoff {
    match e
    case Opened => OnOpen(b)
    case Closed => OnClose(b)
    case TimerFired => OnTimer(b)
    case Unmounted => Teardown(b)
  }

  function Drive(b: Backoff, events: seq<SocketEvent>): Backoff
    decreases |events|
  {
    if |events| == 0 then b else Drive(OnEvent(b, events[0]), events[1..])
  }

  /** Whatever sequence of opens, closes, timer firings and teardowns, the
      delay stays between the initial delay and the cap. */
  lemma {:induction false} BackoffStaysBounded(b: Backoff, events: seq<SocketEvent>)
    requires b.Valid()
    ensures Drive(b, events).Valid()
    decreases |events|
  {
    if |events| > 0 {
      BackoffStaysBounded(OnEvent(b, events[0]), events[1..]);
    }
  }
}

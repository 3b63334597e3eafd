/** The collector: two bounded histories (logs and network requests), two
    pause flags, and the notifications each operation emits to its
    listeners, in emission order. */
module DataCollector {
  import opened Common
  import opened Types
  import CB = CircularBuffer

  datatype State = State(
    logs: CB.Buffer<LogEntry>,
    requests: CB.Buffer<NetworkRequest>,
    pausedLogs: bool,
    pausedNetwork: bool)
  {
    ghost predicate Valid() {
      logs.Valid() && requests.Valid()
    }

    /** The log history, oldest first, within the log capacity. */
    function GetLogs(): (r: seq<LogEntry>)
      ensures Valid() ==> |r| <= logs.maxSize
    {
      logs.ToArray()
    }

    /** The request history, oldest first, within the request capacity. */
    function GetRequests(): (r: seq<NetworkRequest>)
      ensures Valid() ==> |r| <= requests.maxSize
    {
      requests.ToArray()
    }

    /** The two pause flags, as sent to observers. */
    function GetStatus(): (r: Status)
      ensures r.pausedLogs == pausedLogs && r.pausedNetwork == pausedNetwork
    {
      Status(pausedLogs, pausedNetwork)
    }
  }

  /** A new state after an operation, with what the operation emitted. */
  datatype Transition = Transition(state: State, notes: seq<Note>)

  /** Both histories empty, neither channel paused. */
  function New(maxLogs: int, maxRequests: int): (s: State)
    ensures s.Valid()
    ensures s.GetLogs() == [] && s.GetRequests() == []
    ensures s.logs.maxSize == Max(1, maxLogs) && s.requests.maxSize == Max(1, maxRequests)
    ensures s.GetStatus() == Status(false, false)
  {
    State(CB.New(maxLogs), CB.New(maxRequests), false, false)
  }

  function AddLog(s: State, e: LogEntry): (t: Transition)
    ensures s.Valid() ==> t.state.Valid()
    ensures s.pausedLogs ==> t.state == s && t.notes == []
    ensures !s.pausedLogs ==> t.notes == [LogAdded(e)]
    ensures !s.pausedLogs && s.Valid() ==>
      t.state.GetLogs() == Last(s.GetLogs() + [e], s.logs.maxSize)
    ensures t.state.logs.maxSize == s.logs.maxSize
    ensures t.state.requests == s.requests && t.state.GetStatus() == s.GetStatus()
  {
    if s.pausedLogs then Transition(s, [])
    else
      Transition(s.(logs := s.logs.Push(e)), [LogAdded(e)])
  }

  function AddNetwork(s: State, r: NetworkRequest): (t: Transition)
    ensures s.Valid() ==> t.state.Valid()
    ensures s.pausedNetwork ==> t.state == s && t.notes == []
    ensures !s.pausedNetwork ==> t.notes == [NetworkAdded(r)]
    ensures !s.pausedNetwork && s.Valid() ==>
      t.state.GetRequests() == Last(s.GetRequests() + [r], s.requests.maxSize)
    ensures t.state.requests.maxSize == s.requests.maxSize
    ensures t.state.logs == s.logs && t.state.GetStatus() == s.GetStatus()
  {
    if s.pausedNetwork then Transition(s, [])
    else
      Transition(s.(requests := s.requests.Push(r)), [NetworkAdded(r)])
  }

  predicate ClearsLogs(target: ClearTarget) { target == LogsTarget || target == AllTarget }

  predicate ClearsNetwork(target: ClearTarget) { target == NetworkTarget || target == AllTarget }

  /** Empty the named histories; an unrecognised target empties nothing but is still announced. */
  function Clear(s: State, target: ClearTarget): (t: Transition)
    ensures s.Valid() ==> t.state.Valid()
    ensures t.notes == [Cleared(target)]
    ensures t.state.GetLogs() == (if target in {LogsTarget, AllTarget} then [] else s.GetLogs())
    ensures t.state.GetRequests() == (if target in {NetworkTarget, AllTarget} then [] else s.GetRequests())
    ensures t.state.logs.maxSize == s.logs.maxSize && t.state.requests.maxSize == s.requests.maxSize
    ensures t.state.GetStatus() == s.GetStatus()
  {
    var s1 := if ClearsLogs(target) then s.(logs := s.logs.Clear()) else s;
    var s2 := if ClearsNetwork(target) then s1.(requests := s1.requests.Clear()) else s1;
    Transition(s2, [Cleared(target)])
  }

  function SetPaused(s: State, channel: Channel, paused: bool): (t: Transition)
    ensures t.state.logs == s.logs && t.state.requests == s.requests
    ensures t.state.pausedLogs == (if channel == LogsChannel then paused else s.pausedLogs)
    ensures t.state.pausedNetwork == (if channel == NetworkChannel then paused else s.pausedNetwork)
    ensures t.notes == [StatusChanged(t.state.GetStatus())]
  {
    var s1 := match channel
      case LogsChannel => s.(pausedLogs := paused)
      case NetworkChannel => s.(pausedNetwork := paused);
    Transition(s1, [StatusChanged(s1.GetStatus())])
  }

  /** The collector's operations as data, so that a sequence of them can be replayed. */
  datatype Op =
    | AddLogOp(entry: LogEntry)
    | AddNetworkOp(request: NetworkRequest)
    | ClearOp(target: ClearTarget)
    | SetPausedOp(channel: Channel, paused: bool)

  function Apply(s: State, op: Op): (t: Transition)
    ensures s.Valid() ==> t.state.Valid()
  {
    match op
    case AddLogOp(e) => AddLog(s, e)
    case AddNetworkOp(r) => AddNetwork(s, r)
    case ClearOp(target) => Clear(s, target)
    case SetPausedOp(c, p) => SetPaused(s, c, p)
  }

  /** An entry added while its channel is paused never reaches the history or
      the listeners; one added after resuming does. */
  lemma PauseThenResume(s: State, paused: LogEntry, resumed: LogEntry)
    requires s.Valid()
    ensures
      var t1 := SetPaused(s, LogsChannel, true);
      var t2 := AddLog(t1.state, paused);
      var t3 := SetPaused(t2.state, LogsChannel, false);
      var t4 := AddLog(t3.state, resumed);
      && t1.notes == [StatusChanged(Status(true, s.pausedNetwork))]
      && t2.notes == [] && t2.state.GetLogs() == s.GetLogs()
      && t3.notes == [StatusChanged(Status(false, s.pausedNetwork))]
      && t4.notes == [LogAdded(resumed)]
      && t4.state.GetLogs() == Last(s.GetLogs() + [resumed], s.logs.maxSize)
      && t4.state.GetRequests() == s.GetRequests()
  {
  }

  /** Clearing one channel leaves the other channel's history alone, whether or not it is paused. */
  lemma ClearIndependence(s: State)
    ensures Clear(s, LogsTarget).state.GetRequests() == s.GetRequests()
    ensures Clear(s, LogsTarget).state.GetLogs() == []
    ensures Clear(s, NetworkTarget).state.GetLogs() == s.GetLogs()
    ensures Clear(s, NetworkTarget).state.GetRequests() == []
    ensures Clear(s, AllTarget).state.GetLogs() == [] && Clear(s, AllTarget).state.GetRequests() == []
  {
  }
}

/** What the server and its observers agree on. Every message a live client
    is sent, replayed into an observer's store in order, leaves that store
    showing the collector's current histories as a suffix of its own lists
    (the store keeps what the collector has since evicted) and exactly the
    collector's pause flags, for as long as the hub's relays stay attached. */
module Agreement {
  import opened Common
  import opened Types
  import opened Store
  import opened SocketClient
  import DC = DataCollector
  import BH = BroadcastHub
  import CP = CapturePolicy

  /** The store shows the collector's histories, maybe with older entries in
      front, and the same pause flags. */
  ghost predicate Agrees(s: DC.State, app: AppState) {
    && IsSuffix(s.GetLogs(), app.logs)
    && IsSuffix(s.GetRequests(), app.requests)
    && app.pauseLogs == s.pausedLogs
    && app.pauseNetwork == s.pausedNetwork
  }

  lemma ReplayOne(app: AppState, m: WSMessage)
    ensures Replay(app, [m]) == Dispatch(app, Some(m))
  {
    assert [m][1..] == [];
  }

  lemma EmptySuffix<T>(b: seq<T>)
    ensures IsSuffix([], b)
  {
  }

  lemma AddLogAgrees(s: DC.State, app: AppState, e: LogEntry)
    requires s.Valid() && Agrees(s, app)
    ensures var t := DC.AddLog(s, e);
      Agrees(t.state, Replay(app, BH.Messages(t.notes)))
  {
    var t := DC.AddLog(s, e);
    if !s.pausedLogs {
      assert BH.Messages(t.notes) == [LogMsg(e)];
      ReplayOne(app, LogMsg(e));
      SuffixExtend(s.GetLogs(), app.logs, e);
      LastIsSuffix(s.GetLogs() + [e], s.logs.maxSize);
      SuffixTrans(t.state.GetLogs(), s.GetLogs() + [e], app.logs + [e]);
    } else {
      assert BH.Messages(t.notes) == [];
    }
  }

  lemma AddNetworkAgrees(s: DC.State, app: AppState, q: NetworkRequest)
    requires s.Valid() && Agrees(s, app)
    ensures var t := DC.AddNetwork(s, q);
      Agrees(t.state, Replay(app, BH.Messages(t.notes)))
  {
    var t := DC.AddNetwork(s, q);
    if !s.pausedNetwork {
      assert BH.Messages(t.notes) == [NetworkMsg(q)];
      ReplayOne(app, NetworkMsg(q));
      SuffixExtend(s.GetRequests(), app.requests, q);
      LastIsSuffix(s.GetRequests() + [q], s.requests.maxSize);
      SuffixTrans(t.state.GetRequests(), s.GetRequests() + [q], app.requests + [q]);
    } else {
      assert BH.Messages(t.notes) == [];
    }
  }

  lemma ClearAgrees(s: DC.State, app: AppState, target: ClearTarget)
    requires Agrees(s, app)
    ensures var t := DC.Clear(s, target);
      Agrees(t.state, Replay(app, BH.Messages(t.notes)))
  {
    var t := DC.Clear(s, target);
    assert BH.Messages(t.notes) == [ClearMsg(target)];
    ReplayOne(app, ClearMsg(target));
    var r := Dispatch(app, Some(ClearMsg(target)));
    EmptySuffix(r.logs);
    EmptySuffix(r.requests);
  }

  lemma SetPausedAgrees(s: DC.State, app: AppState, c: Channel, p: bool)
    requires Agrees(s, app)
    ensures var t := DC.SetPaused(s, c, p);
      Agrees(t.state, Replay(app, BH.Messages(t.notes)))
  {
    var t := DC.SetPaused(s, c, p);
    assert BH.Messages(t.notes) == [StatusMsg(t.state.GetStatus())];
    ReplayOne(app, StatusMsg(t.state.GetStatus()));
  }

  /** One collector operation, relayed and replayed, keeps the store in agreement. */
  lemma OpAgrees(s: DC.State, app: AppState, op: DC.Op)
    requires s.Valid() && Agrees(s, app)
    ensures var t := DC.Apply(s, op);
      Agrees(t.state, Replay(app, BH.Messages(t.notes)))
  {
    match op {
      case AddLogOp(e) => AddLogAgrees(s, app, e);
      case AddNetworkOp(q) => AddNetworkAgrees(s, app, q);
      case ClearOp(target) => ClearAgrees(s, app, target);
      case SetPausedOp(c, p) => SetPausedAgrees(s, app, c, p);
    }
  }

  /** The handshake alone brings any store into agreement. */
  lemma HandshakeAgrees(h: BH.Hub, app: AppState)
    ensures Agrees(h.collector, Replay(app, BH.Handshake(h)))
  {
    var hs := BH.Handshake(h);
    assert hs == [hs[0]] + [hs[1]] + [hs[2]];
    ReplayAppend(app, [hs[0]] + [hs[1]], [hs[2]]);
    ReplayAppend(app, [hs[0]], [hs[1]]);
    ReplayOne(app, hs[0]);
    var a1 := Dispatch(app, Some(hs[0]));
    ReplayOne(a1, hs[1]);
    var a2 := Dispatch(a1, Some(hs[1]));
    ReplayOne(a2, hs[2]);
    assert a2.logs == h.collector.GetLogs() && a2.requests == h.collector.GetRequests();
  }

  /** An operation whose relayed messages all serialise: only a log entry can fail to. */
  predicate OpSerialises(op: DC.Op) {
    op.AddLogOp? ==> EntrySerialises(op.entry)
  }

  /** A hub event that adds no unserialisable log entry. */
  predicate EventSerialises(e: BH.Event) {
    e.CollectorEv? ==> OpSerialises(e.op)
  }

  /** Such an operation's messages all go through, so every live client gets all of them. */
  lemma OpMessagesSendable(s: DC.State, op: DC.Op)
    requires OpSerialises(op)
    ensures var ms := BH.Messages(DC.Apply(s, op).notes);
      BH.Sendable(ms) == ms
  {
    var ms := BH.Messages(DC.Apply(s, op).notes);
    forall k | 0 <= k < |ms|
      ensures Serialises(ms[k])
    {
      if op.AddLogOp? {
        assert ms[k] == LogMsg(op.entry);
      }
    }
  }

  /** A suffix of serialisable entries is serialisable. */
  lemma SuffixSerialises(a: seq<LogEntry>, b: seq<LogEntry>)
    requires IsSuffix(a, b)
    requires forall k :: 0 <= k < |b| ==> EntrySerialises(b[k])
    ensures forall k :: 0 <= k < |a| ==> EntrySerialises(a[k])
  {
    forall k | 0 <= k < |a|
      ensures EntrySerialises(a[k])
    {
      assert a[k] == b[|b| - |a| + k];
    }
  }

  /** An operation that adds no unserialisable entry keeps the buffer serialisable. */
  lemma ApplyKeepsBufferSerialises(s: DC.State, op: DC.Op)
    requires s.Valid() && BH.BufferSerialises(s) && OpSerialises(op)
    ensures BH.BufferSerialises(DC.Apply(s, op).state)
  {
    var t := DC.Apply(s, op);
    match op {
      case AddLogOp(e) =>
        if !s.pausedLogs {
          var all := s.GetLogs() + [e];
          forall k | 0 <= k < |all|
            ensures EntrySerialises(all[k])
          {
            if k < |s.GetLogs()| { assert all[k] == s.GetLogs()[k]; }
          }
          LastIsSuffix(all, s.logs.maxSize);
          SuffixSerialises(t.state.GetLogs(), all);
        }
      case AddNetworkOp(q) =>
        assert t.state.GetLogs() == s.GetLogs();
      case ClearOp(target) =>
      case SetPausedOp(c, p) =>
        assert t.state.GetLogs() == s.GetLogs();
    }
  }

  /** Every live client's outbox, replayed from any starting store, agrees with the collector. */
  ghost predicate InSync(h: BH.Hub) {
    forall i, app: AppState :: 0 <= i < |h.clients| && BH.Live(h.clients[i]) ==>
      Agrees(h.collector, Replay(app, h.clients[i].outbox))
  }

  lemma RunOpKeepsSync(h: BH.Hub, op: DC.Op)
    requires OpSerialises(op)
    requires h.Valid() && h.attached && InSync(h)
    ensures InSync(BH.RunOp(h, op))
  {
    var t := DC.Apply(h.collector, op);
    var r := BH.RunOp(h, op);
    var ms := BH.Messages(t.notes);
    OpMessagesSendable(h.collector, op);
    forall i, app: AppState | 0 <= i < |r.clients| && BH.Live(r.clients[i])
      ensures Agrees(r.collector, Replay(app, r.clients[i].outbox))
    {
      assert r.clients[i].outbox == h.clients[i].outbox + ms;
      ReplayAppend(app, h.clients[i].outbox, ms);
      OpAgrees(h.collector, Replay(app, h.clients[i].outbox), op);
    }
  }

  lemma ConfigKeepsSync(h: BH.Hub, c: RuntimeCaptureConfig)
    requires InSync(h)
    ensures InSync(h.(clients := BH.Broadcast(h.clients, ConfigMsg(c))))
  {
    var r := h.(clients := BH.Broadcast(h.clients, ConfigMsg(c)));
    forall i, app: AppState | 0 <= i < |r.clients| && BH.Live(r.clients[i])
      ensures Agrees(r.collector, Replay(app, r.clients[i].outbox))
    {
      ReplayAppend(app, h.clients[i].outbox, [ConfigMsg(c)]);
      ReplayOne(Replay(app, h.clients[i].outbox), ConfigMsg(c));
    }
  }

  lemma ControlKeepsSync(h: BH.Hub, p: ControlPatch)
    requires h.Valid() && h.attached && InSync(h)
    ensures InSync(BH.HandleControl(h, p))
  {
    var h1 := BH.PauseStage(h, LogsChannel, p.pauseLogs);
    if p.pauseLogs.Some? { RunOpKeepsSync(h, DC.SetPausedOp(LogsChannel, p.pauseLogs.value)); }
    var h2 := BH.PauseStage(h1, NetworkChannel, p.pauseNetwork);
    if p.pauseNetwork.Some? { RunOpKeepsSync(h1, DC.SetPausedOp(NetworkChannel, p.pauseNetwork.value)); }
    if BH.HasConfigUpdate(p) {
      var out := CP.ApplyPatch(h2.config, p);
      var h3 := h2.(config := out.config);
      assert InSync(h3);
      if !out.threw {
        ConfigKeepsSync(h3, out.config);
      }
    }
  }

  /** One hub event keeps every live observer in agreement, unless it detaches
      the relays or adds a log entry that does not serialise; the buffer stays
      serialisable, so the next client's handshake goes through whole. */
  lemma StepKeepsSync(h: BH.Hub, e: BH.Event)
    requires h.Valid() && h.attached && InSync(h) && !e.CloseEv?
    requires BH.BufferSerialises(h.collector) && EventSerialises(e)
    ensures InSync(BH.Step(h, e)) && BH.Step(h, e).attached
    ensures BH.BufferSerialises(BH.Step(h, e).collector)
  {
    match e {
      case ConnectEv(broken) =>
        var r := BH.Connect(h, broken);
        forall i, app: AppState | 0 <= i < |r.clients| && BH.Live(r.clients[i])
          ensures Agrees(r.collector, Replay(app, r.clients[i].outbox))
        {
          if i < |h.clients| {
            assert r.clients[i] == r.clients[..|h.clients|][i];
          } else {
            assert r.clients[i].outbox == BH.Handshake(h);
            HandshakeAgrees(h, app);
          }
        }
      case DisconnectEv(k) =>
      case InboundEv(parsed) =>
        match BH.Decode(parsed) {
          case InClear(target) =>
            RunOpKeepsSync(h, DC.ClearOp(target));
            ApplyKeepsBufferSerialises(h.collector, DC.ClearOp(target));
          case InControl(p) =>
            ControlKeepsSync(h, p);
            assert BH.HandleControl(h, p).collector.GetLogs() == h.collector.GetLogs();
          case Ignored =>
        }
      case CollectorEv(op) =>
        RunOpKeepsSync(h, op);
        ApplyKeepsBufferSerialises(h.collector, op);
    }
  }

  /** Once detached, a hub stays detached. */
  lemma {:induction false} AttachedBefore(h: BH.Hub, events: seq<BH.Event>)
    requires BH.Run(h, events).attached
    ensures h.attached
    ensures forall k :: 0 <= k < |events| ==> !events[k].CloseEv?
    decreases |events|
  {
    if |events| > 0 {
      AttachedBefore(BH.Step(h, events[0]), events[1..]);
      assert BH.Step(h, events[0]).attached;
      assert forall k :: 1 <= k < |events| ==> events[k] == events[1..][k - 1];
    }
  }

  lemma {:induction false} RunKeepsSync(h: BH.Hub, events: seq<BH.Event>)
    requires h.Valid() && InSync(h) && BH.BufferSerialises(h.collector)
    requires forall k :: 0 <= k < |events| ==> EventSerialises(events[k])
    requires BH.Run(h, events).attached
    ensures InSync(BH.Run(h, events))
    decreases |events|
  {
    AttachedBefore(h, events);
    if |events| > 0 {
      StepKeepsSync(h, events[0]);
      assert forall k :: 0 <= k < |events[1..]| ==> events[1..][k] == events[k + 1];
      RunKeepsSync(BH.Step(h, events[0]), events[1..]);
    }
  }

  /** From server start, through any events that leave the relays attached and
      add no log entry `JSON.stringify` rejects, every live observer's store
      agrees with the collector, whatever the store held before it connected. */
  lemma ObserversAgree(collector: DC.State, config: RuntimeCaptureConfig, events: seq<BH.Event>,
                       i: nat, app: AppState)
    requires collector.Valid() && BH.BufferSerialises(collector)
    requires forall k :: 0 <= k < |events| ==> EventSerialises(events[k])
    requires BH.Run(BH.Start(collector, config), events).attached
    requires i < |BH.Run(BH.Start(collector, config), events).clients|
    requires BH.Live(BH.Run(BH.Start(collector, config), events).clients[i])
    ensures var r := BH.Run(BH.Start(collector, config), events);
      && IsSuffix(r.collector.GetLogs(), Replay(app, r.clients[i].outbox).logs)
      && IsSuffix(r.collector.GetRequests(), Replay(app, r.clients[i].outbox).requests)
      && Replay(app, r.clients[i].outbox).pauseLogs == r.collector.pausedLogs
      && Replay(app, r.clients[i].outbox).pauseNetwork == r.collector.pausedNetwork
  {
    RunKeepsSync(BH.Start(collector, config), events);
  }
}

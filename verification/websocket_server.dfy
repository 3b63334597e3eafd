/** The broadcast hub between the collector and its observers: clients with
    an outbox each, the relay of collector notifications, the connection
    handshake, the handling of inbound `clear` and `control` messages, and
    the detach of the relays when the server closes. Sockets are reduced to
    an open flag and whether sending to them throws; a message is dropped for
    every client alike when `JSON.stringify` rejects it. */
module BroadcastHub {
  import opened Common
  import opened Types
  import DC = DataCollector
  import CP = CapturePolicy

  // ---- clients and sendSafe ----------------------------------------------------------

  /** One connected observer. `open` is `readyState === 1`; `broken` means its
      `send` throws. `outbox` is everything it has been sent, in order. */
  datatype Client = Client(open: bool, broken: bool, outbox: seq<WSMessage>)

  /** A client that actually receives what is sent to it. */
  predicate Live(c: Client) { c.open && !c.broken }

  /** `sendSafe`: deliver to an open client. A closed client is skipped; a
      throwing send and a message `JSON.stringify` rejects are swallowed, the
      latter for every client. */
  function SendSafe(c: Client, m: WSMessage): (r: Client)
    ensures r.open == c.open && r.broken == c.broken
    ensures Live(c) && Serialises(m) ==> r.outbox == c.outbox + [m]
    ensures !Live(c) || !Serialises(m) ==> r == c
  {
    if Live(c) && Serialises(m) then c.(outbox := c.outbox + [m]) else c
  }

  /** Send one message to every client; whether it arrives depends on that
      client and on the message, never on another client. */
  function Broadcast(clients: seq<Client>, m: WSMessage): (r: seq<Client>)
    ensures |r| == |clients|
    ensures forall i :: 0 <= i < |clients| ==> r[i] == SendSafe(clients[i], m)
  {
    seq(|clients|, i requires 0 <= i < |clients| => SendSafe(clients[i], m))
  }

  /** The messages of `ms` that survive serialisation, in order. */
  function Sendable(ms: seq<WSMessage>): (r: seq<WSMessage>)
    ensures (forall k :: 0 <= k < |ms| ==> Serialises(ms[k])) ==> r == ms
  {
    if forall k :: 0 <= k < |ms| ==> Serialises(ms[k]) then
      FilterAll(ms, Serialises);
      Filter(ms, Serialises)
    else Filter(ms, Serialises)
  }

  /** Send several messages, one broadcast after another: every live client
      receives exactly the serialisable ones, in order. */
  function BroadcastAll(clients: seq<Client>, ms: seq<WSMessage>): (r: seq<Client>)
    ensures |r| == |clients|
    ensures forall i :: 0 <= i < |clients| ==>
      && r[i].open == clients[i].open && r[i].broken == clients[i].broken
      && r[i].outbox == clients[i].outbox + (if Live(clients[i]) then Sendable(ms) else [])
  {
    if |ms| == 0 then
      assert forall i :: 0 <= i < |clients| ==> clients[i].outbox + [] == clients[i].outbox;
      clients
    else
      var init := BroadcastAll(clients, ms[..|ms| - 1]);
      var last := ms[|ms| - 1];
      var r := Broadcast(init, last);
      SendableSnoc(ms[..|ms| - 1], last);
      assert ms[..|ms| - 1] + [last] == ms;
      forall i | 0 <= i < |clients|
        ensures r[i].outbox == clients[i].outbox + (if Live(clients[i]) then Sendable(ms) else [])
      {
        var before := if Live(clients[i]) then Sendable(ms[..|ms| - 1]) else [];
        var added := if Live(clients[i]) && Serialises(last) then [last] else [];
        assert r[i].outbox == clients[i].outbox + before + added;
        assert before + added == (if Live(clients[i]) then Sendable(ms) else []);
      }
      r
  }

  lemma SendableSnoc(ms: seq<WSMessage>, m: WSMessage)
    ensures Sendable(ms + [m]) == Sendable(ms) + (if Serialises(m) then [m] else [])
  {
    FilterAppend(ms, [m], Serialises);
    assert [m][1..] == [];
  }

  /** The message each collector notification is relayed as. */
  function MessageOf(n: Note): (m: WSMessage)
    ensures n.LogAdded? <==> m.LogMsg?
    ensures n.NetworkAdded? <==> m.NetworkMsg?
    ensures n.Cleared? <==> m.ClearMsg?
    ensures n.StatusChanged? <==> m.StatusMsg?
    ensures m.LogMsg? ==> m.entry == n.entry
    ensures m.NetworkMsg? ==> m.request == n.request
    ensures m.ClearMsg? ==> m.target == n.target
    ensures m.StatusMsg? ==> m.status == n.status
  {
    match n
    case LogAdded(e) => LogMsg(e)
    case NetworkAdded(r) => NetworkMsg(r)
    case Cleared(t) => ClearMsg(t)
    case StatusChanged(s) => StatusMsg(s)
  }

  function Messages(notes: seq<Note>): (ms: seq<WSMessage>)
    ensures |ms| == |notes|
    ensures forall i :: 0 <= i < |notes| ==> ms[i] == MessageOf(notes[i])
  {
    Map(notes, MessageOf)
  }

  // ---- the hub --------------------------------------------------------------------------

  /** The collector, the runtime capture policy it shares with the interceptors,
      the clients in connection order, and whether the four relays are still
      registered with the collector. */
  datatype Hub = Hub(collector: DC.State, config: RuntimeCaptureConfig, clients: seq<Client>, attached: bool)
  {
    ghost predicate Valid() { collector.Valid() }
  }

  /** `startWebSocketServer`: no clients yet, relays registered. */
  function Start(collector: DC.State, config: RuntimeCaptureConfig): (h: Hub)
    ensures h.attached && h.clients == []
    ensures h.collector == collector && h.config == config
  {
    Hub(collector, config, [], true)
  }

  /** Apply a collector transition; while attached, each notification is
      relayed to every client, in emission order. */
  function Relay(h: Hub, t: DC.Transition): (r: Hub)
    ensures r.collector == t.state && r.config == h.config && r.attached == h.attached
    ensures h.attached ==> r.clients == BroadcastAll(h.clients, Messages(t.notes))
    ensures !h.attached ==> r.clients == h.clients
  {
    h.(collector := t.state, clients := if h.attached then BroadcastAll(h.clients, Messages(t.notes)) else h.clients)
  }

  /** A collector operation, from an interceptor or from an inbound message. */
  function RunOp(h: Hub, op: DC.Op): (r: Hub)
    ensures h.Valid() ==> r.Valid()
    ensures r.collector == DC.Apply(h.collector, op).state
    ensures |r.clients| == |h.clients| && r.config == h.config && r.attached == h.attached
    ensures forall i :: 0 <= i < |h.clients| ==>
      && r.clients[i].open == h.clients[i].open && r.clients[i].broken == h.clients[i].broken
      && r.clients[i].outbox == h.clients[i].outbox
           + (if h.attached && Live(h.clients[i]) then Sendable(Messages(DC.Apply(h.collector, op).notes)) else [])
  {
    Relay(h, DC.Apply(h.collector, op))
  }

  /** What a new client is sent first: the batch of current histories, the
      pause status, then the capture policy. */
  function Handshake(h: Hub): (ms: seq<WSMessage>)
    ensures |ms| == 3
    ensures ms[0] == BatchMsg(h.collector.GetLogs(), h.collector.GetRequests())
    ensures ms[1] == StatusMsg(h.collector.GetStatus())
    ensures ms[2] == ConfigMsg(h.config)
  {
    [BatchMsg(h.collector.GetLogs(), h.collector.GetRequests()),
     StatusMsg(h.collector.GetStatus()),
     ConfigMsg(h.config)]
  }

  /** The collector's buffered entries all serialise, so a handshake's batch goes through. */
  predicate BufferSerialises(s: DC.State) {
    forall k :: 0 <= k < |s.GetLogs()| ==> EntrySerialises(s.GetLogs()[k])
  }

  /** A connection: the new client is appended and sent the handshake; nothing
      else changes. The batch is lost when some buffered entry does not
      serialise; status and config always arrive. */
  function Connect(h: Hub, broken: bool): (r: Hub)
    ensures |r.clients| == |h.clients| + 1 && r.clients[..|h.clients|] == h.clients
    ensures var c := r.clients[|h.clients|];
      && c.open && c.broken == broken
      && c.outbox == (if broken then [] else Sendable(Handshake(h)))
      && (!broken && BufferSerialises(h.collector) ==> c.outbox == Handshake(h))
      && (!broken && !BufferSerialises(h.collector) ==> c.outbox == Handshake(h)[1..])
    ensures r.collector == h.collector && r.config == h.config && r.attached == h.attached
  {
    var hs := Handshake(h);
    var c := SendSafe(SendSafe(SendSafe(Client(true, broken, []), hs[0]), hs[1]), hs[2]);
    HandshakeSendable(h);
    assert !broken && Serialises(hs[0]) ==> c.outbox == [hs[0], hs[1], hs[2]];
    assert !broken && !Serialises(hs[0]) ==> c.outbox == [hs[1], hs[2]];
    h.(clients := h.clients + [c])
  }

  /** What survives of the handshake: all three messages, or status and
      config when the batch does not serialise. */
  lemma HandshakeSendable(h: Hub)
    ensures Serialises(Handshake(h)[0]) <==> BufferSerialises(h.collector)
    ensures BufferSerialises(h.collector) ==> Sendable(Handshake(h)) == Handshake(h)
    ensures !BufferSerialises(h.collector) ==> Sendable(Handshake(h)) == Handshake(h)[1..]
  {
    var hs := Handshake(h);
    assert hs == [hs[0]] + [hs[1], hs[2]];
    FilterAppend([hs[0]], [hs[1], hs[2]], Serialises);
    assert [hs[0]][1..] == [];
    FilterAll([hs[1], hs[2]], Serialises);
  }

  /** A client goes away: it stops being open; its outbox is kept as it was. */
  function Disconnect(h: Hub, i: nat): (r: Hub)
    ensures |r.clients| == |h.clients| && r.collector == h.collector && r.config == h.config
    ensures r.attached == h.attached
    ensures forall j :: 0 <= j < |h.clients| ==>
      r.clients[j] == (if j == i then h.clients[j].(open := false) else h.clients[j])
  {
    if i < |h.clients| then h.(clients := h.clients[i := h.clients[i].(open := false)]) else h
  }

  // ---- inbound messages -------------------------------------------------------------------

  /** What the message handler makes of one inbound frame. */
  datatype Inbound = InClear(target: ClearTarget) | InControl(patch: ControlPatch) | Ignored

  function Field(fields: map<string, Json>, key: string): Option<Json> {
    if key in fields then Some(fields[key]) else None
  }

  /** `typeof x === "boolean"`. */
  function BoolField(fields: map<string, Json>, key: string): (r: Option<bool>)
    ensures r.Some? <==> key in fields && fields[key].JBool?
    ensures r.Some? ==> r.value == fields[key].b
  {
    match Field(fields, key)
    case Some(JBool(b)) => Some(b)
    case _ => None
  }

  function TargetOf(v: Option<Json>): ClearTarget {
    match v
    case Some(JStr(s)) =>
      if s == "logs" then LogsTarget
      else if s == "network" then NetworkTarget
      else if s == "all" then AllTarget
      else OtherTarget
    case _ => OtherTarget
  }

  /** The control fields, each kept only when it has the type the handler
      tests for, and then with the value the client sent. */
  function PatchOf(data: Json): (p: ControlPatch)
    ensures !data.JObj? ==> p == ControlPatch(None, None, None, None, None, None)
    ensures data.JObj? ==>
      && p.pauseLogs == BoolField(data.fields, "pauseLogs")
      && p.pauseNetwork == BoolField(data.fields, "pauseNetwork")
      && p.captureRequestBodies == BoolField(data.fields, "captureRequestBodies")
      && p.captureResponseBodies == BoolField(data.fields, "captureResponseBodies")
      && (p.truncateBodyBytes.Some? <==> "truncateBodyBytes" in data.fields && data.fields["truncateBodyBytes"].JNum?)
      && (p.truncateBodyBytes.Some? ==> data.fields["truncateBodyBytes"] == JNum(p.truncateBodyBytes.value))
      && (p.redactHeaders.Some? <==> "redactHeaders" in data.fields && data.fields["redactHeaders"].JArr?)
      && (p.redactHeaders.Some? ==> data.fields["redactHeaders"] == JArr(p.redactHeaders.value))
  {
    match data
    case JObj(d) =>
      ControlPatch(
        BoolField(d, "pauseLogs"),
        BoolField(d, "pauseNetwork"),
        match Field(d, "truncateBodyBytes") { case Some(JNum(n)) => Some(n) case _ => None },
        BoolField(d, "captureRequestBodies"),
        BoolField(d, "captureResponseBodies"),
        match Field(d, "redactHeaders") { case Some(JArr(items)) => Some(items) case _ => None })
    case _ => ControlPatch(None, None, None, None, None, None)
  }

  /** Decode a frame; `None` is a frame `JSON.parse` rejects. Reading a field of
      `null` throws, so a null message or a control message whose `data` is
      missing or null is ignored, as is any other type. A `data` that is not an
      object has none of the fields. */
  function Decode(parsed: Option<Json>): (r: Inbound)
    ensures parsed.None? || !parsed.value.JObj? ==> r == Ignored
    ensures parsed.Some? && parsed.value.JObj? && Field(parsed.value.fields, "type") == Some(JStr("clear")) ==>
      r == InClear(TargetOf(Field(parsed.value.fields, "target")))
    ensures (&& parsed.Some? && parsed.value.JObj? && Field(parsed.value.fields, "type") == Some(JStr("control"))
             && "data" in parsed.value.fields && !parsed.value.fields["data"].JNull?) ==>
      r == InControl(PatchOf(parsed.value.fields["data"]))
    ensures r.InClear? ==> parsed.Some? && parsed.value.JObj? && Field(parsed.value.fields, "type") == Some(JStr("clear"))
    ensures r.InControl? ==>
      && parsed.Some? && parsed.value.JObj?
      && Field(parsed.value.fields, "type") == Some(JStr("control"))
      && "data" in parsed.value.fields && !parsed.value.fields["data"].JNull?
  {
    match parsed
    case Some(JObj(fields)) =>
      if Field(fields, "type") == Some(JStr("clear")) then InClear(TargetOf(Field(fields, "target")))
      else if Field(fields, "type") == Some(JStr("control")) then
        match Field(fields, "data")
        case Some(data) => if data.JNull? then Ignored else InControl(PatchOf(data))
        case None => Ignored
      else Ignored
    case _ => Ignored
  }

  /** A control patch as a client writes it: an object with exactly the
      fields the patch sets. */
  function EncodePatch(p: ControlPatch): (j: Json)
    ensures j.JObj?
  {
    var m0: map<string, Json> := map[];
    var m1 := if p.pauseLogs.Some? then m0["pauseLogs" := JBool(p.pauseLogs.value)] else m0;
    var m2 := if p.pauseNetwork.Some? then m1["pauseNetwork" := JBool(p.pauseNetwork.value)] else m1;
    var m3 := if p.truncateBodyBytes.Some? then m2["truncateBodyBytes" := JNum(p.truncateBodyBytes.value)] else m2;
    var m4 := if p.captureRequestBodies.Some? then m3["captureRequestBodies" := JBool(p.captureRequestBodies.value)] else m3;
    var m5 := if p.captureResponseBodies.Some? then m4["captureResponseBodies" := JBool(p.captureResponseBodies.value)] else m4;
    var m6 := if p.redactHeaders.Some? then m5["redactHeaders" := JArr(p.redactHeaders.value)] else m5;
    JObj(m6)
  }

  /** The handler reads back exactly the patch a client encoded. */
  lemma PatchRoundTrip(p: ControlPatch)
    ensures PatchOf(EncodePatch(p)) == p
  {
    var d := EncodePatch(p).fields;
    assert "pauseLogs" in d <==> p.pauseLogs.Some?;
    assert "pauseNetwork" in d <==> p.pauseNetwork.Some?;
    assert "truncateBodyBytes" in d <==> p.truncateBodyBytes.Some?;
    assert "captureRequestBodies" in d <==> p.captureRequestBodies.Some?;
    assert "captureResponseBodies" in d <==> p.captureResponseBodies.Some?;
    assert "redactHeaders" in d <==> p.redactHeaders.Some?;
  }

  /** A `control` frame carrying an encoded patch decodes to that patch. */
  lemma DecodeControlRoundTrip(p: ControlPatch)
    ensures Decode(Some(JObj(map["type" := JStr("control"), "data" := EncodePatch(p)]))) == InControl(p)
  {
    var f := map["type" := JStr("control"), "data" := EncodePatch(p)];
    assert Field(f, "type") == Some(JStr("control"));
    assert f["data"] == EncodePatch(p);
    PatchRoundTrip(p);
  }

  /** `hasConfigUpdate`: some field the capture policy reads is present and
      well-typed; the pause fields do not count. */
  predicate HasConfigUpdate(p: ControlPatch): (b: bool)
    ensures b <==> p.(pauseLogs := None, pauseNetwork := None) != ControlPatch(None, None, None, None, None, None)
  {
    p.captureRequestBodies.Some? || p.captureResponseBodies.Some? || p.truncateBodyBytes.Some? || p.redactHeaders.Some?
  }

  /** Without a policy field the policy callback would change nothing, so
      skipping it loses nothing. */
  lemma NoConfigUpdateKeepsPolicy(c: RuntimeCaptureConfig, p: ControlPatch)
    requires !HasConfigUpdate(p)
    ensures CP.ApplyPatch(c, p) == CP.PatchOutcome(c, false)
  {
  }

  /** The messages a live client receives for a `control` frame: a status for
      `pauseLogs`, then one for `pauseNetwork`, each relayed only while the
      relays are attached; then the new policy, when some policy field is
      present and the patch did not throw. */
  function ControlMessages(h: Hub, p: ControlPatch): seq<WSMessage> {
    var logs := if p.pauseLogs.Some? then p.pauseLogs.value else h.collector.pausedLogs;
    var network := if p.pauseNetwork.Some? then p.pauseNetwork.value else h.collector.pausedNetwork;
    var out := CP.ApplyPatch(h.config, p);
    (if h.attached && p.pauseLogs.Some? then [StatusMsg(Status(logs, h.collector.pausedNetwork))] else [])
    + (if h.attached && p.pauseNetwork.Some? then [StatusMsg(Status(logs, network))] else [])
    + (if HasConfigUpdate(p) && !out.threw then [ConfigMsg(out.config)] else [])
  }

  /** One pause field of a control message: when present, the channel is set
      and the resulting status relayed like any collector operation. */
  function PauseStage(h: Hub, channel: Channel, v: Option<bool>): (r: Hub)
    ensures h.Valid() ==> r.Valid()
    ensures r.config == h.config && r.attached == h.attached && |r.clients| == |h.clients|
    ensures r.collector.logs == h.collector.logs && r.collector.requests == h.collector.requests
    ensures r.collector.pausedLogs == (if channel == LogsChannel && v.Some? then v.value else h.collector.pausedLogs)
    ensures r.collector.pausedNetwork == (if channel == NetworkChannel && v.Some? then v.value else h.collector.pausedNetwork)
    ensures forall i :: 0 <= i < |h.clients| ==>
      && r.clients[i].open == h.clients[i].open && r.clients[i].broken == h.clients[i].broken
      && r.clients[i].outbox == h.clients[i].outbox
           + (if h.attached && v.Some? && Live(h.clients[i]) then [StatusMsg(r.collector.GetStatus())] else [])
  {
    if v.Some? then
      var t := DC.Apply(h.collector, DC.SetPausedOp(channel, v.value));
      assert Messages(t.notes) == [StatusMsg(t.state.GetStatus())];
      assert Sendable([StatusMsg(t.state.GetStatus())]) == [StatusMsg(t.state.GetStatus())];
      RunOp(h, DC.SetPausedOp(channel, v.value))
    else
      assert forall i :: 0 <= i < |h.clients| ==> h.clients[i].outbox + [] == h.clients[i].outbox;
      h
  }

  /** The policy part of a control message: when some policy field is present
      the patch is applied and, unless it threw, the new policy broadcast. */
  function ConfigStage(h: Hub, p: ControlPatch): (r: Hub)
    ensures r.collector == h.collector && r.attached == h.attached && |r.clients| == |h.clients|
    ensures r.config == (if HasConfigUpdate(p) then CP.ApplyPatch(h.config, p).config else h.config)
    ensures forall i :: 0 <= i < |h.clients| ==>
      && r.clients[i].open == h.clients[i].open && r.clients[i].broken == h.clients[i].broken
      && r.clients[i].outbox == h.clients[i].outbox
           + (if HasConfigUpdate(p) && !CP.ApplyPatch(h.config, p).threw && Live(h.clients[i])
              then [ConfigMsg(CP.ApplyPatch(h.config, p).config)] else [])
  {
    if HasConfigUpdate(p) then
      var out := CP.ApplyPatch(h.config, p);
      var h3 := h.(config := out.config);
      if out.threw then
        assert forall i :: 0 <= i < |h.clients| ==> h.clients[i].outbox + [] == h.clients[i].outbox;
        h3
      else h3.(clients := Broadcast(h3.clients, ConfigMsg(out.config)))
    else
      assert forall i :: 0 <= i < |h.clients| ==> h.clients[i].outbox + [] == h.clients[i].outbox;
      h
  }

  /** A `control` message: `pauseLogs` then `pauseNetwork`, each relayed as a
      status broadcast; then, when some policy field is present, the policy is
      patched and the new policy broadcast to every client. A patch that throws
      part-way keeps what it already applied and broadcasts nothing. */
  function HandleControl(h: Hub, p: ControlPatch): (r: Hub)
    ensures h.Valid() ==> r.Valid()
    ensures r.attached == h.attached && |r.clients| == |h.clients|
    ensures r.collector.logs == h.collector.logs && r.collector.requests == h.collector.requests
    ensures r.collector.pausedLogs == (if p.pauseLogs.Some? then p.pauseLogs.value else h.collector.pausedLogs)
    ensures r.collector.pausedNetwork == (if p.pauseNetwork.Some? then p.pauseNetwork.value else h.collector.pausedNetwork)
    ensures r.config == (if HasConfigUpdate(p) then CP.ApplyPatch(h.config, p).config else h.config)
    ensures forall i :: 0 <= i < |h.clients| ==>
      && r.clients[i].open == h.clients[i].open && r.clients[i].broken == h.clients[i].broken
      && r.clients[i].outbox == h.clients[i].outbox + (if Live(h.clients[i]) then ControlMessages(h, p) else [])
  {
    var r := ConfigStage(PauseStage(PauseStage(h, LogsChannel, p.pauseLogs), NetworkChannel, p.pauseNetwork), p);
    forall i | 0 <= i < |h.clients|
      ensures r.clients[i].outbox == h.clients[i].outbox + (if Live(h.clients[i]) then ControlMessages(h, p) else [])
    {
      ControlOutbox(h, p, i);
    }
    r
  }

  /** The three stages of a control message, for one client. */
  lemma ControlOutbox(h: Hub, p: ControlPatch, i: nat)
    requires i < |h.clients|
    ensures
      var r := ConfigStage(PauseStage(PauseStage(h, LogsChannel, p.pauseLogs), NetworkChannel, p.pauseNetwork), p);
      r.clients[i].outbox == h.clients[i].outbox + (if Live(h.clients[i]) then ControlMessages(h, p) else [])
  {
    var live := Live(h.clients[i]);
    ControlPartsCombine(h, p, live);
    StagedOutbox(h, p, i);
  }

  /** One client's outbox after the three stages, stage by stage. */
  lemma StagedOutbox(h: Hub, p: ControlPatch, i: nat)
    requires i < |h.clients|
    ensures
      var h1 := PauseStage(h, LogsChannel, p.pauseLogs);
      var h2 := PauseStage(h1, NetworkChannel, p.pauseNetwork);
      var live := Live(h.clients[i]);
      ConfigStage(h2, p).clients[i].outbox
        == h.clients[i].outbox + (StatusPart(h1, h.attached && p.pauseLogs.Some? && live)
             + StatusPart(h2, h.attached && p.pauseNetwork.Some? && live) + ConfigPart(h2, p, live))
  {
    var h1 := PauseStage(h, LogsChannel, p.pauseLogs);
    var h2 := PauseStage(h1, NetworkChannel, p.pauseNetwork);
    var live := Live(h.clients[i]);
    var o1 := PauseStageClient(h, LogsChannel, p.pauseLogs, i);
    var o2 := PauseStageClient(h1, NetworkChannel, p.pauseNetwork, i);
    var o3 := ConfigStageClient(h2, p, i);
    var a := StatusPart(h1, h.attached && p.pauseLogs.Some? && live);
    var b := StatusPart(h2, h.attached && p.pauseNetwork.Some? && live);
    var c := ConfigPart(h2, p, live);
    AppendThree(h.clients[i].outbox, o1, o2, o3, a, b, c);
  }

  lemma AppendThree<T>(o0: seq<T>, o1: seq<T>, o2: seq<T>, o3: seq<T>, a: seq<T>, b: seq<T>, c: seq<T>)
    requires o1 == o0 + a && o2 == o1 + b && o3 == o2 + c
    ensures o3 == o0 + (a + b + c)
  {
  }

  /** One client's outbox after a pause stage. */
  lemma PauseStageClient(h: Hub, channel: Channel, v: Option<bool>, i: nat) returns (o: seq<WSMessage>)
    requires i < |h.clients|
    ensures var r := PauseStage(h, channel, v);
      && i < |r.clients| && o == r.clients[i].outbox && Live(r.clients[i]) == Live(h.clients[i])
      && o == h.clients[i].outbox + StatusPart(r, h.attached && v.Some? && Live(h.clients[i]))
  {
    o := PauseStage(h, channel, v).clients[i].outbox;
  }

  /** One client's outbox after the config stage. */
  lemma ConfigStageClient(h: Hub, p: ControlPatch, i: nat) returns (o: seq<WSMessage>)
    requires i < |h.clients|
    ensures var r := ConfigStage(h, p);
      && i < |r.clients| && o == r.clients[i].outbox
      && o == h.clients[i].outbox + ConfigPart(h, p, Live(h.clients[i]))
  {
    o := ConfigStage(h, p).clients[i].outbox;
  }

  function StatusPart(h: Hub, sent: bool): seq<WSMessage> {
    if sent then [StatusMsg(h.collector.GetStatus())] else []
  }

  function ConfigPart(h: Hub, p: ControlPatch, live: bool): seq<WSMessage> {
    var out := CP.ApplyPatch(h.config, p);
    if HasConfigUpdate(p) && !out.threw && live then [ConfigMsg(out.config)] else []
  }

  lemma ControlPartsCombine(h: Hub, p: ControlPatch, live: bool)
    ensures
      var h1 := PauseStage(h, LogsChannel, p.pauseLogs);
      var h2 := PauseStage(h1, NetworkChannel, p.pauseNetwork);
      StatusPart(h1, h.attached && p.pauseLogs.Some? && live)
        + StatusPart(h2, h.attached && p.pauseNetwork.Some? && live) + ConfigPart(h2, p, live)
      == (if live then ControlMessages(h, p) else [])
  {
    ControlMessagesStages(h, p);
  }

  /** The control messages are the two pause stages' statuses and the config stage's policy. */
  lemma ControlMessagesStages(h: Hub, p: ControlPatch)
    ensures
      var h1 := PauseStage(h, LogsChannel, p.pauseLogs);
      var h2 := PauseStage(h1, NetworkChannel, p.pauseNetwork);
      && ControlMessages(h, p) == StatusPart(h1, h.attached && p.pauseLogs.Some?)
           + StatusPart(h2, h.attached && p.pauseNetwork.Some?) + ConfigPart(h2, p, true)
  {
  }

  /** The handler: a `clear` runs `collector.clear` with whatever target was
      sent; a `control` runs the control steps; anything else is dropped. */
  function HandleInbound(h: Hub, parsed: Option<Json>): (r: Hub)
    ensures h.Valid() ==> r.Valid()
    ensures Decode(parsed).Ignored? ==> r == h
    ensures Decode(parsed).InClear? ==> r == RunOp(h, DC.ClearOp(Decode(parsed).target))
    ensures Decode(parsed).InControl? ==> r == HandleControl(h, Decode(parsed).patch)
    ensures |r.clients| == |h.clients| && r.attached == h.attached
  {
    match Decode(parsed)
    case InClear(target) => RunOp(h, DC.ClearOp(target))
    case InControl(p) => HandleControl(h, p)
    case Ignored => h
  }

  // ---- events ----------------------------------------------------------------------------

  datatype Event =
    | ConnectEv(broken: bool)
    | DisconnectEv(index: nat)
    | InboundEv(parsed: Option<Json>)
    | CollectorEv(op: DC.Op)
    | CloseEv

  /** Server close: the four relays are removed from the collector. */
  function Close(h: Hub): (r: Hub)
    ensures !r.attached
    ensures r.collector == h.collector && r.config == h.config && r.clients == h.clients
  {
    h.(attached := false)
  }

  function Step(h: Hub, e: Event): (r: Hub)
    ensures h.Valid() ==> r.Valid()
    ensures |r.clients| >= |h.clients|
  {
    match e
    case ConnectEv(broken) => Connect(h, broken)
    case DisconnectEv(i) => Disconnect(h, i)
    case InboundEv(parsed) => HandleInbound(h, parsed)
    case CollectorEv(op) => RunOp(h, op)
    case CloseEv => Close(h)
  }

  function Run(h: Hub, events: seq<Event>): (r: Hub)
    ensures h.Valid() ==> r.Valid()
    ensures |r.clients| >= |h.clients|
    decreases |events|
  {
    if |events| == 0 then h else Run(Step(h, events[0]), events[1..])
  }

  // ---- properties --------------------------------------------------------------------------

  /** Outboxes only ever grow, and clients never disappear. */
  predicate Extends(h: Hub, r: Hub) {
    && |h.clients| <= |r.clients|
    && forall i :: 0 <= i < |h.clients| ==> h.clients[i].outbox <= r.clients[i].outbox
  }

  lemma BroadcastExtends(clients: seq<Client>, m: WSMessage)
    ensures forall i :: 0 <= i < |clients| ==> clients[i].outbox <= Broadcast(clients, m)[i].outbox
  {
  }

  lemma RunOpExtends(h: Hub, op: DC.Op)
    ensures Extends(h, RunOp(h, op))
  {
  }

  lemma HandleControlExtends(h: Hub, p: ControlPatch)
    ensures Extends(h, HandleControl(h, p))
  {
  }

  lemma StepExtends(h: Hub, e: Event)
    ensures Extends(h, Step(h, e))
  {
    match e
    case ConnectEv(broken) =>
      var r := Connect(h, broken);
      assert forall i :: 0 <= i < |h.clients| ==> r.clients[i] == r.clients[..|h.clients|][i];
    case DisconnectEv(i) =>
    case InboundEv(parsed) =>
      match Decode(parsed) {
        case InClear(target) => RunOpExtends(h, DC.ClearOp(target));
        case InControl(p) => HandleControlExtends(h, p);
        case Ignored =>
      }
    case CollectorEv(op) => RunOpExtends(h, op);
    case CloseEv =>
  }

  lemma {:induction false} RunExtends(h: Hub, events: seq<Event>)
    ensures Extends(h, Run(h, events))
    decreases |events|
  {
    if |events| > 0 {
      var h1 := Step(h, events[0]);
      StepExtends(h, events[0]);
      RunExtends(h1, events[1..]);
    }
  }

  /** The handshake a client received on connecting stays at the head of its
      outbox, whatever happens afterwards, provided the buffered entries all
      serialise. */
  lemma HandshakeStaysFirst(h: Hub, broken: bool, later: seq<Event>)
    requires !broken && BufferSerialises(h.collector)
    ensures
      var h1 := Connect(h, broken);
      var r := Run(h1, later);
      |h.clients| < |r.clients| && Handshake(h) <= r.clients[|h.clients|].outbox
  {
    var h1 := Connect(h, broken);
    assert h1.clients[|h.clients|].outbox == Handshake(h);
    RunExtends(h1, later);
  }

  /** When some buffered entry does not serialise, a new client never sees the
      batch: its outbox starts with the status. */
  lemma HandshakeLosesBatch(h: Hub)
    requires !BufferSerialises(h.collector)
    ensures
      var c := Connect(h, false).clients[|h.clients|];
      c.outbox == [StatusMsg(h.collector.GetStatus()), ConfigMsg(h.config)]
  {
    var hs := Handshake(h);
    assert hs[1..] == [hs[1], hs[2]];
  }

  /** While attached, each live client receives exactly the serialisable
      messages of the operation's notifications, in order; a client that is
      closed or whose send throws receives nothing, and its failure affects no
      other client. */
  lemma RelayReachesLiveClients(h: Hub, op: DC.Op)
    requires h.attached
    ensures
      var r := RunOp(h, op);
      var ms := Messages(DC.Apply(h.collector, op).notes);
      forall i :: 0 <= i < |h.clients| ==>
        r.clients[i].outbox == h.clients[i].outbox + (if Live(h.clients[i]) then Sendable(ms) else [])
  {
  }

  /** A log entry whose arguments `JSON.stringify` rejects is recorded by the
      collector but reaches no client at all. */
  lemma UnserialisableLogReachesNoOne(h: Hub, e: LogEntry)
    requires h.Valid() && h.attached && !h.collector.pausedLogs && !EntrySerialises(e)
    ensures
      var r := RunOp(h, DC.AddLogOp(e));
      && r.collector.GetLogs() == Last(h.collector.GetLogs() + [e], h.collector.logs.maxSize)
      && forall i :: 0 <= i < |h.clients| ==> r.clients[i].outbox == h.clients[i].outbox
  {
    var ms := Messages(DC.Apply(h.collector, DC.AddLogOp(e)).notes);
    assert ms == [LogMsg(e)];
    assert Sendable(ms) == [] by { assert !Serialises(ms[0]); }
    var r := RunOp(h, DC.AddLogOp(e));
    forall i | 0 <= i < |h.clients|
      ensures r.clients[i].outbox == h.clients[i].outbox
    {
      assert h.clients[i].outbox + [] == h.clients[i].outbox;
    }
  }

  /** After close nothing further is relayed: collector operations change no outbox. */
  lemma ClosedHubRelaysNothing(h: Hub, op: DC.Op)
    ensures RunOp(Close(h), op).clients == h.clients
  {
  }

  /** An inbound `clear` is broadcast back to every live client, the sender included. */
  lemma InboundClearEchoes(h: Hub, target: string)
    requires h.attached
    ensures
      var msg := Some(JObj(map["type" := JStr("clear"), "target" := JStr(target)]));
      var r := HandleInbound(h, msg);
      && r.collector == DC.Clear(h.collector, TargetOf(Some(JStr(target)))).state
      && forall i :: 0 <= i < |h.clients| && Live(h.clients[i]) ==>
           r.clients[i].outbox == h.clients[i].outbox + [ClearMsg(TargetOf(Some(JStr(target))))]
  {
    var msg := JObj(map["type" := JStr("clear"), "target" := JStr(target)]);
    assert Field(msg.fields, "type") == Some(JStr("clear"));
    assert Field(msg.fields, "target") == Some(JStr(target));
  }

  /** A control message that only pauses: one status broadcast per flag, in
      order, and no config message. */
  lemma PauseOnlyControl(h: Hub, pauseLogs: bool, pauseNetwork: bool)
    requires h.attached
    ensures
      var r := HandleControl(h, ControlPatch(Some(pauseLogs), Some(pauseNetwork), None, None, None, None));
      && r.config == h.config
      && forall i :: 0 <= i < |h.clients| && Live(h.clients[i]) ==>
           r.clients[i].outbox == h.clients[i].outbox
             + [StatusMsg(Status(pauseLogs, h.collector.pausedNetwork)), StatusMsg(Status(pauseLogs, pauseNetwork))]
  {
    var p := ControlPatch(Some(pauseLogs), Some(pauseNetwork), None, None, None, None);
    assert !HasConfigUpdate(p);
    assert ControlMessages(h, p)
      == [StatusMsg(Status(pauseLogs, h.collector.pausedNetwork)), StatusMsg(Status(pauseLogs, pauseNetwork))];
  }

  /** A control message with a well-formed policy field ends with exactly one
      config broadcast carrying the patched policy. */
  lemma PolicyControlBroadcastsConfig(h: Hub, p: ControlPatch)
    requires HasConfigUpdate(p) && p.pauseLogs.None? && p.pauseNetwork.None?
    requires !CP.ApplyPatch(h.config, p).threw
    ensures
      var r := HandleControl(h, p);
      && r.config == CP.ApplyPatch(h.config, p).config
      && r.collector == h.collector
      && forall i :: 0 <= i < |h.clients| && Live(h.clients[i]) ==>
           r.clients[i].outbox == h.clients[i].outbox + [ConfigMsg(r.config)]
  {
  }

  /** Malformed frames and unknown types change nothing at all. */
  lemma MalformedIgnored(h: Hub, other: string)
    requires other != "clear" && other != "control"
    ensures HandleInbound(h, None) == h
    ensures HandleInbound(h, Some(JNull)) == h
    ensures HandleInbound(h, Some(JObj(map["type" := JStr("control")]))) == h
    ensures HandleInbound(h, Some(JObj(map["type" := JStr(other)]))) == h
  {
    assert Field(map["type" := JStr("control")], "data") == None;
  }
}

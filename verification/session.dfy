/** `initServerDevTools` and `shutdown`: the option defaults, the initial
    capture policy, and the single active-session slot of the process. A
    session owns a collector and hub and the three interceptor hooks; the
    environment (production or not, whether `fetch` exists) is a parameter. */
module Session {
  import opened Common
  import opened Types
  import DC = DataCollector
  import BH = BroadcastHub
  import CI = ConsoleInterceptor
  import FI = FetchInterceptor
  import HI = HttpInterceptor

  // ---- options -------------------------------------------------------------------

  /** The caller's options; `None` for a key that was left out. */
  datatype DevToolsOptions = DevToolsOptions(
    wsPort: Option<int>,
    wsHost: Option<string>,
    maxLogs: Option<int>,
    maxRequests: Option<int>,
    truncateBodyBytes: Option<int>,
    captureRequestBodies: Option<bool>,
    captureResponseBodies: Option<bool>,
    redactHeaders: Option<seq<string>>)

  const NoOptions := DevToolsOptions(None, None, None, None, None, None, None, None)

  /** Every option resolved. */
  datatype Settings = Settings(
    wsPort: int,
    wsHost: string,
    maxLogs: int,
    maxRequests: int,
    truncateBodyBytes: int,
    captureRequestBodies: bool,
    captureResponseBodies: bool,
    redactHeaders: seq<string>)

  const Defaults := Settings(3001, "127.0.0.1", 10000, 5000, 1000000, true, true,
                             ["authorization", "cookie", "set-cookie"])

  function Or<T>(o: Option<T>, d: T): T {
    if o.Some? then o.value else d
  }

  /** `{ ...defaults, ...options }`: a given key wins, an omitted key takes the default. */
  function Merge(o: DevToolsOptions): (s: Settings)
    ensures o.wsPort.Some? ==> s.wsPort == o.wsPort.value
    ensures o.wsPort.None? ==> s.wsPort == 3001
    ensures o.wsHost.Some? ==> s.wsHost == o.wsHost.value
    ensures o.wsHost.None? ==> s.wsHost == "127.0.0.1"
    ensures o.maxLogs.Some? ==> s.maxLogs == o.maxLogs.value
    ensures o.maxLogs.None? ==> s.maxLogs == 10000
    ensures o.maxRequests.Some? ==> s.maxRequests == o.maxRequests.value
    ensures o.maxRequests.None? ==> s.maxRequests == 5000
    ensures o.truncateBodyBytes.Some? ==> s.truncateBodyBytes == o.truncateBodyBytes.value
    ensures o.truncateBodyBytes.None? ==> s.truncateBodyBytes == 1000000
    ensures o.captureRequestBodies.Some? ==> s.captureRequestBodies == o.captureRequestBodies.value
    ensures o.captureRequestBodies.None? ==> s.captureRequestBodies
    ensures o.captureResponseBodies.Some? ==> s.captureResponseBodies == o.captureResponseBodies.value
    ensures o.captureResponseBodies.None? ==> s.captureResponseBodies
    ensures o.redactHeaders.Some? ==> s.redactHeaders == o.redactHeaders.value
    ensures o.redactHeaders.None? ==> s.redactHeaders == ["authorization", "cookie", "set-cookie"]
  {
    Settings(
      Or(o.wsPort, Defaults.wsPort),
      Or(o.wsHost, Defaults.wsHost),
      Or(o.maxLogs, Defaults.maxLogs),
      Or(o.maxRequests, Defaults.maxRequests),
      Or(o.truncateBodyBytes, Defaults.truncateBodyBytes),
      Or(o.captureRequestBodies, Defaults.captureRequestBodies),
      Or(o.captureResponseBodies, Defaults.captureResponseBodies),
      Or(o.redactHeaders, Defaults.redactHeaders))
  }

  /** With no options at all every setting is its default. */
  lemma MergeNothingIsDefaults()
    ensures Merge(NoOptions) == Defaults
  {
  }

  /** The initial capture policy copies the merged settings as they are: unlike
      a patched limit, the initial one is not raised to the floor. */
  function InitialRuntime(s: Settings): (c: RuntimeCaptureConfig)
    ensures c.truncateBodyBytes == s.truncateBodyBytes
    ensures c.captureRequestBodies == s.captureRequestBodies
    ensures c.captureResponseBodies == s.captureResponseBodies
    ensures c.redactHeaders == s.redactHeaders
  {
    RuntimeCaptureConfig(s.truncateBodyBytes, s.captureRequestBodies, s.captureResponseBodies, s.redactHeaders)
  }

  /** A small initial limit is kept as given. */
  lemma InitialLimitNotClamped(limit: int)
    ensures InitialRuntime(Merge(NoOptions.(truncateBodyBytes := Some(limit)))).truncateBodyBytes == limit
  {
  }

  // ---- sessions and the active slot -----------------------------------------------------

  /** One started instance: the hub (holding the collector and the shared
      capture policy) and the three interceptor hooks. */
  datatype Instance = Instance(settings: Settings, hub: BH.Hub, console: CI.Hook, fetch: FI.Hook, http: HI.Hooks)

  /** Every instance ever started, by number, and the one in the `active` slot. */
  datatype Registry = Registry(instances: seq<Instance>, active: Option<nat>)
  {
    ghost predicate Valid() {
      active.Some? ==> active.value < |instances|
    }
  }

  /** What `initServerDevTools` returns: a no-op handle, or the handle whose
      `shutdown` closes instance `id`. */
  datatype Handle = NoOpHandle | LiveHandle(id: nat)

  datatype InitResult = InitResult(registry: Registry, handle: Handle)

  /** A fresh instance: a new collector and hub, all interceptors installed. */
  function StartInstance(options: DevToolsOptions, fetchPresent: bool): (i: Instance)
    ensures i.settings == Merge(options)
    ensures i.hub.attached && i.hub.clients == [] && i.hub.Valid()
    ensures i.hub.collector.GetLogs() == [] && i.hub.collector.GetRequests() == []
    ensures i.hub.config == InitialRuntime(Merge(options))
    ensures i.console == CI.Install() && i.fetch == FI.Install(fetchPresent) && i.http == HI.Install()
  {
    var s := Merge(options);
    var collector := DC.New(s.maxLogs, s.maxRequests);
    Instance(s, BH.Start(collector, InitialRuntime(s)), CI.Install(), FI.Install(fetchPresent), HI.Install())
  }

  function Init(reg: Registry, production: bool, fetchPresent: bool, options: DevToolsOptions): (r: InitResult)
    requires reg.Valid()
    ensures r.registry.Valid()
    // an active instance wins, whatever the environment and options
    ensures reg.active.Some? ==> r == InitResult(reg, LiveHandle(reg.active.value))
    // in production nothing starts
    ensures reg.active.None? && production ==> r == InitResult(reg, NoOpHandle)
    // otherwise a new instance fills the slot
    ensures reg.active.None? && !production ==>
      && r.handle == LiveHandle(|reg.instances|)
      && r.registry.active == Some(|reg.instances|)
      && r.registry.instances == reg.instances + [StartInstance(options, fetchPresent)]
  {
    if reg.active.Some? then InitResult(reg, LiveHandle(reg.active.value))
    else if production then InitResult(reg, NoOpHandle)
    else
      var id := |reg.instances|;
      InitResult(Registry(reg.instances + [StartInstance(options, fetchPresent)], Some(id)), LiveHandle(id))
  }

  /** What one instance's `shutdown` does to the instance: restore the three
      interceptors and close the server, which detaches the relays. */
  function Stop(i: Instance): (r: Instance)
    ensures forall l: LogLevel :: l !in r.console.wrapped
    ensures !r.fetch.patched && !r.http.httpPatched && !r.http.httpsPatched
    ensures !r.hub.attached
    ensures r.hub.collector == i.hub.collector && r.hub.clients == i.hub.clients && r.settings == i.settings
  {
    Instance(i.settings, BH.Close(i.hub), CI.Restore(i.console), FI.Restore(i.fetch), HI.Restore(i.http))
  }

  /** `shutdown` as written: stop the handle's instance and empty the slot,
      whichever instance is in it. */
  function ShutdownAsWritten(reg: Registry, h: Handle): (r: Registry)
    requires reg.Valid()
    ensures r.Valid()
    ensures h.NoOpHandle? ==> r == reg
    ensures h.LiveHandle? ==> r.active.None?
    ensures |r.instances| == |reg.instances|
  {
    match h
    case NoOpHandle => reg
    case LiveHandle(id) =>
      var instances := if id < |reg.instances| then reg.instances[id := Stop(reg.instances[id])] else reg.instances;
      Registry(instances, None)
  }

  /** `shutdown` as evidently intended: it empties the slot only when its own
      instance is the one in it, so a second call on an old handle leaves a
      newer instance registered. */
  function Shutdown(reg: Registry, h: Handle): (r: Registry)
    requires reg.Valid()
    ensures r.Valid()
    ensures h.NoOpHandle? ==> r == reg
    ensures h.LiveHandle? && reg.active == Some(h.id) ==> r.active.None?
    ensures h.LiveHandle? && reg.active != Some(h.id) ==> r.active == reg.active
    ensures |r.instances| == |reg.instances|
    ensures h.LiveHandle? && h.id < |reg.instances| ==>
      r.instances == reg.instances[h.id := Stop(reg.instances[h.id])]
  {
    match h
    case NoOpHandle => reg
    case LiveHandle(id) =>
      var instances := if id < |reg.instances| then reg.instances[id := Stop(reg.instances[id])] else reg.instances;
      Registry(instances, if reg.active == Some(id) then None else reg.active)
  }

  // ---- properties ----------------------------------------------------------------------

  /** A second init while an instance is active hands back the same handle and starts nothing. */
  lemma SecondInitReturnsSameHandle(reg: Registry, production: bool, fetchPresent: bool,
                                    o1: DevToolsOptions, o2: DevToolsOptions)
    requires reg.Valid() && reg.active.None? && !production
    ensures
      var first := Init(reg, production, fetchPresent, o1);
      var second := Init(first.registry, production, fetchPresent, o2);
      second == InitResult(first.registry, first.handle)
  {
  }

  /** In production nothing is started and the slot stays empty. */
  lemma ProductionStartsNothing(reg: Registry, fetchPresent: bool, options: DevToolsOptions)
    requires reg.Valid() && reg.active.None?
    ensures Init(reg, true, fetchPresent, options).registry.active.None?
    ensures Init(reg, true, fetchPresent, options).handle == NoOpHandle
  {
  }

  /** After shutdown the next init starts a fresh instance with a new handle. */
  lemma ShutdownThenInitIsFresh(reg: Registry, fetchPresent: bool, o1: DevToolsOptions, o2: DevToolsOptions)
    requires reg.Valid() && reg.active.None?
    ensures
      var first := Init(reg, false, fetchPresent, o1);
      var afterStop := Shutdown(first.registry, first.handle);
      var second := Init(afterStop, false, fetchPresent, o2);
      && afterStop.active.None?
      && !afterStop.instances[first.handle.id].hub.attached
      && second.handle.LiveHandle? && second.handle != first.handle
      && second.registry.instances[second.handle.id].hub.collector.GetLogs() == []
  {
  }

  /** The defect: init, shutdown, init again, then the first handle's shutdown
      a second time. As written the slot is emptied although the second
      instance is still running, so a third init starts a duplicate. */
  lemma StaleShutdownEmptiesSlot(fetchPresent: bool)
    ensures
      var r1 := Init(Registry([], None), false, fetchPresent, NoOptions);
      var r2 := ShutdownAsWritten(r1.registry, r1.handle);
      var r3 := Init(r2, false, fetchPresent, NoOptions);
      var r4 := ShutdownAsWritten(r3.registry, r1.handle);
      && r3.handle == LiveHandle(1)
      && r3.registry.instances[1].hub.attached
      && r4.instances[1].hub.attached
      && r4.active.None?
      && Init(r4, false, fetchPresent, NoOptions).handle == LiveHandle(2)
  {
  }

  /** With the guard, a repeated shutdown on an old handle leaves the newer
      instance in the slot, and a later init returns that instance's handle. */
  lemma StaleShutdownKeepsNewerSession(fetchPresent: bool)
    ensures
      var r1 := Init(Registry([], None), false, fetchPresent, NoOptions);
      var r2 := Shutdown(r1.registry, r1.handle);
      var r3 := Init(r2, false, fetchPresent, NoOptions);
      var r4 := Shutdown(r3.registry, r1.handle);
      && r4.active == Some(1)
      && Init(r4, false, fetchPresent, NoOptions).handle == r3.handle
  {
  }

  /** Shutting down twice with the same handle is the same as once. */
  lemma ShutdownIdempotent(reg: Registry, h: Handle)
    requires reg.Valid()
    ensures Shutdown(Shutdown(reg, h), h) == Shutdown(reg, h)
  {
  }
}

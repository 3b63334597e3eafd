/** The console capture source: which console methods are wrapped, the log
    entry a wrapped call builds, and the guarantee that the original method
    still runs with the caller's arguments. Identifiers, clock readings and
    stack traces are parameters. */
module ConsoleInterceptor {
  import opened Common
  import opened Text
  import opened Types
  import opened Utils

  /** The wrapped console methods, in wrapping order. */
  const Levels: seq<LogLevel> := [Log, Info, Warn, Error, Debug]

  /** The level a console method name stands for, if it is one that gets wrapped. */
  function WrappedLevel(name: string): (r: Option<LogLevel>)
    ensures r.Some? ==> LevelName(r.value) == name
    ensures r.None? ==> forall l: LogLevel :: LevelName(l) != name
  {
    if name == "log" then Some(Log)
    else if name == "info" then Some(Info)
    else if name == "warn" then Some(Warn)
    else if name == "error" then Some(Error)
    else if name == "debug" then Some(Debug)
    else None
  }

  /** Which console methods currently run the wrapper. */
  datatype Hook = Hook(wrapped: set<LogLevel>)

  /** `initConsoleInterceptor`: wrap all five levels. */
  function Install(): (h: Hook)
    ensures forall i :: 0 <= i < |Levels| ==> Levels[i] in h.wrapped
  {
    Hook({Log, Info, Warn, Error, Debug})
  }

  /** Every level there is gets wrapped. */
  lemma InstallWrapsEveryLevel(l: LogLevel)
    ensures l in Install().wrapped
  {
    match l
    case Log => assert Levels[0] == l;
    case Info => assert Levels[1] == l;
    case Warn => assert Levels[2] == l;
    case Error => assert Levels[3] == l;
    case Debug => assert Levels[4] == l;
  }

  /** The returned restore function: every level gets its original method back. */
  function Restore(h: Hook): (r: Hook)
    ensures forall l: LogLevel :: l !in r.wrapped
  {
    Hook({})
  }

  /** The entry the wrapper records for one call. */
  function BuildEntry(level: LogLevel, message: string, args: seq<Arg>, id: string, now: int,
                      stackTrace: Option<string>): LogEntry
  {
    LogEntry(id, now, level, message, args,
             if level == Error then stackTrace else None,
             MessageHash(LevelName(level) + ":" + message))
  }

  /** What one console call does: the entry handed to the collector (none when
      the level is not wrapped or rendering threw), and the arguments the
      original method is then called with. */
  datatype CallEffect = CallEffect(captured: Option<LogEntry>, forwarded: seq<Arg>)

  function Call(h: Hook, level: LogLevel, args: seq<Arg>, id: string, now: int,
                stackTrace: Option<string>): (r: CallEffect)
    ensures r.forwarded == args
    ensures r.captured.Some? <==> level in h.wrapped && RenderMessage(args).Some?
    ensures r.captured.Some? ==>
      var e := r.captured.value;
      && e.id == id && e.timestamp == now && e.level == level && e.args == args
      && e.message == RenderMessage(args).value
      && (e.stack.Some? ==> level == Error)
      && (level == Error ==> e.stack == stackTrace)
      && e.hash == MessageHash(LevelName(level) + ":" + e.message)
  {
    if level in h.wrapped then
      match RenderMessage(args)
      case Some(message) => CallEffect(Some(BuildEntry(level, message, args, id, now, stackTrace)), args)
      case None => CallEffect(None, args)
    else CallEffect(None, args)
  }

  /** A string followed by one value renders as the string, a space and the value's text. */
  lemma RenderStringThenValue(str: string, a: Arg)
    requires !SafeStringify(a).Threw?
    ensures RenderMessage([StrArg(str), a]) == Some(str + " " + ArgText(a))
  {
    RenderMessageSnoc([], StrArg(str));
    assert [] + [StrArg(str)] == [StrArg(str)];
    RenderMessageSnoc([StrArg(str)], a);
    assert [StrArg(str)] + [a] == [StrArg(str), a];
  }

  /** A wrapped call with a string and one serialisable value records that
      string, a space and the value's text. */
  lemma StringThenValueCaptured(level: LogLevel, str: string, rendered: string, id: string, now: int)
    ensures
      var r := Call(Install(), level, [StrArg(str), ValueArg(Rendered(rendered, true))], id, now, None);
      && r.captured.Some?
      && r.captured.value.level == level
      && r.captured.value.message == str + " " + rendered
      && EntrySerialises(r.captured.value)
  {
    var args := [StrArg(str), ValueArg(Rendered(rendered, true))];
    RenderStringThenValue(str, args[1]);
    InstallWrapsEveryLevel(level);
    assert ArgSerialises(args[0]) && ArgSerialises(args[1]);
  }

  /** `console.info("hello", {id: 1})` records one info entry whose message
      is "hello", a space and the object's JSON text, and the entry serialises. */
  lemma InfoCallIsCaptured(id: string, now: int, rendered: string)
    ensures
      var r := Call(Install(), Info, [StrArg("hello"), ValueArg(Rendered(rendered, true))], id, now, None);
      && r.captured.Some?
      && r.captured.value.level == Info
      && Contains(r.captured.value.message, "hello")
      && EntrySerialises(r.captured.value)
  {
    StringThenValueCaptured(Info, "hello", rendered, id, now);
    var m := "hello" + " " + rendered;
    assert "hello" <= m[0..];
  }

  /** After restore no call is captured, and the original method still gets the arguments. */
  lemma RestoredCallsPassThrough(h: Hook, level: LogLevel, args: seq<Arg>, id: string, now: int,
                                 stackTrace: Option<string>)
    ensures Call(Restore(h), level, args, id, now, stackTrace) == CallEffect(None, args)
  {
  }
}

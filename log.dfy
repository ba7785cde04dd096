/**
 * The contextual logger: logger values with a field set and a caller-skip
 * depth, their binding into a request's context, caller attribution, and the
 * process-wide logger that NewLogger configures.
 */
module Log {
  import opened Wrappers
  import Net
  import Config

  /** The context key under which a request's logger is bound. */
  const ContextLogger := "ContextLogger"

  /** A field value; the core stores strings and integers. */
  datatype Value = Str(s: string) | Int(n: int)

  type Fields = map<string, Value>

  /** A logrusLogger: the frame depth used for caller attribution and the entry's fields. */
  datatype Logger = Logger(skip: nat, fields: Fields)

  /** What a context holds under a key: nil, a Logger, a string, or something else. */
  datatype CtxValue = Nil | LoggerValue(logger: Logger) | StringValue(s: string) | OtherValue

  /** A context.Context: Background, or a WithValue layer over a parent context. */
  datatype Context = Background | WithValue(parent: Context, key: string, val: CtxValue)

  /** The keys some layer of `ctx` binds. */
  function BoundKeys(ctx: Context): set<string> {
    match ctx
    case Background => {}
    case WithValue(parent, k, _) => BoundKeys(parent) + {k}
  }

  /** ctx.Value(key): the value of the nearest layer that binds `key`, or nil. */
  function Lookup(ctx: Context, key: string): (r: CtxValue)
    ensures key !in BoundKeys(ctx) ==> r == Nil
  {
    match ctx
    case Background => Nil
    case WithValue(parent, k, v) => if k == key then v else Lookup(parent, key)
  }

  /**
   * An inbound *http.Request as the core reads it: headers, context and parsed
   * cookies. The headers only stand for what the tracer's Extract reads; its
   * outcome is an input of the model, so no member reads them.
   */
  datatype Request = Request(header: Net.Header, ctx: Context, cookies: seq<Net.Cookie>)

  /**
   * LoggerFromContext: the global logger for a nil context or one with nothing
   * under ContextLogger, otherwise the bound logger; a bound value that is not
   * a Logger makes the type assertion panic.
   */
  function LoggerFromContext(global: Logger, ctx: Option<Context>): (r: Result<Logger>)
    ensures r.Panic? <==> ctx.Some? && !(Lookup(ctx.value, ContextLogger).Nil? || Lookup(ctx.value, ContextLogger).LoggerValue?)
    ensures r.Ok? ==> r.value == (if ctx.None? || Lookup(ctx.value, ContextLogger).Nil? then global
                                  else Lookup(ctx.value, ContextLogger).logger)
  {
    match ctx
    case None => Ok(global)
    case Some(c) =>
      match Lookup(c, ContextLogger)
      case Nil => Ok(global)
      case LoggerValue(l) => Ok(l)
      case _ => Panic("interface conversion: context value is not a log.Logger")
  }

  /** LoggerFromRequest: the global logger for a nil request, else the logger of its context. */
  function LoggerFromRequest(global: Logger, r: Option<Request>): (res: Result<Logger>)
    ensures r.None? ==> res == Ok(global)
    ensures r.Some? ==> res == LoggerFromContext(global, Some(r.value.ctx))
  {
    if r.None? then Ok(global) else LoggerFromContext(global, Some(r.value.ctx))
  }

  /**
   * Without a ContextLogger binding anywhere in the chain, resolution gives
   * the global logger, for the context and for any request carrying it.
   */
  lemma {:induction false} ResolveUnbound(global: Logger, ctx: Context, req: Request)
    requires ContextLogger !in BoundKeys(ctx)
    requires req.ctx == ctx
    ensures LoggerFromContext(global, Some(ctx)) == Ok(global)
    ensures LoggerFromRequest(global, Some(req)) == Ok(global)
  {
    match ctx
    case Background =>
    case WithValue(parent, k, v) => ResolveUnbound(global, parent, req.(ctx := parent));
  }

  /** An explicit nil under ContextLogger, however deep in the chain, also gives the global logger. */
  lemma ResolveNilBinding(global: Logger, ctx: Context, layers: seq<(string, CtxValue)>)
    requires forall i :: 0 <= i < |layers| ==> layers[i].0 != ContextLogger
    ensures LoggerFromContext(global, Some(Layered(WithValue(ctx, ContextLogger, Nil), layers))) == Ok(global)
  {
    ResolveInherited(global, WithValue(ctx, ContextLogger, Nil), layers);
  }

  /** Layers `layers` applied on top of `ctx`, innermost last. */
  function Layered(ctx: Context, layers: seq<(string, CtxValue)>): Context {
    if layers == [] then ctx
    else
      var last := layers[|layers| - 1];
      WithValue(Layered(ctx, layers[..|layers| - 1]), last.0, last.1)
  }

  /**
   * A child context inherits its parent's logger binding: layers that bind
   * other keys do not change what resolution gives.
   */
  lemma {:induction false} ResolveInherited(global: Logger, ctx: Context, layers: seq<(string, CtxValue)>)
    requires forall i :: 0 <= i < |layers| ==> layers[i].0 != ContextLogger
    ensures LoggerFromContext(global, Some(Layered(ctx, layers))) == LoggerFromContext(global, Some(ctx))
  {
    if layers != [] {
      var init := layers[..|layers| - 1];
      forall i | 0 <= i < |init| ensures init[i].0 != ContextLogger {
        assert init[i] == layers[i];
      }
      ResolveInherited(global, ctx, init);
    }
  }

  /** The logger most recently bound into a context or its ancestors is the one resolved. */
  lemma ResolveMostRecent(global: Logger, ctx: Context, l: Logger, layers: seq<(string, CtxValue)>)
    requires forall i :: 0 <= i < |layers| ==> layers[i].0 != ContextLogger
    ensures LoggerFromContext(global, Some(Layered(WithValue(ctx, ContextLogger, LoggerValue(l)), layers))) == Ok(l)
  {
    ResolveInherited(global, WithValue(ctx, ContextLogger, LoggerValue(l)), layers);
  }

  /**
   * WithField: a new logger one frame deeper whose fields are the receiver's
   * with `key` set to `v` (a later value for the same key wins).
   */
  function WithField(l: Logger, key: string, v: Value): (r: Logger)
    ensures r.skip == l.skip + 1
    ensures r.fields.Keys == l.fields.Keys + {key} && r.fields[key] == v
    ensures forall k :: k in l.fields && k != key ==> r.fields[k] == l.fields[k]
  {
    Logger(l.skip + 1, l.fields[key := v])
  }

  /** A chain of WithField calls, applied left to right. */
  function WithFields(l: Logger, kvs: seq<(string, Value)>): Logger {
    if kvs == [] then l
    else
      var last := kvs[|kvs| - 1];
      WithField(WithFields(l, kvs[..|kvs| - 1]), last.0, last.1)
  }

  /** The value the last pair for `key` in `kvs` gives, if any. */
  function LastValue(kvs: seq<(string, Value)>, key: string): Option<Value> {
    if kvs == [] then None
    else if kvs[|kvs| - 1].0 == key then Some(kvs[|kvs| - 1].1)
    else LastValue(kvs[..|kvs| - 1], key)
  }

  /** n derivations from a logger with skip s give skip s + n. */
  lemma {:induction false} WithFieldsSkip(l: Logger, kvs: seq<(string, Value)>)
    ensures WithFields(l, kvs).skip == l.skip + |kvs|
  {
    if kvs != [] {
      WithFieldsSkip(l, kvs[..|kvs| - 1]);
    }
  }

  /**
   * The fields after a chain are the receiver's fields overridden by the
   * chain's pairs, the last pair for a key winning.
   */
  lemma {:induction false} WithFieldsFields(l: Logger, kvs: seq<(string, Value)>, key: string)
    ensures var f := WithFields(l, kvs).fields;
      match LastValue(kvs, key)
      case Some(v) => key in f && f[key] == v
      case None => (key in f <==> key in l.fields) && (key in l.fields ==> f[key] == l.fields[key])
  {
    if kvs != [] {
      WithFieldsFields(l, kvs[..|kvs| - 1], key);
    }
  }

  /** Deriving never loses a field: the parent's keys are among the child's. */
  lemma WithFieldsKeepsKeys(l: Logger, kvs: seq<(string, Value)>)
    ensures l.fields.Keys <= WithFields(l, kvs).fields.Keys
  {
    forall k | k in l.fields ensures k in WithFields(l, kvs).fields {
      WithFieldsFields(l, kvs, k);
    }
  }

  /** `pat` occurs in `s` at position i. */
  predicate OccursAt(s: string, pat: string, i: nat) {
    i + |pat| <= |s| && s[i..i + |pat|] == pat
  }

  /** strings.Index searching from `from`: the first occurrence at or after `from`, or -1. */
  function IndexFrom(s: string, pat: string, from: nat): (r: int)
    requires |pat| > 0
    ensures r == -1 || (from <= r && OccursAt(s, pat, r))
    ensures forall j: nat :: from <= j && (r == -1 || j < r) ==> !OccursAt(s, pat, j)
    decreases |s| - from
  {
    if from + |pat| > |s| then -1
    else if OccursAt(s, pat, from) then from
    else IndexFrom(s, pat, from + 1)
  }

  /**
   * callerInfo's truncation: the text from four characters past the first
   * "pkg" on, or the string unchanged when it has no "pkg". When the first
   * "pkg" is the last three characters the slice is out of range and Go panics.
   */
  function TrimPkg(s: string): (r: Result<string>)
    ensures r.Panic? <==> (|s| >= 3 && OccursAt(s, "pkg", |s| - 3)
                           && forall j: nat :: j < |s| - 3 ==> !OccursAt(s, "pkg", j))
  {
    var index := IndexFrom(s, "pkg", 0);
    if index == -1 then Ok(s)
    else if index + 4 <= |s| then Ok(s[index + 4..])
    else Panic("slice bounds out of range")
  }

  /** A string without "pkg" is kept as it is. */
  lemma TrimPkgAbsent(s: string)
    requires forall j: nat :: !OccursAt(s, "pkg", j)
    ensures TrimPkg(s) == Ok(s)
  {
  }

  /** With the first "pkg" at i and more text after it, the result starts at i + 4. */
  lemma TrimPkgAfterFirst(s: string, i: nat)
    requires OccursAt(s, "pkg", i) && i + 3 < |s|
    requires forall j: nat :: j < i ==> !OccursAt(s, "pkg", j)
    ensures TrimPkg(s) == Ok(s[i + 4..])
  {
  }

  /** A stack frame as runtime.Caller and FuncForPC report it. */
  datatype Frame = Frame(file: string, line: int, func: string)

  /** runtime.Caller(skip): the frame `skip` levels up, or empty values when the stack is shorter. */
  function CallerFrame(stack: seq<Frame>, skip: nat): Frame {
    if skip < |stack| then stack[skip] else Frame("", 0, "")
  }

  /**
   * callerInfo: the frame `l.skip` levels up, with the file and the function
   * name each truncated at "pkg" on its own; the line is kept.
   */
  function CallerInfo(l: Logger, stack: seq<Frame>): (r: Result<Frame>)
    ensures var f := CallerFrame(stack, l.skip);
      && (r.Ok? <==> TrimPkg(f.file).Ok? && TrimPkg(f.func).Ok?)
      && (r.Ok? ==> r.value == Frame(TrimPkg(f.file).value, f.line, TrimPkg(f.func).value))
  {
    var f := CallerFrame(stack, l.skip);
    match TrimPkg(f.file)
    case Panic(m) => Panic(m)
    case Ok(file) =>
      match TrimPkg(f.func)
      case Panic(m) => Panic(m)
      case Ok(fn) => Ok(Frame(file, f.line, fn))
  }

  /**
   * entryWithCallInfo: the fields of one emission, the logger's own fields
   * with "file", "line" and "func" added; the logger itself is a value and
   * does not change.
   */
  function EntryWithCallInfo(l: Logger, stack: seq<Frame>): (r: Result<Fields>)
    ensures r.Ok? <==> CallerInfo(l, stack).Ok?
    ensures r.Ok? ==> r.value.Keys == l.fields.Keys + {"file", "line", "func"}
    ensures r.Ok? ==> forall k :: k in l.fields && k !in {"file", "line", "func"} ==> r.value[k] == l.fields[k]
    ensures r.Ok? ==> var f := CallerInfo(l, stack).value;
      r.value["file"] == Str(f.file) && r.value["line"] == Int(f.line) && r.value["func"] == Str(f.func)
  {
    match CallerInfo(l, stack)
    case Panic(m) => Panic(m)
    case Ok(f) => Ok(l.fields + map["file" := Str(f.file), "line" := Int(f.line), "func" := Str(f.func)])
  }

  datatype Level = PanicLevel | FatalLevel | ErrorLevel | WarnLevel | InfoLevel | DebugLevel | TraceLevel

  /** What one emission hands to logrus: level, format, arguments and fields. */
  datatype Record = Record(level: Level, format: string, args: seq<Value>, fields: Fields)

  /**
   * Debugf, Infof, Warnf, Errorf, Fatalf, Printf (Printf and Print log at info
   * level): the record carries the logger's fields plus the call site.
   */
  function Emit(l: Logger, level: Level, format: string, args: seq<Value>, stack: seq<Frame>): (r: Result<Record>)
    ensures r.Ok? <==> EntryWithCallInfo(l, stack).Ok?
    ensures r.Ok? ==> r.value.level == level && r.value.format == format && r.value.args == args
    ensures r.Ok? ==> r.value.fields == EntryWithCallInfo(l, stack).value
  {
    match EntryWithCallInfo(l, stack)
    case Panic(m) => Panic(m)
    case Ok(fields) => Ok(Record(level, format, args, fields))
  }

  datatype Formatter = JSONFormatter | TextFormatter

  /** The process-wide logging state: the host name, the global logger, and logrus's settings. */
  class LogState {
    const hostname: string
    var globalLogger: Logger
    var formatter: Formatter
    var level: Level

    /** Process start: the global logger carries only the host name, with skip 4. */
    constructor (hostname: string)
      ensures this.hostname == hostname
      ensures globalLogger == Logger(4, map["host" := Str(hostname)])
      ensures formatter == TextFormatter && level == InfoLevel
    {
      this.hostname := hostname;
      globalLogger := Logger(4, map["host" := Str(hostname)]);
      formatter := TextFormatter;
      level := InfoLevel;
    }

    /**
     * NewLogger: JSON output iff log_format is exactly "json"; the parsed
     * log_level, or debug when it does not parse; host from $HOSTNAME, else
     * the process host name; the global logger replaced by one with exactly
     * the service and host fields and skip 4, which is also returned.
     */
    method NewLogger(service: string, cfg: Config.Section, env: Config.Env, parseLevel: string -> Option<Level>)
      returns (l: Logger)
      modifies this
      ensures formatter == (if cfg.String("log_format") == "json" then JSONFormatter else TextFormatter)
      ensures parseLevel(cfg.String("log_level")).None? ==> level == DebugLevel
      ensures parseLevel(cfg.String("log_level")).Some? ==> level == parseLevel(cfg.String("log_level")).value
      ensures l == globalLogger && l.skip == 4
      ensures l.fields.Keys == {"service", "host"} && l.fields["service"] == Str(service)
      ensures Config.Getenv(env, "HOSTNAME") != "" ==> l.fields["host"] == Str(env["HOSTNAME"])
      ensures Config.Getenv(env, "HOSTNAME") == "" ==> l.fields["host"] == Str(hostname)
    {
      if cfg.String("log_format") == "json" {
        formatter := JSONFormatter;
      } else {
        formatter := TextFormatter;
      }
      var lvl := parseLevel(cfg.String("log_level"));
      if lvl.None? {
        level := DebugLevel;
      } else {
        level := lvl.value;
      }
      var host := Config.Getenv(env, "HOSTNAME");
      if host == "" {
        host := hostname;
      }
      globalLogger := Logger(4, map["service" := Str(service), "host" := Str(host)]);
      l := globalLogger;
    }
  }
}

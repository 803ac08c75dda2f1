// logging/logger_manager.go: named loggers that follow the configuration.
// Every method is one atomic step: Logger writes its maps under a read lock.
module LogManager {
  import opened LogSettings
  import opened Wrappers

  datatype Device = Stderr | Discard

  // The charm handler, which Configure reaches later.
  class Handler {
    var output: Device
    var level: Level

    constructor (output: Device)
      ensures this.output == output && level == Info
    {
      this.output := output;
      level := Info;
    }
  }

  class Logger {
    const handler: Handler

    constructor (handler: Handler)
      ensures this.handler == handler
    {
      this.handler := handler;
    }
  }

  function DeviceFor(c: Config, name: string): Device {
    if IsEnabled(c, name) then Stderr else Discard
  }

  // The settings of a call to Configure.
  datatype Settings = Settings(tags: string, defaultLevel: string)

  // The configuration in force after the last accepted settings; the zero
  // LoggingConfig, of level Info and no names, before any.
  function InForce(accepted: Option<Settings>): (c: Option<Config>) {
    if accepted.None? then Some(Empty(Info)) else Parse(accepted.value.tags, accepted.value.defaultLevel)
  }

  class Manager {
    var config: Config
    var loggers: map<string, Logger>
    var handlers: map<string, Handler>
    ghost var accepted: Option<Settings>
    ghost var handedOut: set<(string, Logger)>

    ghost predicate Shape()
      reads this
    {
      && loggers.Keys == handlers.Keys
      && (forall n :: n in loggers ==> loggers[n].handler == handlers[n])
      && (forall m, n :: m in handlers && n in handlers && m != n ==> handlers[m] != handlers[n])
      && forall p :: p in handedOut ==> p.0 in loggers && loggers[p.0] == p.1
    }

    ghost predicate Follows(name: string)
      requires name in handlers
      reads this, handlers[name]
    {
      handlers[name].output == DeviceFor(config, name) && handlers[name].level == GetLevel(config, name)
    }

    ghost predicate Valid()
      reads this, handlers.Values
    {
      Shape() && InForce(accepted) == Some(config) && forall n :: n in handlers ==> Follows(n)
    }

    // SetOutput and SetLevel on one handler.
    method SetUp(handler: Handler, name: string)
      modifies handler
      ensures handler.output == DeviceFor(config, name) && handler.level == GetLevel(config, name)
    {
      handler.output := DeviceFor(config, name);
      handler.level := GetLevel(config, name);
    }

    // The loop of Configure over the handlers.
    method SetUpAll()
      requires Shape()
      modifies handlers.Values
      ensures Shape() && forall n :: n in handlers ==> Follows(n)
    {
      var todo := handlers.Keys;
      while todo != {}
        invariant todo <= handlers.Keys
        invariant forall n :: n in handlers.Keys - todo ==> Follows(n)
        decreases |todo|
      {
        var name :| name in todo;
        SetUp(handlers[name], name);
        todo := todo - {name};
      }
    }

    constructor Zero()
      ensures Valid() && loggers == map[] && handedOut == {} && accepted == None
    {
      config := Empty(Info);
      loggers, handlers := map[], map[];
      accepted, handedOut := None, {};
    }

    method Configure(tags: string, defaultLevel: string) returns (ok: bool)
      requires Valid()
      modifies this`config, this`accepted, handlers.Values
      ensures Valid() && loggers == old(loggers) && handlers == old(handlers) && handedOut == old(handedOut)
      ensures ok <==> Parse(tags, defaultLevel).Some?
      ensures accepted == if ok then Some(Settings(tags, defaultLevel)) else old(accepted)
      ensures !ok ==> config == old(config)
      ensures !ok ==> forall n :: n in handlers ==>
        handlers[n].output == old(handlers[n].output) && handlers[n].level == old(handlers[n].level)
    {
      var parsed := NewConfig(tags, defaultLevel);
      if parsed.None? {
        return false;
      }
      config := parsed.value;
      accepted := Some(Settings(tags, defaultLevel));
      SetUpAll();
      return true;
    }

    method NewLogger(name: string) returns (logger: Logger)
      ensures fresh(logger) && fresh(logger.handler)
      ensures logger.handler.output == DeviceFor(config, name) && logger.handler.level == GetLevel(config, name)
    {
      var handler := new Handler(DeviceFor(config, name));
      handler.level := GetLevel(config, name);
      logger := new Logger(handler);
    }

    method Register(name: string, logger: Logger)
      requires Valid() && name !in loggers && logger.handler !in handlers.Values
      requires logger.handler.output == DeviceFor(config, name) && logger.handler.level == GetLevel(config, name)
      modifies this`loggers, this`handlers
      ensures Valid()
      ensures loggers == old(loggers)[name := logger] && handlers == old(handlers)[name := logger.handler]
    {
      loggers := loggers[name := logger];
      handlers := handlers[name := logger.handler];
    }

    method LoggerFor(name: string) returns (logger: Logger)
      requires Valid()
      modifies this`loggers, this`handlers, this`handedOut
      ensures Valid() && config == old(config) && accepted == old(accepted)
      ensures name in loggers && logger == loggers[name]
      ensures handedOut == old(handedOut) + {(name, logger)}
      ensures name in old(loggers) ==> loggers == old(loggers) && handlers == old(handlers)
      ensures name !in old(loggers) ==>
        fresh(logger) && loggers == old(loggers)[name := logger] && handlers == old(handlers)[name := logger.handler]
    {
      if name in loggers {
        logger := loggers[name];
        handedOut := handedOut + {(name, logger)};
        return;
      }
      logger := NewLogger(name);
      Register(name, logger);
      handedOut := handedOut + {(name, logger)};
    }

    // Every logger ever handed out writes where, and from the level at which,
    // the last accepted settings say.
    lemma HandedOutFollows(name: string, logger: Logger)
      requires Valid() && (name, logger) in handedOut
      ensures InForce(accepted).Some?
      ensures accepted.None? ==> InForce(accepted).value == Config(Info, false, map[], map[], map[])
      ensures logger.handler.output == if IsEnabled(InForce(accepted).value, name) then Stderr else Discard
      ensures logger.handler.level == GetLevel(InForce(accepted).value, name)
    {
      assert Follows(name);
    }

    // One logger for a name, one name for a logger.
    lemma OneLoggerPerName(m: string, n: string, a: Logger, b: Logger)
      requires Valid() && (m, a) in handedOut && (n, b) in handedOut
      ensures m == n <==> a == b
    {
      if a == b {
        assert handlers[m] == handlers[n];
      }
    }
  }

  method NewManager(tags: string, defaultLevel: string) returns (m: Manager, ok: bool)
    ensures fresh(m) && m.Valid() && m.loggers == map[] && (ok <==> Parse(tags, defaultLevel).Some?)
    ensures m.accepted == if ok then Some(Settings(tags, defaultLevel)) else None
  {
    m := new Manager.Zero();
    ok := m.Configure(tags, defaultLevel);
  }
}

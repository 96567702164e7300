/** `LogManager` of src/log_manager.cc: one global logger and a registry of module
    loggers by name, all writing to the same console and disk. */
module Manager {
  import opened Wrappers
  import opened Levels
  import opened Config
  import opened Sinks
  import opened Logging

  class LogManager {
    var global: Logger
    var modules: map<string, Logger>
    const console: Console
    const disk: Disk
    ghost var Repr: set<object>

    /** A logger held by this manager: well formed, inside the manager's footprint,
        writing to the manager's console and disk. */
    ghost predicate Holds(l: Logger)
      reads this, Repr
    {
      l in Repr && l.Repr <= Repr && this !in l.Repr && l.Valid()
      && l.console == console && l.disk == disk
    }

    /** The configurations of all loggers, which a level change touches. */
    function Configs(): set<LogConfig>
      reads this
    {
      {global.config} + set n | n in modules :: modules[n].config
    }

    /** The file sinks of all loggers, which a flush touches. */
    ghost function FileObjects(): set<FileSink>
      reads this, Repr
      requires Valid()
    {
      global.Files() + set n, f | n in modules && f in modules[n].Files() :: f
    }

    /** Every logger is held, and no two loggers share an object (each is a separate
        `unique_ptr`, so in particular no logger is registered twice). */
    ghost predicate Valid()
      reads this, Repr
    {
      this in Repr
      && Holds(global)
      && (forall n :: n in modules ==> Holds(modules[n]))
      && (forall n :: n in modules ==> modules[n].Repr !! global.Repr)
      && (forall a, b :: a in modules && b in modules && a != b ==> modules[a].Repr !! modules[b].Repr)
    }

    /** Different loggers are different objects with different configurations. */
    lemma Distinct()
      requires Valid()
      ensures forall n :: n in modules ==> modules[n] != global && modules[n].config != global.config
      ensures forall a, b :: a in modules && b in modules && a != b ==>
                modules[a] != modules[b] && modules[a].config != modules[b].config
    {
    }

    /** The configuration of one registered logger belongs to no other logger. */
    lemma ConfigApart(name: string)
      requires Valid() && name in modules
      ensures global.config != modules[name].config
      ensures forall n :: n in modules && n != name ==> modules[n].config != modules[name].config
    {
    }

    /** How far a level change over the modules has got: the names still to do hold
        their former settings, the others have the new level. */
    ghost predicate LevelProgress(before: map<string, Settings>, todo: set<string>, level: LogLevel)
      reads this, Configs()
    {
      before.Keys == modules.Keys
      && forall n :: n in modules ==>
           modules[n].config.Value() == if n in todo then before[n] else before[n].(level := level)
    }

    /** One step of the level change: the level of one registered logger. */
    method SetLevelAt(name: string, level: LogLevel, ghost before: map<string, Settings>, ghost todo: set<string>)
      requires Valid() && name in todo && todo <= modules.Keys
      requires LevelProgress(before, todo, level)
      modifies modules[name].config
      ensures Valid() && LevelProgress(before, todo - {name}, level)
      ensures global.config.Value() == old(global.config.Value())
    {
      ConfigApart(name);
      label before:
      modules[name].SetLogLevel(level);
      Reheld@before(name);
      forall n | n in modules
        ensures modules[n].config.Value() == if n in todo - {name} then before[n] else before[n].(level := level)
      {
        if n != name {
          assert modules[n].config.Value() == old@before(modules[n].config.Value());
        }
      }
    }

    /** The level of the global logger. */
    method SetGlobalLevel(level: LogLevel)
      requires Valid()
      modifies global.config
      ensures Valid()
      ensures global.config.Value() == old(global.config.Value()).(level := level)
      ensures forall n :: n in modules ==> modules[n].config.Value() == old(modules[n].config.Value())
    {
      Distinct();
      global.SetLogLevel(level);
    }

    /** `LogManager()`: a global logger with the default configuration and no modules. */
    constructor (console: Console, disk: Disk)
      modifies disk
      ensures Valid() && fresh(Repr)
      ensures modules == map[]
      ensures global.config.Value() == Default
      ensures this.console == console && this.disk == disk
      ensures disk.openable == old(disk.openable) && disk.files == old(disk.files)
      ensures global.Files() == {}
    {
      var c := new LogConfig();
      global := new Logger(c, console, disk);
      modules := map[];
      this.console := console;
      this.disk := disk;
      new;
      Repr := {this} + global.Repr;
    }

    /** `InitGlobalLogger(const LogConfig&)`: a new global logger, the modules untouched. */
    method InitGlobalLogger(c: LogConfig)
      requires Valid()
      modifies this, disk
      ensures Valid() && fresh(Repr - old(Repr))
      ensures fresh(global.Repr) && global.config.Value() == old(c.Value())
      ensures modules == old(modules)
      ensures disk.openable == old(disk.openable)
      ensures global.config.sink == Console ==> disk.files == old(disk.files)
      ensures forall f :: f in global.Files() ==> f.View() == OpenAppend(old(disk.files), disk.openable, f.path)
    {
      var logger := new Logger(c, console, disk);
      Install(logger);
    }

    /** `InitGlobalLogger(const std::string&)`: a new global logger read from a file. */
    method InitGlobalLoggerFromFile(path: string, fileExists: bool, file: Option<seq<string>>)
      requires Valid() && (file.Some? ==> fileExists)
      modifies this, disk
      ensures Valid() && fresh(Repr - old(Repr))
      ensures fresh(global.Repr) && global.config.Value() == Loaded(Default, file)
      ensures global.monitoring <==> path != [] && fileExists
      ensures modules == old(modules)
      ensures disk.openable == old(disk.openable)
      ensures global.config.sink == Console ==> disk.files == old(disk.files)
      ensures forall f :: f in global.Files() ==> f.View() == OpenAppend(old(disk.files), disk.openable, f.path)
    {
      var logger := new Logger.FromFile(path, fileExists, file, console, disk);
      Install(logger);
    }

    /** A logger built apart from every logger already held becomes the global one. */
    method Install(logger: Logger)
      requires Valid() && logger.Valid() && logger.Repr !! Repr
      requires logger.console == console && logger.disk == disk
      modifies this
      ensures Valid() && Repr == old(Repr) + logger.Repr
      ensures global == logger && modules == old(modules)
    {
      global := logger;
      Repr := Repr + logger.Repr;
    }

    /** A logger built apart from every logger already held is registered under a
        name not yet in use. */
    method Register(name: string, logger: Logger)
      requires Valid() && name !in modules && logger.Valid() && logger.Repr !! Repr
      requires logger.console == console && logger.disk == disk
      modifies this
      ensures Valid() && Repr == old(Repr) + logger.Repr
      ensures global == old(global) && modules == old(modules)[name := logger]
    {
      modules := modules[name := logger];
      Repr := Repr + logger.Repr;
    }

    /** `GetModuleLogger(name)`: the registered logger, or a new default-configured one
        registered under the name; no other entry changes. */
    method GetModuleLogger(name: string) returns (logger: Logger)
      requires Valid()
      modifies this, disk
      ensures Valid() && fresh(Repr - old(Repr))
      ensures global == old(global)
      ensures name in modules && modules[name] == logger
      ensures name in old(modules) ==>
                logger == old(modules[name]) && modules == old(modules) && disk.files == old(disk.files)
      ensures name !in old(modules) ==>
                modules == old(modules)[name := logger] && fresh(logger.Repr)
                && logger.config.Value() == Default && logger.Files() == {} && disk.files == old(disk.files)
      ensures disk.openable == old(disk.openable)
    {
      if name in modules {
        return modules[name];
      }
      var c := new LogConfig();
      logger := new Logger(c, console, disk);
      Register(name, logger);
    }

    /** After one registered logger has changed within its own footprint, the manager
        is well formed again. */
    twostate lemma Reheld(name: string)
      requires old(Valid()) && name in old(modules)
      requires global == old(global) && modules == old(modules)
      requires Repr == old(Repr) + modules[name].Repr
      requires unchanged(old(global.Repr))
      requires forall n :: n in modules && n != name ==> unchanged(old(modules[n].Repr))
      requires modules[name].Valid() && this !in modules[name].Repr
      requires modules[name].console == console && modules[name].disk == disk
      requires fresh(modules[name].Repr - old(modules[name].Repr))
      ensures Valid()
    {
    }

    /** `SetConfig` on a registered logger. */
    method Reconfigure(name: string, c: LogConfig)
      requires Valid() && name in modules
      modifies this, disk, modules[name], modules[name].config
      ensures Valid() && fresh(Repr - old(Repr))
      ensures global == old(global) && modules == old(modules)
      ensures modules[name].config.Value() == Validated(old(c.Value()))
      ensures disk.openable == old(disk.openable)
      ensures modules[name].config.sink == Console ==> disk.files == old(disk.files)
      ensures forall f :: f in modules[name].Files() ==> f.View() == OpenAppend(old(disk.files), disk.openable, f.path)
    {
      var logger := modules[name];
      label before:
      logger.SetConfig(c);
      Repr := Repr + logger.Repr;
      Reheld@before(name);

    }

    /** `GetModuleLogger(name, config)`: a registered logger takes the configuration
        through `SetConfig`, which validates it; a new logger is built from it as given. */
    method GetModuleLoggerWith(name: string, c: LogConfig) returns (logger: Logger)
      requires Valid()
      modifies this, disk, if name in modules then {modules[name], modules[name].config} else {}
      ensures Valid() && fresh(Repr - old(Repr))
      ensures global == old(global)
      ensures name in modules && modules[name] == logger
      ensures name in old(modules) ==>
                logger == old(modules[name]) && modules == old(modules)
                && logger.config.Value() == Validated(old(c.Value()))
      ensures name !in old(modules) ==>
                modules == old(modules)[name := logger] && fresh(logger.Repr)
                && logger.config.Value() == old(c.Value())
      ensures disk.openable == old(disk.openable)
      ensures logger.config.sink == Console ==> disk.files == old(disk.files)
      ensures forall f :: f in logger.Files() ==> f.View() == OpenAppend(old(disk.files), disk.openable, f.path)
    {
      if name in modules {
        logger := modules[name];
        Reconfigure(name, c);
        return;
      }
      logger := new Logger(c, console, disk);
      Register(name, logger);
    }

    /** `SetGlobalLogLevel`: the global logger and every module logger get the level;
        nothing else about them changes. */
    method SetGlobalLogLevel(level: LogLevel)
      requires Valid()
      modifies Configs()
      ensures Valid()
      ensures global.config.Value() == old(global.config.Value()).(level := level)
      ensures forall n :: n in modules ==>
                modules[n].config.Value() == old(modules[n].config.Value()).(level := level)
    {
      ghost var before := map n | n in modules :: modules[n].config.Value();
      SetGlobalLevel(level);
      var todo := modules.Keys;
      while todo != {}
        invariant todo <= modules.Keys
        invariant Valid()
        invariant global.config.Value() == old(global.config.Value()).(level := level)
        invariant LevelProgress(before, todo, level)
        decreases todo
      {
        var n :| n in todo;
        assert modules[n].config in old(Configs());
        SetLevelAt(n, level, before, todo);
        todo := todo - {n};
      }
    }

    /** `SetModuleLogLevel`: the named logger's level if it is registered; an unknown
        name changes nothing and registers nothing. */
    method SetModuleLogLevel(name: string, level: LogLevel)
      requires Valid()
      modifies Configs()
      ensures Valid()
      ensures name in modules ==>
                modules[name].config.Value() == old(modules[name].config.Value()).(level := level)
      ensures forall n :: n in modules && n != name ==> modules[n].config.Value() == old(modules[n].config.Value())
      ensures global.config.Value() == old(global.config.Value())
    {
      if name in modules {
        ConfigApart(name);
        label before:
        modules[name].SetLogLevel(level);
        Reheld@before(name);
        forall n | n in modules && n != name
          ensures modules[n].config.Value() == old(modules[n].config.Value())
        {
          assert modules[n].config.Value() == old@before(modules[n].config.Value());
        }
      }
    }

    /** No file sink of the global logger or of a module logger already flushed holds
        unflushed output. */
    ghost predicate FlushProgress(todo: set<string>)
      reads this, Repr
      requires Valid()
    {
      (forall f :: f in global.Files() ==> !f.dirty)
      && forall n, f :: n in modules && n !in todo && f in modules[n].Files() ==> !f.dirty
    }

    /** One step of `FlushAll`: one registered logger. */
    method FlushAt(name: string, ghost todo: set<string>)
      requires Valid() && name in todo && todo <= modules.Keys && FlushProgress(todo)
      modifies modules[name].Files()
      ensures Valid() && FlushProgress(todo - {name})
    {
      label before:
      modules[name].Flush();
      Reheld@before(name);
    }

    /** `FlushAll`: the global logger, then every module logger; afterwards no file sink
        of any logger holds unflushed output. */
    method FlushAll()
      requires Valid()
      modifies FileObjects()
      ensures Valid()
      ensures forall f :: f in global.Files() ==> !f.dirty
      ensures forall n, f :: n in modules && f in modules[n].Files() ==> !f.dirty
    {
      global.Flush();
      var todo := modules.Keys;
      while todo != {}
        invariant todo <= modules.Keys
        invariant Valid() && FlushProgress(todo)
        decreases todo
      {
        var n :| n in todo;
        FlushAt(n, todo);
        todo := todo - {n};
      }
    }
  }
}

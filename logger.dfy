/** `Logger` of src/logger.cc as a single-threaded object: a configuration, the list of
    sinks built from it, the level filter in front of them, and the configuration-file
    reload. The console and the disk are shared objects handed in at construction. */
module Logging {
  import opened Wrappers
  import opened Levels
  import opened LogUtils
  import opened Config
  import opened ConfigFile
  import opened Sinks

  /** An entry of `sinks_`. */
  datatype Sink = ToConsole | ToFile(file: FileSink)

  /** `ValidateConfig`: an invalid configuration is replaced by the default one. */
  function Validated(s: Settings): (r: Settings)
    ensures s.Validate() ==> r == s
    ensures !s.Validate() ==> r == Default
  {
    if s.Validate() then s else Default
  }

  /** Validation is idempotent, and its result is either valid or the default
      (which is itself invalid, having no path). */
  lemma ValidatedIdempotent(s: Settings)
    ensures Validated(Validated(s)) == Validated(s)
    ensures Validated(s).Validate() || Validated(s) == Default
    ensures Validated(s).Validate() <==> s.Validate()
  {
    DefaultIsInvalid();
  }

  /** The settings after reading a configuration file, when it could be opened. */
  function Loaded(s: Settings, file: Option<seq<string>>): Settings
  {
    match file
    case None => s
    case Some(lines) => LoadLines(s, lines)
  }

  /** A file sink built from these settings on this disk. */
  predicate FileMatches(f: FileSink, s: Settings, disk: Disk)
  {
    f.path == s.filePath && f.maxFileCount == s.maxFileCount && f.maxFileSize == s.maxFileSize
    && f.disk == disk
  }

  /** The list `InitSinks` builds: console for Console, one file sink for File, console
      then file sink for Both. */
  predicate SinksMatch(sinks: seq<Sink>, s: Settings, disk: Disk)
  {
    match s.sink
    case Console => sinks == [ToConsole]
    case File => |sinks| == 1 && sinks[0].ToFile? && FileMatches(sinks[0].file, s, disk)
    case Both => |sinks| == 2 && sinks[0] == ToConsole && sinks[1].ToFile? && FileMatches(sinks[1].file, s, disk)
  }

  function FileSinks(sinks: seq<Sink>): set<FileSink>
  {
    set i | 0 <= i < |sinks| && sinks[i].ToFile? :: sinks[i].file
  }

  /** Only the console kinds write to the console, only the file kinds have a file sink. */
  lemma SinksMatchShape(sinks: seq<Sink>, s: Settings, disk: Disk)
    requires SinksMatch(sinks, s, disk)
    ensures |sinks| >= 1
    ensures sinks[0] == ToConsole <==> s.sink != File
    ensures ToConsole in sinks <==> s.sink != File
    ensures FileSinks(sinks) == {} <==> s.sink == Console
    ensures forall i :: 0 <= i < |sinks| && sinks[i].ToFile? ==> i == |sinks| - 1
    ensures FileSinks(sinks) == if sinks[|sinks| - 1].ToFile? then {sinks[|sinks| - 1].file} else {}
  {
    if s.sink != Console {
      assert sinks[|sinks| - 1].file in FileSinks(sinks);
    }
  }

  class Logger {
    const config: LogConfig
    var configFilePath: string
    var sinks: seq<Sink>
    var monitoring: bool
    const console: Console
    const disk: Disk
    /** The objects this logger owns: itself, its configuration and its file sinks. */
    ghost var Repr: set<object>

    function Files(): set<FileSink>
      reads this
    {
      FileSinks(sinks)
    }

    ghost predicate Valid()
      reads this, Repr
    {
      this in Repr && config in Repr && Files() <= Repr && disk !in Repr
      && SinksMatch(sinks, config.Value(), disk)
      && (forall f :: f in Files() ==> f.Valid())
    }

    /** `Logger(const LogConfig&)`: copies the configuration as given, without
        validating it, and builds the sinks. */
    constructor (c: LogConfig, console: Console, disk: Disk)
      modifies disk
      ensures Valid() && fresh(Repr)
      ensures config.Value() == old(c.Value())
      ensures this.console == console && this.disk == disk
      ensures configFilePath == [] && !monitoring
      ensures disk.openable == old(disk.openable)
      ensures config.sink == Console ==> disk.files == old(disk.files)
      ensures forall f :: f in Files() ==> f.View() == OpenAppend(old(disk.files), disk.openable, f.path)
    {
      config := new LogConfig.Copy(c);
      configFilePath := [];
      sinks := [];
      monitoring := false;
      this.console := console;
      this.disk := disk;
      new;
      InitSinks();
    }

    /** `Logger(const std::string& config_file_path)`: a default configuration overlaid
        with the file (`None` when it cannot be opened), NOT validated; then the sinks;
        then the watcher, started when the path is non-empty and the file exists. A file
        that can be read exists; one that exists may still be unreadable. */
    constructor FromFile(path: string, fileExists: bool, file: Option<seq<string>>, console: Console, disk: Disk)
      requires file.Some? ==> fileExists
      modifies disk
      ensures Valid() && fresh(Repr)
      ensures config.Value() == Loaded(Default, file)
      ensures this.console == console && this.disk == disk
      ensures configFilePath == path
      ensures monitoring <==> path != [] && fileExists
      ensures disk.openable == old(disk.openable)
      ensures config.sink == Console ==> disk.files == old(disk.files)
      ensures forall f :: f in Files() ==> f.View() == OpenAppend(old(disk.files), disk.openable, f.path)
    {
      config := new LogConfig();
      configFilePath := path;
      sinks := [];
      monitoring := false;
      this.console := console;
      this.disk := disk;
      new;
      LoadConfigFromFile(file);
      InitSinks();
      if path != [] && fileExists {
        monitoring := true;
      }
    }

    /** `Log`: a level below the configured one is dropped; otherwise every sink, in list
        order, formats and writes the event. The stamp is the clock reading the sinks
        print; `now` is the event's epoch time. */
    method Log(level: LogLevel, message: string, filename: string, functionName: string,
               line: int, now: int, stamp: string) returns (event: Option<LogEvent>)
      requires Valid()
      modifies console, disk, Files()
      ensures Valid()
      ensures event.None? <==> Below(level, config.level)
      ensures event.Some? ==> event.value == LogEvent(message, level, now, filename, functionName, line)
      ensures disk.openable == old(disk.openable)
      ensures console.written == old(console.written)
                + (if event.Some? && config.sink != File then [Format(stamp, event.value)] else [])
      ensures forall f :: f in Files() ==>
                f.View() == if event.None? then old(f.View())
                            else Written(old(f.View()), disk.openable, f.path, f.maxFileCount,
                                         f.maxFileSize, Format(stamp, event.value))
      ensures event.None? || config.sink == Console ==> disk.files == old(disk.files)
    {
      if Below(level, config.level) {
        return None;
      }
      var e := LogEvent(message, level, now, filename, functionName, line);
      SinksMatchShape(sinks, config.Value(), disk);
      var i := 0;
      while i < |sinks|
        invariant 0 <= i <= |sinks|
        invariant disk.openable == old(disk.openable)
        invariant console.written == old(console.written)
                    + (if i > 0 && sinks[0] == ToConsole then [Format(stamp, e)] else [])
        invariant forall f :: f in Files() ==>
                    f.Valid()
                    && f.View() == if i == |sinks| then Written(old(f.View()), disk.openable, f.path, f.maxFileCount,
                                                                f.maxFileSize, Format(stamp, e))
                                   else old(f.View())
        invariant i < |sinks| || config.sink == Console ==> disk.files == old(disk.files)
      {
        LogTo(sinks[i], stamp, e);
        i := i + 1;
      }
      event := Some(e);
    }

    /** One sink of the list takes the formatted line. */
    method LogTo(k: Sink, stamp: string, e: LogEvent)
      requires k.ToFile? ==> k.file.disk == disk && k.file.Valid()
      modifies console, disk, if k.ToFile? then {k.file} else {}
      ensures disk.openable == old(disk.openable)
      ensures console.written == old(console.written) + (if k == ToConsole then [Format(stamp, e)] else [])
      ensures k.ToFile? ==>
                k.file.Valid()
                && k.file.View() == Written(old(k.file.View()), disk.openable, k.file.path, k.file.maxFileCount,
                                            k.file.maxFileSize, Format(stamp, e))
      ensures k == ToConsole ==> disk.files == old(disk.files)
    {
      match k {
        case ToConsole =>
          console.Log(stamp, e);
        case ToFile(f) =>
          ghost var before := f.View();
          f.Log(stamp, e);
          OperationsKeepConsistent(before, disk.openable, f.path, f.maxFileCount, f.maxFileSize, Format(stamp, e));
      }
    }

    /** `SetLogLevel`: the level only; the sink list is left as it is. */
    method SetLogLevel(level: LogLevel)
      requires Valid()
      modifies config
      ensures Valid()
      ensures config.Value() == old(config.Value()).(level := level)
    {
      config.SetLogLevel(level);
    }

    /** `SetLogSink`: the sink kind, then a rebuilt sink list. */
    method SetLogSink(sink: SinkKind)
      requires Valid()
      modifies this, config, disk
      ensures Valid() && fresh(Files()) && fresh(Repr - old(Repr))
      ensures config.Value() == old(config.Value()).(sink := sink)
      ensures configFilePath == old(configFilePath) && monitoring == old(monitoring)
      ensures disk.openable == old(disk.openable)
      ensures config.sink == Console ==> disk.files == old(disk.files)
      ensures forall f :: f in Files() ==> f.View() == OpenAppend(old(disk.files), disk.openable, f.path)
    {
      config.SetLogSink(sink);
      InitSinks();
    }

    /** `SetConfig`: take the given configuration, reset it to the default if it is
        invalid, and rebuild the sinks from the result. */
    method SetConfig(c: LogConfig)
      requires Valid()
      modifies this, config, disk
      ensures Valid() && fresh(Files()) && fresh(Repr - old(Repr))
      ensures config.Value() == Validated(old(c.Value()))
      ensures configFilePath == old(configFilePath) && monitoring == old(monitoring)
      ensures disk.openable == old(disk.openable)
      ensures config.sink == Console ==> disk.files == old(disk.files)
      ensures forall f :: f in Files() ==> f.View() == OpenAppend(old(disk.files), disk.openable, f.path)
    {
      config.Assign(c);
      ValidateConfig();
      InitSinks();
    }

    /** `Flush`: every sink in turn; afterwards no file sink holds unflushed output. */
    method Flush()
      requires Valid()
      modifies Files()
      ensures Valid()
      ensures forall f :: f in Files() ==> f.View() == Flushed(old(f.View())) && !f.dirty
    {
      var i := 0;
      while i < |sinks|
        invariant 0 <= i <= |sinks|
        invariant sinks == old(sinks)
        invariant forall j :: 0 <= j < |sinks| && sinks[j].ToFile? ==>
                    sinks[j].file.Valid()
                    && sinks[j].file.View() == if j < i then Flushed(old(sinks[j].file.View()))
                                               else old(sinks[j].file.View())
      {
        match sinks[i] {
          case ToConsole =>
          case ToFile(f) =>
            f.Flush();
        }
        i := i + 1;
      }
    }

    /** `InitSinks`: the list is cleared and refilled from the sink kind; each new file
        sink opens its file for appending. */
    method InitSinks()
      modifies this, disk
      ensures Valid() && fresh(Files()) && fresh(Repr - {this, config})
      ensures configFilePath == old(configFilePath) && monitoring == old(monitoring)
      ensures disk.openable == old(disk.openable)
      ensures config.sink == Console ==> disk.files == old(disk.files)
      ensures forall f :: f in Files() ==> f.View() == OpenAppend(old(disk.files), disk.openable, f.path)
    {
      var s := config.Value();
      Repr := {this, config};
      match s.sink
      case Console =>
        sinks := [ToConsole];
      case File =>
        var f := new FileSink(s.filePath, s.maxFileCount, s.maxFileSize, disk);
        sinks := [ToFile(f)];
        Repr := Repr + {f};
      case Both =>
        var f := new FileSink(s.filePath, s.maxFileCount, s.maxFileSize, disk);
        sinks := [ToConsole, ToFile(f)];
        Repr := Repr + {f};
    }

    /** `ValidateConfig`. */
    method ValidateConfig()
      modifies config
      ensures config.Value() == Validated(old(config.Value()))
    {
      var ok := config.Validate();
      if !ok {
        config.ResetToDefault();
      }
    }

    /** One `key=value` entry of the file, by way of the configuration's own setters. */
    method SetEntry(key: string, value: string)
      modifies config
      ensures config.Value() == ApplyEntry(old(config.Value()), key, value)
    {
      if key == "log_level" {
        config.SetLogLevel(StringToLevel(value));
      } else if key == "log_sink" {
        config.SetLogSink(StringToSink(value));
      } else if key == "file_path" {
        config.SetFilePath(value);
      } else if key == "max_file_count" {
        match NumParse.Stoi(value)
        case Some(n) => config.SetMaxFileCount(n);
        case None =>
      } else if key == "max_file_size" {
        match NumParse.Stoul(value)
        case Some(n) => config.SetMaxFileSize(n);
        case None =>
      } else if key == "async_mode" {
        config.SetAsyncMode(value == "true" || value == "1");
      }
    }

    /** `LoadConfigFromFile`: a file that cannot be opened changes nothing; otherwise
        each line in turn is parsed and applied. The sinks are not rebuilt here. */
    method LoadConfigFromFile(file: Option<seq<string>>)
      modifies config
      ensures config.Value() == Loaded(old(config.Value()), file)
    {
      if file.None? {
        return;
      }
      var lines := file.value;
      var i := 0;
      while i < |lines|
        invariant 0 <= i <= |lines|
        invariant config.Value() == LoadLines(old(config.Value()), lines[..i])
      {
        var line := lines[i];
        assert lines[..i + 1][..i] == lines[..i];
        if line != [] && line[0] != '#' {
          match IndexOf(line, '=')
          case Some(pos) =>
            var key := Trim(line[..pos]);
            var value := Trim(line[pos + 1..]);
            SetEntry(key, value);
          case None =>
        }
        i := i + 1;
      }
      assert lines[..|lines|] == lines;
    }

    /** One pass of `MonitorConfigFile` after its sleep: when the observed modification
        time differs from the last one, reload the file, validate, rebuild the sinks, and
        remember the new time; otherwise change nothing. */
    method MonitorStep(lastModified: int, currentModified: int, file: Option<seq<string>>)
      returns (next: int)
      requires Valid()
      modifies this, config, disk
      ensures Valid()
      ensures next == currentModified
      ensures currentModified == lastModified ==>
                config.Value() == old(config.Value()) && sinks == old(sinks) && disk.files == old(disk.files)
                && Repr == old(Repr)
      ensures currentModified != lastModified ==>
                config.Value() == Validated(Loaded(old(config.Value()), file))
                && fresh(Files()) && fresh(Repr - old(Repr))
                && (config.sink == Console ==> disk.files == old(disk.files))
                && forall f :: f in Files() ==> f.View() == OpenAppend(old(disk.files), disk.openable, f.path)
      ensures configFilePath == old(configFilePath) && monitoring == old(monitoring)
      ensures disk.openable == old(disk.openable)
    {
      next := lastModified;
      if currentModified != lastModified {
        LoadConfigFromFile(file);
        ValidateConfig();
        InitSinks();
        next := currentModified;
      }
    }
  }
}

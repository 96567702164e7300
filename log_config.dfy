/** `LogConfig` of src/log_config.cc: a record of six settings with range-guarded
    setters, a reset and a validity check. `Settings` is the value of one
    `LogConfig` at a moment; the class updates its fields in place as the source does. */
module Config {
  import opened Levels

  /** `int32_t`, the type of the file count. */
  type Int32 = x: int | -0x8000_0000 <= x < 0x8000_0000

  /** `size_t` on a 64-bit platform, the type of the file size. */
  type Size = x: nat | x < 0x1_0000_0000_0000_0000

  const DefaultMaxFileCount: Int32 := 5
  const DefaultMaxFileSize: Size := 1024 * 1024
  const MinFileSize: Size := 1024
  const MaxFileSize: Size := 1024 * 1024 * 1024

  predicate IsValidFileCount(count: int)
  {
    1 <= count <= 100
  }

  predicate IsValidFileSize(size: int)
  {
    MinFileSize <= size <= MaxFileSize
  }

  datatype Settings = Settings(
    level: LogLevel,
    sink: SinkKind,
    filePath: string,
    maxFileCount: Int32,
    maxFileSize: Size,
    asyncMode: bool)
  {
    /** `Validate`: both limits in range and a non-empty path, whatever the sink kind. */
    predicate Validate()
    {
      IsValidFileCount(maxFileCount) && IsValidFileSize(maxFileSize) && filePath != []
    }

    /** The effect of `SetMaxFileCount`: out-of-range counts are ignored. */
    function WithMaxFileCount(count: Int32): (r: Settings)
      ensures r.maxFileCount == (if IsValidFileCount(count) then count else maxFileCount)
      ensures r.(maxFileCount := maxFileCount) == this
    {
      if IsValidFileCount(count) then this.(maxFileCount := count) else this
    }

    /** The effect of `SetMaxFileSize`: out-of-range sizes are ignored. */
    function WithMaxFileSize(size: Size): (r: Settings)
      ensures r.maxFileSize == (if IsValidFileSize(size) then size else maxFileSize)
      ensures r.(maxFileSize := maxFileSize) == this
    {
      if IsValidFileSize(size) then this.(maxFileSize := size) else this
    }
  }

  /** What the default constructor and `ResetToDefault` produce. */
  const Default := Settings(Info, Console, "", DefaultMaxFileCount, DefaultMaxFileSize, false)

  /** The default configuration has an empty path, so it does not pass `Validate`. */
  lemma DefaultIsInvalid()
    ensures !Default.Validate()
  {
  }

  /** A valid configuration survives both guarded setters applied with its own values,
      and after either guarded setter the limit it guards is in range whenever it was before. */
  lemma GuardedSettersKeepRange(s: Settings, count: Int32, size: Size)
    ensures IsValidFileCount(s.maxFileCount) ==> IsValidFileCount(s.WithMaxFileCount(count).maxFileCount)
    ensures IsValidFileSize(s.maxFileSize) ==> IsValidFileSize(s.WithMaxFileSize(size).maxFileSize)
    ensures s.Validate() ==> s.WithMaxFileCount(count).WithMaxFileSize(size).Validate()
  {
  }

  class LogConfig {
    var level: LogLevel
    var sink: SinkKind
    var filePath: string
    var maxFileCount: Int32
    var maxFileSize: Size
    var asyncMode: bool

    /** The settings this object holds; the getters of the source read these fields. */
    function Value(): Settings
      reads this
    {
      Settings(level, sink, filePath, maxFileCount, maxFileSize, asyncMode)
    }

    /** `LogConfig()`. */
    constructor ()
      ensures Value() == Default
    {
      level, sink, filePath := Info, Console, "";
      maxFileCount, maxFileSize, asyncMode := DefaultMaxFileCount, DefaultMaxFileSize, false;
    }

    /** The six-argument constructor: stores its arguments as given; the `Validate()`
        it calls has its result discarded, so nothing is checked. */
    constructor Make(level: LogLevel, sink: SinkKind, filePath: string, maxFileCount: Int32,
                     maxFileSize: Size, asyncMode: bool)
      ensures Value() == Settings(level, sink, filePath, maxFileCount, maxFileSize, asyncMode)
    {
      this.level, this.sink, this.filePath := level, sink, filePath;
      this.maxFileCount, this.maxFileSize, this.asyncMode := maxFileCount, maxFileSize, asyncMode;
    }

    /** The defaulted copy constructor. */
    constructor Copy(other: LogConfig)
      ensures Value() == other.Value()
    {
      level, sink, filePath := other.level, other.sink, other.filePath;
      maxFileCount, maxFileSize, asyncMode := other.maxFileCount, other.maxFileSize, other.asyncMode;
    }

    /** The defaulted copy assignment `*this = other`. */
    method Assign(other: LogConfig)
      modifies this
      ensures Value() == old(other.Value())
    {
      level, sink, filePath := other.level, other.sink, other.filePath;
      maxFileCount, maxFileSize, asyncMode := other.maxFileCount, other.maxFileSize, other.asyncMode;
    }

    method SetLogLevel(level: LogLevel)
      modifies this
      ensures Value() == old(Value()).(level := level)
    {
      this.level := level;
    }

    method SetLogSink(sink: SinkKind)
      modifies this
      ensures Value() == old(Value()).(sink := sink)
    {
      this.sink := sink;
    }

    method SetFilePath(path: string)
      modifies this
      ensures Value() == old(Value()).(filePath := path)
    {
      filePath := path;
    }

    method SetMaxFileCount(count: Int32)
      modifies this
      ensures Value() == old(Value()).WithMaxFileCount(count)
    {
      if IsValidFileCount(count) {
        maxFileCount := count;
      }
    }

    method SetMaxFileSize(size: Size)
      modifies this
      ensures Value() == old(Value()).WithMaxFileSize(size)
    {
      if IsValidFileSize(size) {
        maxFileSize := size;
      }
    }

    method SetAsyncMode(async: bool)
      modifies this
      ensures Value() == old(Value()).(asyncMode := async)
    {
      asyncMode := async;
    }

    method ResetToDefault()
      modifies this
      ensures Value() == Default
    {
      level, sink, filePath := Info, Console, "";
      maxFileCount, maxFileSize, asyncMode := DefaultMaxFileCount, DefaultMaxFileSize, false;
    }

    /** `Validate() const`: reads the fields, changes nothing. */
    method Validate() returns (ok: bool)
      ensures ok <==> Value().Validate()
    {
      ok := IsValidFileCount(maxFileCount) && IsValidFileSize(maxFileSize) && filePath != [];
    }
  }

}

/** The header-only conversions of src/utils.h, used by the alternate sink variant.
    Names are upper case in both directions and parsing is case-sensitive. */
module Utils {
  import opened Levels
  import opened Text
  import LogUtils

  /** `LogLevelToString` of utils.h: spelled the same as the one in log_utils.cc. */
  function LevelToString(l: LogLevel): (s: string)
    ensures s == LogUtils.LevelToString(l)
  {
    match l
    case Debug => "DEBUG"
    case Info => "INFO"
    case Warn => "WARN"
    case Error => "ERROR"
    case Fatal => "FATAL"
  }

  /** `StringToLogLevel` of utils.h: only the exact upper-case names match; anything else gives Info. */
  function StringToLevel(s: string): (l: LogLevel)
    ensures forall m :: s == LevelToString(m) ==> l == m
    ensures (forall m :: s != LevelToString(m)) ==> l == Info
  {
    assert LevelToString(Debug) == "DEBUG" && LevelToString(Info) == "INFO" && LevelToString(Warn) == "WARN"
      && LevelToString(Error) == "ERROR" && LevelToString(Fatal) == "FATAL";
    if s == "DEBUG" then Debug
    else if s == "INFO" then Info
    else if s == "WARN" then Warn
    else if s == "ERROR" then Error
    else if s == "FATAL" then Fatal
    else Info
  }

  lemma LevelRoundTrip(l: LogLevel)
    ensures StringToLevel(LevelToString(l)) == l
  {
  }

  /** Unlike the log_utils.cc parser, a lower-case name is not recognised here. */
  lemma LowerCaseNotRecognised()
    ensures StringToLevel("debug") == Info
    ensures LogUtils.StringToLevel("debug") == Debug
  {
    LogUtils.LowerLevelNames();
    assert ToLower("debug") == "debug";
  }

  /** `LogSinkToString` of utils.h: the upper-case form of the log_utils.cc name. */
  function SinkToString(k: SinkKind): (s: string)
    ensures s == ToUpper(LogUtils.SinkToString(k))
  {
    match k
    case Console => "CONSOLE"
    case File => "FILE"
    case Both => "BOTH"
  }

  /** `StringToLogSink` of utils.h: exactly "CONSOLE", "FILE" or "BOTH"; anything else gives Console. */
  function StringToSink(s: string): (k: SinkKind)
    ensures forall m :: s == SinkToString(m) ==> k == m
    ensures (forall m :: s != SinkToString(m)) ==> k == Console
  {
    assert SinkToString(Console) == "CONSOLE" && SinkToString(File) == "FILE" && SinkToString(Both) == "BOTH";
    if s == "CONSOLE" then Console
    else if s == "FILE" then File
    else if s == "BOTH" then Both
    else Console
  }

  lemma SinkRoundTrip(k: SinkKind)
    ensures StringToSink(SinkToString(k)) == k
  {
  }

}

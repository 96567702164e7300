/** The conversions and the trimming helper of src/internal/log_utils.cc. Names
    written out are upper case for levels and lower case for sinks; parsing is
    case-insensitive and falls back to a default. */
module LogUtils {
  import opened Levels
  import opened Text

  /** `LogLevelToString`. (Its "UNKNOWN" branch serves out-of-range enum values, which this model has none of.) */
  function LevelToString(l: LogLevel): (s: string)
    ensures s != [] && forall i :: 0 <= i < |s| ==> IsUpper(s[i])
  {
    match l
    case Debug => "DEBUG"
    case Info => "INFO"
    case Warn => "WARN"
    case Error => "ERROR"
    case Fatal => "FATAL"
  }

  /** The lower-case spelling of each level name, the form `StringToLogLevel` compares against. */
  lemma LowerLevelNames()
    ensures ToLower(LevelToString(Debug)) == "debug"
    ensures ToLower(LevelToString(Info)) == "info"
    ensures ToLower(LevelToString(Warn)) == "warn"
    ensures ToLower(LevelToString(Error)) == "error"
    ensures ToLower(LevelToString(Fatal)) == "fatal"
  {
  }

  /** `StringToLogLevel`: the input is lower-cased, then matched against the five names;
      any other string gives Info. */
  function StringToLevel(s: string): (l: LogLevel)
    ensures forall m :: ToLower(s) == ToLower(LevelToString(m)) ==> l == m
    ensures (forall m :: ToLower(s) != ToLower(LevelToString(m))) ==> l == Info
  {
    LowerLevelNames();
    var t := ToLower(s);
    if t == "debug" then Debug
    else if t == "info" then Info
    else if t == "warn" then Warn
    else if t == "error" then Error
    else if t == "fatal" then Fatal
    else Info
  }

  /** Writing a level out and reading it back gives the level. */
  lemma LevelRoundTrip(l: LogLevel)
    ensures StringToLevel(LevelToString(l)) == l
  {
  }

  /** Parsing ignores case: an upper-cased spelling parses to the same level. */
  lemma StringToLevelIgnoresCase(s: string)
    ensures StringToLevel(ToUpper(s)) == StringToLevel(s)
  {
    LowerOfUpper(s);
  }

  /** `LogSinkToString`. */
  function SinkToString(k: SinkKind): (s: string)
    ensures s != [] && forall i :: 0 <= i < |s| ==> IsLower(s[i])
  {
    match k
    case Console => "console"
    case File => "file"
    case Both => "both"
  }

  lemma LowerSinkNames()
    ensures forall k :: ToLower(SinkToString(k)) == SinkToString(k)
  {
  }

  /** `StringToLogSink`: lower-cased input matched against the three names; anything else gives Console. */
  function StringToSink(s: string): (k: SinkKind)
    ensures forall m :: ToLower(s) == SinkToString(m) ==> k == m
    ensures (forall m :: ToLower(s) != SinkToString(m)) ==> k == Console
  {
    var t := ToLower(s);
    assert SinkToString(Console) == "console" && SinkToString(File) == "file" && SinkToString(Both) == "both";
    if t == "console" then Console
    else if t == "file" then File
    else if t == "both" then Both
    else Console
  }

  lemma SinkRoundTrip(k: SinkKind)
    ensures StringToSink(SinkToString(k)) == k
  {
    LowerSinkNames();
  }

  /** The two characters `Trim` removes. */
  predicate IsBlank(c: char)
  {
    c == ' ' || c == '\t'
  }

  /** Number of blanks before the first non-blank character (`find_first_not_of(" \t")`). */
  function LeadingBlanks(s: string): (n: nat)
    ensures n <= |s|
    ensures forall k :: 0 <= k < n ==> IsBlank(s[k])
    ensures n < |s| ==> !IsBlank(s[n])
  {
    if s == [] || !IsBlank(s[0]) then 0 else 1 + LeadingBlanks(s[1..])
  }

  /** Number of blanks after the last non-blank character (`find_last_not_of(" \t")`). */
  function TrailingBlanks(s: string): (n: nat)
    ensures n <= |s|
    ensures forall k :: |s| - n <= k < |s| ==> IsBlank(s[k])
    ensures n < |s| ==> !IsBlank(s[|s| - 1 - n])
  {
    if s == [] || !IsBlank(s[|s| - 1]) then 0 else 1 + TrailingBlanks(s[..|s| - 1])
  }

  /** What `Trim` leaves in its argument. */
  function Trimmed(s: string): (r: string)
    ensures r == [] || (!IsBlank(r[0]) && !IsBlank(r[|r| - 1]))
    ensures r == [] <==> forall k :: 0 <= k < |s| ==> IsBlank(s[k])
  {
    var a := LeadingBlanks(s);
    if a == |s| then [] else s[a..|s| - TrailingBlanks(s)]
  }

  /** `Trim` cuts blanks off both ends and nothing else: the result is a contiguous
      piece of the input whose surroundings in the input are all blank. */
  lemma TrimmedIsInfix(s: string)
    ensures exists i, j ::
              && 0 <= i <= j <= |s| && Trimmed(s) == s[i..j]
              && (forall k :: 0 <= k < i ==> IsBlank(s[k]))
              && (forall k :: j <= k < |s| ==> IsBlank(s[k]))
  {
    var a := LeadingBlanks(s);
    if a == |s| {
      assert Trimmed(s) == s[a..a];
    } else {
      var b := |s| - TrailingBlanks(s);
      assert Trimmed(s) == s[a..b];
    }
  }

  /** A string with no blank at either end is left as it is. */
  lemma TrimmedNoBlankEnds(s: string)
    requires s == [] || (!IsBlank(s[0]) && !IsBlank(s[|s| - 1]))
    ensures Trimmed(s) == s
  {
    if s != [] {
      assert LeadingBlanks(s) == 0;
      assert TrailingBlanks(s) == 0;
      assert s[0..|s|] == s;
    }
  }

  /** Trimming twice is trimming once. */
  lemma TrimIdempotent(s: string)
    ensures Trimmed(Trimmed(s)) == Trimmed(s)
  {
    TrimmedNoBlankEnds(Trimmed(s));
  }

  /** `Trim(std::string&)`: the two searches of the source as loops; the caller's
      string is replaced by the returned one. */
  method Trim(s: string) returns (r: string)
    ensures r == Trimmed(s)
  {
    var start := 0;
    while start < |s| && IsBlank(s[start])
      invariant start <= |s|
      invariant forall k :: 0 <= k < start ==> IsBlank(s[k])
    {
      start := start + 1;
    }
    if start == |s| {
      return [];
    }
    assert start == LeadingBlanks(s);
    var end := |s| - 1;
    while IsBlank(s[end])
      invariant start <= end < |s|
      invariant forall k :: end < k < |s| ==> IsBlank(s[k])
      decreases end
    {
      end := end - 1;
    }
    assert end == |s| - 1 - TrailingBlanks(s);
    r := s[start..end + 1];
  }

}

/** The alternate sink variant of src/sink/: a factory choosing a sink by kind and path,
    and the epoch-style line every sink of the variant writes. */
module AltSinks {
  import opened Wrappers
  import opened Levels
  import opened Text
  import Utils
  import ConfigFile

  /** `LogEvent` of the variant: the clock value itself rather than a rendered stamp,
      and no function name. */
  datatype AltEvent = AltEvent(message: string, level: LogLevel, timestamp: int, filename: string, line: int)

  /** The two sinks the factory can build. */
  datatype AltSink = ConsoleOut | FileOut(path: string)

  /** `CreateSink`: a console sink whatever the path; a file sink only for a non-empty
      path; nothing (a null pointer) for an empty file path and for `Both`. */
  function CreateSink(kind: SinkKind, path: string): (r: Option<AltSink>)
    ensures r.Some? <==> kind == Console || (kind == File && path != [])
    ensures r == Some(ConsoleOut) <==> kind == Console
    ensures kind == File && path != [] ==> r == Some(FileOut(path))
  {
    match kind
    case Console => Some(ConsoleOut)
    case File => if path == [] then None else Some(FileOut(path))
    case Both => None
  }

  /** `format`: `[epoch] [LEVEL] [file:line] message` and a newline, never truncated. */
  function Format(e: AltEvent): (r: string)
    ensures |r| == 11 + |IntToString(e.timestamp)| + |Utils.LevelToString(e.level)|
                    + |e.filename| + |IntToString(e.line)| + |e.message|
    ensures r[0] == '[' && r[|r| - 1] == '\n'
    ensures r[|r| - |e.message| - 3..] == "] " + e.message + "\n"
  {
    var r := "[" + IntToString(e.timestamp) + "] [" + Utils.LevelToString(e.level) + "] [" +
      e.filename + ":" + IntToString(e.line) + "] " + e.message + "\n";
    assert r[|r| - |e.message| - 3..] == "] " + e.message + "\n";
    r
  }

  /** A reader for the head of a line: the text of the first bracket and of the second
      one, which must follow after "] [". None when the line does not start that way. */
  function Header(line: string): (r: Option<(string, string)>)
    ensures r.Some? ==> ']' !in r.value.0 && ']' !in r.value.1
  {
    if |line| < 1 || line[0] != '[' then None
    else
      var rest := line[1..];
      match ConfigFile.IndexOf(rest, ']')
      case None => None
      case Some(i) =>
        var after := rest[i + 1..];
        if |after| < 2 || after[..2] != " [" then None
        else
          var tail := after[2..];
          match ConfigFile.IndexOf(tail, ']')
          case None => None
          case Some(j) => Some((rest[..i], tail[..j]))
  }

  /** Neither a rendered number nor a level name holds a closing bracket. */
  lemma NoBracket(e: AltEvent)
    ensures ']' !in IntToString(e.timestamp)
    ensures ']' !in Utils.LevelToString(e.level)
  {
    var s := NatToString(if e.timestamp < 0 then -e.timestamp else e.timestamp);
    assert forall k :: 0 <= k < |s| ==> IsDigit(s[k]);
    assert IntToString(e.timestamp) == s || IntToString(e.timestamp) == "-" + s;
  }

  /** The first bracket of a line is found where it was written. */
  lemma FirstBracket(t: string, rest: string)
    requires ']' !in t
    ensures ConfigFile.IndexOf(t + "]" + rest, ']') == Some(|t|)
  {
    var s := t + "]" + rest;
    assert s[|t|] == ']' && s[..|t|] == t;
  }

  /** Reading the head of a formatted line gives back the epoch and the level name, so
      the line carries both without loss. */
  lemma FormatHeader(e: AltEvent)
    ensures Header(Format(e)) == Some((IntToString(e.timestamp), Utils.LevelToString(e.level)))
  {
    var stamp := IntToString(e.timestamp);
    var level := Utils.LevelToString(e.level);
    var tail := " [" + e.filename + ":" + IntToString(e.line) + "] " + e.message + "\n";
    assert Format(e) == "[" + stamp + "] [" + level + "]" + tail;
    NoBracket(e);
    HeaderOf(stamp, level, tail);
  }

  /** The head reader on a line that starts with two bracketed words. */
  lemma HeaderOf(stamp: string, level: string, tail: string)
    requires ']' !in stamp && ']' !in level
    ensures Header("[" + stamp + "] [" + level + "]" + tail) == Some((stamp, level))
  {
    var line := "[" + stamp + "] [" + level + "]" + tail;
    var after := " [" + level + "]" + tail;
    var rest := line[1..];
    assert rest == stamp + "]" + after;
    FirstBracket(stamp, after);
    assert rest[|stamp| + 1..] == after && rest[..|stamp|] == stamp;
    SecondBracket(level, tail);
  }

  /** The second bracket of a line, after the first one and " [". */
  lemma SecondBracket(level: string, tail: string)
    requires ']' !in level
    ensures var after := " [" + level + "]" + tail;
      |after| >= 2 && after[..2] == " [" && ConfigFile.IndexOf(after[2..], ']') == Some(|level|)
      && after[2..][..|level|] == level
  {
    var after := " [" + level + "]" + tail;
    assert after[..2] == " [" && after[2..] == level + "]" + tail;
    FirstBracket(level, tail);
    assert (level + "]" + tail)[..|level|] == level;
  }

  /** Two formatted lines that are equal have the same epoch and the same level. */
  lemma FormatKeepsStampAndLevel(a: AltEvent, b: AltEvent)
    ensures Format(a) == Format(b) ==> a.timestamp == b.timestamp && a.level == b.level
  {
    if Format(a) == Format(b) {
      FormatHeader(a);
      FormatHeader(b);
      IntToStringInjective(a.timestamp, b.timestamp);
      Utils.LevelRoundTrip(a.level);
      Utils.LevelRoundTrip(b.level);
    }
  }

  /** Distinct integers render as distinct strings: a minus sign is never a digit. */
  lemma IntToStringInjective(a: int, b: int)
    ensures IntToString(a) == IntToString(b) ==> a == b
  {
    if IntToString(a) == IntToString(b) {
      SignShows(a);
      SignShows(b);
      if a < 0 && b < 0 {
        assert NatToString(-a) == IntToString(a)[1..];
        NatToStringInjective(-a, -b);
      } else if a >= 0 && b >= 0 {
        NatToStringInjective(a, b);
      }
    }
  }

  /** A rendered integer starts with a minus sign exactly when it is negative. */
  lemma SignShows(n: int)
    ensures (IntToString(n)[0] == '-') <==> n < 0
  {
    if n >= 0 {
      assert IsDigit(NatToString(n)[0]);
    }
  }

  /** Everything the variant's sinks write to: standard output and the files by path. */
  datatype Outputs = Outputs(stdout: string, files: map<string, string>)

  /** `log(const LogEvent&)`: the formatted line goes to the string-level `log` of the
      chosen sink, which prints it or appends it to its file. */
  function Log(sink: AltSink, out: Outputs, e: AltEvent): (r: Outputs)
    ensures sink == ConsoleOut ==> r == out.(stdout := out.stdout + Format(e))
    ensures sink.FileOut? ==>
              r.stdout == out.stdout && sink.path in r.files
              && r.files[sink.path] == (if sink.path in out.files then out.files[sink.path] else "") + Format(e)
              && forall p :: p != sink.path ==> (p in r.files <==> p in out.files)
    ensures sink.FileOut? ==> forall p :: p in out.files && p != sink.path ==> r.files[p] == out.files[p]
  {
    if sink.ConsoleOut? then out.(stdout := out.stdout + Format(e))
    else
      var before := if sink.path in out.files then out.files[sink.path] else "";
      out.(files := out.files[sink.path := before + Format(e)])
  }

  /** Logging two events through one sink writes both lines, in order. */
  lemma LogTwice(sink: AltSink, out: Outputs, a: AltEvent, b: AltEvent)
    ensures var r := Log(sink, Log(sink, out, a), b);
      match sink
      case ConsoleOut => r.stdout == out.stdout + Format(a) + Format(b)
      case FileOut(path) =>
        r.files[path] == (if path in out.files then out.files[path] else "") + Format(a) + Format(b)
  {
  }

  /** The factory's sink for a kind writes where that kind says. */
  lemma CreatedSinkWrites(kind: SinkKind, path: string, out: Outputs, e: AltEvent)
    requires CreateSink(kind, path).Some?
    ensures var r := Log(CreateSink(kind, path).value, out, e);
      (kind == Console ==> r.stdout == out.stdout + Format(e) && r.files == out.files)
      && (kind == File ==>
            r.stdout == out.stdout && path in r.files
            && r.files[path][|r.files[path]| - |Format(e)|..] == Format(e))
  {
  }
}

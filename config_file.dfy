/** The `key=value` format that `Logger::LoadConfigFromFile` (src/logger.cc) reads,
    as a fold over the file's lines. Each line overlays at most one setting. */
module ConfigFile {
  import opened Wrappers
  import opened Levels
  import opened Text
  import opened NumParse
  import opened LogUtils
  import opened Config

  /** `line.find(c)`: the first position of `c`, if any. */
  function IndexOf(s: string, c: char): (r: Option<nat>)
    ensures r.Some? ==> r.value < |s| && s[r.value] == c && c !in s[..r.value]
    ensures r.None? ==> c !in s
  {
    if s == [] then None
    else if s[0] == c then Some(0)
    else match IndexOf(s[1..], c)
      case None => None
      case Some(i) =>
        assert s[..i + 1] == [s[0]] + s[1..][..i];
        Some(i + 1)
  }

  /** One recognised key with its trimmed value; unknown keys change nothing, and a
      count or size that does not parse (the caught exception) leaves its field as it was. */
  function ApplyEntry(s: Settings, key: string, value: string): Settings
  {
    if key == "log_level" then s.(level := StringToLevel(value))
    else if key == "log_sink" then s.(sink := StringToSink(value))
    else if key == "file_path" then s.(filePath := value)
    else if key == "max_file_count" then
      (match Stoi(value)
       case Some(n) => s.WithMaxFileCount(n)
       case None => s)
    else if key == "max_file_size" then
      (match Stoul(value)
       case Some(n) => s.WithMaxFileSize(n)
       case None => s)
    else if key == "async_mode" then s.(asyncMode := value == "true" || value == "1")
    else s
  }

  /** The key of a line the parser acts on: not empty, not starting with '#', containing '='. */
  function KeyOf(line: string): Option<string>
  {
    if line == [] || line[0] == '#' then None
    else match IndexOf(line, '=')
      case None => None
      case Some(pos) => Some(Trimmed(line[..pos]))
  }

  /** The trimmed text after the first '='. */
  function ValueOf(line: string): string
  {
    match IndexOf(line, '=')
    case None => []
    case Some(pos) => Trimmed(line[pos + 1..])
  }

  /** The body of the `getline` loop for one line. */
  function ApplyLine(s: Settings, line: string): Settings
  {
    match KeyOf(line)
    case None => s
    case Some(key) => ApplyEntry(s, key, ValueOf(line))
  }

  /** All lines, first to last, overlaid on the settings held before loading. */
  function LoadLines(s: Settings, lines: seq<string>): Settings
  {
    if lines == [] then s else ApplyLine(LoadLines(s, lines[..|lines| - 1]), lines[|lines| - 1])
  }

  /** Empty lines, comment lines and lines without '=' are skipped. */
  lemma SkippedLines(s: Settings, line: string)
    requires line == [] || line[0] == '#' || '=' !in line
    ensures ApplyLine(s, line) == s
  {
  }

  /** Does some acted-on line of `lines` carry this key? */
  predicate Mentions(lines: seq<string>, key: string)
  {
    exists i :: 0 <= i < |lines| && KeyOf(lines[i]) == Some(key)
  }

  /** An entry changes at most the setting its key names. */
  lemma ApplyEntryTouchesOnlyItsKey(s: Settings, key: string, value: string)
    ensures key != "log_level" ==> ApplyEntry(s, key, value).level == s.level
    ensures key != "log_sink" ==> ApplyEntry(s, key, value).sink == s.sink
    ensures key != "file_path" ==> ApplyEntry(s, key, value).filePath == s.filePath
    ensures key != "max_file_count" ==> ApplyEntry(s, key, value).maxFileCount == s.maxFileCount
    ensures key != "max_file_size" ==> ApplyEntry(s, key, value).maxFileSize == s.maxFileSize
    ensures key != "async_mode" ==> ApplyEntry(s, key, value).asyncMode == s.asyncMode
  {
  }

  /** A line changes at most the setting its key names. */
  lemma ApplyLineTouchesOnlyItsKey(s: Settings, line: string)
    ensures KeyOf(line) != Some("log_level") ==> ApplyLine(s, line).level == s.level
    ensures KeyOf(line) != Some("log_sink") ==> ApplyLine(s, line).sink == s.sink
    ensures KeyOf(line) != Some("file_path") ==> ApplyLine(s, line).filePath == s.filePath
    ensures KeyOf(line) != Some("max_file_count") ==> ApplyLine(s, line).maxFileCount == s.maxFileCount
    ensures KeyOf(line) != Some("max_file_size") ==> ApplyLine(s, line).maxFileSize == s.maxFileSize
    ensures KeyOf(line) != Some("async_mode") ==> ApplyLine(s, line).asyncMode == s.asyncMode
  {
    match KeyOf(line)
    case None =>
    case Some(key) => ApplyEntryTouchesOnlyItsKey(s, key, ValueOf(line));
  }

  /** A key mentioned by the lines before the last, or by the last, is mentioned by all. */
  lemma MentionsGrow(lines: seq<string>, key: string)
    requires lines != []
    ensures Mentions(lines[..|lines| - 1], key) || KeyOf(lines[|lines| - 1]) == Some(key) ==> Mentions(lines, key)
  {
    var init := lines[..|lines| - 1];
    if Mentions(init, key) {
      var i :| 0 <= i < |init| && KeyOf(init[i]) == Some(key);
      assert lines[i] == init[i];
    }
  }

  /** Loading only overlays: every setting whose key the file never mentions keeps its prior value. */
  lemma {:induction false} LoadKeepsUnmentioned(s: Settings, lines: seq<string>)
    ensures !Mentions(lines, "log_level") ==> LoadLines(s, lines).level == s.level
    ensures !Mentions(lines, "log_sink") ==> LoadLines(s, lines).sink == s.sink
    ensures !Mentions(lines, "file_path") ==> LoadLines(s, lines).filePath == s.filePath
    ensures !Mentions(lines, "max_file_count") ==> LoadLines(s, lines).maxFileCount == s.maxFileCount
    ensures !Mentions(lines, "max_file_size") ==> LoadLines(s, lines).maxFileSize == s.maxFileSize
    ensures !Mentions(lines, "async_mode") ==> LoadLines(s, lines).asyncMode == s.asyncMode
  {
    if lines != [] {
      var init := lines[..|lines| - 1];
      var last := lines[|lines| - 1];
      LoadKeepsUnmentioned(s, init);
      ApplyLineTouchesOnlyItsKey(LoadLines(s, init), last);
      MentionsGrow(lines, "log_level");
      MentionsGrow(lines, "log_sink");
      MentionsGrow(lines, "file_path");
      MentionsGrow(lines, "max_file_count");
      MentionsGrow(lines, "max_file_size");
      MentionsGrow(lines, "async_mode");
    }
  }

  /** The value parsing of the numeric keys: the limit is set only to an in-range number
      that parses; `async_mode` is true exactly for "true" and "1". */
  lemma ApplyEntryNumbers(s: Settings, value: string)
    ensures ApplyEntry(s, "max_file_count", value).maxFileCount
      == (match Stoi(value) case Some(n) => if IsValidFileCount(n) then n else s.maxFileCount
                            case None => s.maxFileCount)
    ensures ApplyEntry(s, "max_file_size", value).maxFileSize
      == (match Stoul(value) case Some(n) => if IsValidFileSize(n) then n else s.maxFileSize
                             case None => s.maxFileSize)
    ensures ApplyEntry(s, "async_mode", value).asyncMode <==> value == "true" || value == "1"
  {
  }

  /** The lines a writer of the format would produce for `c`, one key per line. */
  function ConfigText(c: Settings): seq<string>
    requires c.maxFileCount >= 0
  {
    [ "log_level=" + LevelToString(c.level),
      "log_sink=" + SinkToString(c.sink),
      "file_path=" + c.filePath,
      "max_file_count=" + NatToString(c.maxFileCount),
      "max_file_size=" + NatToString(c.maxFileSize),
      "async_mode=" + (if c.asyncMode then "true" else "false") ]
  }

  /** The first '=' of `key=value` is the one after the key, when the key has none. */
  lemma IndexOfEntry(key: string, value: string)
    requires '=' !in key
    ensures IndexOf(key + "=" + value, '=') == Some(|key|)
  {
    var line := key + "=" + value;
    assert line[|key|] == '=';
    assert forall k :: 0 <= k < |key| ==> line[k] == key[k];
  }

  /** A key the parser reads back unchanged from `key=value`: no '=', no leading '#',
      and nothing that trimming would remove. */
  predicate PlainKey(key: string)
  {
    key != [] && key[0] != '#' && '=' !in key && !IsBlank(key[0]) && !IsBlank(key[|key| - 1])
  }

  /** Each of the six keys the format knows is plain. */
  lemma KeysPlain(key: string)
    requires key in {"log_level", "log_sink", "file_path", "max_file_count", "max_file_size", "async_mode"}
    ensures PlainKey(key)
  {
  }

  lemma EntryLine(s: Settings, key: string, value: string)
    requires PlainKey(key)
    requires value == [] || (!IsBlank(value[0]) && !IsBlank(value[|value| - 1]))
    ensures ApplyLine(s, key + "=" + value) == ApplyEntry(s, key, value)
  {
    var line := key + "=" + value;
    IndexOfEntry(key, value);
    assert line[..|key|] == key;
    assert line[|key| + 1..] == value;
    TrimmedNoBlankEnds(key);
    TrimmedNoBlankEnds(value);
  }

  lemma LoadSixLines(p: Settings, lines: seq<string>)
    requires |lines| == 6
    ensures LoadLines(p, lines)
      == ApplyLine(ApplyLine(ApplyLine(ApplyLine(ApplyLine(ApplyLine(p, lines[0]), lines[1]), lines[2]), lines[3]), lines[4]), lines[5])
  {
    assert lines[..1][..0] == [];
    assert LoadLines(p, lines[..1]) == ApplyLine(p, lines[0]);
    assert lines[..2][..1] == lines[..1];
    assert LoadLines(p, lines[..2]) == ApplyLine(LoadLines(p, lines[..1]), lines[1]);
    assert lines[..3][..2] == lines[..2];
    assert LoadLines(p, lines[..3]) == ApplyLine(LoadLines(p, lines[..2]), lines[2]);
    assert lines[..4][..3] == lines[..3];
    assert LoadLines(p, lines[..4]) == ApplyLine(LoadLines(p, lines[..3]), lines[3]);
    assert lines[..5][..4] == lines[..4];
    assert LoadLines(p, lines[..5]) == ApplyLine(LoadLines(p, lines[..4]), lines[4]);
    assert lines[..6] == lines;
  }

  lemma LevelLine(s: Settings, l: LogLevel)
    ensures ApplyLine(s, "log_level=" + LevelToString(l)) == s.(level := l)
  {
    var v := LevelToString(l);
    assert "log_level=" + v == "log_level" + "=" + v;
    KeysPlain("log_level");
    EntryLine(s, "log_level", v);
    LevelRoundTrip(l);
  }

  lemma SinkLine(s: Settings, k: SinkKind)
    ensures ApplyLine(s, "log_sink=" + SinkToString(k)) == s.(sink := k)
  {
    var v := SinkToString(k);
    assert "log_sink=" + v == "log_sink" + "=" + v;
    KeysPlain("log_sink");
    EntryLine(s, "log_sink", v);
    SinkRoundTrip(k);
  }

  lemma PathLine(s: Settings, path: string)
    requires path == [] || (!IsBlank(path[0]) && !IsBlank(path[|path| - 1]))
    ensures ApplyLine(s, "file_path=" + path) == s.(filePath := path)
  {
    assert "file_path=" + path == "file_path" + "=" + path;
    KeysPlain("file_path");
    EntryLine(s, "file_path", path);
  }

  lemma CountEntry(s: Settings, value: string, n: Int32)
    requires Stoi(value) == Some(n as int)
    ensures ApplyEntry(s, "max_file_count", value) == s.WithMaxFileCount(n)
  {
  }

  lemma SizeEntry(s: Settings, value: string, n: Size)
    requires Stoul(value) == Some(n as nat)
    ensures ApplyEntry(s, "max_file_size", value) == s.WithMaxFileSize(n)
  {
  }

  /** A `key=digits` line with a digits-only value applies exactly that key and value. */
  lemma DigitsLine(s: Settings, key: string, v: string)
    requires PlainKey(key)
    requires v != [] && AllDigits(v)
    ensures ApplyLine(s, key + "=" + v) == ApplyEntry(s, key, v)
  {
    assert IsDigit(v[0]) && IsDigit(v[|v| - 1]);
    EntryLine(s, key, v);
  }

  lemma CountLine(s: Settings, n: Int32)
    requires IsValidFileCount(n)
    ensures ApplyLine(s, "max_file_count=" + NatToString(n)) == s.(maxFileCount := n)
  {
    CountDigitsEntry(s, n);
    CountDigitsLine(s, NatToString(n), n);
  }

  /** A `max_file_count=digits` line whose digits go through the setter to an in-range value. */
  lemma CountDigitsLine(s: Settings, v: string, n: Int32)
    requires v != [] && AllDigits(v) && IsValidFileCount(n)
    requires ApplyEntry(s, "max_file_count", v) == s.WithMaxFileCount(n)
    ensures ApplyLine(s, "max_file_count=" + v) == s.(maxFileCount := n)
  {
    assert "max_file_count=" + v == "max_file_count" + "=" + v;
    KeysPlain("max_file_count");
    DigitsLine(s, "max_file_count", v);
  }

  /** An in-range count written in decimal goes through the guarded count setter. */
  lemma CountDigitsEntry(s: Settings, n: Int32)
    requires n >= 0
    ensures ApplyEntry(s, "max_file_count", NatToString(n)) == s.WithMaxFileCount(n)
  {
    StoiNatToString(n);
    CountEntry(s, NatToString(n), n);
  }

  lemma SizeLine(s: Settings, n: Size)
    requires IsValidFileSize(n)
    ensures ApplyLine(s, "max_file_size=" + NatToString(n)) == s.(maxFileSize := n)
  {
    SizeDigitsEntry(s, n);
    SizeDigitsLine(s, NatToString(n), n);
  }

  /** A `max_file_size=digits` line whose digits go through the setter to an in-range value. */
  lemma SizeDigitsLine(s: Settings, v: string, n: Size)
    requires v != [] && AllDigits(v) && IsValidFileSize(n)
    requires ApplyEntry(s, "max_file_size", v) == s.WithMaxFileSize(n)
    ensures ApplyLine(s, "max_file_size=" + v) == s.(maxFileSize := n)
  {
    assert "max_file_size=" + v == "max_file_size" + "=" + v;
    KeysPlain("max_file_size");
    DigitsLine(s, "max_file_size", v);
  }

  /** A size written in decimal goes through the guarded size setter. */
  lemma SizeDigitsEntry(s: Settings, n: Size)
    ensures ApplyEntry(s, "max_file_size", NatToString(n)) == s.WithMaxFileSize(n)
  {
    StoulNatToString(n);
    SizeEntry(s, NatToString(n), n);
  }

  lemma AsyncEntry(s: Settings, value: string)
    ensures ApplyEntry(s, "async_mode", value) == s.(asyncMode := value == "true" || value == "1")
  {
  }

  lemma AsyncLine(s: Settings, b: bool)
    ensures ApplyLine(s, "async_mode=" + (if b then "true" else "false")) == s.(asyncMode := b)
  {
    var v := if b then "true" else "false";
    assert "async_mode=" + v == "async_mode" + "=" + v;
    KeysPlain("async_mode");
    EntryLine(s, "async_mode", v);
    AsyncEntry(s, v);
  }

  /** Round trip: writing an in-range configuration out and loading it back yields
      exactly that configuration, whatever the settings before loading. */
  lemma LoadConfigText(prior: Settings, c: Settings)
    requires IsValidFileCount(c.maxFileCount) && IsValidFileSize(c.maxFileSize)
    requires c.filePath == [] || (!IsBlank(c.filePath[0]) && !IsBlank(c.filePath[|c.filePath| - 1]))
    ensures LoadLines(prior, ConfigText(c)) == c
  {
    var lines := ConfigText(c);
    LoadSixLines(prior, lines);
    var s1 := ApplyLine(prior, lines[0]);
    LevelLine(prior, c.level);
    var s2 := ApplyLine(s1, lines[1]);
    SinkLine(s1, c.sink);
    var s3 := ApplyLine(s2, lines[2]);
    PathLine(s2, c.filePath);
    var s4 := ApplyLine(s3, lines[3]);
    CountLine(s3, c.maxFileCount);
    var s5 := ApplyLine(s4, lines[4]);
    SizeLine(s4, c.maxFileSize);
    AsyncLine(s5, c.asyncMode);
  }

}

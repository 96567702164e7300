# TinyLog in Dafny

A model of the sequential core of TinyLog, a small C++ logging library, with proofs about it.
The model covers:

- **`LogConfig`.** A record of six settings with range-guarded setters, a reset to the defaults and a validity check.
- **String conversions and `Trim`.** These are the level and sink-kind names, in two flavours: the case-insensitive one of `log_utils.cc` and the case-sensitive one of `utils.h`.
- **`Logger`.** This covers:
  - the level filter in front of the sinks, and the fan-out of each event to every sink in list order;
  - building the sink list from the sink kind;
  - the "validate or reset to default" rule of `SetConfig`;
  - the `key=value` configuration-file reader;
  - one step of the file watcher.
- **`FileSink`.** It reopens a closed stream, rotates size-limited files (backups `path.1`, `path.2`, …) and appends.
- **`LogManager`.** One global logger plus a registry of module loggers, with bulk level changes and flushes.
- **The alternate sink variant.** Its factory and its epoch-style line format.

Modules follow the source files:

| module | file | source |
|---|---|---|
| `Levels` | `levels.dfy` | the enums of `log_level.h`, and the order `<` compares |
| `Text` | `text.dfy` | decimal rendering (`std::to_string`, `%d`) and ASCII case mapping |
| `NumParse` | `num_parse.dfy` | `std::stoi` and `std::stoul` as partial functions, with `None` where they throw |
| `LogUtils` | `log_utils.dfy` | `internal/log_utils.cc` |
| `Utils` | `utils.dfy` | `utils.h` |
| `Config` | `log_config.dfy` | `log_config.cc` |
| `ConfigFile` | `config_file.dfy` | the line reader of `Logger::LoadConfigFromFile`, as a fold over lines |
| `Rotation` | `rotation.dfy` | the rename shift of `FileSink::rotateFile` over a map from path to contents |
| `Sinks` | `sinks.dfy` | `internal/sink_interface.cc` |
| `Logging` | `logger.dfy` | `logger.cc` |
| `Manager` | `log_manager.dfy` | `log_manager.cc` |
| `AltSinks` | `alt_sink.dfy` | `sink/sink_interface.cc` |

Objects the source updates in place are classes with `modifies` clauses: `LogConfig`, `FileSink`, `Logger` and `LogManager`. Each class method is proved against a function on values. Examples:

- `LogConfig.SetMaxFileCount` ensures `Value() == old(Value()).WithMaxFileCount(count)`.
- `FileSink.Write` ensures `View() == Written(old(View()), …)`.

The properties the source promises are then lemmas about those functions.

The outside world enters as data:

- **Filesystem.** A `Disk` object holds the files (path to contents) and the set of paths on which an open succeeds.
- **Console.** A `Console` object is the list of strings written to standard output.
- **Clock.** The clock reading is a parameter: the rendered stamp the sinks print and the epoch stored in the event.
- **Config file.** The configuration file arrives as its lines, or as `None` when it cannot be opened.
- **Modification time.** The watcher receives the file's modification time.

Three behaviours of the code may surprise a reader of the interface. The model follows the code in each:

- `LogConfig::Validate` requires a non-empty file path whatever the sink kind. So even the default configuration is invalid, and `SetConfig` with a console-only configuration that has no path resets it to the default (`Config.DefaultIsInvalid`, `Logging.ValidatedIdempotent`).
- Rotation starts its loop at `max_file_count - 1` and then moves the live file to `.1`. Backups therefore occupy `path.1` … `path.max(count, 1)`. Only the former contents of the top slot are lost, and nothing above it is written (`Rotation.RotatedSlots`, `Rotation.RotatedOthers`).
- The size check compares the file's size before the write with the limit (`>=`). A file can therefore exceed the limit by up to one message (`Sinks.WrittenSizeBound`).

## Model

| member | source | states |
|---|---|---|
| Levels.RankInjective | include/tinylog/log_level.h:7 | the declaration order of the five levels is a strict total order: equal ranks mean equal levels |
| NumParse.Stoi | src/logger.cc:162-166 | a parsed count is within the 32-bit `int` range; a value that does not parse or overflows is `None` (the caught exception) |
| NumParse.Stoul | src/logger.cc:168-172 | a parsed size is within `unsigned long`; a value that does not parse or overflows is `None` |
| NumParse.StoiNatToString | src/logger.cc:163 | a count written in decimal within `int` range is read back as itself |
| NumParse.StoulNatToString | src/logger.cc:169 | a size written in decimal within `unsigned long` is read back as itself |
| NumParse.ScanDigits | src/logger.cc:163-169 | a bare run of decimal digits is read whole, as a non-negative number with the value the digits denote |
| LogUtils.LevelToString | src/internal/log_utils.cc:20-35 | every level name is non-empty and upper case |
| LogUtils.LowerLevelNames | src/internal/log_utils.cc:41-50 | lower-casing the five names gives exactly the strings the parser compares against |
| LogUtils.StringToLevel | src/internal/log_utils.cc:37-54 | a string whose lower-case form is a level's lower-case name parses to that level; any other string parses to Info |
| LogUtils.LevelRoundTrip | src/internal/log_utils.cc:20-54 | writing a level out and parsing it back gives the level |
| LogUtils.StringToLevelIgnoresCase | src/internal/log_utils.cc:37-39 | parsing is case-insensitive: the upper-cased input parses to the same level |
| LogUtils.SinkToString | src/internal/log_utils.cc:56-67 | every sink name is non-empty and lower case |
| LogUtils.LowerSinkNames | src/internal/log_utils.cc:56-67 | the sink names are already in the lower-case form the parser compares against |
| LogUtils.StringToSink | src/internal/log_utils.cc:69-82 | a string whose lower-case form is a sink name parses to that kind; any other string parses to Console |
| LogUtils.SinkRoundTrip | src/internal/log_utils.cc:56-82 | writing a sink kind out and parsing it back gives the kind |
| LogUtils.LeadingBlanks | src/internal/log_utils.cc:86 | the count of leading spaces and tabs: all before it are blank and the one at it is not |
| LogUtils.TrailingBlanks | src/internal/log_utils.cc:93 | the count of trailing spaces and tabs: all after it are blank and the one before it is not |
| LogUtils.Trimmed | src/internal/log_utils.cc:84-95 | the result has no blank at either end, and it is empty exactly when the input is all blanks or empty |
| LogUtils.TrimmedIsInfix | src/internal/log_utils.cc:84-95 | the result is a contiguous piece of the input, and everything cut off on either side is blank |
| LogUtils.TrimmedNoBlankEnds | src/internal/log_utils.cc:84-95 | a string with no blank at either end is left unchanged |
| LogUtils.TrimIdempotent | src/internal/log_utils.cc:84-95 | trimming twice is trimming once |
| LogUtils.Trim | src/internal/log_utils.cc:84-95 | the two searches, as loops, produce exactly `Trimmed(s)` |
| Utils.LevelToString | src/utils.h:17-32 | the names are spelled exactly as in `log_utils.cc` |
| Utils.StringToLevel | src/utils.h:34-41 | only an exact upper-case level name parses to its level; every other string parses to Info |
| Utils.LevelRoundTrip | src/utils.h:17-41 | writing a level out and parsing it back gives the level |
| Utils.LowerCaseNotRecognised | src/utils.h:34-41 | "debug" parses to Info here but to Debug with the `log_utils.cc` parser |
| Utils.SinkToString | src/utils.h:50-61 | each name is the upper-case form of the `log_utils.cc` name |
| Utils.StringToSink | src/utils.h:43-48 | only "CONSOLE", "FILE" and "BOTH" are recognised; every other string parses to Console |
| Utils.SinkRoundTrip | src/utils.h:43-61 | writing a sink kind out and parsing it back gives the kind |
| Config.Settings.WithMaxFileCount | src/log_config.cc:38-42 | the count becomes the argument exactly when 1 <= count <= 100; otherwise it is kept; no other setting changes |
| Config.Settings.WithMaxFileSize | src/log_config.cc:46-50 | the size becomes the argument exactly when 1024 <= size <= 2^30; otherwise it is kept; no other setting changes |
| Config.DefaultIsInvalid | src/log_config.cc:67-69 | the default configuration fails `Validate`, because its path is empty |
| Config.GuardedSettersKeepRange | src/log_config.cc:38-50 | the guarded setters never take a limit out of range, and a valid configuration stays valid after them |
| Config.LogConfig.constructor | src/log_config.cc:7-13 | default construction gives Info, Console, an empty path, 5 files, 1048576 bytes and synchronous mode |
| Config.LogConfig.Make | src/log_config.cc:15-24 | the six arguments are stored verbatim, even out of range; the `Validate()` result is discarded |
| Config.LogConfig.Copy | src/logger.cc:13-14 | the copy holds the same settings as the original |
| Config.LogConfig.Assign | src/logger.cc:117 | after the assignment the object holds the other object's former settings |
| Config.LogConfig.SetLogLevel | src/log_config.cc:26 | the level becomes the argument and nothing else changes |
| Config.LogConfig.SetLogSink | src/log_config.cc:30 | the sink kind becomes the argument and nothing else changes |
| Config.LogConfig.SetFilePath | src/log_config.cc:34 | the path becomes the argument and nothing else changes |
| Config.LogConfig.SetMaxFileCount | src/log_config.cc:38-42 | the new settings are `WithMaxFileCount` of the old ones |
| Config.LogConfig.SetMaxFileSize | src/log_config.cc:46-50 | the new settings are `WithMaxFileSize` of the old ones |
| Config.LogConfig.SetAsyncMode | src/log_config.cc:54 | the mode becomes the argument and nothing else changes |
| Config.LogConfig.ResetToDefault | src/log_config.cc:58-65 | the object equals a default-constructed one, whatever it held; a second reset changes nothing |
| Config.LogConfig.Validate | src/log_config.cc:67-75 | true exactly when the count is in [1, 100], the size is in [1024, 2^30] and the path is non-empty, whatever the sink kind |
| ConfigFile.IndexOf | src/logger.cc:144-147 | the position of the first occurrence of the character, or `None` exactly when it does not occur |
| ConfigFile.SkippedLines | src/logger.cc:139-147 | empty lines, lines starting with '#' and lines without '=' leave the settings unchanged |
| ConfigFile.ApplyEntryTouchesOnlyItsKey | src/logger.cc:155-175 | an entry changes at most the setting its key names; an unknown key changes nothing |
| ConfigFile.ApplyLineTouchesOnlyItsKey | src/logger.cc:136-176 | a line changes at most the setting named by its trimmed key |
| ConfigFile.LoadKeepsUnmentioned | src/logger.cc:136-176 | loading only overlays: every setting whose key no line mentions keeps its prior value |
| ConfigFile.ApplyEntryNumbers | src/logger.cc:161-174 | a count or size is set only when it parses and is in range, and is otherwise kept; `async_mode` is true exactly for "true" and "1" |
| ConfigFile.IndexOfEntry | src/logger.cc:144 | in `key=value`, where the key has no '=', the split point is just after the key |
| ConfigFile.EntryLine | src/logger.cc:144-152 | a line `key=value` whose parts have no surrounding blanks applies exactly that key and value |
| ConfigFile.LoadSixLines | src/logger.cc:137-176 | loading six lines applies them first to last |
| ConfigFile.LevelLine | src/logger.cc:155-156 | a `log_level=NAME` line sets exactly that level |
| ConfigFile.SinkLine | src/logger.cc:157-158 | a `log_sink=name` line sets exactly that sink kind |
| ConfigFile.PathLine | src/logger.cc:159-160 | a `file_path=` line sets exactly that path |
| ConfigFile.CountEntry | src/logger.cc:161-166 | a count that parses goes through the guarded count setter |
| ConfigFile.SizeEntry | src/logger.cc:167-172 | a size that parses goes through the guarded size setter |
| ConfigFile.CountLine | src/logger.cc:161-166 | an in-range count written in decimal sets exactly that count |
| ConfigFile.SizeLine | src/logger.cc:167-172 | an in-range size written in decimal sets exactly that size |
| ConfigFile.DigitsLine | src/logger.cc:142-176 | a `key=digits` line with a plain key applies exactly that key and those digits |
| ConfigFile.CountDigitsLine | src/logger.cc:161-166 | a `max_file_count=digits` line whose digits give an in-range count sets exactly that count |
| ConfigFile.SizeDigitsLine | src/logger.cc:167-172 | a `max_file_size=digits` line whose digits give an in-range size sets exactly that size |
| ConfigFile.CountDigitsEntry | src/logger.cc:161-166 | a count written in decimal goes through the guarded count setter |
| ConfigFile.SizeDigitsEntry | src/logger.cc:167-172 | a size written in decimal goes through the guarded size setter |
| ConfigFile.AsyncEntry | src/logger.cc:173-174 | the `async_mode` entry sets the mode to whether the value is "true" or "1" |
| ConfigFile.AsyncLine | src/logger.cc:173-174 | an `async_mode=true` or `async_mode=false` line sets exactly that mode |
| ConfigFile.LoadConfigText | src/logger.cc:129-179 | over lines as given, one `key=value` element per setting: loading the lines written for an in-range configuration gives back exactly that configuration, whatever was held before (a path holding a newline would not be one `getline` line in a real file) |
| Rotation.Lookup | src/internal/sink_interface.cc:95 | a file's contents are present exactly when the file exists |
| Rotation.BackupName | src/internal/sink_interface.cc:92-93 | the backup name is the path, a dot, then the index in decimal |
| Rotation.BackupNameInjective | src/internal/sink_interface.cc:92-93 | different indices give different backup names, and no backup name is the live path |
| Rotation.TopIndex | src/internal/sink_interface.cc:91 | the highest index rotation writes is the file count, or 1 when the count is below 1 |
| Rotation.Move | src/internal/sink_interface.cc:95-96 | if the source exists, the target gets its contents (replacing any), the source disappears and every other file is unchanged; otherwise nothing changes |
| Rotation.NotBackupIn | src/internal/sink_interface.cc:92-93 | a backup outside an index range is none of the backups in it, and the live path is no backup |
| Rotation.ShiftBackupsAt | src/internal/sink_interface.cc:91-98 | after the descending loop, `path.1` is empty and `path.j` holds the former `path.(j-1)`; the slot above the top keeps its own contents when nothing was below it |
| Rotation.ShiftBackupsOther | src/internal/sink_interface.cc:91-98 | the loop touches no file other than the backups it visits |
| Rotation.RotatedSlots | src/internal/sink_interface.cc:82-104 | after rotation the live file is gone and `path.1` holds its former contents; `path.j` for 2 <= j <= top holds the former `path.(j-1)`; the former top slot is the only content lost |
| Rotation.RotatedOthers | src/internal/sink_interface.cc:91-104 | rotation leaves every file other than the live file and `path.1` … `path.top` unchanged |
| Sinks.Format | src/internal/sink_interface.cc:17-26 | the line is shorter than the 256-character buffer; it is a prefix of the full line; it is the full line when that fits, and otherwise exactly 255 characters |
| Sinks.FormatIsOneRecord | src/internal/sink_interface.cc:21-25 | a line that fits ends with its only newline; a line that overflows is cut before its newline and has none |
| Sinks.OpenAppend | src/internal/sink_interface.cc:35-42 | opening for append succeeds exactly on openable paths; it creates a missing file empty and keeps existing contents and every other file |
| Sinks.AfterRotate | src/internal/sink_interface.cc:82-111 | the files are rotated; the reopen truncates the live file to empty when the path is openable; the stream is then open exactly when the reopen succeeded |
| Sinks.WrittenClosedUnopenable | src/internal/sink_interface.cc:53-57 | a closed sink whose reopen fails drops the message and changes nothing |
| Sinks.WrittenAppendsOnce | src/internal/sink_interface.cc:50-73 | a live sink appends the message exactly once: after the old contents when they are under the limit, or alone in the fresh file after a rotation; when the reopen after rotation fails, the files are exactly the rotated ones |
| Sinks.WrittenSizeBound | src/internal/sink_interface.cc:60-66 | after a write the live file holds at most `max_file_size - 1` characters plus the message |
| Sinks.WrittenOthers | src/internal/sink_interface.cc:50-73 | a write changes no file other than the live file and its backups `path.1` … `path.top` |
| Sinks.Flushed | src/internal/sink_interface.cc:75-80 | flushing leaves the files and the open state alone and leaves no unflushed output on an open stream |
| Sinks.OperationsKeepConsistent | src/internal/sink_interface.cc:44-111 | no operation leaves unflushed output on a closed stream, and after a flush nothing is unflushed |
| Sinks.Console.Write | src/internal/sink_interface.cc:29-32 | the message is appended to standard output, in full and in order |
| Sinks.Console.Log | src/internal/sink_interface.cc:12-15 | the console receives exactly the formatted line |
| Sinks.FileSink.constructor | src/internal/sink_interface.cc:35-42 | the sink stores its path and limits and opens the file for appending; a failed open leaves it closed |
| Sinks.FileSink.ShouldRotateFile | src/internal/sink_interface.cc:113-121 | true exactly when the stream is open and the live file holds at least `max_file_size` characters |
| Sinks.FileSink.RotateFile | src/internal/sink_interface.cc:82-111 | the rename loop, the move to `.1` and the truncating reopen produce `AfterRotate` of the old files |
| Sinks.FileSink.Write | src/internal/sink_interface.cc:50-73 | the new sink state is `Written` of the old one: reopen if closed (drop the message if that fails), rotate at the limit, append |
| Sinks.FileSink.Log | src/internal/sink_interface.cc:12-15 | the sink writes exactly the formatted line |
| Sinks.FileSink.Flush | src/internal/sink_interface.cc:75-80 | the new state is `Flushed` of the old one |
| Sinks.Lock | src/internal/sink_interface.cc:83 | taking a non-recursive mutex succeeds only when it is free; taking it again blocks |
| Sinks.WriteAsWrittenDeadlocks | src/internal/sink_interface.cc:50-63 | as written, every write that reaches rotation blocks forever on its own lock; every other write behaves as `Written` |
| Sinks.FullFileDeadlocks | src/internal/sink_interface.cc:60-63 | a concrete input: an open sink with a 1024-character limit and a full file deadlocks on its next message, where the corrected write starts a fresh file holding only that message |
| Logging.Validated | src/logger.cc:211-216 | a valid configuration is kept; an invalid one becomes the default |
| Logging.ValidatedIdempotent | src/logger.cc:211-216 | validating twice is validating once; the result is valid exactly when the input was, and otherwise it is the default |
| Logging.SinksMatchShape | src/logger.cc:181-205 | the list is never empty; the console is first exactly for Console and Both; a file sink exists exactly for File and Both, and it is last |
| Logging.Logger.constructor | src/logger.cc:13-16 | the configuration is copied unvalidated and the sinks are built from it; on the disk, each file sink has opened its path for appending, and a console-only list leaves the files as they were |
| Logging.Logger.FromFile | src/logger.cc:18-23 | the default configuration overlaid with the file's lines, unvalidated; the sinks are built from it; on the disk, each file sink has opened its path for appending, and a console-only list leaves the files as they were; the watcher is on exactly when the path is non-empty and the file exists, whether or not it could be read |
| Logging.Logger.Log | src/logger.cc:51-72 | a level below the configured one reaches no sink and changes nothing; otherwise the event carries the given fields; the console gets the formatted line exactly for Console and Both; each file sink's state becomes `Written` of its old state |
| Logging.Logger.LogTo | src/logger.cc:69-71 | one sink takes the formatted line: the console appends it; a file sink reaches `Written` of its old state and stays consistent; the console kind leaves the files alone |
| Logging.Logger.SetLogLevel | src/logger.cc:94-97 | only the level changes; the sink list is untouched |
| Logging.Logger.SetLogSink | src/logger.cc:104-108 | only the sink kind changes, and the sink list is rebuilt from fresh sinks; on the disk, each file sink has opened its path for appending, and a console-only list leaves the files as they were |
| Logging.Logger.SetConfig | src/logger.cc:115-120 | the configuration becomes `Validated` of the given one, and the sink list is rebuilt from fresh sinks; on the disk, each file sink has opened its path for appending, and a console-only list leaves the files as they were |
| Logging.Logger.Flush | src/logger.cc:122-127 | every file sink is flushed, and none holds unflushed output afterwards |
| Logging.Logger.InitSinks | src/logger.cc:181-205 | the list is replaced by the one the sink kind prescribes; each new file sink has opened its file for appending; a console-only list leaves the disk alone |
| Logging.Logger.ValidateConfig | src/logger.cc:211-216 | the configuration becomes `Validated` of the old one |
| Logging.Logger.SetEntry | src/logger.cc:154-175 | going through the configuration's own setters gives exactly `ApplyEntry` |
| Logging.Logger.LoadConfigFromFile | src/logger.cc:129-179 | a file that cannot be opened changes nothing; otherwise the configuration becomes the fold of its lines over the old one |
| Logging.Logger.MonitorStep | src/logger.cc:242-250 | an unchanged modification time changes nothing, the disk included; a changed one reloads, validates and rebuilds, and on the disk, each file sink has opened its path for appending, and a console-only list leaves the files as they were; the returned time is the observed one |
| Manager.LogManager.Distinct | src/log_manager.cc:27-30 | all loggers are separate objects with separate configurations |
| Manager.LogManager.constructor | src/log_manager.cc:15-18 | a global logger with the default configuration, which is console-only, so no file sink and an unchanged disk; an empty registry |
| Manager.LogManager.SetGlobalLevel | src/log_manager.cc:91 | the global logger's level changes and nothing else of it |
| Manager.LogManager.SetLevelAt | src/log_manager.cc:95-97 | one registered logger gets the level; the other loggers are unchanged |
| Manager.LogManager.Install | src/log_manager.cc:46 | a separately built logger becomes the global one; the registry is unchanged |
| Manager.LogManager.Register | src/log_manager.cc:66 | a separately built logger is registered under a new name; no other entry changes |
| Manager.LogManager.InitGlobalLogger | src/log_manager.cc:46 | a new global logger holding the given configuration unvalidated; the registry is unchanged; on the disk, each file sink has opened its path for appending, and a console-only list leaves the files as they were |
| Manager.LogManager.InitGlobalLoggerFromFile | src/log_manager.cc:48-50 | a new global logger read from the file, watching it exactly when the path is non-empty and the file exists; the registry is unchanged; on the disk, each file sink has opened its path for appending, and a console-only list leaves the files as they were |
| Manager.LogManager.GetModuleLogger | src/log_manager.cc:54-69 | a registered name returns its logger and changes nothing; a new name adds exactly one fresh default-configured logger, console-only, so the disk is unchanged; the other entries are unchanged |
| Manager.LogManager.Reconfigure | src/log_manager.cc:76-80 | the registered logger takes the configuration through `SetConfig`, so it is validated; the registry is unchanged; on the disk, each file sink has opened its path for appending, and a console-only list leaves the files as they were |
| Manager.LogManager.GetModuleLoggerWith | src/log_manager.cc:71-88 | an existing logger gets `Validated` of the configuration; a new one is created with the configuration verbatim; no other entry changes; in both branches on the disk, each file sink has opened its path for appending, and a console-only list leaves the files as they were |
| Manager.LogManager.SetGlobalLogLevel | src/log_manager.cc:90-98 | the global logger and every registered logger get the level, and nothing else of their configurations changes |
| Manager.LogManager.SetModuleLogLevel | src/log_manager.cc:100-107 | a registered name gets the level; an unknown name changes nothing; no other logger changes |
| Manager.LogManager.FlushAt | src/log_manager.cc:116 | one registered logger is flushed; the loggers already flushed stay flushed |
| Manager.LogManager.FlushAll | src/log_manager.cc:109-118 | afterwards no file sink of the global logger or of any registered logger holds unflushed output |
| AltSinks.CreateSink | src/sink/sink_interface.cc:15-27 | a sink exists exactly for Console, or for File with a non-empty path; Console gives a console sink whatever the path; File gives a file sink for that path; Both gives none |
| AltSinks.Format | src/sink/sink_interface.cc:29-35 | the line starts with '[' and ends with the message and a newline; its length is that of all its parts, so nothing is cut |
| AltSinks.Header | src/sink/sink_interface.cc:31-32 | a specification helper with no counterpart in the source, the inverse reader of the line head that `format` writes: the two bracketed words; neither contains ']' |
| AltSinks.HeaderOf | src/sink/sink_interface.cc:31-32 | a specification helper for the inverse of `format`: on a line that starts with two bracketed words without ']', the reader returns exactly those words |
| AltSinks.FormatHeader | src/sink/sink_interface.cc:29-35 | reading the head of a formatted line gives back the rendered epoch and the level name |
| AltSinks.FormatKeepsStampAndLevel | src/sink/sink_interface.cc:29-35 | two events with equal lines have the same epoch and the same level |
| AltSinks.Log | src/sink/sink_interface.cc:37 | the console sink appends the formatted line to standard output; the file sink appends it to its own file only |
| AltSinks.LogTwice | src/sink/sink_interface.cc:37 | two events logged through one sink appear in order |
| AltSinks.CreatedSinkWrites | src/sink/sink_interface.cc:15-37 | the factory's sink for a kind writes the line where the kind says: standard output for Console, the file for File |

## Left out

- Threads and locks are left out: the watcher thread, its sleep, the `is_monitoring_` flag, `config_mutex_`, `file_mutex_` and the registry mutex. The model is single-threaded, and the watcher is one step (`MonitorStep`) with the modification times as inputs.
- Logger moves, destructors and the watcher's start and stop are left out. So is the closing of sinks that a rebuilt list drops: a dropped file sink is no longer reachable.
- Real I/O is left out. The filesystem is a map plus the set of paths an open succeeds on, and standard output is a list of strings. Rename failures, stream write failures (`fail()` and `clear()`) and the stderr diagnostics are not modelled.
- A stream does not follow its file across renames. Output always goes to the file currently at the sink's path.
- Clock readings are parameters. `Logger.Log` uses one rendered stamp for all sinks of a call, where the source reads the clock once per sink; a call that straddles a second boundary could print different stamps.
- `getline` splitting is left out. A configuration file arrives already cut into lines. Whether the file exists is a separate input, because a file can exist and still be unreadable.
- `std::stoi` and `std::stoul` follow `strtol` in base 10 in the C locale. Locale-dependent blanks and other bases are not modelled.
- The model counts characters where the source counts bytes. So the 255-character cut of `snprintf`, the rotation check (`tellp()` against `max_file_size`, `Sinks.FileSink.ShouldRotateFile`) and the size bound `Sinks.WrittenSizeBound` are exact only for single-byte text; with multi-byte (for example UTF-8) messages the source rotates earlier than the model. A NUL inside a C string, which ends it early, is not modelled.
- The "UNKNOWN"/"unknown" branches of the name functions serve out-of-range enum values, which the model's enums do not have.
- `LogManager::GetInstance` (a static singleton) and `GetGlobalLogger` are left out. The manager is an explicitly constructed object, and its `global` field is the global logger.
- The getters of `LogConfig` and `Logger` (`GetLogLevel`, `GetLogSink`, …) and the `LogDebug` … `LogFatal` wrappers are left out. The getters are the fields; the wrappers are `Log` with a fixed level.
- Sink order within `Log` is modelled, but it is not observable: the console and the file sinks write to disjoint outputs.
- The alternate variant's string-level sinks (`console_sink.cc`, `file_sink.cc`) are only the targets of `AltSinks.Log`. Its file sink's `fopen` at construction, its `exit` on failure, and its mutex are not modelled.
- Sinks.FileSink.ShouldRotateFile: compares the live file's length in characters with `max_file_size`, where the source compares `tellp()` in bytes; the two agree only for single-byte text.
- Sinks.WrittenSizeBound: bounds the live file in characters, not bytes, for the same reason.
- Manager.LogManager.FlushAll: states that nothing is left unflushed, not the per-sink states. `Logging.Logger.Flush` states those per logger.

## Findings

| source | as written | input that shows it | evidently intended | confidence | as-written member | corrected member |
|---|---|---|---|---|---|---|
| src/internal/sink_interface.cc:51 | `FileSink::write` holds `file_mutex_` for the whole call and calls `rotateFile`, which locks the same non-recursive `std::mutex` again (line 83) | an open file sink with `max_file_size` 1024 whose file already holds 1024 characters, then any message | rotate under the lock `write` already holds, then append the message to the fresh file | high; not executed | Sinks.WriteAsWrittenDeadlocks, Sinks.FullFileDeadlocks | Sinks.FileSink.Write, Sinks.WrittenAppendsOnce |

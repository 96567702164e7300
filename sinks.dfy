/** The sinks of src/internal/sink_interface.cc: the fixed-buffer line format, the
    console sink and the rotating file sink. The filesystem is a `Disk` object (a map
    from path to contents plus the set of paths an open succeeds on); the file
    stream's state is whether it is open and whether it holds unflushed output. */
module Sinks {
  import opened Wrappers
  import opened Levels
  import opened Text
  import opened LogUtils
  import opened Config
  import opened Rotation

  /** `LogEvent`: the record every sink is handed. */
  datatype LogEvent = LogEvent(
    message: string,
    level: LogLevel,
    timestamp: int,
    filename: string,
    functionName: string,
    line: int)

  /** `char buffer[256]`: `snprintf` keeps at most 255 characters and a terminator. */
  const BufferSize: nat := 256

  /** `[stamp] [LEVEL] file:function:line - message` and a newline, before truncation. */
  function FullLine(stamp: string, e: LogEvent): string
  {
    "[" + stamp + "] [" + LevelToString(e.level) + "] " + e.filename + ":" + e.functionName + ":"
      + IntToString(e.line) + " - " + e.message + "\n"
  }

  /** `SinkInterface::format`: the full line if it fits the buffer, else its first 255 characters. */
  function Format(stamp: string, e: LogEvent): (r: string)
    ensures |r| < BufferSize
    ensures r <= FullLine(stamp, e)
    ensures |FullLine(stamp, e)| < BufferSize ==> r == FullLine(stamp, e)
    ensures |FullLine(stamp, e)| >= BufferSize ==> |r| == BufferSize - 1
  {
    var full := FullLine(stamp, e);
    if |full| < BufferSize then full else full[..BufferSize - 1]
  }

  predicate NoNewline(s: string)
  {
    forall i :: 0 <= i < |s| ==> s[i] != '\n'
  }

  /** A formatted line is one record when it fits: it ends with its only newline. When the
      components overflow the buffer, the cut removes the newline, so the record runs
      into the next one written to the same sink. */
  lemma FormatIsOneRecord(stamp: string, e: LogEvent)
    requires NoNewline(stamp) && NoNewline(e.filename) && NoNewline(e.functionName) && NoNewline(e.message)
    ensures var r := Format(stamp, e);
      |FullLine(stamp, e)| < BufferSize ==> r[|r| - 1] == '\n' && NoNewline(r[..|r| - 1])
    ensures |FullLine(stamp, e)| >= BufferSize ==> NoNewline(Format(stamp, e))
  {
    var full := FullLine(stamp, e);
    var body := "[" + stamp + "] [" + LevelToString(e.level) + "] " + e.filename + ":" + e.functionName + ":"
      + IntToString(e.line) + " - " + e.message;
    assert full == body + "\n";
    assert NoNewline(LevelToString(e.level));
    assert NoNewline(IntToString(e.line));
    assert NoNewline(body);
    assert full[..|full| - 1] == body;
  }

  /** The contents of the live file; a missing file reads as empty. */
  function Content(files: Files, path: string): (c: string)
    ensures path in files ==> c == files[path]
    ensures path !in files ==> c == []
  {
    if path in files then files[path] else []
  }

  /** The state of one file sink: the files on disk, whether its stream is open and whether
      the stream holds output not yet flushed. Output is put on disk as it is written;
      `dirty` records only that a flush is still due. */
  datatype FileView = FileView(files: Files, isOpen: bool, dirty: bool)

  /** `open(path, out | app)` on a closed stream: it succeeds exactly on openable paths,
      creates a missing file empty and keeps an existing one. */
  function OpenAppend(files: Files, openable: set<string>, path: string): (v: FileView)
    ensures v.isOpen <==> path in openable
    ensures !v.dirty
    ensures v.isOpen ==> path in v.files && v.files[path] == Content(files, path)
    ensures forall name :: name != path ==> Lookup(v.files, name) == Lookup(files, name)
    ensures !v.isOpen ==> v.files == files
  {
    if path in openable then FileView(if path in files then files else files[path := ""], true, false)
    else FileView(files, false, false)
  }

  /** `shouldRotateFile`: only an open stream is measured, against the size before writing. */
  predicate ShouldRotate(v: FileView, path: string, maxFileSize: nat)
  {
    v.isOpen && |Content(v.files, path)| >= maxFileSize
  }

  /** `rotateFile`: close (flushing), shift the backups, then `open(path, out | trunc)`,
      which leaves an empty live file when the path is openable. */
  function AfterRotate(files: Files, openable: set<string>, path: string, count: int): (v: FileView)
    ensures !v.dirty
    ensures v.isOpen <==> path in openable
    ensures v.isOpen ==> v.files == Rotated(files, path, count)[path := ""]
    ensures !v.isOpen ==> v.files == Rotated(files, path, count)
  {
    var moved := Rotated(files, path, count);
    if path in openable then FileView(moved[path := ""], true, false) else FileView(moved, false, false)
  }

  /** `FileSink::write` with the rotation performed in place: reopen a closed stream (or
      drop the message when that fails), rotate when the live file is at the limit, then
      append the message if the stream is open. */
  function Written(v: FileView, openable: set<string>, path: string, count: int, maxFileSize: nat,
                   msg: string): FileView
  {
    if !v.isOpen && path !in openable then v
    else
      var live := if v.isOpen then v else OpenAppend(v.files, openable, path);
      var current :=
        if ShouldRotate(live, path, maxFileSize) then AfterRotate(live.files, openable, path, count)
        else live;
      if current.isOpen then FileView(current.files[path := Content(current.files, path) + msg], true, true)
      else current
  }

  /** A closed sink whose file cannot be live drops the message and changes nothing. */
  lemma WrittenClosedUnopenable(v: FileView, openable: set<string>, path: string, count: int,
                                maxFileSize: nat, msg: string)
    requires !v.isOpen && path !in openable
    ensures Written(v, openable, path, count, maxFileSize, msg) == v
  {
  }

  /** Whenever the stream is (re)live, the message lands exactly once at the end of the
      live file: after the former contents when they were under the limit, or alone in the
      fresh file after a rotation. It is lost only when the reopen after rotation fails. */
  lemma WrittenAppendsOnce(v: FileView, openable: set<string>, path: string, count: int,
                           maxFileSize: nat, msg: string)
    requires v.isOpen || path in openable
    ensures var r := Written(v, openable, path, count, maxFileSize, msg);
      var before := Content(v.files, path);
      (r.isOpen <==> |before| < maxFileSize || path in openable)
      && (r.isOpen ==> r.dirty && path in r.files
                       && r.files[path] == (if |before| < maxFileSize then before + msg else msg))
      && (!r.isOpen ==> r.files == Rotated(v.files, path, count) && !r.dirty)
  {
  }

  /** The size the live file can reach: it is rotated before it is written once it holds
      `maxFileSize` characters, so it stays under the limit plus one message. */
  lemma WrittenSizeBound(v: FileView, openable: set<string>, path: string, count: int,
                         maxFileSize: nat, msg: string)
    ensures var r := Written(v, openable, path, count, maxFileSize, msg);
      (v.isOpen || path in openable) && r.isOpen ==>
        |Content(r.files, path)| <= |msg| + (if maxFileSize > 0 then maxFileSize - 1 else 0)
  {
    if v.isOpen || path in openable {
      WrittenAppendsOnce(v, openable, path, count, maxFileSize, msg);
    }
  }

  /** A write touches only the live file and its backups `path.1` .. `path.top`. */
  lemma WrittenOthers(v: FileView, openable: set<string>, path: string, count: int,
                      maxFileSize: nat, msg: string, name: string)
    requires name != path && !IsBackupIn(path, name, 1, TopIndex(count))
    ensures Lookup(Written(v, openable, path, count, maxFileSize, msg).files, name) == Lookup(v.files, name)
  {
    var live := if v.isOpen then v else OpenAppend(v.files, openable, path);
    RotatedOthers(live.files, path, count, name);
  }

  /** `flush`: an open stream hands its buffered output to the file; a closed one has none. */
  function Flushed(v: FileView): (r: FileView)
    ensures r.files == v.files && r.isOpen == v.isOpen
    ensures r.isOpen ==> !r.dirty
  {
    if v.isOpen then v.(dirty := false) else v
  }

  /** No sink state ever has unflushed output on a closed stream: closing flushes. */
  predicate Consistent(v: FileView)
  {
    !v.isOpen ==> !v.dirty
  }

  /** Every file operation keeps the stream state consistent, and after a flush nothing is
      left unflushed. */
  lemma OperationsKeepConsistent(v: FileView, openable: set<string>, path: string, count: int,
                                 maxFileSize: nat, msg: string)
    requires Consistent(v)
    ensures Consistent(Written(v, openable, path, count, maxFileSize, msg))
    ensures Consistent(AfterRotate(v.files, openable, path, count))
    ensures Consistent(OpenAppend(v.files, openable, path))
    ensures !Flushed(v).dirty
  {
  }

  /** The file system the sinks write to. */
  class Disk {
    var files: Files
    var openable: set<string>

    constructor (files: Files, openable: set<string>)
      ensures this.files == files && this.openable == openable
    {
      this.files := files;
      this.openable := openable;
    }
  }

  /** Standard output, one entry per `fputs`. */
  class Console {
    var written: seq<string>

    constructor ()
      ensures written == []
    {
      written := [];
    }

    /** `ConsoleSink::write`: `fputs` then `fflush`, so nothing is held back. */
    method Write(message: string)
      modifies this
      ensures written == old(written) + [message]
    {
      written := written + [message];
    }

    /** `SinkInterface::log` on the console sink: format, then write. */
    method Log(stamp: string, e: LogEvent)
      modifies this
      ensures written == old(written) + [Format(stamp, e)]
    {
      Write(Format(stamp, e));
    }
  }

  class FileSink {
    const path: string
    const maxFileCount: Int32
    const maxFileSize: Size
    const disk: Disk
    var isOpen: bool
    var dirty: bool

    function View(): FileView
      reads this, disk
    {
      FileView(disk.files, isOpen, dirty)
    }

    predicate Valid()
      reads this
    {
      !isOpen ==> !dirty
    }

    /** `FileSink(file_path, max_file_count, max_file_size)`: store the limits and open
        the file for appending; a failed open leaves the sink closed. */
    constructor (path: string, maxFileCount: Int32, maxFileSize: Size, disk: Disk)
      modifies disk
      ensures this.path == path && this.maxFileCount == maxFileCount && this.maxFileSize == maxFileSize
      ensures this.disk == disk && disk.openable == old(disk.openable)
      ensures View() == OpenAppend(old(disk.files), disk.openable, path)
      ensures Valid()
    {
      this.path := path;
      this.maxFileCount := maxFileCount;
      this.maxFileSize := maxFileSize;
      this.disk := disk;
      new;
      if path in disk.openable {
        if path !in disk.files {
          disk.files := disk.files[path := ""];
        }
        isOpen := true;
      } else {
        isOpen := false;
      }
      dirty := false;
    }

    /** `shouldRotateFile`: changes nothing. */
    method ShouldRotateFile() returns (b: bool)
      ensures b <==> ShouldRotate(View(), path, maxFileSize)
    {
      b := isOpen && |Content(disk.files, path)| >= maxFileSize;
    }

    /** `rotateFile`: close, shift the backups from `max_file_count - 1` down to 1, move the
        live file to `.1`, and reopen it truncated. */
    method RotateFile()
      modifies this, disk
      ensures disk.openable == old(disk.openable)
      ensures View() == AfterRotate(old(disk.files), disk.openable, path, maxFileCount)
    {
      if isOpen {
        isOpen := false;
      }
      dirty := false;
      var i: int := maxFileCount as int - 1;
      while i > 0
        invariant disk.openable == old(disk.openable)
        invariant !isOpen && !dirty
        invariant ShiftBackups(disk.files, path, if i > 0 then i else 0)
                  == ShiftBackups(old(disk.files), path, TopIndex(maxFileCount) - 1)
        decreases i
      {
        var oldFile := BackupName(path, i);
        var newFile := BackupName(path, i + 1);
        if oldFile in disk.files {
          disk.files := (disk.files - {oldFile})[newFile := disk.files[oldFile]];
        }
        i := i - 1;
      }
      assert disk.files == ShiftBackups(old(disk.files), path, TopIndex(maxFileCount) - 1);
      var backup := BackupName(path, 1);
      if path in disk.files {
        disk.files := (disk.files - {path})[backup := disk.files[path]];
      }
      assert disk.files == Rotated(old(disk.files), path, maxFileCount);
      if path in disk.openable {
        disk.files := disk.files[path := ""];
        isOpen := true;
      } else {
        isOpen := false;
      }
    }

    /** `write` with rotation done under the lock `write` already holds. */
    method Write(message: string)
      modifies this, disk
      ensures disk.openable == old(disk.openable)
      ensures View() == Written(old(View()), disk.openable, path, maxFileCount, maxFileSize, message)
    {
      if !isOpen {
        if path !in disk.openable {
          return;
        }
        if path !in disk.files {
          disk.files := disk.files[path := ""];
        }
        isOpen := true;
        dirty := false;
      }
      var rotate := ShouldRotateFile();
      if rotate {
        RotateFile();
      }
      if isOpen {
        disk.files := disk.files[path := Content(disk.files, path) + message];
        dirty := true;
      }
    }

    /** `SinkInterface::log` on a file sink: format, then write. */
    method Log(stamp: string, e: LogEvent)
      modifies this, disk
      ensures disk.openable == old(disk.openable)
      ensures View() == Written(old(View()), disk.openable, path, maxFileCount, maxFileSize, Format(stamp, e))
    {
      Write(Format(stamp, e));
    }

    method Flush()
      modifies this
      ensures View() == Flushed(old(View()))
    {
      if isOpen {
        dirty := false;
      }
    }
  }

  /** `std::mutex`, which is not recursive. */
  datatype Mutex = Unlocked | Locked

  /** Taking the lock. A thread that takes a mutex it already holds never returns
      (undefined behaviour that in practice blocks forever); `None` stands for that. */
  function Lock(m: Mutex): (r: Option<Mutex>)
    ensures r.Some? <==> m == Unlocked
    ensures r.Some? ==> r.value == Locked
  {
    match m
    case Unlocked => Some(Locked)
    case Locked => None
  }

  datatype WriteOutcome = Completed(view: FileView) | SelfDeadlock

  /** `rotateFile` as written: its first step locks `file_mutex_`. */
  function RotateAsWritten(m: Mutex, files: Files, openable: set<string>, path: string,
                           count: int): WriteOutcome
  {
    match Lock(m)
    case None => SelfDeadlock
    case Some(_) => Completed(AfterRotate(files, openable, path, count))
  }

  /** `FileSink::write` as written: it holds `file_mutex_` through the whole call and
      calls `rotateFile`, which locks the same mutex again. */
  function WriteAsWritten(v: FileView, openable: set<string>, path: string, count: int,
                          maxFileSize: nat, msg: string): WriteOutcome
  {
    match Lock(Unlocked)
    case None => SelfDeadlock
    case Some(held) =>
      if !v.isOpen && path !in openable then Completed(v)
      else
        var live := if v.isOpen then v else OpenAppend(v.files, openable, path);
        if ShouldRotate(live, path, maxFileSize) then
          match RotateAsWritten(held, live.files, openable, path, count)
          case SelfDeadlock => SelfDeadlock
          case Completed(current) =>
            if current.isOpen then Completed(FileView(current.files[path := Content(current.files, path) + msg], true, true))
            else Completed(current)
        else
          Completed(FileView(live.files[path := Content(live.files, path) + msg], true, true))
  }

  /** As written, every write that reaches the size limit blocks forever instead of
      rotating; writes below the limit behave as the corrected `Written`. */
  lemma WriteAsWrittenDeadlocks(v: FileView, openable: set<string>, path: string, count: int,
                                maxFileSize: nat, msg: string)
    ensures var live := if v.isOpen then v else OpenAppend(v.files, openable, path);
      WriteAsWritten(v, openable, path, count, maxFileSize, msg) ==
        if (v.isOpen || path in openable) && ShouldRotate(live, path, maxFileSize) then SelfDeadlock
        else Completed(Written(v, openable, path, count, maxFileSize, msg))
  {
  }

  /** A concrete case: an open sink limited to 1024 characters whose file already holds
      1024 characters deadlocks on its next message, where the corrected write rotates. */
  lemma FullFileDeadlocks()
    ensures var full := seq(1024, i => 'x');
      var v := FileView(map["app.log" := full], true, true);
      WriteAsWritten(v, {"app.log"}, "app.log", 5, 1024, "next\n") == SelfDeadlock
      && Written(v, {"app.log"}, "app.log", 5, 1024, "next\n").files["app.log"] == "next\n"
  {
    var full := seq(1024, i => 'x');
    var v := FileView(map["app.log" := full], true, true);
    WriteAsWrittenDeadlocks(v, {"app.log"}, "app.log", 5, 1024, "next\n");
    WrittenAppendsOnce(v, {"app.log"}, "app.log", 5, 1024, "next\n");
  }
}

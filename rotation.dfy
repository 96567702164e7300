/** The rename shift of `FileSink::rotateFile` (src/internal/sink_interface.cc) over a
    filesystem seen as a map from path to contents. Backups of `path` are named
    `path.1`, `path.2`, ...; rotation shifts `path.i` to `path.(i+1)` from the top
    down and then renames the live file to `path.1`. */
module Rotation {
  import opened Wrappers
  import opened Text

  type Files = map<string, string>

  /** The contents stored at `name`, if that file exists. */
  function Lookup(files: Files, name: string): (r: Option<string>)
    ensures r.Some? <==> name in files
    ensures r.Some? ==> r.value == files[name]
  {
    if name in files then Some(files[name]) else None
  }

  /** `file_path_ + "." + std::to_string(i)`. */
  function BackupName(path: string, i: nat): (r: string)
    ensures |r| > |path| + 1 && r[..|path|] == path && r[|path|] == '.'
    ensures r[|path| + 1..] == NatToString(i)
  {
    path + "." + NatToString(i)
  }

  /** Distinct indices give distinct backups, and no backup is the live file. */
  lemma BackupNameInjective(path: string, i: nat, j: nat)
    ensures BackupName(path, i) == BackupName(path, j) <==> i == j
    ensures BackupName(path, i) != path
  {
    if BackupName(path, i) == BackupName(path, j) {
      NatToStringInjective(i, j);
    }
  }

  /** The highest backup index rotation ever writes: the loop starts at
      `max_file_count_ - 1`, so at least `path.1` is written even for a count below 1. */
  function TopIndex(count: int): (t: nat)
    ensures t >= 1 && t >= count
    ensures count >= 1 ==> t == count
  {
    if count < 1 then 1 else count
  }

  /** `if (exists(from)) rename(from, to)`: the target is replaced, the source disappears. */
  function Move(files: Files, from: string, to: string): (r: Files)
    ensures forall name ::
              Lookup(r, name) ==
                if from !in files then Lookup(files, name)
                else if name == to then Some(files[from])
                else if name == from then None
                else Lookup(files, name)
  {
    if from in files then (files - {from})[to := files[from]] else files
  }

  /** The descending loop: for `i` from `top` down to 1, move `path.i` to `path.(i+1)`. */
  function ShiftBackups(files: Files, path: string, top: nat): Files
    decreases top
  {
    if top == 0 then files
    else ShiftBackups(Move(files, BackupName(path, top), BackupName(path, top + 1)), path, top - 1)
  }

  /** Is `name` one of `path.lo` .. `path.hi`? */
  predicate IsBackupIn(path: string, name: string, lo: nat, hi: nat)
  {
    exists j: nat :: lo <= j <= hi && name == BackupName(path, j)
  }

  /** A backup outside an index range is none of the backups in it, and the live file
      is no backup at all. */
  lemma NotBackupIn(path: string, j: nat, lo: nat, hi: nat)
    requires j < lo || hi < j
    ensures !IsBackupIn(path, BackupName(path, j), lo, hi)
    ensures !IsBackupIn(path, path, lo, hi)
  {
    forall k: nat | lo <= k <= hi
      ensures BackupName(path, j) != BackupName(path, k) && path != BackupName(path, k)
    {
      BackupNameInjective(path, j, k);
    }
  }

  /** The moves of one slot: after shifting from `top` down, `path.1` is empty, every
      `path.j` with 2 <= j <= top holds the former `path.(j-1)`, `path.(top+1)` holds the
      former `path.top` if there was one (and keeps its own contents otherwise), and every
      other file is untouched. */
  lemma {:induction false} ShiftBackupsAt(files: Files, path: string, top: nat, j: nat)
    requires 1 <= j <= top + 1
    ensures var r := ShiftBackups(files, path, top);
      Lookup(r, BackupName(path, j)) ==
        if top == 0 then Lookup(files, BackupName(path, j))
        else if j == 1 then None
        else if j == top + 1 && BackupName(path, top) !in files then Lookup(files, BackupName(path, j))
        else Lookup(files, BackupName(path, j - 1))
    decreases top
  {
    if top > 0 {
      var moved := Move(files, BackupName(path, top), BackupName(path, top + 1));
      BackupNameInjective(path, j, top);
      BackupNameInjective(path, j, top + 1);
      BackupNameInjective(path, j - 1, top);
      BackupNameInjective(path, top, top + 1);
      if j <= top {
        ShiftBackupsAt(moved, path, top - 1, j);
        if top > 1 && j == top {
          BackupNameInjective(path, top - 1, top);
          BackupNameInjective(path, top - 1, top + 1);
        }
        if j >= 2 {
          BackupNameInjective(path, j - 1, top + 1);
        }
      } else {
        NotBackupIn(path, j, 1, top);
        ShiftBackupsOther(moved, path, top - 1, BackupName(path, j));
      }
    }
  }

  /** The shift touches nothing but `path.1` .. `path.(top+1)`. */
  lemma {:induction false} ShiftBackupsOther(files: Files, path: string, top: nat, name: string)
    requires !IsBackupIn(path, name, 1, top + 1)
    ensures Lookup(ShiftBackups(files, path, top), name) == Lookup(files, name)
    decreases top
  {
    if top > 0 {
      assert name != BackupName(path, top) && name != BackupName(path, top + 1);
      ShiftBackupsOther(Move(files, BackupName(path, top), BackupName(path, top + 1)), path, top - 1, name);
    }
  }

  /** The whole of `rotateFile`'s renames: the shift from `count - 1` down, then
      the live file to `path.1`. */
  function Rotated(files: Files, path: string, count: int): Files
  {
    Move(ShiftBackups(files, path, TopIndex(count) - 1), path, BackupName(path, 1))
  }

  /** What rotation moves and what it loses. The live file is gone; `path.1` holds the
      former live contents (with a count of 1 or less and no live file, `path.1` keeps
      its own); `path.j` for 2 <= j <= top holds the former `path.(j-1)`, except that the
      top slot keeps its own contents when there was nothing below it to move up; nothing
      else changes, in particular no backup above the top index is written. */
  lemma RotatedSlots(files: Files, path: string, count: int)
    ensures var r := Rotated(files, path, count);
      path !in r
      && Lookup(r, BackupName(path, 1)) ==
           (if path in files then Some(files[path])
            else if TopIndex(count) == 1 then Lookup(files, BackupName(path, 1))
            else None)
      && (forall j: nat :: 2 <= j <= TopIndex(count) ==>
            Lookup(r, BackupName(path, j)) ==
              if j == TopIndex(count) && BackupName(path, j - 1) !in files then Lookup(files, BackupName(path, j))
              else Lookup(files, BackupName(path, j - 1)))
  {
    var top := TopIndex(count);
    var shifted := ShiftBackups(files, path, top - 1);
    var r := Rotated(files, path, count);
    BackupNameInjective(path, 1, 1);
    NotBackupIn(path, 0, 1, top);
    ShiftBackupsOther(files, path, top - 1, path);
    ShiftBackupsAt(files, path, top - 1, 1);
    forall j: nat | 2 <= j <= top
      ensures Lookup(r, BackupName(path, j)) ==
        if j == top && BackupName(path, j - 1) !in files then Lookup(files, BackupName(path, j))
        else Lookup(files, BackupName(path, j - 1))
    {
      BackupNameInjective(path, j, 1);
      ShiftBackupsAt(files, path, top - 1, j);
    }
  }

  /** Rotation leaves alone every file that is neither the live file nor one of its
      backups `path.1` .. `path.top`. */
  lemma RotatedOthers(files: Files, path: string, count: int, name: string)
    requires name != path && !IsBackupIn(path, name, 1, TopIndex(count))
    ensures Lookup(Rotated(files, path, count), name) == Lookup(files, name)
  {
    assert name != BackupName(path, 1);
    ShiftBackupsOther(files, path, TopIndex(count) - 1, name);
  }
}

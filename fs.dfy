/**
  The filesystem the pool works in, reduced to the paths that exist.

  The real operations live in an external path library and the operating
  system; here a directory tree is a set of file paths and a set of
  directory paths, and whatever makes a real operation fail (permissions, a
  full disk, a vanished directory) is the fixed set `faults` of operations
  that fail on a given path.
*/
module Fs {

  import opened Wrappers
  import opened Paths
  import opened Errors

  datatype Fault = Fault(op: Op, path: Path)

  datatype Disk = Disk(files: set<Path>, dirs: set<Path>)

  /** A path that was confirmed to exist when the handle was made. */
  datatype ValidFile = ValidFile(path: Path)

  /** The error, if any, that `op` on `p` reports. */
  function Attempt(faults: set<Fault>, op: Op, p: Path): (err: Option<Error>)
    ensures err.Some? <==> Fault(op, p) in faults
    ensures err.Some? ==> err.value == PathError(op, p)
  {
    if Fault(op, p) in faults then Some(PathError(op, p)) else None
  }

  /** `d` with the file `p` present. */
  function AddFile(d: Disk, p: Path): (d': Disk)
    ensures p in d'.files && d'.dirs == d.dirs
    ensures forall q :: q in d'.files <==> q == p || q in d.files
  {
    d.(files := d.files + {p})
  }

  /** `d` after the directory `dir` and everything below it is gone. */
  function RemoveTree(d: Disk, dir: Path): (d': Disk)
    ensures dir !in d'.dirs
    ensures forall p :: p in d'.files <==> p in d.files && !Under(p, dir)
    ensures forall q :: q in d'.dirs <==> q in d.dirs && q != dir && !Under(q, dir)
  {
    Disk(set p | p in d.files && !Under(p, dir),
         set q | q in d.dirs && q != dir && !Under(q, dir))
  }

  class FileSystem {
    var disk: Disk
    const faults: set<Fault>

    constructor (disk0: Disk, faults0: set<Fault>)
      ensures disk == disk0 && faults == faults0
    {
      disk := disk0;
      faults := faults0;
    }

    /** Creates (or truncates) the file `p`. */
    method Create(p: Path) returns (err: Option<Error>)
      modifies this
      ensures err == Attempt(faults, CreateFile, p)
      ensures disk == if err.None? then AddFile(old(disk), p) else old(disk)
    {
      err := Attempt(faults, CreateFile, p);
      if err.None? {
        disk := AddFile(disk, p);
      }
    }

    /** Creates the file `p` if it is missing; an existing file stays. */
    method Touch(p: Path) returns (err: Option<Error>)
      modifies this
      ensures err == Attempt(faults, TouchFile, p)
      ensures disk == if err.None? then AddFile(old(disk), p) else old(disk)
    {
      err := Attempt(faults, TouchFile, p);
      if err.None? {
        disk := AddFile(disk, p);
      }
    }

    /** Closes the handle that creating `p` opened. */
    method Close(p: Path) returns (err: Option<Error>)
      ensures err == Attempt(faults, CloseFile, p)
    {
      err := Attempt(faults, CloseFile, p);
    }

    /** Confirms that `p` exists and returns a handle for it. */
    method ToValidFile(p: Path) returns (r: Result<ValidFile, Error>)
      ensures r.Ok? <==> p in disk.files && Fault(StatFile, p) !in faults
      ensures r.Ok? ==> r.value.path == p
      ensures r.Err? ==> r.error == PathError(StatFile, p)
    {
      if p in disk.files && Fault(StatFile, p) !in faults {
        r := Ok(ValidFile(p));
      } else {
        r := Err(PathError(StatFile, p));
      }
    }

    /** Removes the directory `dir` recursively. */
    method RemoveAll(dir: Path) returns (err: Option<Error>)
      modifies this
      ensures err == Attempt(faults, RemoveDir, dir)
      ensures disk == if err.None? then RemoveTree(old(disk), dir) else old(disk)
    {
      err := Attempt(faults, RemoveDir, dir);
      if err.None? {
        disk := RemoveTree(disk, dir);
      }
    }
  }
}

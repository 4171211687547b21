/**
 * The part of the os package the file tools use, over an abstract disk: a
 * map from file paths to contents and a set of directory paths. Whether an
 * operation fails for a reason the disk does not show (permissions, I/O) is
 * an input to it: `fault` is that error, if there is one.
 */
module FileSystem {
  import opened Wrappers

  /** What os.IsExist and os.IsNotExist can tell about an error. */
  datatype ErrorKind = AlreadyExists | DoesNotExist | OtherKind

  /** An error of the os package: its message and its kind. */
  datatype IoError = IoError(message: string, kind: ErrorKind)

  /** os.IsExist: the error says that a file or directory already exists. */
  predicate IsExist(e: IoError) {
    e.kind == AlreadyExists
  }

  /** os.IsNotExist: the error says that a file or directory does not exist. */
  predicate IsNotExist(e: IoError) {
    e.kind == DoesNotExist
  }

  /**
   * An error os.ReadFile can report for a reason the disk does not show. It
   * opens the file read-only, so the error is never EEXIST or ENOTEMPTY, the
   * only ones os.IsExist accepts.
   */
  predicate PossibleReadFault(fault: Option<IoError>) {
    fault.None? || !IsExist(fault.value)
  }

  function NotExist(op: string, path: string): IoError {
    IoError(op + " " + path + ": no such file or directory", DoesNotExist)
  }

  function IsADirectory(op: string, path: string): IoError {
    IoError(op + " " + path + ": is a directory", OtherKind)
  }

  function NotADirectory(op: string, path: string): IoError {
    IoError(op + " " + path + ": not a directory", OtherKind)
  }

  /**
   * The files after a write of `data` to `path` that fails once the file is
   * open: os.WriteFile opens with truncation, so the file then holds the
   * first `written` characters of `data` (all of them when only the close
   * failed). With `written` None the write failed at the open and nothing
   * changed.
   */
  function AfterFault(files: map<string, string>, path: string, data: string, written: Option<nat>): (r: map<string, string>)
    ensures written.None? ==> r == files
    ensures written.Some? ==> path in r && r[path] <= data && |r[path]| <= written.value
    ensures written == Some(0) ==> r[path] == ""
    ensures r - {path} == files - {path}
  {
    if written.None? then files
    else files[path := data[..if written.value < |data| then written.value else |data|]]
  }

  class Disk {
    var files: map<string, string>
    var dirs: set<string>

    /** No path is both a file and a directory. */
    ghost predicate Valid()
      reads this
    {
      files.Keys !! dirs
    }

    constructor (files: map<string, string>, dirs: set<string>)
      requires files.Keys !! dirs
      ensures Valid() && this.files == files && this.dirs == dirs
    {
      this.files := files;
      this.dirs := dirs;
    }

    /**
     * os.ReadFile: the content of a file. Reading a missing path fails with
     * an error os.IsNotExist reports; reading a directory fails too. Neither
     * error is one os.IsExist reports.
     */
    function ReadFile(path: string, fault: Option<IoError>): (r: Result<string, IoError>)
      requires PossibleReadFault(fault)
      reads this
      ensures r.Success? <==> fault.None? && path in files && path !in dirs
      ensures r.Success? ==> r.value == files[path]
      ensures fault.Some? ==> r == Failure(fault.value)
      ensures r.Failure? ==> !IsExist(r.error)
      ensures fault.None? && (path !in files || path in dirs) ==> r.Failure? && !IsExist(r.error)
      ensures fault.None? && path !in files && path !in dirs ==> r.Failure? && IsNotExist(r.error)
      ensures Valid() && fault.None? ==> (r.Success? <==> path in files)
    {
      if fault.Some? then Failure(fault.value)
      else if path in dirs then Failure(IsADirectory("read", path))
      else if path in files then Success(files[path])
      else Failure(NotExist("open", path))
    }

    /**
     * os.WriteFile: creates or truncates the file at `path`; a directory
     * cannot be written. A fault that comes after the open (`written` is
     * Some) leaves the file truncated or partly written.
     */
    method WriteFile(path: string, data: string, fault: Option<IoError>, written: Option<nat>) returns (err: Option<IoError>)
      requires Valid()
      modifies this`files
      ensures Valid()
      ensures err.None? <==> fault.None? && path !in dirs
      ensures fault.Some? ==> err == fault
      ensures fault.None? && path in dirs ==> err == Some(IsADirectory("open", path))
      ensures err.None? ==> files == old(files)[path := data]
      ensures err.Some? && path in dirs ==> files == old(files)
      ensures fault.Some? && path !in dirs ==> files == AfterFault(old(files), path, data, written)
    {
      if fault.Some? {
        if path !in dirs {
          files := AfterFault(files, path, data, written);
        }
        return fault;
      }
      if path in dirs {
        return Some(IsADirectory("open", path));
      }
      files := files[path := data];
      err := None;
    }

    /** os.MkdirAll: makes `path` a directory; it fails if `path` is a file. Parent directories are not tracked. */
    method MkdirAll(path: string, fault: Option<IoError>) returns (err: Option<IoError>)
      requires Valid()
      modifies this`dirs
      ensures Valid()
      ensures err.None? <==> fault.None? && path !in files
      ensures fault.Some? ==> err == fault
      ensures fault.None? && path in files ==> err == Some(NotADirectory("mkdir", path))
      ensures err.None? ==> dirs == old(dirs) + {path}
      ensures err.Some? ==> dirs == old(dirs)
    {
      if fault.Some? {
        return fault;
      }
      if path in files {
        return Some(NotADirectory("mkdir", path));
      }
      dirs := dirs + {path};
      err := None;
    }
  }
}
